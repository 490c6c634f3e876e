/** What the todo.txt codec of src/tasq/todotxt.py guarantees across its
    operations: where each prefix is recognised, what the scans collect,
    how completion behaves, and which lines survive a round trip. */
module TodoTxtProperties {
  import opened Text
  import opened Patterns
  import opened OrderedDict
  import opened TodoTxt

  /** The priority is a `(X)` token, with X in A-Z and whitespace after it,
      found right after the optional completion prefix and nowhere else; the
      creation date is a date token and whitespace found right after that. */
  lemma ParsedPrefixPositions(line: string)
    ensures var a := PeelCompleted(Strip(line)).1;
      Parsed(line).priority
        == if |a| > 3 && a[0] == '(' && IsUpper(a[1]) && a[2] == ')' && IsSpace(a[3]) then Some([a[1]]) else None
    ensures var b := PeelPriority(PeelCompleted(Strip(line)).1).1;
      Parsed(line).creationDate
        == if |b| > 10 && IsDateToken(b[..10]) && IsSpace(b[10]) then Some(b[..10]) else None
  {
    PrefixPositions(Strip(line));
  }

  lemma PrefixPositions(s: string)
    ensures var a := PeelCompleted(s).1;
      Prefixes(s).priority
        == if |a| > 3 && a[0] == '(' && IsUpper(a[1]) && a[2] == ')' && IsSpace(a[3]) then Some([a[1]]) else None
    ensures var b := PeelPriority(PeelCompleted(s).1).1;
      Prefixes(s).creationDate
        == if |b| > 10 && IsDateToken(b[..10]) && IsSpace(b[10]) then Some(b[..10]) else None
  {
    var a := PeelCompleted(s).1;
    var b := PeelPriority(a).1;
    assert Prefixes(s).priority == PeelPriority(a).0;
    assert Prefixes(s).creationDate == PeelDate(b).0;
  }

  /** For a parsed task, `_extract_description` gives back exactly the text
      that `parse` scanned for projects, contexts and key-values. */
  lemma ExtractDescriptionOfParsed(line: string)
    ensures ExtractDescription(Parsed(line)) == Prefixes(Strip(line)).rest
  {
    var t := Parsed(line);
    assert t.text == Strip(line);
    ExtractOfTrimmed(t);
  }

  lemma ExtractOfTrimmed(t: Task)
    requires Trimmed(t.text)
    ensures ExtractDescription(t) == Prefixes(t.text).rest
  {
    StripTrimmed(Prefixes(t.text).rest);
  }

  /** Apart from the completion marker, `_is_newly_created` holds exactly when
      the prefix steps of `parse` find nothing in the stored text. (A text
      starting with `x ` is never newly created; one starting with `x`, a tab
      and a date is, although its completion prefix is recognised.) */
  lemma NewlyCreatedIffNoPrefix(t: Task)
    requires !StartsWith(t.text, "x ") && !StartsCompleted(t.text)
    ensures IsNewlyCreated(t) <==> Prefixes(t.text) == Prefix(None, None, None, t.text)
  {
    assert PeelCompleted(t.text) == (None, t.text);
  }

  /** A line that starts with `x` but has no date after it is not completed. */
  lemma CompletionNeedsDate()
    ensures !Parsed("x call mom").completed
  {
    var s := "x call mom";
    StripTrimmed(s);
    assert |s| == 10;
    assert !StartsCompleted(s);
  }

  /** The three scans over the text left after the prefixes, stated word by
      word: every whitespace-separated word gives its `+`/`@` tag, in order
      and with duplicates; every word that is a whole `key:value` gives a
      pair, and the dict keeps each key at its first position with its last
      value. */
  lemma ParsedScans(line: string)
    ensures var t := Parsed(line);
      var ws := Words(Prefixes(Strip(line)).rest);
      && t.projects == TagsOfWords('+', ws)
      && t.contexts == TagsOfWords('@', ws)
      && Keys(t.keyValues) == FirstOccurrences(Keys(KeyValuesOfWords(ws)))
      && forall k :: Lookup(t.keyValues, k) == LastValue(KeyValuesOfWords(ws), k)
  {
    RemainderScans(Prefixes(Strip(line)).rest);
  }

  /** The scans of `parse` and `create` over one remainder, word by word. */
  lemma RemainderScans(rest: string)
    ensures var ws := Words(rest);
      && FindTags('+', rest) == TagsOfWords('+', ws)
      && FindTags('@', rest) == TagsOfWords('@', ws)
      && Keys(KeyValuesOf(rest)) == FirstOccurrences(Keys(KeyValuesOfWords(ws)))
      && forall k :: Lookup(KeyValuesOf(rest), k) == LastValue(KeyValuesOfWords(ws), k)
  {
    FindTagsByWords('+', rest);
    FindTagsByWords('@', rest);
    KeyValueMatchesByWords(rest);
    FromPairsKeys(KeyValueMatches(rest));
    forall k ensures Lookup(KeyValuesOf(rest), k) == LastValue(KeyValuesOfWords(Words(rest)), k) {
      FromPairsLookup(KeyValueMatches(rest), k);
    }
  }

  /** A whole word `key:value` is one match with exactly that key and value. */
  lemma KeyValueOfWord(key: string, value: string)
    requires key != [] && IsKeyStart(key[0]) && forall i :: 0 <= i < |key| ==> IsKeyChar(key[i])
    requires value != [] && NoSpace(value)
    ensures KeyValuesOf(key + ":" + value) == [(key, value)]
  {
    var s := key + ":" + value;
    assert KeyValueMatches(s) == [(key, value)] by {
      KeyValueAtWhole(key, value);
      assert FindKeyValues(s, true) == [(key, value)] + FindKeyValues(s[|s|..], false);
      assert s[|s|..] == [];
    }
    assert [(key, value)][..0] == [];
    assert FromPairs([(key, value)]) == Put([], key, value);
  }

  lemma KeyValueAtWhole(key: string, value: string)
    requires key != [] && IsKeyStart(key[0]) && forall i :: 0 <= i < |key| ==> IsKeyChar(key[i])
    requires value != [] && NoSpace(value)
    ensures KeyValueAt(key + ":" + value) == Some((key, value))
  {
    var s := key + ":" + value;
    var k := |key|;
    assert KeyRun(s) == k && s[k] == ':' && s[0] == key[0] by {
      assert s == key + (":" + value);
      KeyRunOf(key, ":" + value);
      KeyRunWhole(key);
    }
    assert s[k + 1..] == value;
    assert NonSpaceRun(value) == |value| by {
      assert value + [] == value;
      NonSpaceRunOf(value, []);
    }
    assert s[..k] == key && value[..|value|] == value;
    KeyValueAtFound(s, k);
  }

  lemma {:induction false} KeyRunWhole(key: string)
    requires forall i :: 0 <= i < |key| ==> IsKeyChar(key[i])
    ensures KeyRun(key) == |key|
    decreases |key|
  {
    if key != [] {
      KeyRunWhole(key[1..]);
    }
  }

  /** The `(?!\S*://)` lookahead never rejects a match, because the value
      already runs to the next whitespace: a URL is read as a key and value. */
  lemma UrlIsKeyValue()
    ensures KeyValuesOf("https://x") == [("https", "//x")]
  {
    assert "https://x" == "https" + ":" + "//x";
    KeyValueOfWord("https", "//x");
  }

  /** Completing twice is completing once. */
  lemma MarkCompleteIdempotent(t: Task, today: string, later: string)
    ensures MarkComplete(MarkComplete(t, today), later) == MarkComplete(t, today)
  {
  }

  lemma ConcatAssoc(a: string, b: string, c: string)
    ensures a + (b + c) == a + b + c
  {
  }

  lemma JoinCons(a: string, ps: seq<string>)
    requires ps != []
    ensures Join([a] + ps, " ") == a + " " + Join(ps, " ")
  {
    assert ([a] + ps)[1..] == ps;
  }

  /** A created task with a non-empty description and a creation date is
      written as `(P) D text` or `D text`, and parsing that line gives back
      its priority, creation date, projects, contexts and key-values, not
      completed. */
  lemma CreatedRoundTrip(raw: string, today: string)
    requires IsDateToken(today)
    requires Strip(ReplaceNewlines(raw)) != []
    ensures var t := Created(raw, true, today);
      Serialized(t) == (if t.priority.Some? then "(" + t.priority.value + ") " else "") + today + " " + t.text
    ensures var t := Created(raw, true, today);
      var u := Parsed(Serialized(t));
      && !u.completed && u.completionDate.None?
      && u.priority == t.priority && u.creationDate == Some(today)
      && u.projects == t.projects && u.contexts == t.contexts && u.keyValues == t.keyValues
  {
    var t := Created(raw, true, today);
    CreatedLine(t, today);
    var pre := if t.priority.Some? then "(" + t.priority.value + ") " else "";
    var line := pre + today + " " + t.text;
    if t.priority.Some? {
      var c := Strip(ReplaceNewlines(raw));
      SpacedRestNonEmpty(c, 3, t.text);
    }
    NewLinePrefixes(t.priority, today, t.text);
    assert Prefixes(Strip(line)) == Prefix(None, t.priority, Some(today), t.text);
  }

  lemma CreatedLine(t: Task, today: string)
    requires !t.completed && t.creationDate == Some(today) && IsDateToken(today)
    requires t.priority.Some? ==> t.priority.value != []
    ensures Serialized(t) == (if t.priority.Some? then "(" + t.priority.value + ") " else "") + today + " " + t.text
  {
    SerializedIncomplete(t);
    var pre := if t.priority.Some? then "(" + t.priority.value + ") " else "";
    assert Serialized(t) == pre + (today + " ") + t.text;
    ConcatAssoc(pre, today, " ");
  }

  /** What a pattern leaves of a trimmed non-empty string is non-empty. */
  lemma SpacedRestNonEmpty(s: string, k: nat, rest: string)
    requires Trimmed(s) && k < |s| && SpacedRest(s[k..], rest)
    ensures rest != []
  {
  }

  /** `parse` on `[(P) ]D text` peels exactly the priority and the date. */
  lemma NewLinePrefixes(p: Option<string>, today: string, text: string)
    requires p.Some? ==> |p.value| == 1 && IsUpper(p.value[0])
    requires IsDateToken(today)
    requires text != [] && Trimmed(text)
    ensures var line := (if p.Some? then "(" + p.value + ") " else "") + today + " " + text;
      Strip(line) == line && Prefixes(line) == Prefix(None, p, Some(today), text)
  {
    if p.Some? {
      var c := p.value[0];
      assert p.value == [c];
      PriorityNewLine(c, today, text);
    } else {
      assert "" + today == today;
      DatedTail(today, text);
      DateLinePrefixes(today + " " + text, text);
    }
  }

  lemma PriorityNewLine(c: char, today: string, text: string)
    requires IsUpper(c) && IsDateToken(today) && text != [] && Trimmed(text)
    ensures var line := "(" + [c] + ") " + today + " " + text;
      Strip(line) == line && Prefixes(line) == Prefix(None, Some([c]), Some(today), text)
  {
    var tail := today + " " + text;
    DatedTail(today, text);
    var pre := "(" + [c] + ")" + " ";
    assert "(" + [c] + ") " == pre;
    ConcatAssoc(pre, today + " ", text);
    ConcatAssoc(pre, today, " ");
    PriorityLinePrefixes(c, tail, text);
  }

  /** `D text` is trimmed and DATE_PATTERN splits it into `D` and `text`. */
  lemma DatedTail(today: string, text: string)
    requires IsDateToken(today) && text != [] && Trimmed(text)
    ensures var tail := today + " " + text;
      Trimmed(tail) && |tail| > 10 && IsDigit(tail[0]) && tail[..10] == today && PeelDate(tail) == (Some(today), text)
  {
    var tail := today + " " + text;
    assert tail[..10] == today && IsDigit(tail[0]);
    assert Trimmed(tail) by {
      assert tail[|tail| - 1] == text[|text| - 1];
    }
    assert PeelDate(tail) == (Some(today), text) by {
      MatchDateOf(today, " ", text);
    }
  }

  lemma DateLinePrefixes(tail: string, text: string)
    requires Trimmed(tail) && |tail| > 10 && IsDigit(tail[0])
    requires PeelDate(tail) == (Some(tail[..10]), text)
    ensures Strip(tail) == tail && Prefixes(tail) == Prefix(None, None, Some(tail[..10]), text)
  {
    StripTrimmed(tail);
    assert PeelCompleted(tail) == (None, tail);
    assert PeelPriority(tail) == (None, tail);
    PrefixesSteps(tail);
  }

  lemma PriorityLinePrefixes(c: char, tail: string, text: string)
    requires IsUpper(c) && Trimmed(tail) && |tail| > 10 && IsDigit(tail[0])
    requires PeelDate(tail) == (Some(tail[..10]), text)
    ensures var line := "(" + [c] + ")" + " " + tail;
      Strip(line) == line && Prefixes(line) == Prefix(None, Some([c]), Some(tail[..10]), text)
  {
    var line := "(" + [c] + ")" + " " + tail;
    assert Strip(line) == line by {
      assert line[|line| - 1] == tail[|tail| - 1];
      StripTrimmed(line);
    }
    assert PeelCompleted(line) == (None, line);
    assert PeelPriority(line) == (Some([c]), tail) by {
      MatchPriorityOf(c, " ", tail);
    }
    PrefixesSteps(line);
  }

  /** `Prefixes` as the three peeling steps in order. */
  lemma PrefixesSteps(s: string)
    ensures var c := PeelCompleted(s); var r := PeelPriority(c.1); var d := PeelDate(r.1);
      Prefixes(s) == Prefix(c.0, r.0, d.0, d.1)
  {
  }

  /** Completing a parsed incomplete line that starts with a priority or a
      date token writes `x T [D] description [pri:P]`: no priority token,
      the creation date kept, the description with its prefixes removed, and
      `pri:P` only when the description does not already contain it. */
  lemma CompletedLineShape(line: string, today: string)
    requires IsDateToken(today)
    requires var s := Strip(line);
      !StartsCompleted(s) && (MatchPriority(s).Some? || MatchDate(s).Some?)
    ensures var t := Parsed(line);
      var desc := Prefixes(Strip(line)).rest;
      var pri := if t.priority.Some? then t.priority else Lookup(t.keyValues, "pri");
      Serialized(MarkComplete(t, today)) ==
        "x " + today + " "
        + (if t.creationDate.Some? then t.creationDate.value + " " else "")
        + desc
        + (if pri.Some? && !Contains(desc, "pri:" + pri.value) then " pri:" + pri.value else "")
  {
    CompletedShapeOf(Parsed(line), today);
  }

  lemma CompletedShapeOf(t: Task, today: string)
    requires IsDateToken(today) && !t.completed && Trimmed(t.text)
    requires t.priority.Some? ==> |t.priority.value| == 1
    requires t.creationDate.Some? ==> IsDateToken(t.creationDate.value)
    requires MatchPriority(t.text).Some? || MatchDate(t.text).Some?
    ensures var desc := Prefixes(t.text).rest;
      var pri := if t.priority.Some? then t.priority else Lookup(t.keyValues, "pri");
      Serialized(MarkComplete(t, today)) ==
        "x " + today + " "
        + (if t.creationDate.Some? then t.creationDate.value + " " else "")
        + desc
        + (if pri.Some? && !Contains(desc, "pri:" + pri.value) then " pri:" + pri.value else "")
  {
    var pri := if t.priority.Some? then t.priority else Lookup(t.keyValues, "pri");
    CompletedSerialized(t, today);
    HeadThenRebuilt("x " + today + " " + (if t.creationDate.Some? then t.creationDate.value + " " else ""),
      Prefixes(t.text).rest, pri);
  }

  lemma CompletedSerialized(t: Task, today: string)
    requires IsDateToken(today) && !t.completed && Trimmed(t.text)
    requires t.priority.Some? ==> |t.priority.value| == 1
    requires t.creationDate.Some? ==> IsDateToken(t.creationDate.value)
    requires MatchPriority(t.text).Some? || MatchDate(t.text).Some?
    ensures var pri := if t.priority.Some? then t.priority else Lookup(t.keyValues, "pri");
      Serialized(MarkComplete(t, today)) ==
        "x " + today + " "
        + (if t.creationDate.Some? then t.creationDate.value + " " else "")
        + Join(Rebuilt(Prefixes(t.text).rest, pri), " ")
  {
    var c := MarkComplete(t, today);
    CompletedPayload(c);
    assert Lookup(c.keyValues, "pri") == if t.priority.Some? then t.priority else Lookup(t.keyValues, "pri");
    CompletedTaskLine(c, Prefixes(t.text).rest);
  }

  lemma HeadThenRebuilt(head: string, desc: string, pri: Option<string>)
    ensures head + Join(Rebuilt(desc, pri), " ")
      == head + desc + (if pri.Some? && !Contains(desc, "pri:" + pri.value) then " pri:" + pri.value else "")
  {
    JoinedRebuilt(desc, pri);
    ConcatAssoc(head, desc, if pri.Some? && !Contains(desc, "pri:" + pri.value) then " pri:" + pri.value else "");
  }

  /** A completed task whose text starts with a priority or a date is
      written back through its extracted description. */
  lemma CompletedPayload(c: Task)
    requires c.completed && Present(c.completionDate) && Trimmed(c.text)
    requires MatchPriority(c.text).Some? || MatchDate(c.text).Some?
    ensures Payload(c) == Rebuilt(Prefixes(c.text).rest, Lookup(c.keyValues, "pri"))
  {
    StripTrimmed(Prefixes(c.text).rest);
  }

  /** The joined description part: the description, then ` pri:<value>`
      unless the description already contains `pri:<value>`. */
  lemma JoinedRebuilt(desc: string, pri: Option<string>)
    ensures Join(Rebuilt(desc, pri), " ") ==
      desc + (if pri.Some? && !Contains(desc, "pri:" + pri.value) then " pri:" + pri.value else "")
  {
    if pri.Some? && !Contains(desc, "pri:" + pri.value) {
      JoinCons(desc, ["pri:" + pri.value]);
    }
  }

  /** `to_line` of a completed task whose text is not a bare description:
      marker and date, creation date, the extracted description, `pri:`. */
  lemma CompletedTaskLine(c: Task, desc: string)
    requires c.completed && c.completionDate.Some? && c.completionDate.value != []
    requires c.creationDate.Some? ==> c.creationDate.value != []
    requires Payload(c) == Rebuilt(desc, Lookup(c.keyValues, "pri"))
    ensures Serialized(c) ==
      "x " + c.completionDate.value + " "
      + (if c.creationDate.Some? then c.creationDate.value + " " else "")
      + Join(Rebuilt(desc, Lookup(c.keyValues, "pri")), " ")
  {
    var tail := Rebuilt(desc, Lookup(c.keyValues, "pri"));
    var marker := "x " + c.completionDate.value;
    assert Header(c) == [marker] + (if c.creationDate.Some? then [c.creationDate.value] else []);
    JoinHeader(marker, c.creationDate, tail);
  }

  /** `to_line` of a completed task whose text is a bare description: marker
      and date, creation date, the stored text, then `pri:<value>` whenever
      the dict has a `pri` key, even when the text already contains it. */
  lemma CompletedNewLine(c: Task)
    requires c.completed && Present(c.completionDate) && IsNewlyCreated(c)
    ensures var pri := Lookup(c.keyValues, "pri");
      Serialized(c) ==
        "x " + c.completionDate.value + " "
        + (if Present(c.creationDate) then c.creationDate.value + " " else "")
        + c.text
        + (if pri.Some? then " pri:" + pri.value else "")
  {
    var pri := Lookup(c.keyValues, "pri");
    var tail := [c.text] + (if pri.Some? then ["pri:" + pri.value] else []);
    var marker := "x " + c.completionDate.value;
    var crd := if Present(c.creationDate) then c.creationDate else None;
    var crdPart := if crd.Some? then crd.value + " " else "";
    var priPart := if pri.Some? then " pri:" + pri.value else "";
    assert Serialized(c) == Join(Header(c) + Payload(c), " ");
    assert Join(Header(c) + Payload(c), " ") == marker + " " + crdPart + (c.text + priPart) by {
      assert Payload(c) == tail;
      assert Header(c) == [marker] + (if crd.Some? then [crd.value] else []);
      JoinHeader(marker, crd, tail);
      assert Join(tail, " ") == c.text + priPart by {
        if pri.Some? {
          JoinCons(c.text, ["pri:" + pri.value]);
        }
      }
    }
    ConcatAssoc(marker + " " + crdPart, c.text, priPart);
  }

  /** `mark_complete` of a line whose stripped text is a bare description.
      An incomplete one has no priority and no creation date, so it becomes
      `x T text`, followed by ` pri:<value>` when the text has a `pri` key;
      a completed one keeps its dates. */
  lemma MarkCompleteNewLine(line: string, today: string)
    requires IsDateToken(today) && IsNewlyCreated(Parsed(line))
    ensures var t := Parsed(line);
      var pri := Lookup(t.keyValues, "pri");
      var tail := Strip(line) + (if pri.Some? then " pri:" + pri.value else "");
      MarkCompleteLine(line, today) ==
        if t.completed then
          "x " + t.completionDate.value + " "
          + (if Present(t.creationDate) then t.creationDate.value + " " else "") + tail
        else "x " + today + " " + tail
  {
    var t := Parsed(line);
    if t.completed {
      DoneNewLine(line, today);
    } else {
      OpenNewLine(line, today);
    }
  }

  lemma DoneNewLine(line: string, today: string)
    requires IsDateToken(today) && IsNewlyCreated(Parsed(line)) && Parsed(line).completed
    ensures var t := Parsed(line);
      var pri := Lookup(t.keyValues, "pri");
      MarkCompleteLine(line, today) ==
        "x " + t.completionDate.value + " "
        + (if Present(t.creationDate) then t.creationDate.value + " " else "")
        + (Strip(line) + (if pri.Some? then " pri:" + pri.value else ""))
  {
    var t := Parsed(line);
    var p := if Lookup(t.keyValues, "pri").Some? then " pri:" + Lookup(t.keyValues, "pri").value else "";
    assert MarkComplete(t, today) == t;
    assert Present(t.completionDate) by {
      assert IsDateToken(t.completionDate.value);
    }
    CompletedNewLine(t);
    ConcatAssoc("x " + t.completionDate.value + " "
      + (if Present(t.creationDate) then t.creationDate.value + " " else ""), t.text, p);
  }

  lemma OpenNewLine(line: string, today: string)
    requires IsDateToken(today) && IsNewlyCreated(Parsed(line)) && !Parsed(line).completed
    ensures var pri := Lookup(Parsed(line).keyValues, "pri");
      MarkCompleteLine(line, today) == "x " + today + " " + (Strip(line) + (if pri.Some? then " pri:" + pri.value else ""))
  {
    var t := Parsed(line);
    var p := if Lookup(t.keyValues, "pri").Some? then " pri:" + Lookup(t.keyValues, "pri").value else "";
    ParsedBare(line);
    IncompleteNewLine(t, today);
    ConcatAssoc("x " + today + " ", t.text, p);
  }

  /** A parsed incomplete line whose text is a bare description has no
      priority and no creation date. */
  lemma ParsedBare(line: string)
    requires IsNewlyCreated(Parsed(line)) && !Parsed(line).completed
    ensures Parsed(line).priority.None? && Parsed(line).creationDate.None?
  {
    var s := Strip(line);
    assert PeelCompleted(s) == (None, s);
    PrefixesSteps(s);
  }

  lemma IncompleteNewLine(t: Task, today: string)
    requires IsDateToken(today) && IsNewlyCreated(t) && !t.completed
    requires t.priority.None? && t.creationDate.None?
    ensures var pri := Lookup(t.keyValues, "pri");
      Serialized(MarkComplete(t, today)) == "x " + today + " " + t.text + (if pri.Some? then " pri:" + pri.value else "")
  {
    var c := MarkComplete(t, today);
    assert c == Task(t.text, true, Some(today), None, None, t.projects, t.contexts, t.keyValues);
    assert IsNewlyCreated(c);
    CompletedNewLine(c);
  }

  /** A bare line that already holds `pri:<v>` gets it a second time when it
      is completed, because the newly created path appends `pri:` without
      checking: `Buy pri:A` becomes `x <today> Buy pri:A pri:A`. */
  lemma BarePriDoubled(w: string, v: string, today: string)
    requires IsDateToken(today)
    requires w != [] && NoSpace(w) && w[0] != 'x' && w[0] != '(' && !IsDigit(w[0]) && KeyValueAt(w).None?
    requires v != [] && NoSpace(v)
    ensures MarkCompleteLine(w + " pri:" + v, today) == "x " + today + " " + (w + " pri:" + v) + " pri:" + v
  {
    var line := w + " pri:" + v;
    BareLineParsed(w, v);
    MarkCompleteNewLine(line, today);
    var pre, p := "x " + today + " ", " pri:" + v;
    assert MarkCompleteLine(line, today) == pre + (line + p);
    ConcatAssoc(pre, line, p);
    ConcatAssoc(pre + line, " pri:", v);
  }

  lemma BareLineParsed(w: string, v: string)
    requires w != [] && NoSpace(w) && w[0] != 'x' && w[0] != '(' && !IsDigit(w[0]) && KeyValueAt(w).None?
    requires v != [] && NoSpace(v)
    ensures var t := Parsed(w + " pri:" + v);
      && t.text == w + " pri:" + v && !t.completed && IsNewlyCreated(t)
      && Lookup(t.keyValues, "pri") == Some(v)
  {
    var line := w + " pri:" + v;
    assert Strip(line) == line by {
      assert line[|line| - 1] == v[|v| - 1];
      StripTrimmed(line);
    }
    assert line[0] == w[0];
    assert !StartsWith(line, "x ") by {
      if |line| >= 2 { assert line[..2][0] == line[0]; }
    }
    assert MatchPriority(line).None?;
    assert MatchDate(line).None? by {
      if |line| > 10 { assert line[..10][0] == line[0]; }
    }
    assert PeelCompleted(line) == (None, line);
    PrefixesSteps(line);
    BareLineKeyValues(w, v);
  }

  lemma BareLineKeyValues(w: string, v: string)
    requires w != [] && NoSpace(w) && KeyValueAt(w).None?
    requires v != [] && NoSpace(v)
    ensures KeyValuesOf(w + " pri:" + v) == [("pri", v)]
  {
    var line := w + " pri:" + v;
    var kv := "pri" + ":" + v;
    assert KeyValueMatches(line) == KeyValueMatches(kv) by {
      assert line == w + (" " + kv);
      KeyValueScanWord(w, " " + kv);
      assert (" " + kv)[1..] == kv;
    }
    KeyValueOfWord("pri", v);
  }

  /** Joining the marker, an optional creation date and the description parts. */
  lemma JoinHeader(marker: string, crd: Option<string>, tail: seq<string>)
    requires tail != []
    ensures Join([marker] + (if crd.Some? then [crd.value] else []) + tail, " ")
      == marker + " " + (if crd.Some? then crd.value + " " else "") + Join(tail, " ")
  {
    if crd.Some? {
      var d := crd.value;
      assert [marker] + [d] + tail == [marker] + ([d] + tail);
      JoinCons(marker, [d] + tail);
      JoinCons(d, tail);
      ConcatAssoc(marker + " ", d + " ", Join(tail, " "));
      ConcatAssoc(d, " ", Join(tail, " "));
    } else {
      assert [marker] + [] + tail == [marker] + tail;
      JoinCons(marker, tail);
    }
  }

  // ---------------------------------------------------------------------
  // The `is_completed` test against `parse`

  /** `is_completed` asks only for `x` and a space; `parse` also wants a
      date: `x call mom` passes the first test and fails the second. */
  lemma MarkerWithoutDate(w: string)
    requires w != [] && Trimmed(w) && !IsDigit(w[0])
    ensures IsCompletedLine("x " + w) && !Parsed("x " + w).completed
  {
    var s := "x " + w;
    assert s[1..] == " " + w;
    SpaceRunOf(" ", w);
    assert s[|s| - 1] == w[|w| - 1];
    StripTrimmed(s);
    assert s[2] == w[0];
  }

  /** A tab after `x` completes the line for `parse` but not for `is_completed`. */
  lemma TabAfterMarker(d: string, w: string)
    requires IsDateToken(d) && w != [] && Trimmed(w)
    ensures var s := "x" + "\t" + d + " " + w;
      !IsCompletedLine(s) && Parsed(s).completed && Parsed(s).completionDate == Some(d)
  {
    var s := "x" + "\t" + d + " " + w;
    TabLine(d, w);
    assert PeelCompleted(s) == (Some(d), w);
  }

  lemma TabLine(d: string, w: string)
    requires IsDateToken(d) && w != [] && Trimmed(w)
    ensures var s := "x" + "\t" + d + " " + w;
      Strip(s) == s && s[1] == '\t' && MatchCompleted(s) == Some(Match(d, w))
  {
    var s := "x" + "\t" + d + " " + w;
    assert Strip(s) == s by {
      assert s[|s| - 1] == w[|w| - 1];
      StripTrimmed(s);
    }
    assert s[1] == '\t';
    MatchCompletedOf("\t", d, " ", w);
  }

  /** Where the completion marker is followed by a plain space, both tests agree. */
  lemma CompletedTestsAgree(line: string)
    requires Parsed(line).completed && Strip(line)[1] == ' '
    ensures IsCompletedLine(line)
  {
  }

  /** Stripping keeps a prefix that starts and ends with non-space characters. */
  lemma StripKeepsPrefix(s: string, n: nat)
    requires 0 < n <= |s| && !IsSpace(s[0]) && !IsSpace(s[n - 1])
    ensures |Strip(s)| >= n && Strip(s)[..n] == s[..n]
  {
  }

  /** Whatever line is completed, the line written for it counts as completed
      for `is_completed`, so the queue does not offer it again. */
  lemma CompletedLineIsMarked(line: string, today: string)
    requires IsDateToken(today)
    ensures IsCompletedLine(Serialized(MarkComplete(Parsed(line), today)))
  {
    var t := Parsed(line);
    var c := MarkComplete(t, today);
    assert c.completed && c.completionDate.Some? && IsDateToken(c.completionDate.value);
    CompletedTaskIsMarked(c);
  }

  lemma CompletedTaskIsMarked(c: Task)
    requires c.completed && c.completionDate.Some? && IsDateToken(c.completionDate.value)
    ensures IsCompletedLine(Serialized(c))
  {
    MarkedPrefix(Serialized(c), c.completionDate.value);
  }

  /** A line that starts with `x `, a date and a space passes `is_completed`. */
  lemma MarkedPrefix(out: string, d: string)
    requires IsDateToken(d) && StartsWith(out, "x " + d + " ")
    ensures IsCompletedLine(out)
  {
    assert out[..13] == "x " + d + " ";
    assert out[0] == 'x' && out[1] == ' ' && out[11] == d[9];
    StripKeepsPrefix(out, 12);
    assert Strip(out)[..2] == out[..2];
  }
}
