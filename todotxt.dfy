/** The todo.txt line codec of src/tasq/todotxt.py: the `Task` record,
    `Task.parse`, `Task.create`, `mark_complete`, `to_line` and the
    module-level helpers. `date.today().isoformat()` is the parameter `today`. */
module TodoTxt {
  import opened Text
  import opened Patterns
  import opened OrderedDict

  /** Python truthiness of an optional `str` field: set and non-empty. */
  predicate Present(o: Option<string>) { o.Some? && o.value != [] }

  datatype Task = Task(
    text: string,
    completed: bool,
    completionDate: Option<string>,
    creationDate: Option<string>,
    priority: Option<string>,
    projects: seq<string>,
    contexts: seq<string>,
    keyValues: Dict)

  // ---------------------------------------------------------------------
  // Parsing

  /** The fields recognised at the start of a stripped line, and what follows them. */
  datatype Prefix = Prefix(
    completionDate: Option<string>,
    priority: Option<string>,
    creationDate: Option<string>,
    rest: string)

  /** One prefix step of `parse`: if the pattern matched, its capture and the
      text after the match; otherwise nothing and the text unchanged.
      This one uses COMPLETED_PATTERN. */
  function PeelCompleted(s: string): (r: (Option<string>, string))
    ensures IsSuffix(r.1, s) && (Trimmed(s) ==> Trimmed(r.1))
    ensures r.0.Some? ==> IsDateToken(r.0.value)
    ensures r.0.None? ==> r.1 == s
  {
    match MatchCompleted(s)
    case Some(m) =>
      assert Trimmed(s) ==> Trimmed(m.rest) by { if Trimmed(s) { SuffixTrimmed(s, m.rest); } }
      (Some(m.capture), m.rest)
    case None => (None, s)
  }

  /** The prefix step with PRIORITY_PATTERN. */
  function PeelPriority(s: string): (r: (Option<string>, string))
    ensures IsSuffix(r.1, s) && (Trimmed(s) ==> Trimmed(r.1))
    ensures r.0.Some? ==> |r.0.value| == 1 && IsUpper(r.0.value[0])
    ensures r.0.None? ==> r.1 == s
  {
    match MatchPriority(s)
    case Some(m) =>
      assert Trimmed(s) ==> Trimmed(m.rest) by { if Trimmed(s) { SuffixTrimmed(s, m.rest); } }
      (Some(m.capture), m.rest)
    case None => (None, s)
  }

  /** The prefix step with DATE_PATTERN. */
  function PeelDate(s: string): (r: (Option<string>, string))
    ensures IsSuffix(r.1, s) && (Trimmed(s) ==> Trimmed(r.1))
    ensures r.0.Some? ==> IsDateToken(r.0.value)
    ensures r.0.None? ==> r.1 == s
  {
    match MatchDate(s)
    case Some(m) =>
      assert Trimmed(s) ==> Trimmed(m.rest) by { if Trimmed(s) { SuffixTrimmed(s, m.rest); } }
      (Some(m.capture), m.rest)
    case None => (None, s)
  }

  /** COMPLETED_PATTERN, then PRIORITY_PATTERN, then DATE_PATTERN, each tried
      on what the previous one left (todotxt.py:76-92). */
  function Prefixes(s: string): (p: Prefix)
    ensures IsSuffix(p.rest, s)
    ensures Trimmed(s) ==> Trimmed(p.rest)
    ensures p.completionDate.Some? ==> IsDateToken(p.completionDate.value)
    ensures p.priority.Some? ==> |p.priority.value| == 1 && IsUpper(p.priority.value[0])
    ensures p.creationDate.Some? ==> IsDateToken(p.creationDate.value)
  {
    var c := PeelCompleted(s);
    var r := PeelPriority(c.1);
    var d := PeelDate(r.1);
    IsSuffixTransitive(r.1, c.1, s);
    IsSuffixTransitive(d.1, r.1, s);
    Prefix(c.0, r.0, d.0, d.1)
  }

  /** KEY_VALUE_PATTERN's matches collected into a dict, later values winning
      (todotxt.py:101-103 and 138-140). */
  function KeyValuesOf(s: string): (d: Dict)
    ensures UniqueKeys(d)
  {
    FromPairsKeys(KeyValueMatches(s));
    FromPairs(KeyValueMatches(s))
  }

  /** `Task.parse` (todotxt.py:52-108). */
  function Parsed(line: string): (t: Task)
    ensures t.text == Strip(line)
    ensures t.completed <==> t.completionDate.Some?
    ensures t.completed <==> StartsCompleted(Strip(line))
    ensures t.completionDate.Some? ==> IsDateToken(t.completionDate.value)
    ensures t.priority.Some? ==> |t.priority.value| == 1 && IsUpper(t.priority.value[0])
    ensures t.creationDate.Some? ==> IsDateToken(t.creationDate.value)
    ensures UniqueKeys(t.keyValues)
  {
    var s := Strip(line);
    var p := Prefixes(s);
    Task(s, p.completionDate.Some?, p.completionDate, p.creationDate, p.priority,
         FindTags('+', p.rest), FindTags('@', p.rest), KeyValuesOf(p.rest))
  }

  // ---------------------------------------------------------------------
  // Creating, completing, serialising

  /** `Task.create` (todotxt.py:110-150). */
  function Created(raw: string, addCreationDate: bool, today: string): (t: Task)
    ensures !t.completed && t.completionDate.None?
    ensures SingleLine(t.text)
    ensures Trimmed(t.text)
    ensures t.creationDate == if addCreationDate then Some(today) else None
    ensures var c := Strip(ReplaceNewlines(raw));
      && (t.priority.Some? <==> MatchPriority(c).Some?)
      && (t.priority.Some? ==> t.priority == Some([c[1]]) && SpacedRest(c[3..], t.text))
      && (t.priority.None? ==> t.text == c)
    ensures t.projects == FindTags('+', t.text) && t.contexts == FindTags('@', t.text)
    ensures t.keyValues == KeyValuesOf(t.text)
  {
    var clean := Strip(ReplaceNewlines(raw));
    var pr := PeelPriority(clean);
    var remaining := pr.1;
    StripSingleLine(ReplaceNewlines(raw));
    SuffixSingleLine(clean, remaining);
    Task(remaining, false, None, if addCreationDate then Some(today) else None, pr.0,
         FindTags('+', remaining), FindTags('@', remaining), KeyValuesOf(remaining))
  }

  lemma PutLookupAll(d: Dict, k: string, v: string)
    ensures Lookup(Put(d, k, v), k) == Some(v)
    ensures forall k' :: k' != k ==> Lookup(Put(d, k, v), k') == Lookup(d, k')
  {
    PutLookup(d, k, v, k);
    forall k' | k' != k ensures Lookup(Put(d, k, v), k') == Lookup(d, k') {
      PutLookup(d, k, v, k');
    }
  }

  /** `Task.mark_complete` (todotxt.py:152-180). */
  function MarkComplete(t: Task, today: string): (r: Task)
    ensures t.completed ==> r == t
    ensures !t.completed ==>
      && r.completed && r.completionDate == Some(today) && r.priority.None?
      && r.text == t.text && r.creationDate == t.creationDate
      && r.projects == t.projects && r.contexts == t.contexts
    ensures !t.completed && Present(t.priority) ==> Lookup(r.keyValues, "pri") == t.priority
    ensures !t.completed && !Present(t.priority) ==> r.keyValues == t.keyValues
    ensures !t.completed ==> forall k :: k != "pri" ==> Lookup(r.keyValues, k) == Lookup(t.keyValues, k)
    ensures !t.completed && Present(t.priority) ==>
      Keys(r.keyValues) == if Lookup(t.keyValues, "pri").Some? then Keys(t.keyValues) else Keys(t.keyValues) + ["pri"]
  {
    if t.completed then t
    else
      var kv := if Present(t.priority) then Put(t.keyValues, "pri", t.priority.value) else t.keyValues;
      PutLookupAll(t.keyValues, "pri", if Present(t.priority) then t.priority.value else "");
      PutKeys(t.keyValues, "pri", if Present(t.priority) then t.priority.value else "");
      Task(t.text, true, Some(today), t.creationDate, None, t.projects, t.contexts, kv)
  }

  /** `_is_newly_created` (todotxt.py:232-239): the stored text does not start
      with `x `, a priority or a date, so it is taken to be a bare description. */
  predicate IsNewlyCreated(t: Task) {
    !(StartsWith(t.text, "x ") || MatchPriority(t.text).Some? || MatchDate(t.text).Some?)
  }

  /** `_extract_description` (todotxt.py:241-260). */
  function ExtractDescription(t: Task): (r: string)
    ensures Trimmed(r)
  {
    Strip(Prefixes(t.text).rest)
  }

  /** The description parts of `to_line` (todotxt.py:206-228). */
  function Payload(t: Task): (ps: seq<string>)
    ensures 1 <= |ps| <= 2
    ensures ps[0] == if !IsNewlyCreated(t) && t.completed && Present(t.completionDate)
                     then ExtractDescription(t) else t.text
    ensures |ps| == 2 ==> t.completed && Lookup(t.keyValues, "pri").Some?
                          && ps[1] == "pri:" + Lookup(t.keyValues, "pri").value
    ensures IsNewlyCreated(t) ==> (|ps| == 2 <==> t.completed && Lookup(t.keyValues, "pri").Some?)
  {
    var pri := Lookup(t.keyValues, "pri");
    if IsNewlyCreated(t) then
      [t.text] + (if t.completed && pri.Some? then ["pri:" + pri.value] else [])
    else if t.completed && Present(t.completionDate) then Rebuilt(ExtractDescription(t), pri)
    else [t.text]
  }

  /** The description of a re-serialised completed task, then `pri:<value>`
      unless that text already appears in it (todotxt.py:217-226). */
  function Rebuilt(rem: string, pri: Option<string>): (ps: seq<string>)
    ensures 1 <= |ps| <= 2 && ps[0] == rem
    ensures |ps| == 2 ==> pri.Some? && ps[1] == "pri:" + pri.value
  {
    [rem] + (if pri.Some? && !Contains(rem, "pri:" + pri.value) then ["pri:" + pri.value] else [])
  }

  /** The leading parts of `to_line` (todotxt.py:188-204): the completion
      marker, the creation date, and the priority put in front of both. */
  function Header(t: Task): (h: seq<string>)
    ensures |h| == (if t.completed && Present(t.completionDate) then 1 else 0)
                 + (if !t.completed && Present(t.priority) then 1 else 0)
                 + (if Present(t.creationDate) then 1 else 0)
    ensures |h| <= 2
    ensures t.completed && Present(t.completionDate) ==> |h| > 0 && h[0] == "x " + t.completionDate.value
    ensures !t.completed && Present(t.priority) ==> |h| > 0 && h[0] == "(" + t.priority.value + ")"
    ensures Present(t.creationDate) ==> |h| > 0 && h[|h| - 1] == t.creationDate.value
  {
    var head :=
      (if t.completed && Present(t.completionDate) then ["x " + t.completionDate.value] else [])
      + (if Present(t.creationDate) then [t.creationDate.value] else []);
    if Present(t.priority) && !t.completed then ["(" + t.priority.value + ")"] + head else head
  }

  /** `Task.to_line` (todotxt.py:182-230). */
  function Serialized(t: Task): (line: string)
    ensures t.completed && Present(t.completionDate) ==>
      StartsWith(line, "x " + t.completionDate.value + " ")
    ensures !t.completed && Present(t.priority) ==> StartsWith(line, "(" + t.priority.value + ") ")
    ensures !t.completed && !Present(t.priority) && Present(t.creationDate) ==>
      StartsWith(line, t.creationDate.value + " ")
  {
    var parts := Header(t) + Payload(t);
    assert |Header(t) + Payload(t)| >= 2 ==> Join(parts, " ") == parts[0] + " " + Join(parts[1..], " ");
    Join(parts, " ")
  }

  /** `to_line` of a task that is not completed: priority token, creation
      date, then the stored text, each followed by one space. */
  lemma SerializedIncomplete(t: Task)
    requires !t.completed
    ensures Serialized(t) ==
      (if Present(t.priority) then "(" + t.priority.value + ") " else "")
      + (if Present(t.creationDate) then t.creationDate.value + " " else "")
      + t.text
  {
    assert Payload(t) == [t.text];
    var parts := Header(t) + Payload(t);
    if Present(t.priority) && Present(t.creationDate) {
      var p, d := "(" + t.priority.value + ")", t.creationDate.value;
      assert parts == [p, d, t.text];
      assert Join([d, t.text], " ") == d + " " + t.text;
      assert Join(parts, " ") == p + " " + (d + " " + t.text);
    } else if Present(t.priority) {
      var p := "(" + t.priority.value + ")";
      assert parts == [p, t.text];
      assert Join(parts, " ") == p + " " + t.text;
    } else if Present(t.creationDate) {
      assert parts == [t.creationDate.value, t.text];
      assert Join(parts, " ") == t.creationDate.value + " " + t.text;
    } else {
      assert parts == [t.text];
    }
  }

  // ---------------------------------------------------------------------
  // Dictionary form and module-level helpers

  /** The JSON values `to_dict` produces. */
  datatype Json = JString(s: string) | JBool(b: bool) | JNull | JList(items: seq<string>) | JObject(entries: Dict)

  function OptionalJson(o: Option<string>): Json {
    match o
    case Some(v) => JString(v)
    case None => JNull
  }

  /** Reads an optional string field back: `Some(o)` for a string or `null`. */
  function JsonOptional(j: Json): Option<Option<string>> {
    match j
    case JString(v) => Some(Some(v))
    case JNull => Some(None)
    case _ => None
  }

  /** The task described by a `to_dict` result, if it has that shape. */
  function TaskOfDict(d: seq<(string, Json)>): Option<Task> {
    if |d| == 8
      && d[0].0 == "text" && d[0].1.JString?
      && d[1].0 == "completed" && d[1].1.JBool?
      && d[2].0 == "completion_date" && JsonOptional(d[2].1).Some?
      && d[3].0 == "creation_date" && JsonOptional(d[3].1).Some?
      && d[4].0 == "priority" && JsonOptional(d[4].1).Some?
      && d[5].0 == "projects" && d[5].1.JList?
      && d[6].0 == "contexts" && d[6].1.JList?
      && d[7].0 == "key_values" && d[7].1.JObject?
    then
      Some(Task(d[0].1.s, d[1].1.b, JsonOptional(d[2].1).value, JsonOptional(d[3].1).value,
                JsonOptional(d[4].1).value, d[5].1.items, d[6].1.items, d[7].1.entries))
    else None
  }

  /** `Task.to_dict` (todotxt.py:262-277): the eight fields, in declaration
      order; nothing is lost. */
  function ToDict(t: Task): (d: seq<(string, Json)>)
    ensures TaskOfDict(d) == Some(t)
    ensures FieldNames(d) == ["text", "completed", "completion_date", "creation_date",
                         "priority", "projects", "contexts", "key_values"]
  {
    [("text", JString(t.text)), ("completed", JBool(t.completed)),
     ("completion_date", OptionalJson(t.completionDate)),
     ("creation_date", OptionalJson(t.creationDate)),
     ("priority", OptionalJson(t.priority)),
     ("projects", JList(t.projects)), ("contexts", JList(t.contexts)),
     ("key_values", JObject(t.keyValues))]
  }

  function FieldNames(d: seq<(string, Json)>): seq<string> {
    seq(|d|, i requires 0 <= i < |d| => d[i].0)
  }

  /** `is_completed` (todotxt.py:281-290): the stripped line starts with `x `. */
  function IsCompletedLine(line: string): (b: bool)
    ensures b <==> |Strip(line)| >= 2 && Strip(line)[0] == 'x' && Strip(line)[1] == ' '
  {
    StartsWith(Strip(line), "x ")
  }

  /** `parse_task` (todotxt.py:293-303). */
  function ParseTask(line: string): (d: seq<(string, Json)>)
    ensures TaskOfDict(d) == Some(Parsed(line))
  {
    ToDict(Parsed(line))
  }

  /** `format_new_task` (todotxt.py:306-317): the serialised new task is its
      priority token, then the creation date, then the cleaned description. */
  function FormatNewTask(raw: string, addCreationDate: bool, today: string): (line: string)
    requires addCreationDate ==> IsDateToken(today)
    ensures var t := Created(raw, addCreationDate, today);
      line == (if t.priority.Some? then "(" + t.priority.value + ") " else "")
              + (if addCreationDate then today + " " else "") + t.text
  {
    SerializedIncomplete(Created(raw, addCreationDate, today));
    Serialized(Created(raw, addCreationDate, today))
  }

  /** `mark_complete` (todotxt.py:320-331): the result starts with `x `, the
      completion date and a space; the date is `today` unless the line was
      already completed. */
  function MarkCompleteLine(line: string, today: string): (r: string)
    requires IsDateToken(today)
    ensures var t := Parsed(line);
      StartsWith(r, "x " + (if t.completed then t.completionDate.value else today) + " ")
  {
    var t := Parsed(line);
    MarkedLineStart(t, today);
    Serialized(MarkComplete(t, today))
  }

  lemma MarkedLineStart(t: Task, today: string)
    requires IsDateToken(today)
    requires t.completed ==> t.completionDate.Some? && IsDateToken(t.completionDate.value)
    ensures StartsWith(Serialized(MarkComplete(t, today)),
      "x " + (if t.completed then t.completionDate.value else today) + " ")
  {
  }

  // ---------------------------------------------------------------------
  // The step-by-step code of parse, create and to_line

  /** The `finditer` loop that fills `key_values` (todotxt.py:101-103, 138-140);
      it computes `KeyValuesOf`. */
  method CollectKeyValues(s: string) returns (kv: Dict)
    ensures kv == KeyValuesOf(s)
  {
    var matches := KeyValueMatches(s);
    kv := [];
    for i := 0 to |matches|
      invariant kv == FromPairs(matches[..i])
    {
      FromPairsPrefixStep(matches, i);
      kv := Put(kv, matches[i].0, matches[i].1);
    }
    assert matches[..|matches|] == matches;
  }

  /** `Task.parse` as written (todotxt.py:52-108); it computes `Parsed`. */
  method Parse(line: string) returns (t: Task)
    ensures t == Parsed(line)
  {
    var p := MatchPrefixes(Strip(line));
    var projects := FindTags('+', p.rest);
    var contexts := FindTags('@', p.rest);
    var keyValues := CollectKeyValues(p.rest);
    t := Task(Strip(line), p.completionDate.Some?, p.completionDate, p.creationDate, p.priority,
              projects, contexts, keyValues);
  }

  /** The prefix matching of `Task.parse`: `remaining` is cut down by each
      pattern that matches (todotxt.py:72-92); it computes `Prefixes`. */
  method MatchPrefixes(s: string) returns (p: Prefix)
    ensures p == Prefixes(s)
  {
    var completionDate: Option<string> := None;
    var creationDate: Option<string> := None;
    var priority: Option<string> := None;
    var remaining := s;
    completionDate, remaining := PeelCompletedStep(remaining);
    priority, remaining := PeelPriorityStep(remaining);
    creationDate, remaining := PeelDateStep(remaining);
    p := Prefix(completionDate, priority, creationDate, remaining);
  }

  /** COMPLETED_PATTERN tried on what remains; on a match the date is kept and
      the match cut off (todotxt.py:76-80). It computes `PeelCompleted`. */
  method PeelCompletedStep(remaining: string) returns (date: Option<string>, rest: string)
    ensures (date, rest) == PeelCompleted(remaining)
  {
    date, rest := None, remaining;
    var m := MatchCompleted(remaining);
    if m.Some? {
      date, rest := Some(m.value.capture), m.value.rest;
    }
  }

  /** The same with PRIORITY_PATTERN (todotxt.py:83-86); it computes `PeelPriority`. */
  method PeelPriorityStep(remaining: string) returns (priority: Option<string>, rest: string)
    ensures (priority, rest) == PeelPriority(remaining)
  {
    priority, rest := None, remaining;
    var m := MatchPriority(remaining);
    if m.Some? {
      priority, rest := Some(m.value.capture), m.value.rest;
    }
  }

  /** The same with DATE_PATTERN (todotxt.py:89-92); it computes `PeelDate`. */
  method PeelDateStep(remaining: string) returns (date: Option<string>, rest: string)
    ensures (date, rest) == PeelDate(remaining)
  {
    date, rest := None, remaining;
    var m := MatchDate(remaining);
    if m.Some? {
      date, rest := Some(m.value.capture), m.value.rest;
    }
  }

  /** `Task.create` as written (todotxt.py:110-150); it computes `Created`. */
  method Create(raw: string, addCreationDate: bool, today: string) returns (t: Task)
    ensures t == Created(raw, addCreationDate, today)
  {
    var cleanText := Strip(ReplaceNewlines(raw));
    var priority: Option<string> := None;
    var remaining := cleanText;
    var m := MatchPriority(cleanText);
    if m.Some? {
      priority := Some(m.value.capture);
      remaining := m.value.rest;
    }
    var creationDate: Option<string> := if addCreationDate then Some(today) else None;
    var projects := FindTags('+', remaining);
    var contexts := FindTags('@', remaining);
    var keyValues := CollectKeyValues(remaining);
    t := Task(remaining, false, None, creationDate, priority, projects, contexts, keyValues);
  }

  /** `Task.to_line` as written: a list of parts, appended to and inserted
      into, then joined with single spaces. It computes `Serialized`. */
  method ToLine(t: Task) returns (line: string)
    ensures line == Serialized(t)
  {
    var parts: seq<string> := [];
    if t.completed && Present(t.completionDate) {
      parts := parts + ["x " + t.completionDate.value];
    }
    if Present(t.creationDate) {
      parts := parts + [t.creationDate.value];
    }
    if Present(t.priority) && !t.completed {
      if Present(t.creationDate) && parts != [] {
        var at := if !t.completed then 0 else 1;
        parts := parts[..at] + ["(" + t.priority.value + ")"] + parts[at..];
      } else {
        parts := ["(" + t.priority.value + ")"] + parts;
      }
    }
    assert parts == Header(t);
    var tail := TailParts(t);
    parts := parts + tail;
    line := Join(parts, " ");
  }

  /** The second half of `to_line` as written, appending to the parts list;
      it computes `Payload`. */
  method TailParts(t: Task) returns (parts: seq<string>)
    ensures parts == Payload(t)
  {
    parts := [];
    var pri := Lookup(t.keyValues, "pri");
    if IsNewlyCreated(t) {
      parts := parts + [t.text];
      if t.completed && pri.Some? {
        parts := parts + ["pri:" + pri.value];
      }
      assert parts == [t.text] + (if t.completed && pri.Some? then ["pri:" + pri.value] else []);
    } else {
      if t.completed && Present(t.completionDate) {
        parts := AppendDescription(parts, ExtractDescription(t), pri);
      } else {
        parts := parts + [t.text];
      }
    }
  }

  /** The branch of `to_line` that re-serialises a completed parsed task;
      it appends `Rebuilt`. */
  method AppendDescription(parts: seq<string>, remaining: string, pri: Option<string>)
    returns (r: seq<string>)
    ensures r == parts + Rebuilt(remaining, pri)
  {
    r := parts + [remaining];
    if pri.Some? && !Contains(remaining, "pri:" + pri.value) {
      r := r + ["pri:" + pri.value];
    }
  }
}
