/** The regular expressions of the todo.txt codec, as prefix matchers
    (`re.match`, anchored at the start) and left-to-right scanners
    (`re.findall` / `re.finditer`). */
module Patterns {
  import opened Text

  /** `\d{4}-\d{2}-\d{2}`: a `DDDD-DD-DD` token. */
  predicate IsDateToken(s: string) {
    |s| == 10
    && IsDigit(s[0]) && IsDigit(s[1]) && IsDigit(s[2]) && IsDigit(s[3])
    && s[4] == '-' && IsDigit(s[5]) && IsDigit(s[6])
    && s[7] == '-' && IsDigit(s[8]) && IsDigit(s[9])
  }

  /** A successful anchored match: the captured group and what follows the whole match. */
  datatype Match = Match(capture: string, rest: string)

  /** `rest` is what remains of `t` after a non-empty, maximal run of leading
      whitespace (the greedy `\s+` that ends every prefix pattern). */
  predicate SpacedRest(t: string, rest: string) {
    |rest| < |t| && t[|t| - |rest|..] == rest && AllSpace(t[..|t| - |rest|])
    && (rest == [] || !IsSpace(rest[0]))
  }

  /** The greedy `\s+` determines the remainder uniquely. */
  lemma SpacedRestUnique(t: string, r1: string, r2: string)
    requires SpacedRest(t, r1) && SpacedRest(t, r2)
    ensures r1 == r2
  {
  }

  lemma SpacedRestSuffix(s: string, k: nat, rest: string)
    requires k <= |s| && SpacedRest(s[k..], rest)
    ensures IsSuffix(rest, s) && NoLeadingSpace(rest) && |rest| < |s| - k
  {
    assert s[k..][|s[k..]| - |rest|..] == s[|s| - |rest|..];
  }

  lemma {:induction false} SpaceRunOf(w: string, rest: string)
    requires AllSpace(w) && (rest == [] || !IsSpace(rest[0]))
    ensures SpaceRun(w + rest) == |w|
    decreases |w|
  {
    if w != [] {
      assert (w + rest)[1..] == w[1..] + rest;
      SpaceRunOf(w[1..], rest);
    } else {
      assert w + rest == rest;
    }
  }

  lemma SpacedRestOf(w: string, rest: string)
    requires w != [] && AllSpace(w) && (rest == [] || !IsSpace(rest[0]))
    ensures SpacedRest(w + rest, rest)
  {
    assert (w + rest)[|w|..] == rest;
    assert (w + rest)[..|w|] == w;
  }

  /** `\s+` followed by anything: the remainder after the maximal whitespace run,
      provided there is at least one whitespace character. */
  function SkipSpaces(s: string): (r: Option<string>)
    ensures r.Some? <==> (s != [] && IsSpace(s[0]))
    ensures r.Some? ==> SpacedRest(s, r.value)
  {
    if s != [] && IsSpace(s[0]) then Some(s[SpaceRun(s)..]) else None
  }

  /** DATE_PATTERN, `^(\d{4}-\d{2}-\d{2})\s+`. */
  function MatchDate(s: string): (r: Option<Match>)
    ensures r.Some? <==> |s| > 10 && IsDateToken(s[..10]) && IsSpace(s[10])
    ensures r.Some? ==> r.value.capture == s[..10] && SpacedRest(s[10..], r.value.rest)
    ensures r.Some? ==> IsSuffix(r.value.rest, s) && NoLeadingSpace(r.value.rest) && |r.value.rest| < |s|
  {
    if |s| >= 10 && IsDateToken(s[..10]) then
      match SkipSpaces(s[10..])
      case Some(rest) =>
        SpacedRestSuffix(s, 10, rest);
        Some(Match(s[..10], rest))
      case None => None
    else None
  }

  /** PRIORITY_PATTERN, `^\(([A-Z])\)\s+`. */
  function MatchPriority(s: string): (r: Option<Match>)
    ensures r.Some? <==> |s| > 3 && s[0] == '(' && IsUpper(s[1]) && s[2] == ')' && IsSpace(s[3])
    ensures r.Some? ==> r.value.capture == [s[1]] && SpacedRest(s[3..], r.value.rest)
    ensures r.Some? ==> IsSuffix(r.value.rest, s) && NoLeadingSpace(r.value.rest) && |r.value.rest| < |s|
  {
    if |s| >= 3 && s[0] == '(' && IsUpper(s[1]) && s[2] == ')' then
      match SkipSpaces(s[3..])
      case Some(rest) =>
        SpacedRestSuffix(s, 3, rest);
        Some(Match([s[1]], rest))
      case None => None
    else None
  }

  /** `s` starts with `x`, a non-empty whitespace run, a date token and whitespace;
      the date comes right after the maximal whitespace run. */
  predicate StartsCompleted(s: string) {
    |s| > 1 && s[0] == 'x' && IsSpace(s[1])
    && var k := 1 + SpaceRun(s[1..]);
    |s| > k + 10 && IsDateToken(s[k..k + 10]) && IsSpace(s[k + 10])
  }

  /** COMPLETED_PATTERN, `^x\s+(\d{4}-\d{2}-\d{2})\s+`. */
  function MatchCompleted(s: string): (r: Option<Match>)
    ensures r.Some? <==> StartsCompleted(s)
    ensures r.Some? ==> IsDateToken(r.value.capture)
    ensures r.Some? ==> IsSuffix(r.value.rest, s) && NoLeadingSpace(r.value.rest) && |r.value.rest| < |s|
  {
    if |s| > 1 && s[0] == 'x' && IsSpace(s[1]) then
      var k := 1 + SpaceRun(s[1..]);
      MatchDateAt(s, k);
      MatchDate(s[k..])
    else None
  }

  /** The date COMPLETED_PATTERN captures is the token after the marker's
      whitespace, and the match consumes the whitespace after it. */
  lemma MatchCompletedCapture(s: string)
    requires StartsCompleted(s)
    ensures var k := 1 + SpaceRun(s[1..]);
      MatchCompleted(s).Some? && MatchCompleted(s).value.capture == s[k..k + 10]
      && SpacedRest(s[k + 10..], MatchCompleted(s).value.rest)
  {
    var k := 1 + SpaceRun(s[1..]);
    MatchCompletedAfterMarker(s);
    MatchDateAt(s, k);
  }

  /** DATE_PATTERN applied at position `k` of `s`, in terms of `s` itself. */
  lemma MatchDateAt(s: string, k: nat)
    requires k <= |s|
    ensures var r := MatchDate(s[k..]);
      && (r.Some? <==> |s| > k + 10 && IsDateToken(s[k..k + 10]) && IsSpace(s[k + 10]))
      && (r.Some? ==> r.value.capture == s[k..k + 10] && SpacedRest(s[k + 10..], r.value.rest))
      && (r.Some? ==> IsSuffix(r.value.rest, s) && NoLeadingSpace(r.value.rest) && |r.value.rest| < |s|)
  {
    var t := s[k..];
    if |t| > 10 {
      assert t[..10] == s[k..k + 10] && t[10] == s[k + 10] && t[10..] == s[k + 10..];
    }
    var r := MatchDate(t);
    if r.Some? {
      IsSuffixTransitive(r.value.rest, t, s);
    }
  }

  /** Constructive side of DATE_PATTERN: a date, whitespace and a remainder match. */
  lemma MatchDateOf(d: string, w: string, rest: string)
    requires IsDateToken(d) && w != [] && AllSpace(w) && (rest == [] || !IsSpace(rest[0]))
    ensures MatchDate(d + w + rest) == Some(Match(d, rest))
  {
    var s := d + w + rest;
    assert s[..10] == d;
    assert s[10..] == w + rest;
    SpacedRestOf(w, rest);
    SpacedRestUnique(s[10..], MatchDate(s).value.rest, rest);
  }

  /** Constructive side of PRIORITY_PATTERN. */
  lemma MatchPriorityOf(c: char, w: string, rest: string)
    requires IsUpper(c) && w != [] && AllSpace(w) && (rest == [] || !IsSpace(rest[0]))
    ensures MatchPriority("(" + [c] + ")" + w + rest) == Some(Match([c], rest))
  {
    var s := "(" + [c] + ")" + w + rest;
    assert s[3..] == w + rest;
    SpacedRestOf(w, rest);
    SpacedRestUnique(s[3..], MatchPriority(s).value.rest, rest);
  }

  /** Constructive side of COMPLETED_PATTERN. */
  lemma MatchCompletedOf(w1: string, d: string, w2: string, rest: string)
    requires w1 != [] && AllSpace(w1) && IsDateToken(d)
    requires w2 != [] && AllSpace(w2) && (rest == [] || !IsSpace(rest[0]))
    ensures MatchCompleted("x" + w1 + d + w2 + rest) == Some(Match(d, rest))
  {
    var t := d + w2 + rest;
    assert "x" + w1 + d + w2 + rest == "x" + w1 + t;
    MarkerThenSpaces(w1, t);
    MatchCompletedAfterMarker("x" + w1 + t);
    MatchDateOf(d, w2, rest);
  }

  lemma MarkerThenSpaces(w: string, t: string)
    requires w != [] && AllSpace(w) && t != [] && !IsSpace(t[0])
    ensures var s := "x" + w + t;
      |s| > 1 && s[0] == 'x' && IsSpace(s[1]) && 1 + SpaceRun(s[1..]) == 1 + |w| && s[1 + |w|..] == t
  {
    var s := "x" + w + t;
    assert s[1..] == w + t;
    SpaceRunOf(w, t);
    assert s[1 + |w|..] == t;
  }

  /** After `x` and whitespace, COMPLETED_PATTERN is DATE_PATTERN on what follows the whitespace. */
  lemma MatchCompletedAfterMarker(s: string)
    requires |s| > 1 && s[0] == 'x' && IsSpace(s[1])
    ensures MatchCompleted(s) == MatchDate(s[1 + SpaceRun(s[1..])..])
  {
  }

  // ---------------------------------------------------------------------
  // Scanners

  /** Whitespace-separated words of `s`, in order: its maximal non-space runs. */
  function Words(s: string): (ws: seq<string>)
    ensures forall i :: 0 <= i < |ws| ==> ws[i] != [] && NoSpace(ws[i])
    decreases |s|
  {
    if s == [] then []
    else if IsSpace(s[0]) then Words(s[1..])
    else
      var n := NonSpaceRun(s);
      [s[..n]] + Words(s[n..])
  }

  lemma {:induction false} NonSpaceRunOf(w: string, rest: string)
    requires NoSpace(w) && (rest == [] || IsSpace(rest[0]))
    ensures NonSpaceRun(w + rest) == |w|
    decreases |w|
  {
    if w != [] {
      assert (w + rest)[1..] == w[1..] + rest;
      NonSpaceRunOf(w[1..], rest);
    } else {
      assert w + rest == rest;
    }
  }

  /** `re.findall(sigil + r"(\S+)", s)`: scanning left to right, at each position
      where `sigil` is followed by a non-space character, capture the maximal
      non-space run after it and resume after the capture; otherwise move on by
      one character. */
  function FindTags(sigil: char, s: string): (r: seq<string>)
    ensures forall i :: 0 <= i < |r| ==> r[i] != [] && NoSpace(r[i])
    decreases |s|
  {
    if s == [] then []
    else if s[0] == sigil && |s| > 1 && !IsSpace(s[1]) then
      var t := s[1..];
      var n := NonSpaceRun(t);
      [t[..n]] + FindTags(sigil, t[n..])
    else FindTags(sigil, s[1..])
  }

  /** What `FindTags` finds inside a single word: the rest of the word after the
      first `sigil` that is not the word's last character. */
  function TagOfWord(sigil: char, w: string): (r: seq<string>)
    ensures |r| <= 1
    ensures r != [] ==> r[0] != [] && |r[0]| < |w| && w[|w| - |r[0]| - 1..] == [sigil] + r[0]
  {
    if |w| < 2 then []
    else if w[0] == sigil then [w[1..]]
    else TagOfWord(sigil, w[1..])
  }

  /** Reference definition of the tag scan: one tag at most per word. */
  function TagsOfWords(sigil: char, ws: seq<string>): seq<string> {
    if ws == [] then [] else TagOfWord(sigil, ws[0]) + TagsOfWords(sigil, ws[1..])
  }

  lemma {:induction false} FindTagsWord(sigil: char, w: string, rest: string)
    requires w != [] && NoSpace(w) && (rest == [] || IsSpace(rest[0]))
    ensures FindTags(sigil, w + rest) == TagOfWord(sigil, w) + FindTags(sigil, rest)
    decreases |w|
  {
    var s := w + rest;
    if |w| == 1 {
      assert s[1..] == rest;
    } else if w[0] == sigil {
      var u := w[1..];
      assert s[1..] == u + rest;
      NonSpaceRunOf(u, rest);
      assert (u + rest)[..|u|] == u;
      assert (u + rest)[|u|..] == rest;
    } else {
      assert s[1..] == w[1..] + rest;
      FindTagsWord(sigil, w[1..], rest);
    }
  }

  /** The scan finds exactly the per-word tags, word by word: tags never span
      whitespace, and a word yields at most one tag, which runs to its end. */
  lemma {:induction false} FindTagsByWords(sigil: char, s: string)
    requires !IsSpace(sigil)
    ensures FindTags(sigil, s) == TagsOfWords(sigil, Words(s))
    decreases |s|
  {
    if s == [] {
    } else if IsSpace(s[0]) {
      FindTagsByWords(sigil, s[1..]);
    } else {
      var n := NonSpaceRun(s);
      assert s == s[..n] + s[n..];
      FindTagsWord(sigil, s[..n], s[n..]);
      FindTagsByWords(sigil, s[n..]);
      assert Words(s)[1..] == Words(s[n..]);
    }
  }

  predicate IsKeyStart(c: char) { 'a' <= c <= 'z' || 'A' <= c <= 'Z' || c == '_' }

  predicate IsKeyChar(c: char) { IsKeyStart(c) || IsDigit(c) }

  /** Length of the maximal run of `[a-zA-Z0-9_]` at the start of `s`. */
  function KeyRun(s: string): (n: nat)
    ensures n <= |s| && (forall i :: 0 <= i < n ==> IsKeyChar(s[i]))
    ensures n < |s| ==> !IsKeyChar(s[n])
  {
    if s != [] && IsKeyChar(s[0]) then 1 + KeyRun(s[1..]) else 0
  }

  /** The body of KEY_VALUE_PATTERN tried at the start of `s`:
      `([a-zA-Z_][a-zA-Z0-9_]*):([^\s]+)`, both groups greedy. The trailing
      `(?!\S*://)` is tested after the greedy value has consumed every
      non-space character, so it always succeeds and is not a condition here. */
  function KeyValueAt(s: string): (r: Option<(string, string)>)
    ensures r.Some? ==> 0 < |r.value.0| && |r.value.0| + 1 + |r.value.1| <= |s|
  {
    if s != [] && IsKeyStart(s[0]) then
      var k := KeyRun(s);
      if k + 1 < |s| && s[k] == ':' && !IsSpace(s[k + 1]) then
        var t := s[k + 1..];
        Some((s[..k], t[..NonSpaceRun(t)]))
      else None
    else None
  }

  /** `s` starts with the key-value match (`key`, `value`): a key of key
      characters starting with a letter or `_`, a `:`, and a non-empty value
      running to the next whitespace or the end of `s`. */
  predicate KeyValueShape(s: string, key: string, value: string) {
    var k := |key|;
    && k > 0 && k + 1 + |value| <= |s| && IsKeyStart(s[0]) && (forall i :: 0 <= i < k ==> IsKeyChar(s[i]))
    && s[..k] == key && s[k] == ':'
    && value != [] && NoSpace(value) && s[k + 1..k + 1 + |value|] == value
    && (k + 1 + |value| == |s| || IsSpace(s[k + 1 + |value|]))
  }

  /** What a key-value match is; there is none exactly when no key is
      followed by `:` and a non-space character. */
  lemma KeyValueAtMeaning(s: string)
    ensures var r := KeyValueAt(s);
      && (r.Some? ==> KeyValueShape(s, r.value.0, r.value.1))
      && (r.None? <==>
        !(s != [] && IsKeyStart(s[0]) && KeyRun(s) + 1 < |s| && s[KeyRun(s)] == ':' && !IsSpace(s[KeyRun(s) + 1])))
  {
    if s != [] && IsKeyStart(s[0]) {
      var k := KeyRun(s);
      if k + 1 < |s| && s[k] == ':' && !IsSpace(s[k + 1]) {
        var v := NonSpaceRun(s[k + 1..]);
        KeyValueFoundShape(s, k, v);
        KeyValueFoundValue(s, k, v);
        ShapeOfFound(s, k, v);
      }
    }
  }

  /** The facts about a found key of length `k` and value of length `v`, packed. */
  lemma ShapeOfFound(s: string, k: nat, v: nat)
    requires k > 0 && v > 0 && k + 1 + v <= |s| && IsKeyStart(s[0]) && s[k] == ':'
    requires forall i :: 0 <= i < k ==> IsKeyChar(s[i])
    requires NoSpace(s[k + 1..k + 1 + v]) && (k + 1 + v == |s| || IsSpace(s[k + 1 + v]))
    ensures KeyValueShape(s, s[..k], s[k + 1..k + 1 + v])
  {
  }

  lemma KeyValueFoundShape(s: string, k: nat, v: nat)
    requires s != [] && IsKeyStart(s[0]) && k == KeyRun(s) && k + 1 < |s| && !IsSpace(s[k + 1])
    requires v == NonSpaceRun(s[k + 1..])
    ensures k > 0 && v > 0 && k + 1 + v <= |s|
    ensures forall i :: 0 <= i < k ==> IsKeyChar(s[i])
    ensures NoSpace(s[k + 1..k + 1 + v]) && (k + 1 + v == |s| || IsSpace(s[k + 1 + v]))
  {
    var t := s[k + 1..];
    assert k > 0 by { assert IsKeyChar(s[0]); }
    assert v > 0 by { assert t[0] == s[k + 1]; }
    assert t[..v] == s[k + 1..k + 1 + v] by { SliceOfDrop(s, k + 1, v); }
    RunEndsAtSpace(s, k + 1);
  }

  lemma KeyValueFoundValue(s: string, k: nat, v: nat)
    requires s != [] && IsKeyStart(s[0]) && k == KeyRun(s) && k + 1 < |s| && s[k] == ':' && !IsSpace(s[k + 1])
    requires v == NonSpaceRun(s[k + 1..])
    ensures k + 1 + v <= |s| && KeyValueAt(s) == Some((s[..k], s[k + 1..k + 1 + v]))
  {
    var t := s[k + 1..];
    assert KeyValueAt(s) == Some((s[..k], t[..v])) by { KeyValueAtFound(s, k); }
    assert t[..v] == s[k + 1..k + 1 + v] by { SliceOfDrop(s, k + 1, v); }
  }

  lemma KeyValueAtFound(s: string, k: nat)
    requires s != [] && IsKeyStart(s[0]) && k == KeyRun(s) && k + 1 < |s| && s[k] == ':' && !IsSpace(s[k + 1])
    ensures KeyValueAt(s) == Some((s[..k], s[k + 1..][..NonSpaceRun(s[k + 1..])]))
  {
  }

  /** The non-space run from position `a` ends at the end of `s` or at whitespace. */
  lemma RunEndsAtSpace(s: string, a: nat)
    requires a <= |s|
    ensures var v := NonSpaceRun(s[a..]); a + v == |s| || IsSpace(s[a + v])
  {
    var v := NonSpaceRun(s[a..]);
    assert a + v < |s| ==> s[a + v] == s[a..][v];
  }

  /** `re.finditer` with KEY_VALUE_PATTERN: `boundary` says whether the
      look-behind `(?<!\S)` holds here (start of the string, or after
      whitespace). A match resumes right after its value, where the look-behind
      fails. */
  function FindKeyValues(s: string, boundary: bool): (r: seq<(string, string)>)
    ensures |r| <= |s|
    ensures forall i :: 0 <= i < |r| ==> r[i].0 != []
    decreases |s|
  {
    if s == [] then []
    else if boundary && KeyValueAt(s).Some? then
      var kv := KeyValueAt(s).value;
      var n := |kv.0| + 1 + |kv.1|;
      [kv] + FindKeyValues(s[n..], false)
    else FindKeyValues(s[1..], IsSpace(s[0]))
  }

  /** All key-value matches of `s`, in order. */
  function KeyValueMatches(s: string): (r: seq<(string, string)>)
    ensures |r| <= |s|
    ensures forall i :: 0 <= i < |r| ==> r[i].0 != []
  {
    FindKeyValues(s, true)
  }

  /** Reference definition of the key-value scan: each word that is, as a whole,
      `key:value` contributes one pair. */
  function KeyValuesOfWords(ws: seq<string>): seq<(string, string)> {
    if ws == [] then []
    else (match KeyValueAt(ws[0]) case Some(kv) => [kv] case None => []) + KeyValuesOfWords(ws[1..])
  }

  lemma {:induction false} KeyRunOf(w: string, rest: string)
    requires rest == [] || !IsKeyChar(rest[0])
    ensures KeyRun(w + rest) == KeyRun(w)
    decreases |w|
  {
    if w != [] {
      assert (w + rest)[1..] == w[1..] + rest;
      KeyRunOf(w[1..], rest);
    } else {
      assert w + rest == rest;
    }
  }

  lemma KeyValueAtWord(w: string, rest: string)
    requires w != [] && NoSpace(w) && (rest == [] || IsSpace(rest[0]))
    ensures KeyValueAt(w + rest) == KeyValueAt(w)
    ensures KeyValueAt(w).Some? ==> |KeyValueAt(w).value.0| + 1 + |KeyValueAt(w).value.1| == |w|
  {
    var s := w + rest;
    assert s[0] == w[0];
    if IsKeyStart(w[0]) {
      KeyRunOf(w, rest);
      var k := KeyRun(w);
      KeyColonWord(w, rest, k);
      if k + 1 < |w| && w[k] == ':' && !IsSpace(w[k + 1]) {
        KeyValueWordParts(w, rest, k);
        KeyValueAtFound(s, k);
        KeyValueAtFound(w, k);
      }
    }
  }

  /** The `:` and the first value character are inside the word or not at all. */
  lemma KeyColonWord(w: string, rest: string, k: nat)
    requires k <= |w| && NoSpace(w) && (rest == [] || IsSpace(rest[0]))
    ensures var s := w + rest;
      (k + 1 < |s| && s[k] == ':' && !IsSpace(s[k + 1])) <==> (k + 1 < |w| && w[k] == ':' && !IsSpace(w[k + 1]))
  {
    var s := w + rest;
    if k + 1 < |w| {
      assert s[k] == w[k] && s[k + 1] == w[k + 1];
    } else if k + 1 == |w| {
      assert k + 1 < |s| ==> s[k + 1] == rest[0];
    } else {
      assert k < |s| ==> s[k] == rest[0];
    }
  }

  /** Key and value read from the word followed by whitespace are those of the word. */
  lemma KeyValueWordParts(w: string, rest: string, k: nat)
    requires k + 1 < |w| && NoSpace(w) && (rest == [] || IsSpace(rest[0]))
    ensures var s := w + rest;
      && s[..k] == w[..k]
      && s[k + 1..][..NonSpaceRun(s[k + 1..])] == w[k + 1..]
      && w[k + 1..][..NonSpaceRun(w[k + 1..])] == w[k + 1..]
  {
    var s := w + rest;
    var u := w[k + 1..];
    assert s[k + 1..] == u + rest;
    NonSpaceRunOf(u, rest);
    assert (u + rest)[..|u|] == u;
    assert u + [] == u;
    NonSpaceRunOf(u, []);
  }


  lemma {:induction false} FindKeyValuesSkipWord(w: string, rest: string)
    requires NoSpace(w)
    ensures FindKeyValues(w + rest, false) == FindKeyValues(rest, false)
    decreases |w|
  {
    if w == [] {
      assert w + rest == rest;
    } else {
      assert (w + rest)[1..] == w[1..] + rest;
      FindKeyValuesSkipWord(w[1..], rest);
    }
  }

  /** The key-value scan finds exactly one pair per word of the form
      `key:value`, in word order. In particular `https://x` yields the pair
      (`https`, `//x`). */
  lemma {:induction false} KeyValueMatchesByWords(s: string)
    ensures KeyValueMatches(s) == KeyValuesOfWords(Words(s))
    decreases |s|
  {
    if s == [] {
    } else if IsSpace(s[0]) {
      KeyValueMatchesByWords(s[1..]);
    } else {
      var n := NonSpaceRun(s);
      var w, t := s[..n], s[n..];
      assert s == w + t;
      KeyValueScanWord(w, t);
      assert Words(s) == [w] + Words(t);
      assert ([w] + Words(t))[1..] == Words(t);
      if t != [] {
        assert FindKeyValues(t, false) == KeyValueMatches(t[1..]);
        assert Words(t) == Words(t[1..]);
        KeyValueMatchesByWords(t[1..]);
      }
    }
  }

  /** A word at the start of the scan contributes its own pair, if any, and
      then the scan goes on after it. */
  lemma KeyValueScanWord(w: string, t: string)
    requires w != [] && NoSpace(w) && (t == [] || IsSpace(t[0]))
    ensures KeyValueMatches(w + t)
      == (match KeyValueAt(w) case Some(kv) => [kv] case None => []) + FindKeyValues(t, false)
  {
    var s := w + t;
    KeyValueAtWord(w, t);
    if KeyValueAt(w).Some? {
      assert s[|w|..] == t;
    } else {
      assert s[1..] == w[1..] + t;
      FindKeyValuesSkipWord(w[1..], t);
    }
  }
}
