/** Characters and string helpers shared by the todo.txt codec.

    The original works on Python `str` values with Unicode-aware `\s`, `\d`
    and `str.strip()`; this model uses one ASCII whitespace class and ASCII
    digits for all of them. */
module Text {

  datatype Option<+T> = None | Some(value: T)

  /** The whitespace class used for `str.strip()`, `\s` and `\S`. */
  predicate IsSpace(c: char) {
    c == ' ' || c == '\t' || c == '\n' || c == '\r' || c == '\U{B}' || c == '\U{C}'
  }

  predicate IsDigit(c: char) { '0' <= c <= '9' }

  predicate IsUpper(c: char) { 'A' <= c <= 'Z' }

  predicate AllSpace(s: string) { forall i :: 0 <= i < |s| ==> IsSpace(s[i]) }

  predicate NoSpace(s: string) { forall i :: 0 <= i < |s| ==> !IsSpace(s[i]) }

  /** Neither starts nor ends with whitespace. */
  predicate Trimmed(s: string) { s == [] || (!IsSpace(s[0]) && !IsSpace(s[|s| - 1])) }

  predicate StartsWith(s: string, p: string) { |p| <= |s| && s[..|p|] == p }

  predicate IsSuffix(r: string, s: string) { |r| <= |s| && s[|s| - |r|..] == r }

  predicate NoLeadingSpace(s: string) { s == [] || !IsSpace(s[0]) }

  /** No line break characters. */
  predicate SingleLine(s: string) { forall i :: 0 <= i < |s| ==> s[i] != '\n' && s[i] != '\r' }

  lemma IsSuffixTransitive(a: string, b: string, c: string)
    requires IsSuffix(a, b) && IsSuffix(b, c)
    ensures IsSuffix(a, c)
  {
    assert c[|c| - |b|..][|b| - |a|..] == c[|c| - |a|..];
  }

  /** A suffix of a trimmed string that does not start with whitespace is trimmed. */
  lemma SuffixTrimmed(s: string, r: string)
    requires Trimmed(s) && IsSuffix(r, s) && NoLeadingSpace(r)
    ensures Trimmed(r)
  {
    if r != [] {
      assert r[|r| - 1] == s[|s| - 1];
    }
  }

  lemma SuffixSingleLine(s: string, r: string)
    requires SingleLine(s) && IsSuffix(r, s)
    ensures SingleLine(r)
  {
    forall i | 0 <= i < |r| ensures r[i] != '\n' && r[i] != '\r' {
      assert r[i] == s[|s| - |r| + i];
    }
  }

  /** Length of the maximal run of whitespace at the start of `s`. */
  function SpaceRun(s: string): (n: nat)
    ensures n <= |s| && AllSpace(s[..n])
    ensures n < |s| ==> !IsSpace(s[n])
  {
    if s != [] && IsSpace(s[0]) then 1 + SpaceRun(s[1..]) else 0
  }

  /** Length of the maximal run of non-whitespace at the start of `s`. */
  function NonSpaceRun(s: string): (n: nat)
    ensures n <= |s| && NoSpace(s[..n])
    ensures n < |s| ==> IsSpace(s[n])
  {
    if s != [] && !IsSpace(s[0]) then 1 + NonSpaceRun(s[1..]) else 0
  }

  /** Length of the maximal run of whitespace at the end of `s`. */
  function TrailingSpaceRun(s: string): (n: nat)
    ensures n <= |s| && AllSpace(s[|s| - n..])
    ensures n < |s| ==> !IsSpace(s[|s| - n - 1])
  {
    if s != [] && IsSpace(s[|s| - 1]) then 1 + TrailingSpaceRun(s[..|s| - 1]) else 0
  }

  /** `str.strip()`: `s` without its leading and trailing whitespace. */
  function Strip(s: string): (r: string)
    ensures Trimmed(r) && |r| <= |s|
  {
    var t := s[SpaceRun(s)..];
    var m := TrailingSpaceRun(t);
    assert t[..|t| - m] != [] ==> t[..|t| - m][0] == t[0] && t[..|t| - m][|t| - m - 1] == t[|t| - m - 1];
    t[..|t| - m]
  }

  /** What `Strip` removes: the leading whitespace run and the trailing one;
      what it keeps is the slice of `s` between them. */
  lemma StripSlice(s: string)
    ensures var n := SpaceRun(s); var r := Strip(s);
      && n + |r| <= |s| && r == s[n..n + |r|]
      && AllSpace(s[..n]) && AllSpace(s[n + |r|..])
  {
    StripKept(s);
    StripTrailing(s);
  }

  lemma StripKept(s: string)
    ensures SpaceRun(s) + |Strip(s)| <= |s| && Strip(s) == s[SpaceRun(s)..SpaceRun(s) + |Strip(s)|]
  {
    var n := SpaceRun(s);
    var t := s[n..];
    SliceOfDrop(s, n, |t| - TrailingSpaceRun(t));
  }

  lemma StripTrailing(s: string)
    ensures SpaceRun(s) + |Strip(s)| <= |s| && AllSpace(s[SpaceRun(s) + |Strip(s)|..])
  {
    var n := SpaceRun(s);
    var t := s[n..];
    DropOfDrop(s, n, |t| - TrailingSpaceRun(t));
  }

  lemma SliceOfDrop(s: string, a: nat, n: nat)
    requires a + n <= |s|
    ensures s[a..][..n] == s[a..a + n]
  {
  }

  lemma DropOfDrop(s: string, a: nat, n: nat)
    requires a + n <= |s|
    ensures s[a..][n..] == s[a + n..]
  {
  }

  lemma StripSingleLine(s: string)
    requires SingleLine(s)
    ensures SingleLine(Strip(s))
  {
    var r := Strip(s);
    forall i | 0 <= i < |r| ensures r[i] != '\n' && r[i] != '\r' {
      assert r[i] == s[SpaceRun(s) + i];
    }
  }

  lemma StripTrimmed(s: string)
    requires Trimmed(s)
    ensures Strip(s) == s
  {
  }

  lemma StripIdempotent(s: string)
    ensures Strip(Strip(s)) == Strip(s)
  {
    StripTrimmed(Strip(s));
  }

  /** Stripping leaves nothing exactly when the string is all whitespace. */
  lemma StripEmptyIff(s: string)
    ensures Strip(s) == [] <==> AllSpace(s)
  {
  }

  /** `text.replace("\n", " ").replace("\r", " ")`. */
  function ReplaceNewlines(s: string): (r: string)
    ensures |r| == |s| && SingleLine(r)
    ensures forall i :: 0 <= i < |s| && s[i] != '\n' && s[i] != '\r' ==> r[i] == s[i]
    ensures forall i :: 0 <= i < |s| && (s[i] == '\n' || s[i] == '\r') ==> r[i] == ' '
  {
    seq(|s|, i requires 0 <= i < |s| => if s[i] == '\n' || s[i] == '\r' then ' ' else s[i])
  }

  /** `p` occurs in `s` at position `i`. */
  predicate OccursAt(s: string, p: string, i: int) {
    0 <= i <= |s| - |p| && s[i..i + |p|] == p
  }

  /** Python's `p in s` on strings: `p` occurs somewhere in `s`. */
  function Contains(s: string, p: string): (b: bool)
    ensures b <==> exists i :: OccursAt(s, p, i)
    decreases |s|
  {
    if StartsWith(s, p) then
      assert OccursAt(s, p, 0);
      true
    else if s == [] then false
    else
      var b := Contains(s[1..], p);
      assert b ==> exists i :: OccursAt(s, p, i) by {
        if b {
          var i :| OccursAt(s[1..], p, i);
          assert s[i + 1..i + 1 + |p|] == s[1..][i..i + |p|];
          assert OccursAt(s, p, i + 1);
        }
      }
      assert (exists i :: OccursAt(s, p, i)) ==> b by {
        if exists i :: OccursAt(s, p, i) {
          var i :| OccursAt(s, p, i);
          assert i != 0;
          assert s[1..][i - 1..i - 1 + |p|] == s[i..i + |p|];
          assert OccursAt(s[1..], p, i - 1);
        }
      }
      b
  }

  /** `sep.join(parts)`. */
  function Join(parts: seq<string>, sep: string): (r: string)
    ensures |parts| == 1 ==> r == parts[0]
  {
    if parts == [] then []
    else if |parts| == 1 then parts[0]
    else parts[0] + sep + Join(parts[1..], sep)
  }

  /** Joining two non-empty lists of parts joins each and puts one separator between them. */
  lemma {:induction false} JoinConcat(a: seq<string>, b: seq<string>, sep: string)
    requires a != [] && b != []
    ensures Join(a + b, sep) == Join(a, sep) + sep + Join(b, sep)
    decreases |a|
  {
    if |a| == 1 {
      assert (a + b)[1..] == b;
    } else {
      assert (a + b)[1..] == a[1..] + b;
      JoinConcat(a[1..], b, sep);
    }
  }
}
