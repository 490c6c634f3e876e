/** Python's `dict[str, str]`, which remembers insertion order: a list of
    entries whose keys are distinct. Assigning to an existing key replaces its
    value in place; a new key goes to the end. */
module OrderedDict {
  import opened Text

  type Dict = seq<(string, string)>

  /** The keys, in entry order. */
  function Keys(d: seq<(string, string)>): (ks: seq<string>)
    ensures |ks| == |d|
  {
    if d == [] then [] else [d[0].0] + Keys(d[1..])
  }

  lemma {:induction false} KeysConcat(a: seq<(string, string)>, b: seq<(string, string)>)
    ensures Keys(a + b) == Keys(a) + Keys(b)
    decreases |a|
  {
    if a == [] {
      assert a + b == b;
    } else {
      assert (a + b)[1..] == a[1..] + b;
      KeysConcat(a[1..], b);
    }
  }

  predicate Distinct(ks: seq<string>) {
    forall i, j :: 0 <= i < j < |ks| ==> ks[i] != ks[j]
  }

  predicate UniqueKeys(d: Dict) { Distinct(Keys(d)) }

  /** `d.get(k)`: the value of the first entry with key `k`. */
  function Lookup(d: Dict, k: string): (r: Option<string>)
    ensures r.Some? <==> k in Keys(d)
    ensures r.Some? ==> (k, r.value) in d
  {
    if d == [] then None
    else if d[0].0 == k then Some(d[0].1)
    else Lookup(d[1..], k)
  }

  /** `d[k] = v`. */
  function Put(d: Dict, k: string, v: string): (r: Dict)
    ensures |r| == if Lookup(d, k).Some? then |d| else |d| + 1
  {
    if d == [] then [(k, v)]
    else if d[0].0 == k then [(k, v)] + d[1..]
    else [d[0]] + Put(d[1..], k, v)
  }

  /** After `d[k] = v`, `k` maps to `v` and every other key is unaffected. */
  lemma {:induction false} PutLookup(d: Dict, k: string, v: string, k': string)
    ensures Lookup(Put(d, k, v), k') == if k' == k then Some(v) else Lookup(d, k')
    decreases |d|
  {
    if d != [] && d[0].0 != k {
      PutLookup(d[1..], k, v, k');
    }
  }

  /** An existing key keeps its position; a new key is appended. */
  lemma {:induction false} PutKeys(d: Dict, k: string, v: string)
    ensures Keys(Put(d, k, v)) == if Lookup(d, k).Some? then Keys(d) else Keys(d) + [k]
    decreases |d|
  {
    if d != [] && d[0].0 != k {
      PutKeys(d[1..], k, v);
    }
  }

  /** The distinct elements of `ks`, each at the position of its first occurrence. */
  function FirstOccurrences(ks: seq<string>): (r: seq<string>)
    ensures Distinct(r)
    ensures forall x :: x in r <==> x in ks
  {
    if ks == [] then []
    else
      var p := FirstOccurrences(ks[..|ks| - 1]);
      assert ks == ks[..|ks| - 1] + [ks[|ks| - 1]];
      if ks[|ks| - 1] in p then p else p + [ks[|ks| - 1]]
  }

  /** `i` is the position of the last pair in `ps` with key `k`. */
  predicate LastWith(ps: seq<(string, string)>, k: string, i: int) {
    0 <= i < |ps| && ps[i].0 == k && forall j :: i < j < |ps| ==> ps[j].0 != k
  }

  /** The value of the last pair in `ps` whose key is `k`. */
  function LastValue(ps: seq<(string, string)>, k: string): (r: Option<string>)
    ensures r.None? <==> forall i :: 0 <= i < |ps| ==> ps[i].0 != k
    ensures r.Some? ==> exists i :: LastWith(ps, k, i) && ps[i].1 == r.value
  {
    if ps == [] then None
    else if ps[|ps| - 1].0 == k then
      assert LastWith(ps, k, |ps| - 1);
      Some(ps[|ps| - 1].1)
    else
      var r := LastValue(ps[..|ps| - 1], k);
      assert r.Some? ==> exists i :: LastWith(ps, k, i) && ps[i].1 == r.value by {
        if r.Some? {
          var i :| LastWith(ps[..|ps| - 1], k, i) && ps[..|ps| - 1][i].1 == r.value;
          assert LastWith(ps, k, i);
        }
      }
      r
  }

  /** The dictionary built by `for k, v in ps: d[k] = v`, starting empty. */
  function FromPairs(ps: seq<(string, string)>): (d: Dict)
    ensures |d| <= |ps|
    decreases |ps|
  {
    if ps == [] then []
    else Put(FromPairs(ps[..|ps| - 1]), ps[|ps| - 1].0, ps[|ps| - 1].1)
  }

  /** One more assignment of the loop over `ps`. */
  lemma FromPairsPrefixStep(ps: seq<(string, string)>, i: nat)
    requires i < |ps|
    ensures FromPairs(ps[..i + 1]) == Put(FromPairs(ps[..i]), ps[i].0, ps[i].1)
  {
    assert ps[..i + 1][..i] == ps[..i];
  }

  /** Every key keeps the last value assigned to it. */
  lemma {:induction false} FromPairsLookup(ps: seq<(string, string)>, k: string)
    ensures Lookup(FromPairs(ps), k) == LastValue(ps, k)
    decreases |ps|
  {
    if ps != [] {
      FromPairsLookup(ps[..|ps| - 1], k);
      PutLookup(FromPairs(ps[..|ps| - 1]), ps[|ps| - 1].0, ps[|ps| - 1].1, k);
    }
  }

  /** Keys are distinct and appear in the order of their first assignment. */
  lemma {:induction false} FromPairsKeys(ps: seq<(string, string)>)
    ensures Keys(FromPairs(ps)) == FirstOccurrences(Keys(ps))
    ensures UniqueKeys(FromPairs(ps))
    decreases |ps|
  {
    if ps != [] {
      var init, last := ps[..|ps| - 1], ps[|ps| - 1];
      FromPairsKeys(init);
      PutKeys(FromPairs(init), last.0, last.1);
      KeysSnoc(ps);
      FirstOccurrencesStep(Keys(ps));
    }
  }

  lemma KeysSnoc(ps: seq<(string, string)>)
    requires ps != []
    ensures Keys(ps)[..|ps| - 1] == Keys(ps[..|ps| - 1]) && Keys(ps)[|ps| - 1] == ps[|ps| - 1].0
  {
    var init, last := ps[..|ps| - 1], ps[|ps| - 1];
    assert Keys([last]) == [last.0] by {
      assert [last][1..] == [];
    }
    assert Keys(ps) == Keys(init) + [last.0] by {
      assert ps == init + [last];
      KeysConcat(init, [last]);
    }
    SnocParts(Keys(init), last.0);
  }

  lemma SnocParts(a: seq<string>, x: string)
    ensures (a + [x])[..|a|] == a && (a + [x])[|a|] == x
  {
  }

  lemma FirstOccurrencesStep(ks: seq<string>)
    requires ks != []
    ensures var p := FirstOccurrences(ks[..|ks| - 1]);
      FirstOccurrences(ks) == if ks[|ks| - 1] in p then p else p + [ks[|ks| - 1]]
  {
  }
}
