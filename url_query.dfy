/** The part of `URLSearchParams` the dashboard uses: `get` and `set` on an ordered list of pairs. */
module UrlQuery {
  import opened Wrappers

  type Query = seq<(string, string)>

  predicate HasKey(q: Query, k: string) {
    exists i :: 0 <= i < |q| && q[i].0 == k
  }

  /** `params.get(k)`: the value of the first pair named `k`, or null. */
  function Get(q: Query, k: string): (r: Option<string>)
    ensures r.Some? <==> HasKey(q, k)
    ensures r.Some? ==> exists i :: 0 <= i < |q| && q[i] == (k, r.value) && forall j :: 0 <= j < i ==> q[j].0 != k
  {
    if q == [] then None
    else if q[0].0 == k then Some(q[0].1)
    else
      var r := Get(q[1..], k);
      assert HasKey(q, k) ==> HasKey(q[1..], k) by {
        if HasKey(q, k) { var i :| 0 <= i < |q| && q[i].0 == k; assert q[1..][i - 1].0 == k; }
      }
      if r.Some? then
        var i :| 0 <= i < |q[1..]| && q[1..][i] == (k, r.value) && forall j :: 0 <= j < i ==> q[1..][j].0 != k;
        assert q[i + 1] == (k, r.value);
        r
      else r
  }

  function RemoveKey(q: Query, k: string): (r: Query)
    ensures !HasKey(r, k)
    ensures forall k' :: k' != k ==> Get(r, k') == Get(q, k')
  {
    if q == [] then []
    else if q[0].0 == k then RemoveKey(q[1..], k)
    else [q[0]] + RemoveKey(q[1..], k)
  }

  /** `params.set(k, v)`: the first pair named `k` takes value `v` and later ones go; without one, the pair is appended. */
  function Set(q: Query, k: string, v: string): (r: Query)
    ensures Get(r, k) == Some(v)
    ensures forall k' :: k' != k ==> Get(r, k') == Get(q, k')
  {
    if q == [] then [(k, v)]
    else if q[0].0 == k then [(k, v)] + RemoveKey(q[1..], k)
    else [q[0]] + Set(q[1..], k, v)
  }

  /** Setting a key that is not there appends exactly one pair. */
  lemma {:induction false} SetAppends(q: Query, k: string, v: string)
    requires !HasKey(q, k)
    ensures Set(q, k, v) == q + [(k, v)]
  {
    if q != [] {
      SetAppends(q[1..], k, v);
    }
  }

  /** Appending a pair changes what `get` returns only for a key that was not there before. */
  lemma {:induction false} GetAppend(q: Query, k: string, v: string, k': string)
    ensures Get(q + [(k, v)], k') == if HasKey(q, k') then Get(q, k') else if k == k' then Some(v) else None
  {
    if q != [] {
      assert (q + [(k, v)])[1..] == q[1..] + [(k, v)];
      GetAppend(q[1..], k, v, k');
      if q[0].0 != k' && HasKey(q, k') {
        var i :| 0 <= i < |q| && q[i].0 == k';
        assert q[1..][i - 1].0 == k';
      }
    }
  }

  // ---------------------------------------------------------------------------------------
  // Query parameters from an object's entries
  // ---------------------------------------------------------------------------------------

  /** An entry of an object whose entries become query parameters; `None` is null or undefined. */
  type Param = (string, Option<string>)

  predicate DistinctNames(es: seq<Param>) {
    forall i, j :: 0 <= i < j < |es| ==> es[i].0 != es[j].0
  }

  /** Whether an entry is written: `v != null`, or with `dropEmpty` the truthiness test `v && ...`. */
  predicate Written(v: Option<string>, dropEmpty: bool) {
    v.Some? && (!dropEmpty || v.value != "")
  }

  /** The pairs a fresh `URLSearchParams` holds after `set` on each written entry in turn. */
  function Kept(es: seq<Param>, dropEmpty: bool): Query {
    if es == [] then []
    else
      var e := es[|es| - 1];
      Kept(es[..|es| - 1], dropEmpty) + if Written(e.1, dropEmpty) then [(e.0, e.1.value)] else []
  }

  /** The value an entry named `k` contributes, if it is written. */
  function Lookup(es: seq<Param>, k: string, dropEmpty: bool): Option<string> {
    if es == [] then None
    else if es[|es| - 1].0 == k then (if Written(es[|es| - 1].1, dropEmpty) then es[|es| - 1].1 else None)
    else Lookup(es[..|es| - 1], k, dropEmpty)
  }

  lemma {:induction false} KeptKeys(es: seq<Param>, dropEmpty: bool, k: string)
    requires forall i :: 0 <= i < |es| ==> es[i].0 != k
    ensures !HasKey(Kept(es, dropEmpty), k)
  {
    if es != [] {
      KeptKeys(es[..|es| - 1], dropEmpty, k);
    }
  }

  /** Reading a parameter back from the built query gives the written value of its entry. */
  lemma {:induction false} GetKept(es: seq<Param>, dropEmpty: bool, k: string)
    requires DistinctNames(es)
    ensures Get(Kept(es, dropEmpty), k) == Lookup(es, k, dropEmpty)
  {
    if es != [] {
      var init, e := es[..|es| - 1], es[|es| - 1];
      var kept := Kept(init, dropEmpty);
      assert DistinctNames(init) by {
        forall i, j | 0 <= i < j < |init| ensures init[i].0 != init[j].0 {
          assert init[i] == es[i] && init[j] == es[j];
        }
      }
      GetKept(init, dropEmpty, k);
      if e.0 == k {
        forall i | 0 <= i < |init| ensures init[i].0 != k {
          assert init[i] == es[i];
        }
        KeptKeys(init, dropEmpty, k);
        assert Get(kept, k) == None;
      }
      if Written(e.1, dropEmpty) {
        GetAppend(kept, e.0, e.1.value, k);
        if !HasKey(kept, k) {
          assert Get(kept, k) == None;
        }
      } else {
        assert Kept(es, dropEmpty) == kept + [];
        assert kept + [] == kept;
      }
    }
  }

  /** The entry at position `i` is the one a lookup of its key finds. */
  lemma {:induction false} LookupAt(es: seq<Param>, i: nat, dropEmpty: bool)
    requires DistinctNames(es) && i < |es|
    ensures Lookup(es, es[i].0, dropEmpty) == if Written(es[i].1, dropEmpty) then es[i].1 else None
  {
    if i < |es| - 1 {
      var init := es[..|es| - 1];
      assert init[i] == es[i];
      assert DistinctNames(init) by {
        forall a, b | 0 <= a < b < |init| ensures init[a].0 != init[b].0 {
          assert init[a] == es[a] && init[b] == es[b];
        }
      }
      LookupAt(init, i, dropEmpty);
    }
  }

  /** A key no entry has is never found. */
  lemma {:induction false} LookupAbsent(es: seq<Param>, k: string, dropEmpty: bool)
    requires forall i :: 0 <= i < |es| ==> es[i].0 != k
    ensures Lookup(es, k, dropEmpty) == None
  {
    if es != [] {
      LookupAbsent(es[..|es| - 1], k, dropEmpty);
    }
  }

  /**
   * `Object.entries(params).forEach(([k, v]) => ... && sp.set(k, String(v)))`: every key is
   * new, so each `set` appends.
   */
  method FromEntries(es: seq<Param>, dropEmpty: bool) returns (sp: Query)
    requires DistinctNames(es)
    ensures sp == Kept(es, dropEmpty)
  {
    sp := [];
    for i := 0 to |es|
      invariant sp == Kept(es[..i], dropEmpty)
    {
      assert es[..i + 1][..i] == es[..i];
      var (k, v) := es[i];
      if Written(v, dropEmpty) {
        KeptKeys(es[..i], dropEmpty, k);
        SetAppends(sp, k, v.value);
        sp := Set(sp, k, v.value);
      }
    }
    assert es[..|es|] == es;
  }

  /** The written value of the parameter at position `i`, read back from the built query. */
  lemma ReadBack(es: seq<Param>, i: nat, dropEmpty: bool)
    requires DistinctNames(es) && i < |es|
    ensures Get(Kept(es, dropEmpty), es[i].0) == if Written(es[i].1, dropEmpty) then es[i].1 else None
  {
    GetKept(es, dropEmpty, es[i].0);
    LookupAt(es, i, dropEmpty);
  }

  /** A parameter no entry names is absent from the built query. */
  lemma ReadAbsent(es: seq<Param>, k: string, dropEmpty: bool)
    requires DistinctNames(es) && forall i :: 0 <= i < |es| ==> es[i].0 != k
    ensures Get(Kept(es, dropEmpty), k) == None
  {
    GetKept(es, dropEmpty, k);
    LookupAbsent(es, k, dropEmpty);
  }
}
