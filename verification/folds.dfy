/**
 * Generic left folds used by the reports: Python's `sum(...)` over a list and
 * the `d[k] = d.get(k, 0) + v` dictionary accumulation, whose keys keep the
 * order in which they were first inserted. The dictionary fold visits one
 * optional entry per input record; `None` is a record the loop skips.
 */
module Folds {

  import opened Wrappers

  /** Sum of `f` over `s`, folded from the left. */
  function SumOf<T>(s: seq<T>, f: T -> int): int
  {
    if |s| == 0 then 0 else SumOf(s[..|s| - 1], f) + f(s[|s| - 1])
  }

  /** Summing over a concatenation is summing over each part. */
  lemma {:induction false} SumOfAppend<T>(a: seq<T>, b: seq<T>, f: T -> int)
    ensures SumOf(a + b, f) == SumOf(a, f) + SumOf(b, f)
    decreases |b|
  {
    if |b| == 0 {
      assert a + b == a;
    } else {
      var b' := b[..|b| - 1];
      assert (a + b)[..|a + b| - 1] == a + b';
      SumOfAppend(a, b', f);
    }
  }

  /** Appending one element adds its amount to the sum. */
  lemma {:induction false} SumOfSnoc<T>(s: seq<T>, x: T, f: T -> int)
    ensures SumOf(s + [x], f) == SumOf(s, f) + f(x)
  {
    assert (s + [x])[..|s|] == s;
  }

  /** Replacing one element changes the sum by exactly the difference it makes. */
  lemma {:induction false} SumOfUpdate<T>(s: seq<T>, i: nat, x: T, f: T -> int)
    requires i < |s|
    ensures SumOf(s[i := x], f) == SumOf(s, f) - f(s[i]) + f(x)
    decreases |s|
  {
    var n := |s| - 1;
    if i == n {
      assert s[i := x][..n] == s[..n];
    } else {
      assert s[i := x][..n] == s[..n][i := x];
      SumOfUpdate(s[..n], i, x, f);
    }
  }

  /** Position of the first element satisfying `p`, if there is one. */
  function FindFirst<T>(xs: seq<T>, p: T -> bool): (r: Option<nat>)
    ensures r.Some? ==> r.value < |xs| && p(xs[r.value])
    ensures r.Some? ==> forall j :: 0 <= j < r.value ==> !p(xs[j])
    ensures r.None? <==> forall j :: 0 <= j < |xs| ==> !p(xs[j])
  {
    if |xs| == 0 then None
    else if p(xs[0]) then Some(0)
    else match FindFirst(xs[1..], p)
      case None => None
      case Some(i) => Some(i + 1)
  }

  /**
   * Position of the first entry with key `k`, or `|r|` when there is none: the
   * position at which `Upsert` appends a new key.
   */
  function Find<K(==)>(r: seq<(K, int)>, k: K): (i: nat)
    ensures i <= |r|
    ensures i < |r| ==> r[i].0 == k
    ensures forall j :: 0 <= j < i ==> r[j].0 != k
  {
    match FindFirst(r, (e: (K, int)) => e.0 == k)
    case Some(i) => i
    case None => |r|
  }

  /** An entry with key `k` preceded only by other keys is the one `Find` reports. */
  lemma {:induction false} FindAt<K>(r: seq<(K, int)>, k: K, i: nat)
    requires i <= |r|
    requires i < |r| ==> r[i].0 == k
    requires forall j :: 0 <= j < i ==> r[j].0 != k
    ensures Find(r, k) == i
  {
  }

  /** The value accumulated under `k`, or 0 when `k` has no entry (`d.get(k, 0)`). */
  function Get<K(==)>(r: seq<(K, int)>, k: K): int
  {
    var i := Find(r, k);
    if i < |r| then r[i].1 else 0
  }

  /** `d[k] = d.get(k, 0) + v`: an existing key keeps its position, a new key goes last. */
  function Upsert<K(==)>(r: seq<(K, int)>, k: K, v: int): (r': seq<(K, int)>)
    ensures Get(r', k) == Get(r, k) + v
    ensures Find(r, k) < |r| ==> |r'| == |r|
    ensures Find(r, k) == |r| ==> r' == r + [(k, v)]
    ensures forall j :: 0 <= j < |r| ==> r'[j].0 == r[j].0
    ensures forall j :: 0 <= j < |r| && r[j].0 != k ==> r'[j] == r[j]
  {
    var i := Find(r, k);
    if i < |r| then
      var r' := r[i := (k, r[i].1 + v)];
      FindAt(r', k, i);
      r'
    else
      var r' := r + [(k, v)];
      FindAt(r', k, |r|);
      r'
  }

  /** The keys of a dictionary, as a set. */
  function LabelsOf<K>(r: seq<(K, int)>): (ks: set<K>)
    ensures forall i :: 0 <= i < |r| ==> r[i].0 in ks
    ensures forall k :: k in ks ==> exists i :: 0 <= i < |r| && r[i].0 == k
  {
    if |r| == 0 then {} else LabelsOf(r[..|r| - 1]) + {r[|r| - 1].0}
  }

  /** Keys are pairwise different. */
  predicate DistinctKeys<K(==)>(r: seq<(K, int)>)
  {
    forall i, j :: 0 <= i < j < |r| ==> r[i].0 != r[j].0
  }

  /** Accumulate every entry in order, skipping the absent ones. */
  function GroupSum<K(==)>(e: seq<Option<(K, int)>>): seq<(K, int)>
  {
    if |e| == 0 then []
    else
      var r0 := GroupSum(e[..|e| - 1]);
      match e[|e| - 1]
      case None => r0
      case Some((k, v)) => Upsert(r0, k, v)
  }

  /** The keys carried by the present entries of `e`. */
  function KeysOf<K>(e: seq<Option<(K, int)>>): (ks: set<K>)
    ensures forall i :: 0 <= i < |e| && e[i].Some? ==> e[i].value.0 in ks
    ensures forall k :: k in ks ==> exists i :: 0 <= i < |e| && e[i].Some? && e[i].value.0 == k
  {
    if |e| == 0 then {}
    else
      var p := KeysOf(e[..|e| - 1]);
      match e[|e| - 1]
      case None => p
      case Some((k, _)) => p + {k}
  }

  /** Reference definition: the total of the amounts entered under `k`. */
  function SumFor<K(==)>(e: seq<Option<(K, int)>>, k: K): int
  {
    if |e| == 0 then 0
    else
      SumFor(e[..|e| - 1], k)
      + (match e[|e| - 1]
         case Some((k', v)) => if k' == k then v else 0
         case None => 0)
  }

  /** Position of the first entry that carries `k`. */
  function FirstIndex<K(==)>(e: seq<Option<(K, int)>>, k: K): (i: nat)
    requires k in KeysOf(e)
    ensures i < |e| && e[i].Some? && e[i].value.0 == k
    ensures forall j :: 0 <= j < i && e[j].Some? ==> e[j].value.0 != k
  {
    var p := e[..|e| - 1];
    if k in KeysOf(p) then FirstIndex(p, k) else |e| - 1
  }

  /** A key that never occurs contributes nothing. */
  lemma {:induction false} SumForAbsent<K>(e: seq<Option<(K, int)>>, k: K)
    requires k !in KeysOf(e)
    ensures SumFor(e, k) == 0
    decreases |e|
  {
    if |e| > 0 {
      SumForAbsent(e[..|e| - 1], k);
    }
  }

  /** Two dictionaries with the same keys position by position have the same key set. */
  lemma {:induction false} SameKeysSameLabels<K>(a: seq<(K, int)>, b: seq<(K, int)>)
    requires |a| == |b|
    requires forall j :: 0 <= j < |a| ==> a[j].0 == b[j].0
    ensures LabelsOf(a) == LabelsOf(b)
  {
  }

  /** The dictionary `r` holds the keys of `e`, each exactly once. */
  predicate KeysMatch<K(==)>(e: seq<Option<(K, int)>>, r: seq<(K, int)>)
  {
    DistinctKeys(r) && LabelsOf(r) == KeysOf(e)
  }

  /** One step of the fold over a skipped entry. */
  lemma {:induction false} KeysStepSkip<K>(e: seq<Option<(K, int)>>, r0: seq<(K, int)>)
    requires |e| > 0 && e[|e| - 1].None?
    requires KeysMatch(e[..|e| - 1], r0)
    ensures KeysMatch(e, r0)
  {
  }

  /** A present last entry adds its key to the keys of the rest. */
  lemma {:induction false} KeysOfSnoc<K>(e: seq<Option<(K, int)>>, k: K, v: int)
    requires |e| > 0 && e[|e| - 1] == Some((k, v))
    ensures KeysOf(e) == KeysOf(e[..|e| - 1]) + {k}
  {
  }

  /** One step of the fold over an entry whose key is already in the dictionary. */
  lemma {:induction false} KeysStepExisting<K>(e: seq<Option<(K, int)>>, r0: seq<(K, int)>, k: K, v: int)
    requires |e| > 0 && e[|e| - 1] == Some((k, v))
    requires KeysMatch(e[..|e| - 1], r0)
    requires Find(r0, k) < |r0|
    ensures KeysMatch(e, Upsert(r0, k, v))
  {
    var r := Upsert(r0, k, v);
    assert |r| == |r0|;
    assert forall j :: 0 <= j < |r0| ==> r[j].0 == r0[j].0;
    SameKeysSameLabels(r, r0);
    assert r0[Find(r0, k)].0 == k;
    KeysOfSnoc(e, k, v);
  }

  /** One step of the fold over an entry whose key is new: it goes last. */
  lemma {:induction false} KeysStepNew<K>(e: seq<Option<(K, int)>>, r0: seq<(K, int)>, k: K, v: int)
    requires |e| > 0 && e[|e| - 1] == Some((k, v))
    requires KeysMatch(e[..|e| - 1], r0)
    requires Find(r0, k) == |r0|
    ensures KeysMatch(e, Upsert(r0, k, v))
  {
    var r := r0 + [(k, v)];
    assert Upsert(r0, k, v) == r;
    assert r[..|r| - 1] == r0;
    KeysOfSnoc(e, k, v);
  }

  /** The keys of the dictionary fold are the input's keys, each exactly once. */
  lemma {:induction false} GroupSumKeys<K>(e: seq<Option<(K, int)>>)
    ensures DistinctKeys(GroupSum(e))
    ensures LabelsOf(GroupSum(e)) == KeysOf(e)
    decreases |e|
  {
    if |e| > 0 {
      var p := e[..|e| - 1];
      GroupSumKeys(p);
      var r0 := GroupSum(p);
      match e[|e| - 1]
      case None =>
        KeysStepSkip(e, r0);
      case Some((k, v)) =>
        if Find(r0, k) < |r0| {
          KeysStepExisting(e, r0, k, v);
        } else {
          KeysStepNew(e, r0, k, v);
        }
    }
  }

  /** Each key of `r` carries the total entered under it in `e`. */
  predicate ValuesMatch<K(==)>(e: seq<Option<(K, int)>>, r: seq<(K, int)>)
  {
    forall i :: 0 <= i < |r| ==> r[i].1 == SumFor(e, r[i].0)
  }

  /** One step of the fold over an entry whose key is already in the dictionary. */
  lemma {:induction false} ValuesStepExisting<K>(e: seq<Option<(K, int)>>, r0: seq<(K, int)>, k: K, v: int)
    requires |e| > 0 && e[|e| - 1] == Some((k, v))
    requires ValuesMatch(e[..|e| - 1], r0) && DistinctKeys(r0)
    requires Find(r0, k) < |r0|
    ensures ValuesMatch(e, Upsert(r0, k, v))
  {
    var r := Upsert(r0, k, v);
    var i := Find(r0, k);
    forall j | 0 <= j < |r|
      ensures r[j].1 == SumFor(e, r[j].0)
    {
      if j == i {
        assert Get(r0, k) == r0[i].1;
        FindAt(r, k, i);
      } else {
        assert r0[j].0 != k;
      }
    }
  }

  /** One step of the fold over an entry whose key is new. */
  lemma {:induction false} ValuesStepNew<K>(e: seq<Option<(K, int)>>, r0: seq<(K, int)>, k: K, v: int)
    requires |e| > 0 && e[|e| - 1] == Some((k, v))
    requires ValuesMatch(e[..|e| - 1], r0)
    requires k !in KeysOf(e[..|e| - 1])
    requires Find(r0, k) == |r0|
    ensures ValuesMatch(e, Upsert(r0, k, v))
  {
    var r := Upsert(r0, k, v);
    SumForAbsent(e[..|e| - 1], k);
    forall j | 0 <= j < |r|
      ensures r[j].1 == SumFor(e, r[j].0)
    {
      if j < |r0| {
        assert r[j] == r0[j];
        assert r0[j].0 != k;
      }
    }
  }

  /** Each key of the dictionary fold carries the total entered under it. */
  lemma {:induction false} GroupSumValues<K>(e: seq<Option<(K, int)>>)
    ensures ValuesMatch(e, GroupSum(e))
    decreases |e|
  {
    if |e| > 0 {
      var p := e[..|e| - 1];
      GroupSumValues(p);
      GroupSumKeys(p);
      var r0 := GroupSum(p);
      if e[|e| - 1].Some? {
        var (k, v) := e[|e| - 1].value;
        if Find(r0, k) < |r0| {
          ValuesStepExisting(e, r0, k, v);
        } else {
          assert k !in LabelsOf(r0);
          ValuesStepNew(e, r0, k, v);
        }
      }
    }
  }

  /** Every key of `r` occurs in `e`, and the keys of `r` are ordered by where they first occur in `e`. */
  predicate FirstEncounterOrder<K(==)>(e: seq<Option<(K, int)>>, r: seq<(K, int)>)
  {
    && (forall i :: 0 <= i < |r| ==> r[i].0 in KeysOf(e))
    && (forall i, j :: 0 <= i < j < |r| ==> FirstIndex(e, r[i].0) < FirstIndex(e, r[j].0))
  }

  /** A key already present in a prefix is first encountered where the prefix first has it. */
  lemma {:induction false} FirstIndexPrefix<K>(e: seq<Option<(K, int)>>, k: K)
    requires |e| > 0
    requires k in KeysOf(e[..|e| - 1])
    ensures k in KeysOf(e)
    ensures FirstIndex(e, k) == FirstIndex(e[..|e| - 1], k)
  {
  }

  /** One step of the fold over an entry whose key is already in the dictionary. */
  lemma {:induction false} OrderStepExisting<K>(e: seq<Option<(K, int)>>, r0: seq<(K, int)>, r: seq<(K, int)>)
    requires |e| > 0
    requires FirstEncounterOrder(e[..|e| - 1], r0)
    requires |r| == |r0|
    requires forall j :: 0 <= j < |r0| ==> r[j].0 == r0[j].0
    ensures FirstEncounterOrder(e, r)
  {
    var p := e[..|e| - 1];
    forall a | 0 <= a < |r|
      ensures r[a].0 in KeysOf(e) && FirstIndex(e, r[a].0) == FirstIndex(p, r0[a].0)
    {
      FirstIndexPrefix(e, r0[a].0);
    }
  }

  /** One step of the fold over an entry whose key is new: it goes last. */
  lemma {:induction false} OrderStepNew<K>(e: seq<Option<(K, int)>>, r0: seq<(K, int)>, k: K, v: int)
    requires |e| > 0 && e[|e| - 1] == Some((k, v))
    requires FirstEncounterOrder(e[..|e| - 1], r0)
    requires k !in KeysOf(e[..|e| - 1])
    ensures FirstEncounterOrder(e, r0 + [(k, v)])
  {
    var p := e[..|e| - 1];
    var r := r0 + [(k, v)];
    assert k in KeysOf(e);
    assert FirstIndex(e, k) == |p|;
    forall a | 0 <= a < |r0|
      ensures r[a].0 in KeysOf(e) && FirstIndex(e, r[a].0) == FirstIndex(p, r0[a].0)
    {
      FirstIndexPrefix(e, r0[a].0);
    }
  }

  /** The keys of the dictionary fold appear in the order of their first entries. */
  lemma {:induction false} GroupSumOrder<K>(e: seq<Option<(K, int)>>)
    ensures FirstEncounterOrder(e, GroupSum(e))
    decreases |e|
  {
    if |e| > 0 {
      var p := e[..|e| - 1];
      GroupSumOrder(p);
      GroupSumKeys(p);
      var r0 := GroupSum(p);
      if e[|e| - 1].None? {
        OrderStepExisting(e, r0, r0);
      } else {
        var (k, v) := e[|e| - 1].value;
        if Find(r0, k) < |r0| {
          OrderStepExisting(e, r0, Upsert(r0, k, v));
        } else {
          assert k !in LabelsOf(r0);
          OrderStepNew(e, r0, k, v);
        }
      }
    }
  }
}
