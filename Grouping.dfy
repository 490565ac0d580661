/**
 * `aggregate_results`: the records grouped by key name into a dictionary
 * whose keys follow the order in which each key name first occurs and whose
 * lists keep the records in input order.
 */
module Grouping {
  import opened Records

  /** The records with key name `k`, in input order. */
  function KeyFilter(rs: seq<Record>, k: string): (fs: seq<Record>)
  {
    if rs == [] then []
    else KeyFilter(rs[..|rs| - 1], k) + if rs[|rs| - 1].keyName == k then [rs[|rs| - 1]] else []
  }

  /** The key names, each once, in the order of their first occurrence. */
  function DistinctKeys(rs: seq<Record>): (ks: seq<string>)
  {
    if rs == [] then []
    else
      var ks := DistinctKeys(rs[..|rs| - 1]);
      if rs[|rs| - 1].keyName in ks then ks else ks + [rs[|rs| - 1].keyName]
  }

  /** A dictionary from key names to record lists: its keys in insertion order, and its entries. */
  datatype Groups = Groups(order: seq<string>, lists: map<string, seq<Record>>)

  /** What `aggregate_results` returns for `rs`. */
  function Aggregate(rs: seq<Record>): (g: Groups)
  {
    var ks := DistinctKeys(rs);
    Groups(ks, map k | k in ks :: KeyFilter(rs, k))
  }

  predicate Distinct(ks: seq<string>)
  {
    forall i, j :: 0 <= i < j < |ks| ==> ks[i] != ks[j]
  }

  /** `a` is `b` with some elements left out. */
  predicate IsSubsequence(a: seq<Record>, b: seq<Record>)
    decreases |b|
  {
    if a == [] then true
    else if b == [] then false
    else if a[|a| - 1] == b[|b| - 1] then IsSubsequence(a[..|a| - 1], b[..|b| - 1])
    else IsSubsequence(a, b[..|b| - 1])
  }

  // ---------------------------------------------------------------------
  // The keys

  /** Key name `a` occurs in `rs` before any record with key name `b`. */
  predicate SeenBefore(rs: seq<Record>, a: string, b: string)
  {
    exists p :: 0 <= p < |rs| && rs[p].keyName == a && forall q :: 0 <= q <= p ==> rs[q].keyName != b
  }

  /**
   * The keys are distinct, they are exactly the key names of the records,
   * and they come in the order in which each first occurs.
   */
  lemma DistinctKeysFacts(rs: seq<Record>)
    ensures Distinct(DistinctKeys(rs))
    ensures forall k :: k in DistinctKeys(rs) <==> exists i :: 0 <= i < |rs| && rs[i].keyName == k
    ensures forall i, j :: 0 <= i < j < |DistinctKeys(rs)| ==> SeenBefore(rs, DistinctKeys(rs)[i], DistinctKeys(rs)[j])
  {
    DistinctKeysMembers(rs);
    DistinctKeysOrder(rs);
  }

  lemma {:induction false} DistinctKeysMembers(rs: seq<Record>)
    ensures Distinct(DistinctKeys(rs))
    ensures forall k :: k in DistinctKeys(rs) <==> exists i :: 0 <= i < |rs| && rs[i].keyName == k
    decreases |rs|
  {
    if rs != [] {
      var init := rs[..|rs| - 1];
      DistinctKeysMembers(init);
      assert forall i :: 0 <= i < |init| ==> init[i] == rs[i];
    }
  }

  lemma {:induction false} DistinctKeysOrder(rs: seq<Record>)
    ensures forall i, j :: 0 <= i < j < |DistinctKeys(rs)| ==> SeenBefore(rs, DistinctKeys(rs)[i], DistinctKeys(rs)[j])
    decreases |rs|
  {
    if rs != [] {
      var init := rs[..|rs| - 1];
      var ks0, ks := DistinctKeys(init), DistinctKeys(rs);
      DistinctKeysOrder(init);
      DistinctKeysMembers(init);
      forall i, j | 0 <= i < j < |ks|
        ensures SeenBefore(rs, ks[i], ks[j])
      {
        var last := rs[|rs| - 1].keyName;
        assert ks == if last in ks0 then ks0 else ks0 + [last];
        if j < |ks0| {
          assert ks[i] == ks0[i] && ks[j] == ks0[j];
          assert SeenBefore(init, ks0[i], ks0[j]);
          OrderExtends(init, rs, ks0[i], ks0[j]);
        } else {
          assert ks == ks0 + [last] && ks[j] == last && ks[i] == ks0[i];
          assert ks0[i] in ks0;
          NewKeyLast(init, rs, ks0, ks0[i], last);
        }
      }
    }
  }

  /** Seen-before in a prefix stays so in the whole. */
  lemma OrderExtends(init: seq<Record>, rs: seq<Record>, a: string, b: string)
    requires |init| <= |rs| && init == rs[..|init|] && SeenBefore(init, a, b)
    ensures SeenBefore(rs, a, b)
  {
    var p :| 0 <= p < |init| && init[p].keyName == a && forall q :: 0 <= q <= p ==> init[q].keyName != b;
    assert rs[p] == init[p];
    assert forall q :: 0 <= q <= p ==> rs[q] == init[q];
  }

  /** A key of the prefix is seen before a key the prefix does not have. */
  lemma NewKeyLast(init: seq<Record>, rs: seq<Record>, ks0: seq<string>, a: string, b: string)
    requires |init| <= |rs| && init == rs[..|init|]
    requires forall k :: k in ks0 <==> exists i :: 0 <= i < |init| && init[i].keyName == k
    requires a in ks0 && b !in ks0
    ensures SeenBefore(rs, a, b)
  {
    var p :| 0 <= p < |init| && init[p].keyName == a;
    assert forall q :: 0 <= q < |init| ==> init[q].keyName != b;
    assert rs[p] == init[p];
    assert forall q :: 0 <= q <= p ==> rs[q] == init[q];
  }

  // ---------------------------------------------------------------------
  // The groups

  /**
   * Each group holds exactly the input's records with its key, each as often
   * as the input does, and nothing else.
   */
  lemma {:induction false} KeyFilterCount(rs: seq<Record>, k: string, x: Record)
    ensures multiset(KeyFilter(rs, k))[x] == if x.keyName == k then multiset(rs)[x] else 0
    decreases |rs|
  {
    if rs != [] {
      var init, last := rs[..|rs| - 1], rs[|rs| - 1];
      KeyFilterCount(init, k, x);
      assert rs == init + [last];
    }
  }

  /** The records of a group come in input order. */
  lemma {:induction false} KeyFilterInOrder(rs: seq<Record>, k: string)
    ensures IsSubsequence(KeyFilter(rs, k), rs)
    decreases |rs|
  {
    if rs != [] {
      var init, last := rs[..|rs| - 1], rs[|rs| - 1];
      var a := KeyFilter(init, k);
      KeyFilterInOrder(init, k);
      if last.keyName == k {
        assert (a + [last])[..|a|] == a;
      } else {
        assert KeyFilter(rs, k) == a;
        KeyFilterKeys(init, k);
        if a != [] {
          assert a[|a| - 1] in a;
        }
      }
    }
  }

  /** Every record of a group has the group's key. */
  lemma {:induction false} KeyFilterKeys(rs: seq<Record>, k: string)
    ensures forall x :: x in KeyFilter(rs, k) ==> x.keyName == k
    decreases |rs|
  {
    if rs != [] {
      KeyFilterKeys(rs[..|rs| - 1], k);
    }
  }

  /** The dictionary's keys: each key name of the input once, in the order of first occurrence. */
  lemma AggregateKeys(rs: seq<Record>)
    ensures var g := Aggregate(rs);
      && Distinct(g.order)
      && (forall k :: k in g.lists <==> k in g.order)
      && (forall k :: k in g.lists <==> exists i :: 0 <= i < |rs| && rs[i].keyName == k)
      && (forall i, j :: 0 <= i < j < |g.order| ==> SeenBefore(rs, g.order[i], g.order[j]))
  {
    DistinctKeysFacts(rs);
  }

  /**
   * The list under a key holds the input's records with that key, each as
   * often as the input does, and nothing else.
   */
  lemma AggregateGroups(rs: seq<Record>, k: string, x: Record)
    requires k in Aggregate(rs).lists
    ensures multiset(Aggregate(rs).lists[k])[x] == if x.keyName == k then multiset(rs)[x] else 0
  {
    KeyFilterCount(rs, k, x);
  }

  /** Every record is under its own key name. */
  lemma AggregateHolds(rs: seq<Record>, i: nat)
    requires i < |rs|
    ensures var g := Aggregate(rs);
      rs[i].keyName in g.lists && rs[i] in g.lists[rs[i].keyName]
  {
    DistinctKeysMembers(rs);
    var k := rs[i].keyName;
    KeyFilterCount(rs, k, rs[i]);
    assert rs[i] in multiset(rs);
  }

  /** The list under a key keeps the input order. */
  lemma AggregateInOrder(rs: seq<Record>, k: string)
    requires k in Aggregate(rs).lists
    ensures IsSubsequence(Aggregate(rs).lists[k], rs)
  {
    KeyFilterInOrder(rs, k);
  }

  // ---------------------------------------------------------------------
  // One record at a time

  /**
   * One pass of the loop of `aggregate_results`: a new key gets an empty
   * list at the end of the key order, then the record is appended to the
   * list of its key.
   */
  function AddRecord(g: Groups, r: Record): (g': Groups)
  {
    var k := r.keyName;
    var h := if k in g.lists then g else Groups(g.order + [k], g.lists[k := []]);
    Groups(h.order, h.lists[k := h.lists[k] + [r]])
  }

  lemma AggregateSnoc(rs: seq<Record>, r: Record)
    ensures Aggregate(rs + [r]) == AddRecord(Aggregate(rs), r)
  {
    var rs' := rs + [r];
    assert rs'[..|rs|] == rs;
    var g, g' := Aggregate(rs), Aggregate(rs');
    var a := AddRecord(g, r);
    assert g'.order == a.order;
    forall k | k in g'.lists
      ensures g'.lists[k] == a.lists[k]
    {
      assert g'.lists[k] == KeyFilter(rs, k) + if r.keyName == k then [r] else [];
      if k != r.keyName {
        assert k in g.lists;
      } else if k !in g.lists {
        NoKeyNoGroup(rs, k);
      }
    }
    assert g'.lists == a.lists;
  }

  /** A key name that does not occur has an empty group. */
  lemma {:induction false} NoKeyNoGroup(rs: seq<Record>, k: string)
    requires k !in DistinctKeys(rs)
    ensures KeyFilter(rs, k) == []
    decreases |rs|
  {
    if rs != [] {
      var init := rs[..|rs| - 1];
      assert forall x :: x in DistinctKeys(init) ==> x in DistinctKeys(rs);
      NoKeyNoGroup(init, k);
    }
  }

  // ---------------------------------------------------------------------
  // Sizes

  /** The total length of the lists under the keys `ks`. */
  function SizeOf(g: Groups, ks: seq<string>): (n: nat)
  {
    if ks == [] then 0
    else SizeOf(g, ks[..|ks| - 1]) + if ks[|ks| - 1] in g.lists then |g.lists[ks[|ks| - 1]]| else 0
  }

  /** The total length of the lists. */
  function TotalSize(g: Groups): (n: nat)
  {
    SizeOf(g, g.order)
  }

  /** The total length of the groups of the keys `ks` in `rs`. */
  function FilterSizes(rs: seq<Record>, ks: seq<string>): (n: nat)
  {
    if ks == [] then 0
    else FilterSizes(rs, ks[..|ks| - 1]) + |KeyFilter(rs, ks[|ks| - 1])|
  }

  /** How often `k` occurs in `ks`. */
  function Occurrences(ks: seq<string>, k: string): (n: nat)
  {
    if ks == [] then 0
    else Occurrences(ks[..|ks| - 1], k) + if ks[|ks| - 1] == k then 1 else 0
  }

  lemma {:induction false} OccursOnce(ks: seq<string>, k: string)
    requires Distinct(ks) && k in ks
    ensures Occurrences(ks, k) == 1
    decreases |ks|
  {
    var init := ks[..|ks| - 1];
    if ks[|ks| - 1] == k {
      NotOccurring(init, k);
    } else {
      assert k in init;
      OccursOnce(init, k);
    }
  }

  lemma {:induction false} NotOccurring(ks: seq<string>, k: string)
    requires k !in ks
    ensures Occurrences(ks, k) == 0
    decreases |ks|
  {
    if ks != [] {
      NotOccurring(ks[..|ks| - 1], k);
    }
  }

  /** One more record adds one to the groups of each copy of its key. */
  lemma {:induction false} FilterSizesStep(rs: seq<Record>, ks: seq<string>)
    requires rs != []
    ensures FilterSizes(rs, ks) == FilterSizes(rs[..|rs| - 1], ks) + Occurrences(ks, rs[|rs| - 1].keyName)
    decreases |ks|
  {
    if ks != [] {
      FilterSizesStep(rs, ks[..|ks| - 1]);
    }
  }

  /** Distinct keys covering every key name of the input share out all of its records. */
  lemma {:induction false} FilterSizesCover(rs: seq<Record>, ks: seq<string>)
    requires Distinct(ks) && forall i :: 0 <= i < |rs| ==> rs[i].keyName in ks
    ensures FilterSizes(rs, ks) == |rs|
    decreases |rs|
  {
    if rs == [] {
      FilterSizesEmpty(ks);
    } else {
      var init := rs[..|rs| - 1];
      assert forall i :: 0 <= i < |init| ==> init[i] == rs[i];
      FilterSizesCover(init, ks);
      FilterSizesStep(rs, ks);
      OccursOnce(ks, rs[|rs| - 1].keyName);
    }
  }

  lemma {:induction false} FilterSizesEmpty(ks: seq<string>)
    ensures FilterSizes([], ks) == 0
    decreases |ks|
  {
    if ks != [] {
      FilterSizesEmpty(ks[..|ks| - 1]);
    }
  }

  /** Keys all in the dictionary: the sizes of their lists are the sizes of their groups. */
  lemma {:induction false} SizeOfAggregate(rs: seq<Record>, ks: seq<string>)
    requires forall i :: 0 <= i < |ks| ==> ks[i] in Aggregate(rs).lists
    ensures SizeOf(Aggregate(rs), ks) == FilterSizes(rs, ks)
    decreases |ks|
  {
    if ks != [] {
      SizeOfAggregate(rs, ks[..|ks| - 1]);
    }
  }

  /** The lengths of the lists add up to the number of records. */
  lemma AggregateSizes(rs: seq<Record>)
    ensures TotalSize(Aggregate(rs)) == |rs|
  {
    var g := Aggregate(rs);
    DistinctKeysMembers(rs);
    SizeOfAggregate(rs, g.order);
    FilterSizesCover(rs, g.order);
  }
}
