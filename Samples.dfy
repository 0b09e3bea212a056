/**
 * The `Map<String, List<Long>>` of Benchmark1.java: a LinkedHashMap from
 * stage label to the list of samples recorded for it, iterated in the
 * order in which labels were first inserted.
 */
module Samples {
  import opened Sorting

  /** The list stored under `stage`, or the empty list `computeIfAbsent` would create. */
  function ListOf(lists: map<string, seq<int>>, stage: string): (samples: seq<int>)
  {
    if stage in lists then lists[stage] else []
  }

  /** `lists.computeIfAbsent(label, k -> new ArrayList<>()).add(x)` on the abstract map. */
  function Appended(lists: map<string, seq<int>>, stage: string, x: int): (r: map<string, seq<int>>)
  {
    lists[stage := ListOf(lists, stage) + [x]]
  }

  /** Appending to one stage's list adds exactly one sample there and leaves every other list as it was. */
  lemma AppendedChangesOneList(lists: map<string, seq<int>>, stage: string, x: int)
    ensures Appended(lists, stage, x).Keys == lists.Keys + {stage}
    ensures |Appended(lists, stage, x)[stage]| == |ListOf(lists, stage)| + 1
    ensures Appended(lists, stage, x)[stage][..|ListOf(lists, stage)|] == ListOf(lists, stage)
    ensures Appended(lists, stage, x)[stage][|ListOf(lists, stage)|] == x
    ensures forall k :: k in lists && k != stage ==> Appended(lists, stage, x)[k] == lists[k]
  {
  }

  /** The key order of a LinkedHashMap after `stage` is looked up with computeIfAbsent. */
  function OrderAfter(order: seq<string>, lists: map<string, seq<int>>, stage: string): (r: seq<string>)
  {
    if stage in lists then order else order + [stage]
  }

  /** `lists` after `median` has sorted, in place, the list under each key of `keys` in turn. */
  function SortEach(lists: map<string, seq<int>>, keys: seq<string>): (r: map<string, seq<int>>)
    ensures r.Keys == lists.Keys
  {
    if keys == [] then lists else
      var before := SortEach(lists, keys[..|keys| - 1]);
      var k := keys[|keys| - 1];
      if k in before then before[k := SortedSeq(before[k])] else before
  }

  /** Each list ends up sorted if its key was visited (any number of times), and untouched otherwise. */
  lemma {:induction false} SortEachAt(lists: map<string, seq<int>>, keys: seq<string>, k: string)
    requires k in lists
    ensures SortEach(lists, keys)[k] == if k in keys then SortedSeq(lists[k]) else lists[k]
  {
    if keys != [] {
      var init, last := keys[..|keys| - 1], keys[|keys| - 1];
      SortEachAt(lists, init, k);
      assert keys == init + [last];
      var before := SortEach(lists, init);
      assert last in lists <==> last in before;
      if k == last {
        SortIdempotent(lists[k]);
      } else {
        assert k in keys <==> k in init;
      }
    }
  }

  lemma SortEachStep(lists: map<string, seq<int>>, keys: seq<string>, k: string)
    requires k in lists
    ensures SortEach(lists, keys + [k]) == SortEach(lists, keys)[k := SortedSeq(SortEach(lists, keys)[k])]
  {
    assert (keys + [k])[..|keys|] == keys;
  }

  /** Visiting the keys of a duplicate-free sequence one more step sorts the next key's list, which was untouched. */
  lemma SortEachNext(lists: map<string, seq<int>>, keys: seq<string>, i: nat)
    requires i < |keys| && keys[i] in lists
    requires forall p, q :: 0 <= p < q < |keys| ==> keys[p] != keys[q]
    ensures SortEach(lists, keys[..i])[keys[i]] == lists[keys[i]]
    ensures SortEach(lists, keys[..i + 1]) == SortEach(lists, keys[..i])[keys[i] := SortedSeq(lists[keys[i]])]
  {
    assert keys[i] !in keys[..i];
    assert keys[..i + 1] == keys[..i] + [keys[i]];
    SortEachAt(lists, keys[..i], keys[i]);
    SortEachStep(lists, keys[..i], keys[i]);
  }

  /** After visiting all of `keys`, exactly the visited lists are sorted. */
  lemma SortEachFinished(lists: map<string, seq<int>>, keys: seq<string>, after: map<string, seq<int>>)
    requires after == SortEach(lists, keys[..|keys|])
    ensures after.Keys == lists.Keys
    ensures forall k :: k in after ==> after[k] == if k in keys then SortedSeq(lists[k]) else lists[k]
  {
    assert keys[..|keys|] == keys;
    forall k | k in after
      ensures after[k] == if k in keys then SortedSeq(lists[k]) else lists[k]
    {
      SortEachAt(lists, keys, k);
    }
  }

  class SampleMap {
    var lists: map<string, seq<int>>
    var order: seq<string>

    /**
     * The key order lists every key exactly once, and every list holds at
     * least one sample (a list is created only to receive one).
     */
    ghost predicate Valid()
      reads this
    {
      && (forall i, j :: 0 <= i < j < |order| ==> order[i] != order[j])
      && (forall k :: k in lists <==> k in order)
      && (forall k :: k in lists ==> lists[k] != [])
    }

    /** `new LinkedHashMap<>()`. */
    constructor ()
      ensures Valid() && lists == map[] && order == []
    {
      lists := map[];
      order := [];
    }

    /** `computeIfAbsent(label, k -> new ArrayList<>()).add(x)`. */
    method Add(stage: string, x: int)
      requires Valid()
      modifies this
      ensures Valid()
      ensures lists == Appended(old(lists), stage, x)
      ensures order == OrderAfter(old(order), old(lists), stage)
    {
      if stage in lists {
        lists := lists[stage := lists[stage] + [x]];
      } else {
        assert stage !in order && ListOf(lists, stage) + [x] == [x];
        lists := lists[stage := [x]];
        order := order + [stage];
      }
    }

    /**
     * `median(map.get(label))`: sorts the list stored under `stage` in
     * place and returns its element at `size / 2`; the other lists and the
     * key order are untouched.
     */
    method MedianOf(stage: string) returns (m: int)
      requires Valid() && stage in lists
      modifies this
      ensures Valid()
      ensures lists == old(lists)[stage := SortedSeq(old(lists)[stage])]
      ensures order == old(order)
      ensures m == UpperMedian(old(lists)[stage])
    {
      var vals := lists[stage];
      var a := new int[|vals|](i requires 0 <= i < |vals| => vals[i]);
      assert a[..] == vals;
      m := Median(a);
      lists := lists[stage := a[..]];
    }
  }
}
