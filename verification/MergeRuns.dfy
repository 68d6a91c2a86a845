/** Bottom-up merging of runs as a function on sequences: what core_list_mergesort
    is meant to compute, and why that is a stable sort. */
module MergeRuns {

  /** The stable merge: on a tie the element of s goes first. */
  function Merge<T>(s: seq<T>, t: seq<T>, key: T -> int): (r: seq<T>)
    ensures |r| == |s| + |t|
    decreases |s| + |t|
  {
    if s == [] then t
    else if t == [] then s
    else if key(s[0]) <= key(t[0]) then [s[0]] + Merge(s[1..], t, key)
    else [t[0]] + Merge(s, t[1..], key)
  }

  function Flatten<T>(runs: seq<seq<T>>): seq<T> {
    if runs == [] then [] else runs[0] + Flatten(runs[1..])
  }

  /** One pass: neighbouring runs merged two by two, an odd last run kept. */
  function PairUp<T>(runs: seq<seq<T>>, key: T -> int): (r: seq<seq<T>>)
    ensures |r| == (|runs| + 1) / 2
  {
    if |runs| <= 1 then runs
    else [Merge(runs[0], runs[1], key)] + PairUp(runs[2..], key)
  }

  function MergeAll<T>(runs: seq<seq<T>>, key: T -> int): seq<T>
    requires runs != []
    decreases |runs|
  {
    var next := PairUp(runs, key);
    if |next| <= 1 then next[0] else MergeAll(next, key)
  }

  function Singles<T>(s: seq<T>): (runs: seq<seq<T>>)
    ensures |runs| == |s|
  {
    seq(|s|, i requires 0 <= i < |s| => [s[i]])
  }

  // ---- nothing is lost

  lemma FlattenCons<T>(run: seq<T>, rest: seq<seq<T>>)
    ensures Flatten([run] + rest) == run + Flatten(rest)
  {
    assert ([run] + rest)[1..] == rest;
  }

  lemma FlattenEmpty<T>()
    ensures Flatten<T>([]) == []
  {
  }

  lemma {:induction false} FlattenAppend<T>(runs: seq<seq<T>>, more: seq<seq<T>>)
    ensures Flatten(runs + more) == Flatten(runs) + Flatten(more)
  {
    hide Flatten;
    if runs == [] {
      FlattenEmpty<T>();
      assert runs + more == more;
    } else {
      FlattenAppend(runs[1..], more);
      FlattenCons(runs[0], runs[1..] + more);
      FlattenCons(runs[0], runs[1..]);
      assert runs + more == [runs[0]] + (runs[1..] + more);
      assert runs == [runs[0]] + runs[1..];
    }
  }

  lemma {:induction false} FlattenSingles<T>(s: seq<T>)
    ensures Flatten(Singles(s)) == s
  {
    if s != [] {
      FlattenSingles(s[1..]);
      assert Singles(s)[1..] == Singles(s[1..]);
    }
  }

  lemma {:induction false} MergeMultiset<T>(s: seq<T>, t: seq<T>, key: T -> int)
    ensures multiset(Merge(s, t, key)) == multiset(s) + multiset(t)
    decreases |s| + |t|
  {
    if s != [] && t != [] {
      assert s == [s[0]] + s[1..] && t == [t[0]] + t[1..];
      if key(s[0]) <= key(t[0]) { MergeMultiset(s[1..], t, key); } else { MergeMultiset(s, t[1..], key); }
    }
  }

  lemma {:induction false} PairUpMultiset<T>(runs: seq<seq<T>>, key: T -> int)
    ensures multiset(Flatten(PairUp(runs, key))) == multiset(Flatten(runs))
  {
    if |runs| > 1 {
      PairUpMultiset(runs[2..], key);
      MergeMultiset(runs[0], runs[1], key);
      assert runs[1..][1..] == runs[2..];
      assert PairUp(runs, key)[1..] == PairUp(runs[2..], key);
    }
  }

  // ---- order

  ghost predicate SortedBy<T>(s: seq<T>, key: T -> int) {
    forall i, j | 0 <= i < j < |s| :: key(s[i]) <= key(s[j])
  }

  lemma MergeMembers<T>(s: seq<T>, t: seq<T>, key: T -> int)
    ensures forall i | 0 <= i < |Merge(s, t, key)| :: Merge(s, t, key)[i] in s || Merge(s, t, key)[i] in t
  {
    hide Merge;
    MergeMultiset(s, t, key);
    forall i | 0 <= i < |Merge(s, t, key)| ensures Merge(s, t, key)[i] in s || Merge(s, t, key)[i] in t {
      assert Merge(s, t, key)[i] in multiset(Merge(s, t, key));
    }
  }

  /** A first element that no element of s or t is below. */
  lemma MergeAfter<T>(x: T, s: seq<T>, t: seq<T>, key: T -> int)
    requires SortedBy(Merge(s, t, key), key)
    requires (forall y | y in s :: key(x) <= key(y)) && (forall y | y in t :: key(x) <= key(y))
    ensures SortedBy([x] + Merge(s, t, key), key)
  {
    hide Merge;
    MergeMembers(s, t, key);
  }

  lemma {:induction false} MergeSorted<T>(s: seq<T>, t: seq<T>, key: T -> int)
    requires SortedBy(s, key) && SortedBy(t, key)
    ensures SortedBy(Merge(s, t, key), key)
    decreases |s| + |t|
  {
    if s != [] && t != [] {
      if key(s[0]) <= key(t[0]) {
        MergeSorted(s[1..], t, key);
        MergeAfter(s[0], s[1..], t, key);
      } else {
        MergeSorted(s, t[1..], key);
        MergeAfter(t[0], s, t[1..], key);
      }
    }
  }

  // ---- stability

  /** The elements with key v, in order. */
  function WithKey<T>(s: seq<T>, key: T -> int, v: int): seq<T> {
    if s == [] then [] else (if key(s[0]) == v then [s[0]] else []) + WithKey(s[1..], key, v)
  }

  lemma WithKeyCons<T>(x: T, s: seq<T>, key: T -> int, v: int)
    ensures WithKey([x] + s, key, v) == (if key(x) == v then [x] else []) + WithKey(s, key, v)
  {
    assert ([x] + s)[1..] == s;
  }

  lemma WithKeyEmpty<T>(key: T -> int, v: int)
    ensures WithKey<T>([], key, v) == []
  {
  }

  lemma {:induction false} WithKeyAppend<T>(s: seq<T>, t: seq<T>, key: T -> int, v: int)
    ensures WithKey(s + t, key, v) == WithKey(s, key, v) + WithKey(t, key, v)
  {
    hide WithKey;
    if s == [] {
      WithKeyEmpty(key, v);
      assert s + t == t;
    } else {
      WithKeyAppend(s[1..], t, key, v);
      WithKeyCons(s[0], s[1..] + t, key, v);
      WithKeyCons(s[0], s[1..], key, v);
      assert s + t == [s[0]] + (s[1..] + t);
      assert s == [s[0]] + s[1..];
    }
  }

  /** The places that WithKey takes its elements from: all with that key, in order. */
  lemma {:induction false} WithKeyIs<T>(s: seq<T>, key: T -> int, v: int) returns (places: seq<nat>)
    ensures |places| == |WithKey(s, key, v)| && forall i, j | 0 <= i < j < |places| :: places[i] < places[j]
    ensures forall i | 0 <= i < |places| ::
              places[i] < |s| && key(s[places[i]]) == v && WithKey(s, key, v)[i] == s[places[i]]
    ensures forall p: nat | p < |s| && key(s[p]) == v :: p in places
  {
    if s == [] {
      places := [];
    } else {
      var t := s[..|s| - 1];
      var x := s[|s| - 1];
      var before := WithKeyIs(t, key, v);
      assert s == t + [x];
      WithKeyAppend(t, [x], key, v);
      WithKeyCons(x, [], key, v);
      WithKeyEmpty(key, v);
      assert [x] + [] == [x];
      hide WithKey;
      if key(x) == v {
        places := before + [|s| - 1];
        assert forall p: nat | p < |t| && key(s[p]) == v :: p in places by {
          forall p: nat | p < |t| && key(s[p]) == v ensures p in places { assert t[p] == s[p]; }
        }
      } else {
        places := before;
        assert WithKey(s, key, v) == WithKey(t, key, v);
        forall p: nat | p < |s| && key(s[p]) == v ensures p in places { assert p < |t| && t[p] == s[p]; }
      }
    }
  }

  lemma {:induction false} WithKeyNone<T>(s: seq<T>, key: T -> int, v: int)
    requires forall i | 0 <= i < |s| :: key(s[i]) != v
    ensures WithKey(s, key, v) == []
  {
    if s != [] { WithKeyNone(s[1..], key, v); }
  }

  lemma {:induction false} MergeStable<T>(s: seq<T>, t: seq<T>, key: T -> int, v: int)
    requires SortedBy(s, key)
    ensures WithKey(Merge(s, t, key), key, v) == WithKey(s, key, v) + WithKey(t, key, v)
    decreases |s| + |t|
  {
    if s == [] || t == [] {
      assert WithKey<T>([], key, v) == [];
    } else if key(s[0]) <= key(t[0]) {
      MergeStable(s[1..], t, key, v);
      WithKeyCons(s[0], Merge(s[1..], t, key), key, v);
    } else {
      MergeStable(s, t[1..], key, v);
      WithKeyCons(t[0], Merge(s, t[1..], key), key, v);
      if key(t[0]) == v { WithKeyNone(s, key, v); }
    }
  }

  lemma {:induction false} PairUpStable<T>(runs: seq<seq<T>>, key: T -> int, v: int)
    requires forall i | 0 <= i < |runs| :: SortedBy(runs[i], key)
    ensures WithKey(Flatten(PairUp(runs, key)), key, v) == WithKey(Flatten(runs), key, v)
    ensures forall i | 0 <= i < |PairUp(runs, key)| :: SortedBy(PairUp(runs, key)[i], key)
  {
    hide WithKey, Merge, SortedBy;
    if |runs| > 1 {
      var merged, rest := Merge(runs[0], runs[1], key), PairUp(runs[2..], key);
      PairUpStable(runs[2..], key, v);
      MergeSorted(runs[0], runs[1], key);
      MergeStable(runs[0], runs[1], key, v);
      WithKeyAppend(merged, Flatten(rest), key, v);
      WithKeyAppend(runs[1], Flatten(runs[2..]), key, v);
      WithKeyAppend(runs[0], runs[1] + Flatten(runs[2..]), key, v);
      assert runs[1..][1..] == runs[2..];
      assert Flatten(runs) == runs[0] + (runs[1] + Flatten(runs[2..]));
      assert ([merged] + rest)[1..] == rest;
    }
  }

  lemma FlattenOne<T>(s: seq<T>)
    ensures Flatten([s]) == s
  {
    assert Flatten([s]) == s + Flatten([s][1..]);
  }

  lemma {:induction false} MergeAllSorts<T>(runs: seq<seq<T>>, key: T -> int, v: int)
    requires runs != [] && forall i | 0 <= i < |runs| :: SortedBy(runs[i], key)
    ensures SortedBy(MergeAll(runs, key), key)
    ensures multiset(MergeAll(runs, key)) == multiset(Flatten(runs))
    ensures WithKey(MergeAll(runs, key), key, v) == WithKey(Flatten(runs), key, v)
    decreases |runs|
  {
    hide WithKey, Merge, SortedBy;
    PairUpStable(runs, key, v);
    PairUpMultiset(runs, key);
    var next := PairUp(runs, key);
    if |next| <= 1 {
      FlattenOne(next[0]);
      assert next == [next[0]];
    } else {
      MergeAllSorts(next, key, v);
    }
  }

  function MergeSort<T>(s: seq<T>, key: T -> int): seq<T>
    requires s != []
  {
    MergeAll(Singles(s), key)
  }

  /** Merging single elements all the way up is a stable sort. */
  lemma MergeSortSorts<T>(s: seq<T>, key: T -> int, v: int)
    requires s != []
    ensures SortedBy(MergeSort(s, key), key)
    ensures multiset(MergeSort(s, key)) == multiset(s)
    ensures WithKey(MergeSort(s, key), key, v) == WithKey(s, key, v)
  {
    FlattenSingles(s);
    MergeAllSorts(Singles(s), key, v);
  }

  lemma TailMultiset<T>(s: seq<T>)
    requires s != []
    ensures multiset(s[1..]) == multiset(s) - multiset{s[0]}
  {
    assert s == [s[0]] + s[1..];
  }

  lemma SameHead<T>(s: seq<T>, t: seq<T>, key: T -> int)
    requires multiset(s) == multiset(t) && SortedBy(t, key) && s != []
    requires forall i, j | 0 <= i < j < |s| :: key(s[i]) < key(s[j])
    ensures t != [] && s[0] == t[0]
  {
    assert s[0] in multiset(t);
    var j :| 0 <= j < |t| && t[j] == s[0];
    assert t[0] in multiset(s);
    var i :| 0 <= i < |s| && s[i] == t[0];
    assert key(t[0]) <= key(t[j]);
  }

  /** Two sequences in strict order over the same elements are one sequence. */
  lemma {:induction false} StrictOrderUnique<T>(s: seq<T>, t: seq<T>, key: T -> int)
    requires multiset(s) == multiset(t) && SortedBy(t, key)
    requires forall i, j | 0 <= i < j < |s| :: key(s[i]) < key(s[j])
    ensures s == t
  {
    if s == [] {
      assert |multiset(t)| == 0;
    } else {
      SameHead(s, t, key);
      TailMultiset(s);
      TailMultiset(t);
      StrictOrderUnique(s[1..], t[1..], key);
    }
  }
}
