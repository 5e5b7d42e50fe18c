/** The pool of device numbers (SimplePoolValues.cs, SimpleValuePool<int>): it hands out
  * the smallest number returned to it that lies below its iterator, or else the next
  * number of the iterator that is not registered as used. The state is the sorted list
  * of returned numbers, the iterator and the set of used numbers; PoolState holds the
  * three, and the functions over it specify the methods of the class ValuePool. */
module ValuePools {
  import opened Wrappers

  datatype PoolState = PoolState(items: seq<int>, next: int, used: set<int>)

  /** The state of a new pool: the iterator is the default 0 incremented once. */
  const FreshPool: PoolState := PoolState([], 1, {})

  predicate StrictlyIncreasing(xs: seq<int>)
  {
    forall i, j :: 0 <= i < j < |xs| ==> xs[i] < xs[j]
  }

  /** A number above every member of a finite set, to bound the iterator's skipping. */
  ghost function UpperBound(s: set<int>): (b: int)
    ensures forall x :: x in s ==> x < b
  {
    if s == {} then 0
    else
      NonEmptyHasMember(s);
      var x :| x in s;
      var rest := UpperBound(s - {x});
      assert forall y :: y in s ==> y in s - {x} || y == x;
      if x < rest then rest else x + 1
  }

  /** The iterator's loop: the first number from n on that is not in `used`. */
  function SkipUsed(used: set<int>, n: int): (r: int)
    ensures n <= r && r !in used
    ensures forall v :: n <= v < r ==> v in used
    decreases UpperBound(used) - n
  {
    if n in used then SkipUsed(used, n + 1) else n
  }

  /** The sorted list after Add and OrderBy: `v` placed before the first larger item. */
  function InsertSorted(xs: seq<int>, v: int): (r: seq<int>)
    ensures |r| == |xs| + 1 && multiset(r) == multiset(xs) + multiset{v}
  {
    if |xs| == 0 then [v]
    else if v < xs[0] then [v] + xs
    else
      assert xs == [xs[0]] + xs[1..];
      [xs[0]] + InsertSorted(xs[1..], v)
  }

  /** Inserting a number not yet in a sorted list keeps it sorted. */
  lemma {:induction false} InsertSortedKeepsOrder(xs: seq<int>, v: int)
    requires StrictlyIncreasing(xs) && v !in xs
    ensures StrictlyIncreasing(InsertSorted(xs, v))
  {
    if |xs| > 0 && v >= xs[0] {
      var rest := InsertSorted(xs[1..], v);
      InsertSortedKeepsOrder(xs[1..], v);
      assert xs == [xs[0]] + xs[1..];
      forall k | 0 <= k < |rest|
        ensures xs[0] < rest[k]
      {
        assert rest[k] in multiset(rest);
        if rest[k] != v {
          assert rest[k] in multiset(xs[1..]);
          var j :| 0 <= j < |xs[1..]| && xs[1..][j] == rest[k];
          assert xs[1 + j] == rest[k];
        }
      }
    }
  }

  /** GetNextValue: a pooled number below the iterator is reused, the smallest first,
    * and becomes used; otherwise the iterator skips the used numbers, hands out the
    * first free one and moves past it. The returned pair is the number and the new state. */
  function NextValue(s: PoolState): (r: (int, PoolState))
    ensures |s.items| > 0 && s.items[0] < s.next ==>
      r.0 == s.items[0] && r.1 == s.(items := s.items[1..], used := s.used + {r.0})
    ensures !(|s.items| > 0 && s.items[0] < s.next) ==>
      s.next <= r.0 && r.0 !in s.used && (forall v :: s.next <= v < r.0 ==> v in s.used)
      && r.1 == s.(next := r.0 + 1)
  {
    if |s.items| > 0 && s.items[0] < s.next then
      (s.items[0], s.(items := s.items[1..], used := s.used + {s.items[0]}))
    else
      var v := SkipUsed(s.used, s.next);
      (v, s.(next := v + 1))
  }

  /** The pooling half of ReturnValue: KeyedCollection.Add refuses a number already
    * pooled; otherwise the number joins the sorted list. */
  function Pooled(s: PoolState, v: int): (r: (PoolState, Option<Fault>))
    ensures v in s.items ==> r == (s, Some(Argument))
    ensures v !in s.items ==>
      (r.1 == None && r.0.next == s.next && r.0.used == s.used
       && multiset(r.0.items) == multiset(s.items) + multiset{v})
  {
    if v in s.items then (s, Some(Argument))
    else (s.(items := InsertSorted(s.items, v)), None)
  }

  /** ReturnValue with the guard corrected to `v >= next`: the number stops being used,
    * and it is pooled only when it lies below the iterator, which hands out every
    * number from the iterator on by itself. */
  function Returned(s: PoolState, v: int): (r: (PoolState, Option<Fault>))
    ensures r.0.used == s.used - {v} && r.0.next == s.next
    ensures v >= s.next ==> r.0.items == s.items && r.1 == None
    ensures v < s.next && v in s.items ==> r.0.items == s.items && r.1 == Some(Argument)
    ensures v < s.next && v !in s.items ==>
      r.1 == None && multiset(r.0.items) == multiset(s.items) + multiset{v}
  {
    var released := s.(used := s.used - {v});
    if v >= s.next then (released, None) else Pooled(released, v)
  }

  /** ReturnValue as written: the guard `v > next` also pools the iterator's own
    * next number. */
  function ReturnedAsWritten(s: PoolState, v: int): (r: (PoolState, Option<Fault>))
    ensures r.0.used == s.used - {v} && r.0.next == s.next
    ensures v <= s.next && v in s.items ==> r.0.items == s.items && r.1 == Some(Argument)
    ensures v <= s.next && v !in s.items ==>
      r.1 == None && multiset(r.0.items) == multiset(s.items) + multiset{v}
  {
    var released := s.(used := s.used - {v});
    if v > s.next then (released, None) else Pooled(released, v)
  }

  /** What the pool promises about the numbers `issued` (handed out and not returned):
    * the pooled numbers are sorted and below the iterator, so are the issued ones, and
    * no issued number is pooled. */
  ghost predicate Inv(s: PoolState, issued: set<int>)
  {
    StrictlyIncreasing(s.items)
    && (forall x :: x in s.items ==> x < s.next)
    && (forall x :: x in issued ==> x < s.next)
    && (forall x :: x in issued ==> x !in s.items)
  }

  lemma FreshPoolInv()
    ensures Inv(FreshPool, {})
  {
  }

  /** GetNextValue never hands out a number that is still out, and keeps the invariant
    * once that number is counted as out. */
  lemma {:induction false} NextValueIsFresh(s: PoolState, issued: set<int>)
    requires Inv(s, issued)
    ensures NextValue(s).0 !in issued
    ensures Inv(NextValue(s).1, issued + {NextValue(s).0})
  {
    var (r, s') := NextValue(s);
    if |s.items| > 0 && s.items[0] < s.next {
      forall x | x in s'.items
        ensures x < s'.next && x != r
      {
        var j :| 0 <= j < |s'.items| && s'.items[j] == x;
        assert s.items[j + 1] == x && s.items[j + 1] in s.items;
      }
    }
  }

  /** ReturnValue keeps the pooled numbers sorted, so reuse goes smallest first, and
    * keeps the invariant once the number is no longer counted as out. */
  lemma {:induction false} ReturnedKeepsInv(s: PoolState, v: int, issued: set<int>)
    requires Inv(s, issued)
    ensures Inv(Returned(s, v).0, issued - {v})
  {
    var s' := Returned(s, v).0;
    if v < s.next && v !in s.items {
      InsertSortedKeepsOrder(s.items, v);
      forall x | x in s'.items
        ensures x < s'.next && x !in issued - {v}
      {
        assert x in multiset(s'.items);
        assert multiset(s'.items) == multiset(s.items) + multiset{v};
        assert x in multiset(s.items) || x == v;
        if x != v {
          assert x in s.items;
        }
      }
    }
  }

  /** The number reused is the smallest pooled one, and it leaves the pool. */
  lemma ReuseTakesSmallest(s: PoolState)
    requires StrictlyIncreasing(s.items) && |s.items| > 0 && s.items[0] < s.next
    ensures forall x :: x in s.items ==> NextValue(s).0 <= x
    ensures NextValue(s).0 !in NextValue(s).1.items
  {
    var r := NextValue(s).0;
    forall x | x in NextValue(s).1.items
      ensures x != r
    {
      var j :| 0 <= j < |s.items[1..]| && s.items[1..][j] == x;
      assert s.items[j + 1] == x;
    }
  }

  /** The numbers of `k` successive GetNextValue calls. */
  function Draws(s: PoolState, k: nat): seq<int>
    decreases k
  {
    if k == 0 then [] else [NextValue(s).0] + Draws(NextValue(s).1, k - 1)
  }

  /** With nothing pooled the numbers handed out strictly increase, each above the
    * iterator it started from. */
  lemma {:induction false} DrawsIncrease(s: PoolState, k: nat)
    requires s.items == []
    decreases k
    ensures StrictlyIncreasing(Draws(s, k))
    ensures forall i :: 0 <= i < |Draws(s, k)| ==> s.next <= Draws(s, k)[i]
    ensures |Draws(s, k)| == k
  {
    if k > 0 {
      var (r, s') := NextValue(s);
      DrawsIncrease(s', k - 1);
      var rest := Draws(s', k - 1);
      assert Draws(s, k) == [r] + rest;
      assert forall i :: 0 <= i < |rest| ==> r < rest[i];
    }
  }

  /** A fresh pool with no used numbers hands out 1, 2, 3, ... */
  lemma {:induction false} FreshPoolCounts(n: int, k: nat)
    ensures Draws(PoolState([], n, {}), k) == seq(k, i => n + i)
    decreases k
  {
    if k > 0 {
      FreshPoolCounts(n + 1, k - 1);
      assert NextValue(PoolState([], n, {})) == (n, PoolState([], n + 1, {}));
    }
  }

  /** As written, a number that was registered as used and is returned while it is the
    * iterator's next number gets both pooled and handed out by the iterator, so the two
    * following calls hand out the same number. */
  lemma AsWrittenHandsOutTwice()
    ensures var s1 := NextValue(FreshPool.(used := {2})).1;
      var s2 := ReturnedAsWritten(s1, 2).0;
      var s3 := NextValue(s2).1;
      NextValue(FreshPool.(used := {2})).0 == 1
      && NextValue(s2).0 == 2 && NextValue(s3).0 == 2
  {
    var s0 := FreshPool.(used := {2});
    assert NextValue(s0) == (1, PoolState([], 2, {2}));
    assert InsertSorted([], 2) == [2];
    assert ReturnedAsWritten(PoolState([], 2, {2}), 2).0 == PoolState([2], 2, {});
    assert NextValue(PoolState([2], 2, {})) == (2, PoolState([2], 3, {}));
  }

  /** SimpleValuePool<int>: the keyed collection of returned numbers (kept sorted), the
    * iterator and the set of numbers registered as used. */
  class ValuePool {
    var items: seq<int>
    var next: int
    var used: set<int>

    function State(): PoolState
      reads this
    {
      PoolState(items, next, used)
    }

    constructor()
      ensures State() == FreshPool
    {
      items := [];
      next := 1;
      used := {};
    }

    /** GetNextValue, with the iterator's skipping loop. */
    method GetNextValue() returns (r: int)
      modifies this
      ensures (r, State()) == NextValue(old(State()))
    {
      if |items| > 0 && items[0] < next {
        r := items[0];
        items := items[1..];
        used := used + {r};
        return;
      }
      while |used| > 0 && next in used
        invariant SkipUsed(used, next) == SkipUsed(used, old(next))
        invariant items == old(items) && used == old(used)
        decreases UpperBound(used) - next
      {
        next := next + 1;
      }
      r := next;
      next := r + 1;
    }

    /** ReturnValue; a fault is the exception of KeyedCollection.Add for a number that
    * is already pooled, raised after the number has left the used set. */
    method ReturnValue(v: int) returns (fault: Option<Fault>)
      modifies this
      ensures (State(), fault) == Returned(old(State()), v)
    {
      used := used - {v};
      if v >= next {
        return None;
      }
      if v in items {
        return Some(Argument);
      }
      items := InsertSorted(items, v);
      fault := None;
    }

    /** AddUsedValue registers a number the iterator must skip. */
    method AddUsedValue(v: int)
      modifies this
      ensures State() == old(State()).(used := old(used) + {v})
    {
      used := used + {v};
    }
  }
}
