/**
 The vector of events kept as a binary min-heap. The standard library's heap algorithms are
 modelled by sifting; only what the C++ standard promises of them is used elsewhere: the
 result is a heap over the same events, and popping takes out the front.
 */
module EventHeap {
  import opened Timing

  function Parent(i: nat): nat
    requires i > 0
  {
    (i - 1) / 2
  }

  function Swap(q: seq<Event>, i: nat, j: nat): (r: seq<Event>)
    requires i < |q| && j < |q|
    ensures |r| == |q| && multiset(r) == multiset(q)
    ensures r[i] == q[j] && r[j] == q[i] && forall k :: 0 <= k < |q| && k != i && k != j ==> r[k] == q[k]
  {
    q[i := q[j]][j := q[i]]
  }

  /** No event is before its parent. */
  ghost predicate IsHeap(q: seq<Event>) { HeapFrom(q, 0) }

  ghost predicate HeapFrom(q: seq<Event>, from: nat) {
    forall k :: 0 < k < |q| && from <= Parent(k) ==> !Before(q[k], q[Parent(k)])
  }

  function SiftUp(q: seq<Event>, i: nat): seq<Event>
    requires i < |q|
    decreases i
  {
    if i > 0 && Before(q[i], q[Parent(i)]) then SiftUp(Swap(q, i, Parent(i)), Parent(i)) else q
  }

  function LeastChild(q: seq<Event>, i: nat): nat
    requires 2 * i + 1 < |q|
  {
    if 2 * i + 2 < |q| && Before(q[2 * i + 2], q[2 * i + 1]) then 2 * i + 2 else 2 * i + 1
  }

  function SiftDown(q: seq<Event>, i: nat): seq<Event>
    requires i < |q|
    decreases |q| - i
  {
    if 2 * i + 1 < |q| && Before(q[LeastChild(q, i)], q[i])
    then SiftDown(Swap(q, i, LeastChild(q, i)), LeastChild(q, i))
    else q
  }

  /** `emplace_back` and `push_heap`. */
  function Push(q: seq<Event>, e: Event): seq<Event> { SiftUp(q + [e], |q|) }

  /** `pop_heap` and `pop_back`. */
  function Pop(q: seq<Event>): seq<Event>
    requires q != []
  {
    var rest := q[..|q| - 1];
    if rest == [] then [] else SiftDown(rest[0 := q[|q| - 1]], 0)
  }

  function MakeHeapFrom(q: seq<Event>, i: nat): seq<Event>
    requires i <= |q|
    decreases i
  {
    if i == 0 then q else MakeHeapFrom(Sifted(q, i - 1), i - 1)
  }

  function Sifted(q: seq<Event>, i: nat): (r: seq<Event>)
    requires i < |q|
    ensures |r| == |q|
  {
    SiftLength(q, i);
    SiftDown(q, i)
  }

  /** `make_heap`. */
  function MakeHeap(q: seq<Event>): seq<Event> { MakeHeapFrom(q, |q|) }

  lemma {:induction false} SiftLength(q: seq<Event>, i: nat)
    requires i < |q|
    ensures |SiftDown(q, i)| == |q| && multiset(SiftDown(q, i)) == multiset(q)
    decreases |q| - i
  {
    if 2 * i + 1 < |q| && Before(q[LeastChild(q, i)], q[i]) {
      SiftLength(Swap(q, i, LeastChild(q, i)), LeastChild(q, i));
    }
  }

  /** A heap but for the edge above `i`; its children respect its parent. */
  ghost predicate HeapBut(q: seq<Event>, i: nat)
    requires i < |q|
  {
    && (forall k :: 0 < k < |q| && k != i ==> !Before(q[k], q[Parent(k)]))
    && (forall k :: 0 < k < |q| && i > 0 && Parent(k) == i ==> !Before(q[k], q[Parent(i)]))
  }

  lemma RaiseOk(q: seq<Event>, i: nat)
    requires 0 < i < |q| && HeapBut(q, i) && Before(q[i], q[Parent(i)])
    ensures HeapBut(Swap(q, i, Parent(i)), Parent(i))
  {
    var p := Parent(i);
    var r := Swap(q, i, p);
    forall k | 0 < k < |r| && k != p ensures !Before(r[k], r[Parent(k)]) {
      if k != i && Parent(k) == p {
        assert !Before(q[k], q[p]);
      } else if Parent(k) == i {
        assert !Before(q[k], q[p]);
      }
    }
    forall k | 0 < k < |r| && p > 0 && Parent(k) == p ensures !Before(r[k], r[Parent(p)]) {
      assert !Before(q[p], q[Parent(p)]);
      if k != i { assert !Before(q[k], q[p]); }
    }
  }

  lemma {:induction false} SiftUpOk(q: seq<Event>, i: nat)
    requires i < |q| && HeapBut(q, i)
    ensures IsHeap(SiftUp(q, i)) && multiset(SiftUp(q, i)) == multiset(q)
    decreases i
  {
    if i > 0 && Before(q[i], q[Parent(i)]) {
      RaiseOk(q, i);
      SiftUpOk(Swap(q, i, Parent(i)), Parent(i));
    }
  }

  lemma PushOk(q: seq<Event>, e: Event)
    requires IsHeap(q)
    ensures IsHeap(Push(q, e)) && multiset(Push(q, e)) == multiset(q) + multiset{e}
  {
    var r := q + [e];
    assert forall k :: 0 < k < |q| ==> r[k] == q[k] && r[Parent(k)] == q[Parent(k)];
    SiftUpOk(r, |q|);
  }

  /** A heap from `from` on, but for the edges below `i`; the children respect its parent. */
  ghost predicate HeapBelow(q: seq<Event>, from: nat, i: nat)
    requires from <= i < |q|
  {
    && (forall k :: 0 < k < |q| && from <= Parent(k) && Parent(k) != i ==> !Before(q[k], q[Parent(k)]))
    && (forall k :: 0 < k < |q| && i > from && Parent(k) == i && from <= Parent(i) ==> !Before(q[k], q[Parent(i)]))
  }

  lemma {:induction false} SiftDownOk(q: seq<Event>, from: nat, i: nat)
    requires from <= i < |q| && HeapBelow(q, from, i)
    ensures HeapFrom(SiftDown(q, i), from)
    decreases |q| - i
  {
    if 2 * i + 1 < |q| && Before(q[LeastChild(q, i)], q[i]) {
      var c := LeastChild(q, i);
      var r := Swap(q, i, c);
      assert Parent(c) == i;
      forall k | 0 < k < |r| && from <= Parent(k) && Parent(k) != c ensures !Before(r[k], r[Parent(k)]) {
        if Parent(k) == i {
          assert k == 2 * i + 1 || k == 2 * i + 2;
        }
      }
      SiftDownOk(r, from, c);
    } else {
      forall k | 0 < k < |q| && from <= Parent(k) && Parent(k) == i ensures !Before(q[k], q[i]) {
        assert k == 2 * i + 1 || k == 2 * i + 2;
      }
    }
  }

  /** The last event in the place of the first. */
  lemma FrontReplaced(q: seq<Event>)
    requires |q| > 1
    ensures var r := q[..|q| - 1][0 := q[|q| - 1]];
            multiset(r) == multiset(q) - multiset{q[0]}
  {
    var n := |q| - 1;
    var rest := q[..n];
    var r := rest[0 := q[n]];
    assert q == rest + [q[n]];
    assert rest == [q[0]] + rest[1..] && r == [q[n]] + rest[1..];
    assert multiset(q) == multiset{q[0]} + multiset(rest[1..]) + multiset{q[n]};
  }

  lemma FrontIsLoose(q: seq<Event>)
    requires IsHeap(q) && |q| > 1
    ensures HeapBelow(q[..|q| - 1][0 := q[|q| - 1]], 0, 0)
  {
  }

  lemma PopOk(q: seq<Event>)
    requires IsHeap(q) && q != []
    ensures IsHeap(Pop(q)) && multiset(Pop(q)) == multiset(q) - multiset{q[0]}
  {
    if |q| > 1 {
      var r := q[..|q| - 1][0 := q[|q| - 1]];
      FrontReplaced(q);
      FrontIsLoose(q);
      SiftDownOk(r, 0, 0);
      SiftLength(r, 0);
    } else {
      assert q == [q[0]];
    }
  }

  lemma AlmostHeap(q: seq<Event>, i: nat)
    requires i < |q| && HeapFrom(q, i + 1)
    ensures HeapBelow(q, i, i)
  {
  }

  lemma SiftedOk(q: seq<Event>, i: nat)
    requires i < |q| && HeapFrom(q, i + 1)
    ensures HeapFrom(Sifted(q, i), i) && multiset(Sifted(q, i)) == multiset(q)
  {
    AlmostHeap(q, i);
    SiftDownOk(q, i, i);
    SiftLength(q, i);
  }

  /** What each sifting keeps holds of what is made. */
  lemma {:induction false} MadeKeeps(q: seq<Event>, i: nat, keeps: (seq<Event>, nat) -> bool)
    requires i <= |q| && keeps(q, i)
    requires forall r, j: nat :: 0 < j <= |r| && keeps(r, j) ==> keeps(Sifted(r, j - 1), j - 1)
    ensures keeps(MakeHeapFrom(q, i), 0)
    decreases i
  {
    if i > 0 {
      assert keeps(Sifted(q, i - 1), i - 1);
      MadeKeeps(Sifted(q, i - 1), i - 1, keeps);
    }
  }

  ghost predicate Sifting(was: seq<Event>, q: seq<Event>, i: nat) { HeapFrom(q, i) && multiset(q) == multiset(was) }

  lemma SiftingGoesOn(was: seq<Event>, q: seq<Event>, i: nat)
    requires 0 < i <= |q| && Sifting(was, q, i)
    ensures Sifting(was, Sifted(q, i - 1), i - 1)
  {
    SiftedOk(q, i - 1);
  }

  /** Sifting down from the last place to the first makes a heap of the same events. */
  lemma MakeHeapOk(q: seq<Event>)
    ensures IsHeap(MakeHeap(q)) && multiset(MakeHeap(q)) == multiset(q)
  {
    ghost var keeps := (r: seq<Event>, j: nat) => Sifting(q, r, j);
    forall r, j: nat | 0 < j <= |r| && keeps(r, j) ensures keeps(Sifted(r, j - 1), j - 1) {
      SiftingGoesOn(q, r, j);
    }
    MadeKeeps(q, |q|, keeps);
  }

  /** The front of a heap is before or equal to every event in it. */
  lemma {:induction false} FrontIsLeast(q: seq<Event>, k: nat)
    requires IsHeap(q) && k < |q|
    ensures !Before(q[k], q[0])
  {
    if k > 0 {
      FrontIsLeast(q, Parent(k));
    }
  }
}
