/** The indexed binary heap of net/timeMinHeap.h: timers ordered by expiration in an array, each timer
    knowing its own position. */
module TimerHeap {
  import opened Outcomes

  class Timer {
    var expiration: int       // microseconds since the epoch
    var heapIdx: int          // min_heap_idx
    const interval: int       // repeat interval in whole microseconds
    const repeat: bool

    /** The constructor of the source leaves `min_heap_idx` unset. */
    constructor (when: int, interval: int, repeat: bool, garbage: int)
      ensures expiration == when && this.interval == interval && this.repeat == repeat && heapIdx == garbage
    {
      this.expiration, this.interval, this.repeat, this.heapIdx := when, interval, repeat, garbage;
    }
  }

  function Parent(i: int): int
    requires i > 0
  {
    (i - 1) / 2
  }

  predicate IsChild(c: int, i: int) { c == 2 * i + 1 || c == 2 * i + 2 }

  ghost function Elems(q: seq<Timer>): set<Timer> { set t | t in q }

  ghost predicate Distinct(q: seq<Timer>) {
    forall i, j :: 0 <= i < j < |q| ==> q[i] != q[j]
  }

  /** `event[i]->min_heap_idx == i`, except at `hole`. */
  ghost predicate IndexedBut(q: seq<Timer>, hole: int)
    reads q
  {
    forall i :: 0 <= i < |q| && i != hole ==> q[i].heapIdx == i
  }

  /** The expirations, which the sift loops do not touch. */
  ghost function Keys(q: seq<Timer>): (k: seq<int>)
    reads q
    ensures |k| == |q| && forall i :: 0 <= i < |q| ==> k[i] == q[i].expiration
  {
    seq(|q|, i requires 0 <= i < |q| reads q => q[i].expiration)
  }

  ghost predicate Ordered(k: seq<int>) {
    forall i :: 0 < i < |k| ==> k[Parent(i)] <= k[i]
  }

  /** The parent of the entry at `hole` does not exceed the children of `hole`. */
  ghost predicate Spans(k: seq<int>, hole: int) {
    forall c :: 0 < hole < |k| && 0 <= c < |k| && IsChild(c, hole) ==> k[Parent(hole)] <= k[c]
  }

  /** Heap order, except that the entry at `hole` may be smaller than its parent. */
  ghost predicate OrderedButUp(k: seq<int>, hole: int) {
    Spans(k, hole) && forall i :: 0 < i < |k| && i != hole ==> k[Parent(i)] <= k[i]
  }

  /** Heap order, except that the entry at `hole` may be greater than its children. */
  ghost predicate OrderedButDown(k: seq<int>, hole: int) {
    Spans(k, hole) && forall i :: 0 < i < |k| && Parent(i) != hole ==> k[Parent(i)] <= k[i]
  }

  /** The top of a heap is a minimum. */
  lemma {:induction false} TopIsMinimum(k: seq<int>, i: int)
    requires Ordered(k) && 0 <= i < |k|
    ensures k[0] <= k[i]
    decreases i
  {
    if i > 0 {
      TopIsMinimum(k, Parent(i));
    }
  }

  lemma NothingBelowTop(q: seq<Timer>)
    requires Ordered(Keys(q)) && q != []
    ensures forall t :: t in q ==> q[0].expiration <= t.expiration
  {
    forall t | t in q ensures q[0].expiration <= t.expiration {
      var i :| 0 <= i < |q| && q[i] == t;
      TopIsMinimum(Keys(q), i);
    }
  }

  function Swap<T>(q: seq<T>, i: int, j: int): seq<T>
    requires 0 <= i < |q| && 0 <= j < |q|
  {
    q[i := q[j]][j := q[i]]
  }

  lemma SwapKeeps(q: seq<Timer>, i: int, j: int)
    requires 0 <= i < |q| && 0 <= j < |q| && Distinct(q)
    ensures Distinct(Swap(q, i, j)) && Elems(Swap(q, i, j)) == Elems(q)
  {
    var r := Swap(q, i, j);
    forall t | t in q ensures t in r {
      var k :| 0 <= k < |q| && q[k] == t;
      assert r[if k == i then j else if k == j then i else k] == t;
    }
  }

  lemma OthersDiffer(q: seq<Timer>, i: int)
    requires Distinct(q) && 0 <= i < |q|
    ensures forall j :: 0 <= j < |q| && j != i ==> q[j] != q[i]
  {}

  /** One step of `min_heap_shift_up_`: the entry at the hole trades places with its greater parent. */
  lemma SiftUpStep(k: seq<int>, hole: int)
    requires 0 < hole < |k| && OrderedButUp(k, hole) && k[Parent(hole)] > k[hole]
    ensures OrderedButUp(Swap(k, hole, Parent(hole)), Parent(hole))
  {
    var p := Parent(hole);
    var r := Swap(k, hole, p);
    forall i | 0 < i < |r| && i != p ensures r[Parent(i)] <= r[i] {
      if i != hole && Parent(i) == hole { assert IsChild(i, hole); }
    }
    forall c | 0 < p && 0 <= c < |r| && IsChild(c, p) ensures r[Parent(p)] <= r[c] {
      assert k[Parent(p)] <= k[p];
      if c != hole { assert Parent(c) == p; }
    }
  }

  /** One step of `min_heap_shift_down_`: the hole trades places with its least child. */
  lemma SiftDownStep(k: seq<int>, hole: int, least: int)
    requires 0 <= hole < least < |k| && IsChild(least, hole) && OrderedButDown(k, hole)
    requires forall c :: 0 <= c < |k| && IsChild(c, hole) ==> k[least] <= k[c]
    requires k[hole] > k[least]
    ensures OrderedButDown(Swap(k, hole, least), least)
  {
    var r := Swap(k, hole, least);
    forall i | 0 < i < |r| && Parent(i) != least ensures r[Parent(i)] <= r[i] {
      if Parent(i) == hole { assert IsChild(i, hole); }
    }
    forall c | 0 <= c < |r| && IsChild(c, least) ensures r[Parent(least)] <= r[c] {
      assert Parent(c) == least && Parent(least) == hole;
    }
  }

  lemma RaisedEnough(k: seq<int>, hole: int)
    requires OrderedButUp(k, hole) && 0 <= hole < |k| && (hole > 0 ==> k[Parent(hole)] <= k[hole])
    ensures Ordered(k)
  {}

  lemma LoweredEnough(k: seq<int>, hole: int)
    requires OrderedButDown(k, hole) && 0 <= hole < |k|
    requires forall c :: 0 <= c < |k| && IsChild(c, hole) ==> k[hole] <= k[c]
    ensures Ordered(k)
  {
    forall i | 0 < i < |k| ensures k[Parent(i)] <= k[i] {
      if Parent(i) == hole { assert IsChild(i, hole); }
    }
  }

  /** What `event[--size]` leaves when the entry at `hole` goes: the last entry is put into the hole. */
  ghost function Closed<T>(q: seq<T>, hole: int): seq<T>
    requires 0 <= hole < |q|
  {
    var n := |q| - 1;
    if hole < n then q[..n][hole := q[n]] else q[..n]
  }

  lemma ClosedKeeps(q: seq<Timer>, hole: int)
    requires 0 <= hole < |q| && Distinct(q)
    ensures Distinct(Closed(q, hole)) && Elems(Closed(q, hole)) == Elems(q) - {q[hole]}
    ensures Keys(Closed(q, hole)) == Closed(Keys(q), hole)
  {
    var n := |q| - 1;
    var r := Closed(q, hole);
    forall t | t in q && t != q[hole] ensures t in r {
      var i :| 0 <= i < |q| && q[i] == t;
      assert r[if i == n then hole else i] == t;
    }
  }

  lemma ClosedAt<T>(q: seq<T>, hole: int)
    requires 0 <= hole < |q|
    ensures var r := Closed(q, hole);
      && |r| == |q| - 1 && (hole < |r| ==> r[hole] == q[|r|])
      && forall i :: 0 <= i < |r| && i != hole ==> r[i] == q[i]
  {}

  lemma LastLeaves(q: seq<Timer>)
    requires q != [] && Distinct(q) && Ordered(Keys(q))
    ensures Ordered(Keys(Closed(q, |q| - 1))) && q[|q| - 1] !in Closed(q, |q| - 1)
  {}

  /** The replacement is no less than the parent of the hole: it can only be too great. */
  lemma ClosedDown(k: seq<int>, hole: int)
    requires Ordered(k) && 0 <= hole < |k| - 1 && (hole > 0 ==> k[Parent(hole)] <= k[|k| - 1])
    ensures OrderedButDown(Closed(k, hole), hole)
  {
    SpansWhenOrdered(k, hole);
  }

  /** The replacement is less than the parent of the hole: it can only be too small. */
  lemma ClosedUp(k: seq<int>, hole: int)
    requires Ordered(k) && 0 < hole < |k| - 1 && k[Parent(hole)] > k[|k| - 1]
    ensures OrderedButUp(Closed(k, hole), hole)
  {
    SpansWhenOrdered(k, hole);
    forall i | 0 < i < |k| - 1 && Parent(i) == hole ensures k[|k| - 1] <= k[i] {
      assert IsChild(i, hole);
    }
  }

  lemma OnlyAtItsIndex(q: seq<Timer>, e: Timer)
    requires IndexedBut(q, -1) && 0 <= e.heapIdx < |q|
    ensures e in q ==> e == q[e.heapIdx]
  {}

  /** A parent exceeding the last entry means the leaving entry is not itself the last. */
  lemma RaisesInside(k: seq<int>, hole: int)
    requires Ordered(k) && 0 < hole < |k| && k[Parent(hole)] > k[|k| - 1]
    ensures hole < |k| - 1
  {}

  lemma SpansWhenOrdered(k: seq<int>, hole: int)
    requires Ordered(k) && 0 <= hole < |k|
    ensures Spans(k, hole)
  {
    forall c | 0 < hole && 0 <= c < |k| && IsChild(c, hole) ensures k[Parent(hole)] <= k[c] {
      assert Parent(c) == hole;
    }
  }

  /** `min_heap_t`: `event.Length` is the capacity; `q` names the timers in `event[..size]`. */
  class MinHeap {
    var event: array<Timer?>
    var size: nat
    ghost var q: seq<Timer>

    ghost predicate Holds(r: seq<Timer>, hole: int)
      reads this, event
    {
      |r| == size <= event.Length && forall i :: 0 <= i < size && i != hole ==> event[i] == r[i]
    }

    ghost predicate Valid()
      reads this, event, q
    {
      Holds(q, -1) && Distinct(q) && IndexedBut(q, -1) && Ordered(Keys(q))
    }

    constructor ()
      ensures Valid() && q == [] && fresh(event) && event.Length == 0
    {
      event := new Timer?[0];
      size, q := 0, [];
    }

    /** `min_heap_reserve`; `alloc` tells whether `realloc` succeeds. */
    method Reserve(n: nat, alloc: bool) returns (rc: int)
      requires size <= event.Length
      modifies this`event
      ensures rc == 0 || rc == -1
      ensures rc == -1 <==> old(event.Length) < n && !alloc
      ensures rc == -1 ==> event == old(event)
      ensures rc == 0 ==> n <= event.Length && size <= event.Length && event[..size] == old(event[..size])
      ensures event == old(event) || fresh(event)
    {
      if event.Length < n {
        var capacity := if event.Length != 0 then event.Length * 2 else 8;
        if capacity < n { capacity := n; }
        if !alloc { return -1; }
        var p := new Timer?[capacity](_ => null);
        forall i | 0 <= i < size { p[i] := event[i]; }
        event := p;
      }
      return 0;
    }

    /** `(event[hole] = event[from])->min_heap_idx = hole`: the entry moves, the hole takes its place. */
    method MoveInto(hole: nat, from: nat)
      requires hole < size && from < size && hole != from
      requires Holds(q, hole) && Distinct(q) && IndexedBut(q, hole)
      modifies event, this`q, Elems(q)`heapIdx
      ensures q == Swap(old(q), hole, from) && Holds(q, from)
      ensures Distinct(q) && Elems(q) == Elems(old(q)) && IndexedBut(q, from)
      ensures Keys(q) == Swap(old(Keys(q)), hole, from)
    {
      hide Distinct;
      SwapKeeps(q, hole, from);
      OthersDiffer(q, from);
      var t := event[from];
      assert t == q[from] && t in Elems(q);
      event[hole] := t;
      t.heapIdx := hole;
      q := Swap(q, hole, from);
    }

    /** `(event[hole] = e)->min_heap_idx = hole`. */
    method Place(hole: nat, e: Timer)
      requires hole < size && Holds(q, hole) && q[hole] == e && Distinct(q) && IndexedBut(q, hole)
      modifies event, e`heapIdx
      ensures Holds(q, -1) && IndexedBut(q, -1) && Keys(q) == old(Keys(q))
    {
      event[hole] := e;
      e.heapIdx := hole;
    }

    /** The array with `e` in the hole is the distinct, indexed sequence `q`. */
    ghost predicate Open(hole: int, e: Timer)
      reads this, event, q
    {
      0 <= hole < size && Holds(q, hole) && q[hole] == e && Distinct(q) && IndexedBut(q, hole)
    }

    /** One round of the loop of `min_heap_shift_up_`. */
    method RaiseHole(hole: nat, e: Timer)
      requires 0 < hole && Open(hole, e) && OrderedButUp(Keys(q), hole)
      requires Keys(q)[Parent(hole)] > Keys(q)[hole]
      modifies event, this`q, Elems(q)`heapIdx
      ensures Open(Parent(hole), e) && OrderedButUp(Keys(q), Parent(hole))
      ensures Elems(q) == old(Elems(q)) && q == Swap(old(q), hole, Parent(hole))
    {
      SiftUpStep(Keys(q), hole);
      MoveInto(hole, Parent(hole));
    }

    /** `min_heap_shift_up_`: `q` is the array with `e` put into the hole. */
    method ShiftUp(hole0: nat, e: Timer)
      requires Open(hole0, e) && OrderedButUp(Keys(q), hole0)
      modifies event, this`q, Elems(q)`heapIdx
      ensures Valid() && Elems(q) == old(Elems(q))
      ensures hole0 > 0 && old(q[0].expiration) <= e.expiration ==> q[0] == old(q[0])
    {
      hide OrderedButUp, Ordered, Distinct;
      var hole: nat := hole0;
      while hole != 0 && event[Parent(hole)].expiration > e.expiration
        invariant Open(hole, e) && OrderedButUp(Keys(q), hole) && Elems(q) == old(Elems(q))
        invariant hole0 > 0 ==> if hole > 0 then q[0] == old(q[0]) else old(q[0].expiration) > e.expiration
      {
        RaiseHole(hole, e);
        hole := Parent(hole);
      }
      RaisedEnough(Keys(q), hole);
      Place(hole, e);
    }

    /** The lesser child of the hole, as `min_heap_shift_down_` picks it. */
    method LesserChild(hole: nat, ghost e: Timer) returns (c: nat)
      requires Open(hole, e) && 2 * hole + 1 < size
      ensures hole < c < size && IsChild(c, hole)
      ensures forall d :: 0 <= d < size && IsChild(d, hole) ==> Keys(q)[c] <= Keys(q)[d]
    {
      c := 2 * (hole + 1);
      if c == size || event[c].expiration > event[c - 1].expiration {
        c := c - 1;
      }
    }

    /** One round of the loop of `min_heap_shift_down_`. */
    method LowerHole(hole: nat, c: nat, e: Timer)
      requires Open(hole, e) && hole < c < size && IsChild(c, hole) && OrderedButDown(Keys(q), hole)
      requires forall d :: 0 <= d < size && IsChild(d, hole) ==> Keys(q)[c] <= Keys(q)[d]
      requires Keys(q)[hole] > Keys(q)[c]
      modifies event, this`q, Elems(q)`heapIdx
      ensures Open(c, e) && OrderedButDown(Keys(q), c) && Elems(q) == old(Elems(q))
      ensures hole > 0 ==> q[0] == old(q[0])
    {
      SiftDownStep(Keys(q), hole, c);
      MoveInto(hole, c);
    }

    /** The loop of `min_heap_shift_down_`, with the hole inside the heap. */
    method ShiftDownInside(hole0: nat, e: Timer)
      requires Open(hole0, e) && OrderedButDown(Keys(q), hole0)
      modifies event, this`q, Elems(q)`heapIdx
      ensures Valid() && Elems(q) == old(Elems(q))
      ensures hole0 > 0 ==> q[0] == old(q[0])
    {
      hide OrderedButDown, Ordered, Distinct;
      var hole: nat := hole0;
      while 2 * (hole + 1) <= size
        invariant Open(hole, e) && OrderedButDown(Keys(q), hole) && Elems(q) == old(Elems(q))
        invariant hole0 > 0 ==> hole > 0 && q[0] == old(q[0])
        decreases size - hole
      {
        var c := LesserChild(hole, e);
        if !(e.expiration > event[c].expiration) { break; }
        LowerHole(hole, c, e);
        hole := c;
      }
      LoweredEnough(Keys(q), hole);
      Place(hole, e);
    }

    /** `min_heap_shift_down_`. When the last entry itself leaves, the hole is just past the heap, the
        loop does not run and only the leaving entry is written. */
    method ShiftDown(hole: nat, e: Timer)
      requires if hole < size then Open(hole, e) && OrderedButDown(Keys(q), hole)
               else hole == size < event.Length && event[size] == e && e !in q && Valid()
      modifies event, this`q, Elems(q)`heapIdx, e`heapIdx
      ensures Valid() && Elems(q) == old(Elems(q))
      ensures 0 < hole < size ==> q[0] == old(q[0])
      ensures hole >= size ==> q == old(q) && e.heapIdx == hole
    {
      if hole < size {
        ShiftDownInside(hole, e);
      } else {
        event[hole] := e;
        e.heapIdx := hole;
      }
    }

    /** `size++`: the new timer is in the hole at the end. */
    method Admit(e: Timer)
      requires Valid() && e !in q && size < event.Length
      modifies this`size, this`q
      ensures size == old(size) + 1 && q == old(q) + [e] && Elems(q) == old(Elems(q)) + {e}
      ensures Open(size - 1, e) && OrderedButUp(Keys(q), size - 1)
    {
      size := size + 1;
      q := q + [e];
      assert Keys(q) == old(Keys(q)) + [e.expiration];
    }

    /** `min_heap_push`: fails, changing nothing, exactly when the array is full and cannot grow. */
    method Push(e: Timer, alloc: bool) returns (rc: int)
      requires Valid() && e !in q
      modifies this, event, Elems(q)`heapIdx, e`heapIdx
      ensures rc == 0 || rc == -1
      ensures rc == -1 <==> old(size == event.Length) && !alloc
      ensures rc == -1 ==> Valid() && q == old(q) && event == old(event)
      ensures rc == 0 ==> Valid() && Elems(q) == old(Elems(q)) + {e} && size == old(size) + 1
      ensures rc == 0 && old(size) > 0 && old(q[0].expiration) <= e.expiration ==> q[0] == old(q[0])
      ensures event == old(event) || fresh(event)
    {
      rc := Reserve(size + 1, alloc);
      if rc == 0 {
        Admit(e);
        ShiftUp(size - 1, e);
      }
    }

    /** `last = event[--size]`, to be put where the entry at `hole` leaves. */
    method TakeLast(ghost hole: nat) returns (last: Timer)
      requires Valid() && hole < size
      modifies this`size, this`q
      ensures size == old(size) - 1 && last == old(q)[size] && event[size] == last
      ensures q == Closed(old(q), hole) && Elems(q) == Elems(old(q)) - {old(q)[hole]}
      ensures Keys(q) == Closed(old(Keys(q)), hole)
      ensures if hole < size then Open(hole, last) else hole == size && Valid() && last !in q
    {
      ClosedKeeps(q, hole);
      ClosedAt(q, hole);
      LastLeaves(q);
      hide Closed, Distinct, Ordered, Elems;
      size := size - 1;
      last := event[size];
      q := Closed(q, hole);
    }

    /** `min_heap_pop`: a minimum leaves; its index stays behind as 0. */
    method Pop() returns (r: Timer?)
      requires Valid()
      modifies this`size, this`q, event, Elems(q)`heapIdx
      ensures Valid()
      ensures old(q) == [] ==> r == null && q == []
      ensures old(q) != [] ==> r == old(q[0]) && Elems(q) == old(Elems(q)) - {r} && size == old(size) - 1
      ensures old(q) != [] ==> r.heapIdx == 0
    {
      if size == 0 { return null; }
      r := event[0];
      assert r.heapIdx == 0;
      if size > 1 { ClosedDown(Keys(q), 0); }
      var last := TakeLast(0);
      ShiftDown(0, last);
    }

    /** The positions `min_heap_erase` may work on; -1 is no position. */
    predicate InHeap(i: int)
      reads this
    {
      0 <= i < size
    }

    /** `min_heap_erase`: whatever timer sits at `e`'s index leaves. With an index that is neither -1 nor a
        position of the heap the source decrements a size of 0 or writes past its last entry: a fault. */
    method Erase(e: Timer) returns (r: Outcome<int>)
      requires Valid()
      modifies this`size, this`q, event, Elems(q)`heapIdx, e`heapIdx
      ensures Valid() && size == |q|
      ensures r.Fault? <==> old(e.heapIdx != -1 && !InHeap(e.heapIdx))
      ensures r.Fault? ==> q == old(q) && e.heapIdx == old(e.heapIdx)
      ensures r.Ok? ==> e.heapIdx == -1 && r.value == if old(e.heapIdx) == -1 then -1 else 0
      ensures r == Ok(-1) ==> q == old(q)
      ensures r == Ok(0) ==> Elems(q) == old(Elems(q)) - {old(q[e.heapIdx])} && size == old(size) - 1
      ensures r == Ok(0) ==> (Elems(q) == old(Elems(q)) - {e} <==> e in old(q))
      ensures e in old(q) ==> r == Ok(0)
      ensures r == Ok(0) && old(e.heapIdx) > 0 ==> q != [] && q[0] == old(q[0])
    {
      if e.heapIdx == -1 { return Ok(-1); }
      if !InHeap(e.heapIdx) { return Fault; }
      var hole := e.heapIdx;
      ghost var k := Keys(q);
      OnlyAtItsIndex(q, e);
      var last := TakeLast(hole);
      Refill(hole, last, k);
      assert e !in Elems(q) && old(q[e.heapIdx]) in old(Elems(q));
      Forget(e);
      return Ok(0);
    }

    method Forget(e: Timer)
      requires Valid() && e !in q
      modifies e`heapIdx
      ensures Valid() && e.heapIdx == -1
    {
      e.heapIdx := -1;
    }

    /** The replacement sifts up or down. */
    method Refill(hole: nat, last: Timer, ghost k: seq<int>)
      requires Ordered(k) && hole < |k| && |k| == size + 1 && k[size] == last.expiration
      requires Keys(q) == Closed(k, hole)
      requires if hole < size then Open(hole, last)
               else hole == size < event.Length && event[size] == last && last !in q && Valid()
      modifies event, this`q, Elems(q)`heapIdx, last`heapIdx
      ensures Valid() && Elems(q) == old(Elems(q))
      ensures hole > 0 ==> q != [] && q[0] == old(q[0])
    {
      if hole > 0 { NoneBelowFirst(k, hole); }
      if hole > 0 && event[Parent(hole)].expiration > last.expiration {
        RaisesInside(k, hole);
        ClosedUp(k, hole);
        ShiftUp(hole, last);
      } else {
        if hole < size { ClosedDown(k, hole); }
        ShiftDown(hole, last);
      }
    }

    /** A fired timer keeps its index. When it was the only one, erasing it afterwards faults; otherwise it takes
        out the timer that became the top. */
    method PopThenErase() returns (t: Timer, ghost next: Timer?, r: Outcome<int>)
      requires Valid() && q != []
      modifies this`size, this`q, event, Elems(q)`heapIdx
      ensures Valid() && t == old(q[0])
      ensures r.Fault? <==> old(size) == 1
      ensures r.Ok? ==> next in old(q) && next != t && Elems(q) == old(Elems(q)) - {t, next}
    {
      t := Pop();
      next := if q == [] then null else q[0];
      assert q != [] ==> q[0] in Elems(q);
      r := Erase(t);
    }
  }

  lemma NoneBelowFirst(k: seq<int>, hole: int)
    requires Ordered(k) && 0 < hole < |k|
    ensures Closed(k, hole)[0] == k[0] <= k[|k| - 1]
  {
    TopIsMinimum(k, |k| - 1);
  }
}
