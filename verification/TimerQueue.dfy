/** `TimerQueue` (net/timerQueue.cpp): timers are added, cancelled and drained in the loop thread. */
module TimerQueueClass {
  import opened Outcomes
  import opened TimerHeap

  const DEFAULT_OUTTIME := 100
  const DEFAULT_TIMEOUT := 10000

  /** `Timer::restart`; the interval has already been truncated to microseconds by `addTime`. */
  method Restart(t: Timer, now: int)
    modifies t`expiration
    ensures t.expiration == if t.repeat then now + t.interval else 0
  {
    if t.repeat {
      t.expiration := now + t.interval;
    } else {
      t.expiration := 0;
    }
  }

  // ---------------------------------------------------------------------------------------------
  // What callbacks do

  /** A callback's call into the queue. */
  datatype Call = Add(timer: Timer) | Cancel(timer: Timer)

  /** The calls `t`'s callback makes when it runs, in order. */
  function Calls(plan: map<Timer, seq<Call>>, t: Timer): seq<Call> {
    if t in plan then plan[t] else []
  }

  ghost function Adds(calls: seq<Call>): set<Timer> {
    set c | c in calls && c.Add? :: c.timer
  }

  ghost function Cancels(calls: seq<Call>): set<Timer> {
    set c | c in calls && c.Cancel? :: c.timer
  }

  ghost predicate NotEarlier(ts: set<Timer>, t: Timer)
    reads ts`expiration, t`expiration
  {
    forall u :: u in ts ==> t.expiration <= u.expiration
  }

  /** What the callbacks of the timers `ran` add and cancel. */
  ghost function AddsBy(plan: map<Timer, seq<Call>>, ran: set<Timer>): set<Timer> {
    set t, u | t in ran && u in Adds(Calls(plan, t)) :: u
  }

  ghost function CancelsBy(plan: map<Timer, seq<Call>>, ran: set<Timer>): set<Timer> {
    set t, u | t in ran && u in Cancels(Calls(plan, t)) :: u
  }

  ghost function OneShots(ts: set<Timer>): set<Timer> {
    set t | t in ts && !t.repeat
  }

  ghost function Due(ts: set<Timer>, now: int): set<Timer>
    reads ts
  {
    set t | t in ts && t.expiration <= now
  }

  ghost function Expirations(ts: set<Timer>): map<Timer, int>
    reads ts
  {
    map t | t in ts :: t.expiration
  }

  ghost function Indices(ts: set<Timer>): map<Timer, int>
    reads ts`heapIdx
  {
    map t | t in ts :: t.heapIdx
  }

  /** What a pop takes out. */
  ghost function Taken(popped: Timer?): set<Timer> { if popped == null then {} else {popped} }

  /** Heap and set after some calls. */
  ghost predicate Balanced(touched0: set<Timer>, touched: set<Timer>, h0: set<Timer>, h: set<Timer>, s0: set<Timer>,
                           s: set<Timer>, added: set<Timer>, cancelled: set<Timer>)
  {
    && h0 <= touched0 && added !! touched0 && touched == touched0 + added + cancelled
    && h == h0 + added - cancelled && s == s0 + added - cancelled
  }

  lemma CallBalances(touched0: set<Timer>, touched: set<Timer>, h0: set<Timer>, h: set<Timer>, s0: set<Timer>,
                     s: set<Timer>, added: set<Timer>, cancelled: set<Timer>, c: Call)
    requires Balanced(touched0, touched, h0, h, s0, s, added, cancelled) && (c.Add? ==> c.timer !in touched)
    ensures Balanced(touched0, touched + {c.timer}, h0, if c.Add? then h + {c.timer} else h - {c.timer},
      s0, if c.Add? then s + {c.timer} else s - {c.timer},
      added + (if c.Add? then {c.timer} else {}), cancelled + (if c.Cancel? then {c.timer} else {}))
  {}

  lemma BalancedMeans(touched0: set<Timer>, touched: set<Timer>, h0: set<Timer>, h: set<Timer>, s0: set<Timer>,
                      s: set<Timer>, added: set<Timer>, cancelled: set<Timer>)
    requires Balanced(touched0, touched, h0, h, s0, s, added, cancelled)
    ensures h <= touched && forall x :: x in touched0 && x !in h0 ==> x !in h
  {}

  /** Callbacks that only add: new timers, each once, none earlier than the timer whose callback adds it. */
  ghost predicate AddsOnly(plan: map<Timer, seq<Call>>, queued: set<Timer>, e0: map<Timer, int>, now: int)
  {
    forall t :: t in plan && t in e0 && e0[t] <= now ==>
      && FreshAdds(plan[t], queued)
      && (forall u :: u in Adds(plan[t]) ==> u in e0 && e0[t] <= e0[u])
      && (forall x :: x in plan && x in e0 && x != t && e0[x] <= now ==> Adds(plan[x]) !! Adds(plan[t]))
  }

  ghost predicate FreshAdds(calls: seq<Call>, known: set<Timer>) {
    && (forall c :: c in calls ==> c.Add? && c.timer !in known)
    && (forall i, j :: 0 <= i < j < |calls| ==> calls[i].timer != calls[j].timer)
  }

  // ---------------------------------------------------------------------------------------------
  // The state of a drain

  /** What stays fixed; `e0` holds the expirations at the start, of every timer involved. */
  ghost predicate Setting(queued: set<Timer>, plan: map<Timer, seq<Call>>, e0: map<Timer, int>) {
    && queued <= e0.Keys && plan.Keys <= e0.Keys
    && AddsBy(plan, plan.Keys) <= e0.Keys && CancelsBy(plan, plan.Keys) <= e0.Keys
    && forall t :: t in e0 && t.repeat ==> t.interval >= 1
  }

  /** The heap after the timers `fired` ran: what was there or came, less what was cancelled or is over. */
  ghost function Remaining(queued: set<Timer>, fired: set<Timer>, plan: map<Timer, seq<Call>>): set<Timer> {
    queued + AddsBy(plan, fired) - CancelsBy(plan, fired) - OneShots(fired)
  }

  ghost function Touched(queued: set<Timer>, fired: set<Timer>, plan: map<Timer, seq<Call>>): set<Timer> {
    queued + AddsBy(plan, fired) + CancelsBy(plan, fired)
  }

  /** The timers that ran: due ones, each once, in order, none overtaken by one that waits. */
  ghost predicate RanInOrder(waiting: set<Timer>, fired: seq<Timer>, e0: map<Timer, int>, now: int)
    requires waiting <= e0.Keys
  {
    && Distinct(fired) && Elems(fired) <= e0.Keys
    && (forall t :: t in fired ==> e0[t] <= now)
    && (forall i, j :: 0 <= i < j < |fired| ==> e0[fired[i]] <= e0[fired[j]])
    && (forall t, u :: t in fired && u in waiting && u !in fired ==> e0[t] <= e0[u])
  }

  /** Repeating timers that ran expire an interval after `now`, every other timer when it did before. */
  ghost predicate Rearmed(exp: map<Timer, int>, fired: seq<Timer>, e0: map<Timer, int>, now: int) {
    exp.Keys == e0.Keys
    && forall t :: t in e0 ==> exp[t] == if t in fired && t.repeat then now + t.interval else e0[t]
  }

  /** A one-shot timer that ran keeps a stale index and was not cancelled. */
  ghost predicate SpentOnce(idx: map<Timer, int>, fired: seq<Timer>, plan: map<Timer, seq<Call>>) {
    forall t :: t in fired && !t.repeat ==> t in idx && idx[t] == 0 && t !in CancelsBy(plan, Elems(fired))
  }

  /** Heap, set, expirations and indices after the timers `fired` ran. */
  ghost predicate Drained(queued: set<Timer>, timers0: set<Timer>, fired: seq<Timer>, touched: set<Timer>,
                          plan: map<Timer, seq<Call>>, e0: map<Timer, int>, now: int,
                          h: set<Timer>, s: set<Timer>, exp: map<Timer, int>, idx: map<Timer, int>)
  {
    && h == Remaining(queued, Elems(fired), plan) && h <= e0.Keys && idx.Keys == e0.Keys
    && touched == Touched(queued, Elems(fired), plan) && Elems(fired) <= queued + AddsBy(plan, Elems(fired))
    && s == timers0 + AddsBy(plan, Elems(fired)) - CancelsBy(plan, Elems(fired))
    && RanInOrder(h, fired, e0, now) && Rearmed(exp, fired, e0, now) && SpentOnce(idx, fired, plan)
  }

  /** Known timers outside the heap keep their indices, and those a callback cancelled had the index -1. */
  ghost predicate Unmoved(idx: map<Timer, int>, cancelled: set<Timer>, after: map<Timer, int>) {
    forall x :: x in idx ==> x in after && after[x] == idx[x] && (x in cancelled ==> idx[x] == -1)
  }

  lemma UnmovedLater(idx: map<Timer, int>, cancelled: set<Timer>, mid: map<Timer, int>, after: map<Timer, int>)
    requires Unmoved(idx, cancelled, mid) && forall x :: x in idx && x in mid ==> x in after && after[x] == mid[x]
    ensures Unmoved(idx, cancelled, after)
  {}

  lemma FiredMore(plan: map<Timer, seq<Call>>, fired: seq<Timer>, t: Timer)
    ensures Elems(fired + [t]) == Elems(fired) + {t}
    ensures AddsBy(plan, Elems(fired + [t])) == AddsBy(plan, Elems(fired)) + Adds(Calls(plan, t))
    ensures CancelsBy(plan, Elems(fired + [t])) == CancelsBy(plan, Elems(fired)) + Cancels(Calls(plan, t))
    ensures OneShots(Elems(fired + [t])) == OneShots(Elems(fired)) + (if t.repeat then {} else {t})
  {
    assert Elems(fired + [t]) == Elems(fired) + {t};
  }

  lemma NoneFired(plan: map<Timer, seq<Call>>)
    ensures Elems([]) == {} && AddsBy(plan, Elems([])) == {} == CancelsBy(plan, Elems([])) && OneShots(Elems([])) == {}
  {
    assert Elems([]) == {};
  }

  lemma CallsMore(calls: seq<Call>, i: nat)
    requires i < |calls|
    ensures Adds(calls[..i + 1]) == Adds(calls[..i]) + (if calls[i].Add? then {calls[i].timer} else {})
    ensures Cancels(calls[..i + 1]) == Cancels(calls[..i]) + (if calls[i].Cancel? then {calls[i].timer} else {})
  {
    assert calls[..i + 1] == calls[..i] + [calls[i]];
  }

  lemma NoCalls()
    ensures Adds([]) == {} && Cancels([]) == {}
  {}

  lemma FreshAddsNext(calls: seq<Call>, known: set<Timer>, i: nat)
    requires FreshAdds(calls, known) && i < |calls|
    ensures calls[i].Add? && calls[i].timer !in known + Adds(calls[..i]) + Cancels(calls[..i])
  {
    assert calls[i] in calls;
  }

  class TimerQueue {
    const heap: MinHeap
    var timerSet: set<Timer>

    constructor ()
      ensures heap.Valid() && heap.q == [] && timerSet == {} && fresh(heap) && fresh(heap.event)
    {
      heap := new MinHeap();
      timerSet := {};
    }

    method AddTimerInLoop(t: Timer, alloc: bool)
      requires heap.Valid() && t !in heap.q
      modifies this`timerSet, heap, heap.event, Elems(heap.q)`heapIdx, t`heapIdx
      ensures heap.Valid() && timerSet == old(timerSet) + {t}
      ensures Elems(heap.q) == old(Elems(heap.q)) + {t}
              || (Elems(heap.q) == old(Elems(heap.q)) && !alloc && old(heap.size == heap.event.Length))
      ensures alloc && old(heap.q) != [] && old(heap.q[0].expiration) <= t.expiration ==> heap.q[0] == old(heap.q[0])
      ensures heap.event == old(heap.event) || fresh(heap.event)
    {
      var _ := heap.Push(t, alloc);
      timerSet := timerSet + {t};
    }

    /** `cancelInLoop`: what it does to the heap is what `min_heap_erase` does at the timer's index. */
    method CancelInLoop(t: Timer) returns (r: Outcome<int>)
      requires heap.Valid()
      modifies this`timerSet, heap`size, heap`q, heap.event, Elems(heap.q)`heapIdx, t`heapIdx
      ensures heap.Valid()
      ensures r.Fault? <==> old(t.heapIdx != -1 && !heap.InHeap(t.heapIdx))
      ensures r.Ok? ==> timerSet == old(timerSet) - {t} && t.heapIdx == -1
      ensures r.Ok? ==> (Elems(heap.q) == old(Elems(heap.q)) - {t} <==> old(t in heap.q || t.heapIdx == -1))
      ensures r.Ok? && !old(t in heap.q || t.heapIdx == -1) ==>
        Elems(heap.q) == old(Elems(heap.q)) - {old(heap.q[t.heapIdx])}
      ensures old(t in heap.q || t.heapIdx == -1) ==> r.Ok?
      ensures r.Ok? && old(heap.q) != [] && t != old(heap.q[0]) && old(t in heap.q || t.heapIdx == -1) ==>
        heap.q != [] && heap.q[0] == old(heap.q[0])
    {
      assert t in heap.q && t != heap.q[0] ==> t.heapIdx > 0;
      r := heap.Erase(t);
      if r.Fault? { return; }
      if t in timerSet {
        timerSet := timerSet - {t};
      }
    }

    /** Never later than the earliest timer, read as milliseconds; `timeDifference` truncates to seconds, and there
        are no more whole ones before that timer. */
    method EarliestExpiredTime(now: int) returns (timeout: int)
      requires heap.Valid()
      ensures heap.q == [] ==> timeout == DEFAULT_TIMEOUT
      ensures Due(Elems(heap.q), now) != {} ==> timeout == DEFAULT_OUTTIME
      ensures heap.q != [] && Due(Elems(heap.q), now) == {} ==>
        timeout >= 0 && forall t :: t in heap.q ==> timeout * 1000 <= t.expiration - now
      ensures heap.q != [] && Due(Elems(heap.q), now) == {} ==>
        exists t :: t in heap.q && t.expiration - now < (timeout + 1) * 1_000_000
    {
      if heap.size == 0 { return DEFAULT_TIMEOUT; }
      NothingBelowTop(heap.q);
      var top := heap.event[0];
      if top.expiration > now {
        assert top in heap.q;
        return (top.expiration - now) / 1_000_000;
      }
      assert top in Due(Elems(heap.q), now);
      return DEFAULT_OUTTIME;
    }

    // -------------------------------------------------------------------------------------------
    // One round of the drain

    /** The calls that leave the running timer `t` on top of the heap: adding a timer object that is new to
        it and not earlier, cancelling another timer that is in the heap or has the index of one that is not. */
    predicate Permitted(c: Call, t: Timer, touched: set<Timer>)
      reads this, heap, heap.event, c.timer, t
    {
      match c
      case Add(u) => u !in touched && t.expiration <= u.expiration
      case Cancel(u) =>
        u != t && (u.heapIdx == -1 || (0 <= u.heapIdx < heap.size <= heap.event.Length && heap.event[u.heapIdx] == u))
    }

    /** One permitted call of `t`'s callback. */
    method Act(t: Timer, c: Call, ghost touched: set<Timer>)
      requires heap.Valid() && heap.q != [] && heap.q[0] == t && Elems(heap.q) <= touched && Permitted(c, t, touched)
      modifies this`timerSet, heap, heap.event, Elems(heap.q)`heapIdx, c.timer`heapIdx
      ensures heap.Valid() && heap.q != [] && heap.q[0] == t
      ensures Elems(heap.q) == (if c.Add? then old(Elems(heap.q)) + {c.timer} else old(Elems(heap.q)) - {c.timer})
      ensures timerSet == (if c.Add? then old(timerSet) + {c.timer} else old(timerSet) - {c.timer})
      ensures c.Cancel? && c.timer !in old(Elems(heap.q)) ==> old(c.timer.heapIdx) == -1 == c.timer.heapIdx
      ensures heap.event == old(heap.event) || fresh(heap.event)
    {
      match c {
        case Add(u) =>
          assert u !in Elems(heap.q);
          AddTimerInLoop(u, true);
        case Cancel(u) =>
          assert u.heapIdx != -1 ==> u == heap.q[u.heapIdx];
          var _ := CancelInLoop(u);
      }
    }

    /** In the middle of `t`'s callback, which has added and cancelled these timers so far; `h0` was in the heap
        and `s0` in the set, and `idx0` are the indices of the known timers that were in neither. */
    ghost predicate InCallback(t: Timer, all: set<Timer>, touched0: set<Timer>, touched: set<Timer>, h0: set<Timer>,
                               s0: set<Timer>, idx0: map<Timer, int>, added: set<Timer>, cancelled: set<Timer>)
      reads this, heap, heap.event, heap.q, t, added`expiration, idx0.Keys`heapIdx
    {
      && idx0.Keys == touched0 * all - h0 && Elems(heap.q) <= all
      && (forall x :: x in idx0 ==> x.heapIdx == idx0[x] && (x in cancelled ==> idx0[x] == -1))
      && heap.Valid() && heap.q != [] && heap.q[0] == t && t !in cancelled && NotEarlier(added, t)
      && Balanced(touched0, touched, h0, Elems(heap.q), s0, timerSet, added, cancelled)
    }

    /** One permitted call, in that context. */
    method Proceed(t: Timer, c: Call, ghost all: set<Timer>, ghost touched0: set<Timer>, ghost touched: set<Timer>,
                   ghost h0: set<Timer>, ghost s0: set<Timer>, ghost idx0: map<Timer, int>,
                   ghost added: set<Timer>, ghost cancelled: set<Timer>)
      requires InCallback(t, all, touched0, touched, h0, s0, idx0, added, cancelled)
      requires Permitted(c, t, touched) && c.timer in all
      modifies this`timerSet, heap, heap.event, all`heapIdx
      ensures InCallback(t, all, touched0, touched + {c.timer}, h0, s0, idx0,
        added + (if c.Add? then {c.timer} else {}), cancelled + (if c.Cancel? then {c.timer} else {}))
      ensures heap.event == old(heap.event) || fresh(heap.event)
    {
      hide Distinct, Ordered, IndexedBut, Permitted, Balanced, Elems;
      PermittedMeans(c, t, touched);
      BalancedMeans(touched0, touched, h0, Elems(heap.q), s0, timerSet, added, cancelled);
      CallBalances(touched0, touched, h0, Elems(heap.q), s0, timerSet, added, cancelled, c);
      Act(t, c, touched);
    }

    /** `loop_->runInLoop(bind(&Timer::run, timer))`: the callback's calls, up to the first that is not permitted. */
    method RunCallback(t: Timer, calls: seq<Call>, touched0: set<Timer>, ghost all: set<Timer>)
      returns (k: nat, touched: set<Timer>)
      requires heap.Valid() && heap.q != [] && heap.q[0] == t && Elems(heap.q) <= touched0
      requires Elems(heap.q) <= all && Adds(calls) <= all && Cancels(calls) <= all
      modifies this`timerSet, heap, heap.event, all`heapIdx
      ensures k <= |calls|
      ensures InCallback(t, all, touched0, touched, old(Elems(heap.q)), old(timerSet),
        old(Indices(touched0 * all - Elems(heap.q))), Adds(calls[..k]), Cancels(calls[..k]))
      ensures k < |calls| ==> !Permitted(calls[k], t, touched)
      ensures old(FreshAdds(calls, touched0) && NotEarlier(Adds(calls), t)) ==> k == |calls|
      ensures heap.event == old(heap.event) || fresh(heap.event)
    {
      k, touched := 0, touched0;
      ghost var benign := FreshAdds(calls, touched0) && NotEarlier(Adds(calls), t);
      ghost var h0, s0, idx0 := Elems(heap.q), timerSet, Indices(touched0 * all - Elems(heap.q));
      ghost var added: set<Timer>, cancelled: set<Timer> := {}, {};
      NoCalls();
      assert calls[..0] == [];
      while k < |calls|
        invariant k <= |calls| && added == Adds(calls[..k]) && cancelled == Cancels(calls[..k])
        invariant InCallback(t, all, touched0, touched, h0, s0, idx0, added, cancelled)
        invariant benign ==> NotEarlier(Adds(calls), t)
        invariant heap.event == old(heap.event) || fresh(heap.event)
      {
        hide InCallback, Permitted, FreshAdds, NotEarlier, Elems, MinHeap.Valid;
        var c := calls[k];
        if !Permitted(c, t, touched) {
          if benign { InCallbackTouched(t, all, touched0, touched, h0, s0, idx0, calls, k); }
          return;
        }
        TimerIn(calls, k);
        CallsMore(calls, k);
        Proceed(t, c, all, touched0, touched, h0, s0, idx0, added, cancelled);
        added, cancelled := Adds(calls[..k + 1]), Cancels(calls[..k + 1]);
        touched := touched + {c.timer};
        k := k + 1;
      }
      assert calls[..k] == calls;
    }

    lemma InCallbackTouched(t: Timer, all: set<Timer>, touched0: set<Timer>, touched: set<Timer>, h0: set<Timer>,
                            s0: set<Timer>, idx0: map<Timer, int>, calls: seq<Call>, k: nat)
      requires k < |calls|
      requires InCallback(t, all, touched0, touched, h0, s0, idx0, Adds(calls[..k]), Cancels(calls[..k]))
      requires FreshAdds(calls, touched0) && NotEarlier(Adds(calls), t)
      ensures Permitted(calls[k], t, touched)
    {
      FreshIsPermitted(calls, touched0, k, t, touched);
    }

    lemma PermittedMeans(c: Call, t: Timer, touched: set<Timer>)
      requires Permitted(c, t, touched)
      ensures if c.Add? then c.timer !in touched && t.expiration <= c.timer.expiration else c.timer != t
    {}

    lemma TimerIn(calls: seq<Call>, k: nat)
      requires k < |calls|
      ensures calls[k].timer in Adds(calls) + Cancels(calls)
    {
      assert calls[k] in calls;
    }

    lemma FreshIsPermitted(calls: seq<Call>, known: set<Timer>, k: nat, t: Timer, touched: set<Timer>)
      requires k < |calls| && FreshAdds(calls, known) && NotEarlier(Adds(calls), t)
      requires touched == known + Adds(calls[..k]) + Cancels(calls[..k])
      ensures Permitted(calls[k], t, touched)
    {
      FreshAddsNext(calls, known, k);
      assert calls[k] in calls && calls[k].timer in Adds(calls);
    }

    /** The rest of a round: pop, and re-arm if the timer that ran repeats. */
    method FinishRound(t: Timer, now: int) returns (popped: Timer?)
      requires heap.Valid() && heap.event.Length > 0 && (t in heap.q ==> t == heap.q[0])
      modifies heap, heap.event, Elems(heap.q)`heapIdx, t`heapIdx, t`expiration
      ensures heap.Valid() && popped == if old(heap.q) == [] then null else old(heap.q[0])
      ensures Elems(heap.q) == old(Elems(heap.q)) - Taken(popped) + (if t.repeat then {t} else {})
      ensures !t.repeat && popped != null ==> heap.size == old(heap.size) - 1
      ensures t.expiration == if t.repeat then now + t.interval else old(t.expiration)
      ensures !t.repeat && popped == t ==> t.heapIdx == 0
      ensures heap.event == old(heap.event) || fresh(heap.event)
    {
      hide Distinct, Ordered, IndexedBut;
      popped := heap.Pop();
      assert Elems(heap.q) == old(Elems(heap.q)) - Taken(popped);
      if t.repeat {
        assert t !in Elems(heap.q);
        Restart(t, now);
        var _ := heap.Push(t, false);
      }
    }

    // -------------------------------------------------------------------------------------------
    // Why other calls are not permitted

    /** Adding an earlier timer: the pop after the callback takes the new timer, which never ran, and the one
        that ran stays, as due as before. */
    method EarlierTimerIsPopped(u: Timer) returns (popped: Timer?)
      requires heap.Valid() && heap.q != [] && u !in heap.q && u.expiration < heap.q[0].expiration
      modifies this`timerSet, heap, heap.event, Elems(heap.q)`heapIdx, u`heapIdx
      ensures heap.Valid() && popped == u && Elems(heap.q) == old(Elems(heap.q)) && old(heap.q[0]) in heap.q
    {
      NothingBelowTop(heap.q);
      ghost var was, t := Elems(heap.q), heap.q[0];
      assert t in was;
      AddTimerInLoop(u, true);
      assert u in Elems(heap.q) && heap.q[0] in was + {u};
      NothingBelowTop(heap.q);
      popped := heap.Pop();
      assert t in Elems(heap.q);
    }

    /** Cancelling the running timer: the pop takes the next one, if there is one, which does not run, and a
        repeating timer comes back as if it had not been cancelled. Only a one-shot timer that is alone is
        cancelled and nothing else. */
    method OwnCancelPopsTheNext(now: int) returns (t: Timer, popped: Timer?)
      requires heap.Valid() && heap.q != []
      modifies this`timerSet, heap, heap.event, Elems(heap.q)`heapIdx, Elems(heap.q[..1])`expiration
      ensures heap.Valid() && t == old(heap.q[0]) && timerSet == old(timerSet) - {t}
      ensures if old(heap.size) == 1 then popped == null else popped in old(heap.q) && popped != t
      ensures Elems(heap.q) == old(Elems(heap.q)) - Taken(popped) - (if t.repeat then {} else {t})
      ensures Elems(heap.q) == old(Elems(heap.q)) - {t} <==> !t.repeat && old(heap.size) == 1
    {
      hide Ordered, IndexedBut;
      t := heap.event[0];
      ghost var was := Elems(heap.q);
      ghost var next := if heap.size == 1 then null else heap.q[1];
      assert next != null ==> next in was && next != t;
      var r := CancelInLoop(t);
      assert Elems(heap.q) == was - {t};
      assert next != null ==> next in Elems(heap.q);
      assert heap.q != [] ==> heap.q[0] in Elems(heap.q);
      popped := FinishRound(t, now);
    }

    /** Cancelling a one-shot timer that has run: its stale index takes out the timer now on top, or, when it was
        the last one, leads out of the heap. */
    method LateCancel(now: int) returns (t: Timer, ghost next: Timer?, r: Outcome<int>)
      requires heap.Valid() && heap.q != [] && !heap.q[0].repeat
      modifies this`timerSet, heap, heap.event, Elems(heap.q)`heapIdx, Elems(heap.q[..1])`expiration
      ensures heap.Valid() && t == old(heap.q[0])
      ensures r.Fault? <==> old(heap.size) == 1
      ensures r.Ok? ==> next in old(heap.q) && next != t && Elems(heap.q) == old(Elems(heap.q)) - {t, next}
    {
      hide Distinct, Ordered, IndexedBut;
      t := heap.event[0];
      var _ := FinishRound(t, now);
      next := if heap.q == [] then null else heap.q[0];
      assert heap.q != [] ==> heap.q[0] in Elems(heap.q);
      r := CancelInLoop(t);
    }

    /** A repeat interval that truncates to zero: the round leaves its own timer due again. */
    method ZeroIntervalStaysDue(now: int) returns (t: Timer)
      requires heap.Valid() && heap.q != [] && heap.q[0].repeat && heap.q[0].interval == 0
      modifies this`timerSet, heap, heap.event, Elems(heap.q)`heapIdx, Elems(heap.q[..1])`expiration
      ensures heap.Valid() && t == old(heap.q[0]) && t in Due(Elems(heap.q), now)
      ensures Elems(heap.q) == old(Elems(heap.q))
    {
      t := heap.event[0];
      assert t in Elems(heap.q);
      var _ := FinishRound(t, now);
    }

    // -------------------------------------------------------------------------------------------
    // The drain

    ghost predicate Draining(queued: set<Timer>, timers0: set<Timer>, fired: seq<Timer>, touched: set<Timer>,
                             plan: map<Timer, seq<Call>>, e0: map<Timer, int>, now: int)
      reads this, heap, heap.event, heap.q, e0.Keys
    {
      heap.Valid() && Drained(queued, timers0, fired, touched, plan, e0, now,
        Elems(heap.q), timerSet, Expirations(e0.Keys), Indices(e0.Keys))
    }

    /** The top, when due, has not run, and nothing that waits is due earlier. */
    lemma TopIsNext(queued: set<Timer>, timers0: set<Timer>, fired: seq<Timer>, touched: set<Timer>,
                    plan: map<Timer, seq<Call>>, e0: map<Timer, int>, now: int)
      requires Setting(queued, plan, e0) && Draining(queued, timers0, fired, touched, plan, e0, now)
      requires heap.q != [] && heap.q[0].expiration <= now
      ensures var t := heap.q[0];
        && t in e0 && t !in fired && e0[t] == t.expiration && Elems(heap.q) <= touched
        && (forall u :: u in heap.q && u !in fired ==> e0[t] <= e0[u])
        && Elems(heap.q) <= e0.Keys && (forall u :: u in fired ==> u in e0 && e0[u] <= e0[t])
        && Adds(Calls(plan, t)) <= e0.Keys && Cancels(Calls(plan, t)) <= e0.Keys
        && t in touched && t !in CancelsBy(plan, Elems(fired))
    {
      var t := heap.q[0];
      assert t in Elems(heap.q);
      NothingBelowTop(heap.q);
      CallsInvolved(plan, e0.Keys, t);
    }

    lemma CallsInvolved(plan: map<Timer, seq<Call>>, all: set<Timer>, t: Timer)
      requires AddsBy(plan, plan.Keys) <= all && CancelsBy(plan, plan.Keys) <= all
      ensures Adds(Calls(plan, t)) <= all && Cancels(Calls(plan, t)) <= all
    {
      forall u | u in Adds(Calls(plan, t)) ensures u in all { assert u in AddsBy(plan, plan.Keys); }
      forall u | u in Cancels(Calls(plan, t)) ensures u in all { assert u in CancelsBy(plan, plan.Keys); }
    }

    /** ... of the timer on top, and what it leaves alone. */
    method PopRunning(t: Timer, now: int, ghost all: set<Timer>, ghost outside: set<Timer>)
      requires heap.Valid() && heap.q != [] && heap.q[0] == t
      requires Elems(heap.q) <= all && outside <= all && Elems(heap.q) !! outside
      modifies heap, heap.event, all
      ensures heap.Valid() && Elems(heap.q) == old(Elems(heap.q)) - (if t.repeat then {} else {t})
      ensures t.expiration == if t.repeat then now + t.interval else old(t.expiration)
      ensures t.repeat || t.heapIdx == 0
      ensures Expirations(all) == old(Expirations(all))[t := t.expiration]
      ensures Indices(outside) == old(Indices(outside))
      ensures heap.event == old(heap.event) || fresh(heap.event)
    {
      hide Distinct, Ordered, IndexedBut;
      assert t in Elems(heap.q);
      var _ := FinishRound(t, now);
    }

    /** One round: the callback, the pop, and the re-arming. It ends early at a call that is not permitted. */
    method FireTop(now: int, calls: seq<Call>, touched0: set<Timer>, ghost all: set<Timer>, ghost outside: set<Timer>)
      returns (t: Timer, k: nat, touched: set<Timer>)
      requires heap.Valid() && heap.q != [] && Elems(heap.q) <= touched0 && outside == touched0 * all - Elems(heap.q)
      requires Elems(heap.q) <= all && Adds(calls) <= all && Cancels(calls) <= all
      modifies this`timerSet, heap, heap.event, all
      ensures t == old(heap.q[0]) && k <= |calls| && heap.Valid()
      ensures k < |calls| ==> heap.q != [] && heap.q[0] == t && !Permitted(calls[k], t, touched)
      ensures old(FreshAdds(calls, touched0) && NotEarlier(Adds(calls), heap.q[0])) ==> k == |calls|
      ensures k == |calls| ==>
        && touched == touched0 + Adds(calls) + Cancels(calls)
        && Elems(heap.q) == old(Elems(heap.q)) + Adds(calls) - Cancels(calls) - (if t.repeat then {} else {t})
        && timerSet == old(timerSet) + Adds(calls) - Cancels(calls)
        && Adds(calls) !! touched0 && t !in Cancels(calls) && old(NotEarlier(Adds(calls), heap.q[0]))
        && (t.repeat || t.heapIdx == 0)
        && Expirations(all) == old(Expirations(all))[t := t.expiration]
        && t.expiration == (if t.repeat then now + t.interval else old(heap.q[0].expiration))
        && Unmoved(old(Indices(outside)), Cancels(calls), Indices(outside))
      ensures heap.event == old(heap.event) || fresh(heap.event)
    {
      hide Distinct, Ordered, IndexedBut, Adds, Cancels, FreshAdds, Permitted, InCallback, Unmoved, Elems;
      t := heap.event[0];
      ghost var h0, s0, idx0 := Elems(heap.q), timerSet, Indices(outside);
      assert idx0.Keys == outside;
      k, touched := RunCallback(t, calls, touched0, all);
      InCallbackMeans(t, all, touched0, touched, h0, s0, idx0, Adds(calls[..k]), Cancels(calls[..k]));
      if k < |calls| { return; }
      assert calls[..k] == calls;
      PopRunning(t, now, all, outside);
    }

    /** A round leaves a due timer with a zero repeat interval due, whichever timer is on top, unless its callback
        cancels it. */
    method RoundLeavesDue(z: Timer, now: int, calls: seq<Call>, touched0: set<Timer>, ghost all: set<Timer>)
      returns (k: nat, touched: set<Timer>)
      requires heap.Valid() && z in heap.q && z.repeat && z.interval == 0 && z.expiration <= now
      requires Elems(heap.q) <= touched0 && Elems(heap.q) <= all && Adds(calls) <= all && Cancels(calls) <= all
      requires z !in Cancels(calls)
      modifies this`timerSet, heap, heap.event, all
      ensures k <= |calls| && heap.Valid()
      ensures k < |calls| ==> heap.q != [] && !Permitted(calls[k], heap.q[0], touched)
      ensures k == |calls| ==>
        z in heap.q && z.expiration <= now && Elems(heap.q) <= touched && Elems(heap.q) <= all
      ensures heap.event == old(heap.event) || fresh(heap.event)
    {
      hide Distinct, Ordered, IndexedBut, FreshAdds, Permitted, Unmoved;
      ghost var outside := touched0 * all - Elems(heap.q);
      assert z in Elems(heap.q);
      ghost var e0 := Expirations(all);
      var t;
      t, k, touched := FireTop(now, calls, touched0, all, outside);
      if k == |calls| {
        assert z in Elems(heap.q);
        assert Expirations(all)[z] == if z == t then t.expiration else e0[z];
      }
    }

    /** With such a timer the loop never ends: for any number of rounds, whatever the callbacks of each do, its test
        holds before each of them and after the last. `done` rounds were completed; if that is not all of them,
        the call `k` of the next callback is not permitted. */
    method ZeroIntervalNeverEnds(z: Timer, now: int, script: seq<seq<Call>>, ghost all: set<Timer>)
      returns (done: nat, k: nat, touched: set<Timer>)
      requires heap.Valid() && z in heap.q && z.repeat && z.interval == 0 && z.expiration <= now
      requires Elems(heap.q) <= all
      requires forall calls :: calls in script ==>
        Adds(calls) <= all && Cancels(calls) <= all && z !in Cancels(calls)
      modifies this`timerSet, heap, heap.event, all
      ensures done <= |script| && heap.Valid()
      ensures done < |script| ==>
        k < |script[done]| && heap.q != [] && !Permitted(script[done][k], heap.q[0], touched)
      ensures done == |script| ==> heap.size != 0 && heap.event[0].expiration <= now && z in Due(Elems(heap.q), now)
    {
      hide Distinct, Ordered, IndexedBut, Permitted;
      touched := Members();
      done, k := 0, 0;
      while done < |script|
        invariant done <= |script| && heap.Valid() && z in heap.q && z.expiration <= now
        invariant Elems(heap.q) <= touched && Elems(heap.q) <= all
        invariant heap.event == old(heap.event) || fresh(heap.event)
      {
        TopIsDue(z, now);
        k, touched := RoundLeavesDue(z, now, script[done], touched, all);
        if k < |script[done]| { return; }
        done := done + 1;
      }
      TopIsDue(z, now);
    }

    lemma TopIsDue(z: Timer, now: int)
      requires heap.Valid() && z in heap.q && z.expiration <= now
      ensures heap.size != 0 && heap.event[0].expiration <= now
    {
      NothingBelowTop(heap.q);
    }

    lemma InCallbackMeans(t: Timer, all: set<Timer>, touched0: set<Timer>, touched: set<Timer>, h0: set<Timer>,
                          s0: set<Timer>, idx0: map<Timer, int>, added: set<Timer>, cancelled: set<Timer>)
      requires InCallback(t, all, touched0, touched, h0, s0, idx0, added, cancelled) && touched0 * all <= all
      ensures heap.Valid() && heap.q != [] && heap.q[0] == t && t !in cancelled && t in all
      ensures Elems(heap.q) <= all && touched == touched0 + added + cancelled && added !! touched0
      ensures Elems(heap.q) == h0 + added - cancelled && timerSet == s0 + added - cancelled
      ensures Elems(heap.q) !! idx0.Keys && Unmoved(idx0, cancelled, Indices(idx0.Keys)) && NotEarlier(added, t)
    {
      assert t in Elems(heap.q);
    }

    lemma NextIsNotEarlier(fired: seq<Timer>, e0: map<Timer, int>, now: int, t: Timer, ts: set<Timer>)
      requires Rearmed(Expirations(e0.Keys), fired, e0, now) && t in e0 && e0[t] == t.expiration && ts !! Elems(fired)
      requires forall u :: u in ts ==> u in e0 && e0[t] <= e0[u]
      ensures NotEarlier(ts, t)
    {}

    lemma FreshIsNew(calls: seq<Call>, known: set<Timer>)
      requires FreshAdds(calls, known)
      ensures Adds(calls) !! known
    {}

    /** A round of the drain. */
    method DrainRound(now: int, plan: map<Timer, seq<Call>>, touched0: set<Timer>, ghost queued: set<Timer>,
                      ghost timers0: set<Timer>, ghost fired: seq<Timer>, ghost e0: map<Timer, int>)
      returns (t: Timer, k: nat, touched: set<Timer>)
      requires Setting(queued, plan, e0) && Draining(queued, timers0, fired, touched0, plan, e0, now)
      requires heap.q != [] && heap.q[0].expiration <= now
      modifies this`timerSet, heap, heap.event, e0.Keys
      ensures t in e0 && t !in fired && k <= |Calls(plan, t)|
      ensures k == |Calls(plan, t)| ==> Draining(queued, timers0, fired + [t], touched, plan, e0, now)
      ensures k < |Calls(plan, t)| ==>
        heap.Valid() && heap.q != [] && heap.q[0] == t && !Permitted(Calls(plan, t)[k], t, touched)
      ensures AddsOnly(plan, queued, e0, now) ==> k == |Calls(plan, t)|
      ensures heap.event == old(heap.event) || fresh(heap.event)
    {
      hide Distinct, Ordered, IndexedBut, Setting, AddsBy, CancelsBy, Adds, Cancels, Calls, AddsOnly, FreshAdds,
        Permitted, Drained, Unmoved;
      TopIsNext(queued, timers0, fired, touched0, plan, e0, now);
      t := heap.event[0];
      if AddsOnly(plan, queued, e0, now) { NextIsFresh(queued, timers0, fired, touched0, plan, e0, now, t); }
      ghost var h, s, exp, idx := Elems(heap.q), timerSet, Expirations(e0.Keys), Indices(e0.Keys);
      ghost var outside := Indices(touched0 * e0.Keys - h);
      t, k, touched := FireTop(now, Calls(plan, t), touched0, e0.Keys, outside.Keys);
      if k < |Calls(plan, t)| { return; }
      UnmovedLater(outside, Cancels(Calls(plan, t)), Indices(outside.Keys), Indices(e0.Keys));
      RoundKeeps(queued, timers0, fired, touched0, plan, e0, now, h, s, exp, idx, outside, t, touched,
        Elems(heap.q), timerSet, Expirations(e0.Keys), Indices(e0.Keys));
    }

    lemma NextIsFresh(queued: set<Timer>, timers0: set<Timer>, fired: seq<Timer>, touched: set<Timer>,
                      plan: map<Timer, seq<Call>>, e0: map<Timer, int>, now: int, t: Timer)
      requires Draining(queued, timers0, fired, touched, plan, e0, now) && AddsOnly(plan, queued, e0, now)
      requires t in e0 && t !in fired && e0[t] == t.expiration && e0[t] <= now
      ensures FreshAdds(Calls(plan, t), touched) && NotEarlier(Adds(Calls(plan, t)), t)
    {
      FreshForNext(plan, queued, fired, e0, now, t);
      FreshIsNew(Calls(plan, t), touched);
      NextIsNotEarlier(fired, e0, now, t, Adds(Calls(plan, t)));
    }

    /** The loop of `expiredProcess`. */
    method Drain(now: int, plan: map<Timer, seq<Call>>, queued: set<Timer>, ghost timers0: set<Timer>,
                 ghost e0: map<Timer, int>)
      returns (broken: Option<(Timer, Call)>, touched: set<Timer>, ghost fired: seq<Timer>)
      requires Setting(queued, plan, e0) && Draining(queued, timers0, [], queued, plan, e0, now)
      modifies this`timerSet, heap, heap.event, e0.Keys
      ensures broken.None? ==>
        Draining(queued, timers0, fired, touched, plan, e0, now) && Due(Elems(heap.q), now) == {}
      ensures broken.Some? ==>
        && heap.Valid() && heap.q != [] && heap.q[0] == broken.value.0
        && broken.value.1 in Calls(plan, broken.value.0) && !Permitted(broken.value.1, broken.value.0, touched)
      ensures AddsOnly(plan, queued, e0, now) ==> broken.None?
    {
      hide Setting, AddsOnly;
      fired, touched := [], queued;
      while heap.size != 0 && heap.event[0].expiration <= now
        invariant Draining(queued, timers0, fired, touched, plan, e0, now)
        invariant heap.event == old(heap.event) || fresh(heap.event)
        decreases e0.Keys - Elems(fired)
      {
        var t, k, tt := DrainRound(now, plan, touched, queued, timers0, fired, e0);
        touched := tt;
        if k < |Calls(plan, t)| { return Some((t, Calls(plan, t)[k])), touched, fired; }
        FewerPending(e0.Keys, fired, t);
        fired := fired + [t];
      }
      if heap.q != [] { NothingBelowTop(heap.q); }
      broken := None;
    }

    /** `expiredProcess(now)`, with callbacks that add and cancel timers. Either some callback makes a call that is
        not permitted, and the drain is described up to there, or it terminates, and then: what ran are timers
        due by `now`, each once, in order of expiration; every timer that was in the heap, or came into it, and
        was due has run or was cancelled, a one-shot timer only one of the two; nothing due is left; all others
        are still there, and the repeating ones that ran are back, an interval after `now`. */
    method ExpiredProcess(now: int, plan: map<Timer, seq<Call>>)
      returns (broken: Option<(Timer, Call)>, touched: set<Timer>, ghost fired: seq<Timer>)
      requires heap.Valid()
      requires forall t :: t in Involved(plan) && t.repeat ==> t.interval >= 1
      modifies this`timerSet, heap, heap.event, Involved(plan)
      ensures broken.Some? ==>
        && heap.Valid() && heap.q != [] && heap.q[0] == broken.value.0
        && broken.value.1 in Calls(plan, broken.value.0) && !Permitted(broken.value.1, broken.value.0, touched)
      ensures broken.None? ==> heap.Valid() && Due(Elems(heap.q), now) == {}
      ensures broken.None? ==> Elems(heap.q) == Remaining(old(Elems(heap.q)), Elems(fired), plan)
      ensures broken.None? ==>
        timerSet == old(timerSet) + AddsBy(plan, Elems(fired)) - CancelsBy(plan, Elems(fired))
      ensures broken.None? ==> Completed(old(Expirations(Involved(plan))), old(Elems(heap.q)), fired, plan, now)
      ensures old(AddsOnly(plan, Elems(heap.q), Expirations(Involved(plan)), now)) ==> broken.None?
    {
      hide AddsBy, CancelsBy, AddsOnly, Drained, Completed, Distinct, Ordered, IndexedBut, Permitted;
      ghost var e0, queued := Expirations(Involved(plan)), Elems(heap.q);
      DrainStarts(queued, timerSet, plan, e0, now, Indices(e0.Keys));
      var members := Members();
      broken, touched, fired := Drain(now, plan, members, timerSet, e0);
      if broken.None? {
        DrainedCompletes(queued, old(timerSet), fired, touched, plan, e0, now);
        DrainedMeans(queued, old(timerSet), fired, touched, plan, e0, now,
          Elems(heap.q), timerSet, Expirations(e0.Keys), Indices(e0.Keys));
      }
    }

    method Members() returns (s: set<Timer>)
      requires heap.Valid()
      ensures s == Elems(heap.q)
    {
      s := {};
      for i := 0 to heap.size
        invariant s == Elems(heap.q[..i])
      {
        assert heap.q[..i + 1] == heap.q[..i] + [heap.q[i]];
        s := s + {heap.event[i]};
      }
      assert heap.q[..heap.size] == heap.q;
    }

    /** Every timer a drain can meet. */
    ghost function Involved(plan: map<Timer, seq<Call>>): set<Timer>
      reads heap
    {
      Elems(heap.q) + plan.Keys + AddsBy(plan, plan.Keys) + CancelsBy(plan, plan.Keys)
    }

    /** What a completed drain has run, kept and re-armed. */
    ghost predicate Completed(e0: map<Timer, int>, queued: set<Timer>, fired: seq<Timer>, plan: map<Timer, seq<Call>>,
                            now: int)
      reads heap, e0.Keys
    {
      && Elems(heap.q) <= e0.Keys && queued + AddsBy(plan, Elems(fired)) <= e0.Keys
      && Elems(fired) <= queued + AddsBy(plan, Elems(fired))
      && Rearmed(Expirations(e0.Keys), fired, e0, now) && RanInOrder(Elems(heap.q), fired, e0, now)
      && forall t :: t in queued + AddsBy(plan, Elems(fired)) && e0[t] <= now ==>
           && (t in fired || t in CancelsBy(plan, Elems(fired)))
           && (t.repeat || t !in fired || t !in CancelsBy(plan, Elems(fired)))
    }

    lemma DrainedCompletes(queued: set<Timer>, timers0: set<Timer>, fired: seq<Timer>, touched: set<Timer>,
                         plan: map<Timer, seq<Call>>, e0: map<Timer, int>, now: int)
      requires Setting(queued, plan, e0) && Draining(queued, timers0, fired, touched, plan, e0, now)
      requires Due(Elems(heap.q), now) == {}
      ensures Completed(e0, queued, fired, plan, now)
    {
      AddsInvolved(plan, e0.Keys, Elems(fired));
      hide AddsBy, CancelsBy, RanInOrder;
      forall t | t in queued + AddsBy(plan, Elems(fired)) && e0[t] <= now && t !in CancelsBy(plan, Elems(fired))
        ensures t in fired
      {
        if t in Elems(heap.q) {
          assert t !in Due(Elems(heap.q), now);
        }
      }
    }
  }

  lemma AddsInvolved(plan: map<Timer, seq<Call>>, all: set<Timer>, ran: set<Timer>)
    requires AddsBy(plan, plan.Keys) <= all
    ensures AddsBy(plan, ran) <= all
  {
    forall u | u in AddsBy(plan, ran) ensures u in all { assert u in AddsBy(plan, plan.Keys); }
  }

  lemma FewerPending(all: set<Timer>, fired: seq<Timer>, t: Timer)
    requires t in all && t !in fired
    ensures all - Elems(fired + [t]) < all - Elems(fired)
  {
    assert Elems(fired + [t]) == Elems(fired) + {t};
    assert t in all - Elems(fired) && t !in all - Elems(fired + [t]);
  }

  lemma DrainStarts(queued: set<Timer>, timers0: set<Timer>, plan: map<Timer, seq<Call>>, e0: map<Timer, int>, now: int,
                    idx: map<Timer, int>)
    requires queued <= e0.Keys == idx.Keys
    ensures Drained(queued, timers0, [], queued, plan, e0, now, queued, timers0, e0, idx)
  {
    NoneFired(plan);
  }

  lemma DrainedMeans(queued: set<Timer>, timers0: set<Timer>, fired: seq<Timer>, touched: set<Timer>,
                     plan: map<Timer, seq<Call>>, e0: map<Timer, int>, now: int,
                     h: set<Timer>, s: set<Timer>, exp: map<Timer, int>, idx: map<Timer, int>)
    requires Drained(queued, timers0, fired, touched, plan, e0, now, h, s, exp, idx)
    ensures h == Remaining(queued, Elems(fired), plan)
    ensures s == timers0 + AddsBy(plan, Elems(fired)) - CancelsBy(plan, Elems(fired))
  {}

  lemma SpentMore(idx: map<Timer, int>, after: map<Timer, int>, outside: map<Timer, int>, fired: seq<Timer>,
                  plan: map<Timer, seq<Call>>, t: Timer)
    requires SpentOnce(idx, fired, plan) && OneShots(Elems(fired)) <= outside.Keys
    requires forall x :: x in outside ==> x in idx && idx[x] == outside[x]
    requires Unmoved(outside, Cancels(Calls(plan, t)), after)
    requires !t.repeat ==> t in after && after[t] == 0 && t !in CancelsBy(plan, Elems(fired)) + Cancels(Calls(plan, t))
    ensures SpentOnce(after, fired + [t], plan)
  {
    hide AddsBy, CancelsBy, Adds, Cancels, Calls;
    FiredMore(plan, fired, t);
    forall x | x in fired + [t] && !x.repeat
      ensures x in after && after[x] == 0 && x !in CancelsBy(plan, Elems(fired + [t]))
    {
      if x != t { assert x in OneShots(Elems(fired)); }
    }
  }

  lemma RearmedMore(exp: map<Timer, int>, after: map<Timer, int>, fired: seq<Timer>, e0: map<Timer, int>, now: int,
                    t: Timer)
    requires Rearmed(exp, fired, e0, now) && t in e0 && t !in fired && after.Keys == e0.Keys
    requires after == exp[t := if t.repeat then now + t.interval else e0[t]]
    ensures Rearmed(after, fired + [t], e0, now)
  {}

  /** A round keeps the account of the drain. */
  lemma RoundKeeps(queued: set<Timer>, timers0: set<Timer>, fired: seq<Timer>, touched0: set<Timer>,
                   plan: map<Timer, seq<Call>>, e0: map<Timer, int>, now: int,
                   h0: set<Timer>, s0: set<Timer>, exp0: map<Timer, int>, idx0: map<Timer, int>,
                   outside: map<Timer, int>, t: Timer, touched: set<Timer>, h: set<Timer>, s: set<Timer>,
                   exp: map<Timer, int>, idx: map<Timer, int>)
    requires Drained(queued, timers0, fired, touched0, plan, e0, now, h0, s0, exp0, idx0)
    requires t in h0 && t in e0 && t !in fired && e0[t] <= now
    requires forall u :: u in h0 && u !in fired ==> e0[t] <= e0[u]
    requires forall u :: u in fired ==> u in e0 && e0[u] <= e0[t]
    requires var a, c := Adds(Calls(plan, t)), Cancels(Calls(plan, t));
      && a <= e0.Keys && a !! touched0 && t !in c && touched == touched0 + a + c && s == s0 + a - c
      && h == h0 + a - c - (if t.repeat then {} else {t})
      && (forall u :: u in a ==> e0[t] <= exp0[u]) && Unmoved(outside, c, idx)
    requires exp == exp0[t := if t.repeat then now + t.interval else e0[t]] && exp0.Keys == e0.Keys == idx.Keys
    requires outside.Keys == touched0 * e0.Keys - h0 && (forall x :: x in outside ==> outside[x] == idx0[x])
    requires t.repeat || idx[t] == 0
    ensures Drained(queued, timers0, fired + [t], touched, plan, e0, now, h, s, exp, idx)
  {
    hide AddsBy, CancelsBy, Adds, Cancels, Calls, RanInOrder, Unmoved, SpentOnce, Rearmed;
    RanMeans(h0, fired, e0, now);
    FiredMore(plan, fired, t);
    RemainingMore(queued, fired, plan, t);
    AddsAsBefore(exp0, fired, e0, now, t, Adds(Calls(plan, t)));
    RanOneMore(h0, Adds(Calls(plan, t)), h, fired, e0, now, t);
    RearmedMore(exp0, exp, fired, e0, now, t);
    SpentMore(idx0, idx, outside, fired, plan, t);
  }

  lemma RanMeans(waiting: set<Timer>, fired: seq<Timer>, e0: map<Timer, int>, now: int)
    requires waiting <= e0.Keys && RanInOrder(waiting, fired, e0, now)
    ensures Elems(fired) <= e0.Keys
  {}

  lemma AddsAsBefore(exp: map<Timer, int>, fired: seq<Timer>, e0: map<Timer, int>, now: int, t: Timer, ts: set<Timer>)
    requires Rearmed(exp, fired, e0, now) && t in e0 && ts <= e0.Keys && ts !! Elems(fired)
    requires forall u :: u in ts ==> e0[t] <= exp[u]
    ensures forall u :: u in ts ==> e0[t] <= e0[u]
  {}

  lemma RemainingMore(queued: set<Timer>, fired: seq<Timer>, plan: map<Timer, seq<Call>>, t: Timer)
    requires Adds(Calls(plan, t)) !! Touched(queued, Elems(fired), plan)
    requires Elems(fired) <= queued + AddsBy(plan, Elems(fired))
    ensures Remaining(queued, Elems(fired + [t]), plan)
      == Remaining(queued, Elems(fired), plan) + Adds(Calls(plan, t)) - Cancels(Calls(plan, t))
         - (if t.repeat then {} else {t})
  {
    hide AddsBy, CancelsBy, Adds, Cancels;
    FiredMore(plan, fired, t);
  }

  /** Adding what is not earlier than the timer that ran keeps the order. */
  lemma RanOneMore(waiting: set<Timer>, added: set<Timer>, after: set<Timer>, fired: seq<Timer>, e0: map<Timer, int>,
                   now: int, t: Timer)
    requires waiting <= e0.Keys && after <= waiting + added && after <= e0.Keys && RanInOrder(waiting, fired, e0, now)
    requires t in e0 && t !in fired && e0[t] <= now
    requires forall u :: u in waiting && u !in fired ==> e0[t] <= e0[u]
    requires forall u :: u in added && u in e0 ==> e0[t] <= e0[u]
    requires forall u :: u in fired ==> e0[u] <= e0[t]
    ensures RanInOrder(after, fired + [t], e0, now)
  {
    forall u | u in Elems(fired + [t]) ensures u in e0 {}
  }

  lemma FreshForNext(plan: map<Timer, seq<Call>>, queued: set<Timer>, fired: seq<Timer>, e0: map<Timer, int>, now: int,
                     t: Timer)
    requires AddsOnly(plan, queued, e0, now) && t in e0 && e0[t] <= now && t !in fired
    requires Elems(fired) <= e0.Keys && forall x :: x in fired ==> e0[x] <= now
    ensures FreshAdds(Calls(plan, t), Touched(queued, Elems(fired), plan))
    ensures forall u :: u in Adds(Calls(plan, t)) ==> u in e0 && e0[t] <= e0[u]
  {
    if t in plan {
      forall c | c in plan[t] ensures c.timer !in Touched(queued, Elems(fired), plan) {
        assert c.timer in Adds(plan[t]);
      }
    }
  }
}
