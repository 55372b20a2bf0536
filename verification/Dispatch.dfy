/** What a channel calls for the bits of one event (net/channel.cpp). */
module ChannelEvents {
  import opened Epoll
  import opened Outcomes
  import opened TcpConnection

  datatype Callback = CloseCallback | ErrorCallback | ReadCallback | WriteCallback

  const POLLPRI: bv32 := 0x002
  const POLLNVAL: bv32 := 0x020

  /** `handleEventWithGuard`: the callbacks in their order. */
  function Called(revents: bv32): seq<Callback> {
    (if revents & EPOLLHUP != 0 && revents & EPOLLIN == 0 then [CloseCallback] else [])
    + (if revents & (EPOLLERR | POLLNVAL) != 0 then [ErrorCallback] else [])
    + (if revents & (EPOLLIN | POLLPRI) != 0 then [ReadCallback] else [])
    + (if revents & EPOLLOUT != 0 then [WriteCallback] else [])
  }

  const ARRIVED: bv32 := AFD_POLL_RECEIVE | AFD_POLL_ACCEPT | AFD_POLL_RECEIVE_EXPEDITED

  /** What AFD reports decides which callbacks run. A close and a read are never for the same event: an abort
      closes unless something has arrived, a disconnect is left for the read to find. */
  lemma CallbacksOf(afd: bv32)
    ensures var calls := Called(ReportedEvents(afd));
      && (CloseCallback in calls <==> afd & AFD_POLL_ABORT != 0 && afd & ARRIVED == 0)
      && (ErrorCallback in calls <==> afd & (AFD_POLL_ABORT | AFD_POLL_CONNECT_FAIL) != 0)
      && (ReadCallback in calls <==>
            afd & ARRIVED != 0 || (afd & AFD_POLL_DISCONNECT != 0 && afd & AFD_POLL_ABORT == 0))
      && (WriteCallback in calls <==> afd & (AFD_POLL_SEND | AFD_POLL_CONNECT) != 0)
      && !(CloseCallback in calls && ReadCallback in calls)
  {}

  /** One callback of a connection; `got` is what the read returns, `taken` what the socket would take. */
  function Handle(c: Conn, call: Callback, got: nat, taken: nat): Outcome<Conn> {
    match call
    case CloseCallback => HandleClose(c)
    case ErrorCallback => Ok(c)
    case ReadCallback => HandleRead(c, got)
    case WriteCallback => Ok(HandleWrite(c, if taken < |c.out| then taken else |c.out|))
  }

  function HandleAll(c: Conn, calls: seq<Callback>, got: nat, taken: nat): Outcome<Conn>
    decreases |calls|
  {
    if calls == [] then Ok(c)
    else
      var d :- Handle(c, calls[0], got, taken);
      HandleAll(d, calls[1..], got, taken)
  }

  predicate Closes(call: Callback, got: nat) { call.CloseCallback? || (call.ReadCallback? && got == 0) }

  lemma {:induction false} HandleAllBreaks(c: Conn, calls: seq<Callback>, got: nat, taken: nat)
    requires forall i, j :: 0 <= i < j < |calls| ==> !(Closes(calls[i], got) && Closes(calls[j], got))
    ensures HandleAll(c, calls, got, taken).Fault? <==> !Live(c) && exists call :: call in calls && Closes(call, got)
    decreases |calls|
  {
    if calls != [] {
      assert forall call :: call in calls <==> call == calls[0] || call in calls[1..];
      assert Closes(calls[0], got) ==> forall j :: 0 < j < |calls| ==> !Closes(calls[j], got);
      if Handle(c, calls[0], got, taken).Ok? {
        HandleAllBreaks(Handle(c, calls[0], got, taken).value, calls[1..], got, taken);
      }
    }
  }

  /** One event of the emulated epoll never breaks a live connection, whatever its bits. A connection that has been
      closed meanwhile, as by an earlier event of the same poll, it breaks exactly when it calls for a close, or for
      a read that finds the end of the stream. */
  lemma DeliveryBreaksOnlyTheClosed(c: Conn, afd: bv32, got: nat, taken: nat)
    ensures var calls := Called(ReportedEvents(afd));
      HandleAll(c, calls, got, taken).Fault? <==>
        !Live(c) && (CloseCallback in calls || (ReadCallback in calls && got == 0))
  {
    hide ReportedEvents;
    CallbacksOf(afd);
    CalledInOrder(ReportedEvents(afd));
    HandleAllBreaks(c, Called(ReportedEvents(afd)), got, taken);
  }

  lemma {:induction false} ClosedActsNoMore(c: Conn, calls: seq<Callback>, got: nat, taken: nat)
    requires !Live(c) && !c.chWriting && forall call :: call in calls ==> !Closes(call, got)
    ensures HandleAll(c, calls, got, taken) == Ok(c)
    decreases |calls|
  {
    if calls != [] {
      assert calls[0] in calls;
      ClosedActsNoMore(c, calls[1..], got, taken);
    }
  }

  /** What one event does to a live connection: it closes it when it calls for a close or finds the end of the stream;
      otherwise it writes what the socket takes, if it calls for that, and nothing else. */
  lemma DeliveryActs(c: Conn, afd: bv32, got: nat, taken: nat)
    requires Live(c)
    ensures var calls := Called(ReportedEvents(afd));
      && HandleAll(c, calls, got, taken).Ok?
      && var d := HandleAll(c, calls, got, taken).value;
        if CloseCallback in calls || (ReadCallback in calls && got == 0) then Ok(d) == HandleClose(c)
        else if WriteCallback in calls then d == HandleWrite(c, if taken < |c.out| then taken else |c.out|)
        else d == c
  {
    hide ReportedEvents, Called, HandleAll, HandleClose, HandleWrite;
    CallbacksOf(afd);
    var calls := Called(ReportedEvents(afd));
    CalledInOrder(ReportedEvents(afd));
    OneByOne(c, calls, got, taken);
  }

  lemma {:induction false} FewAfter(calls: seq<Callback>)
    requires calls != [] && InOrder(calls)
    ensures |calls| + Place(calls[0]) <= 4
    decreases |calls|
  {
    if |calls| > 1 { FewAfter(calls[1..]); }
  }

  /** The callbacks of one event, in their order, with at most one that closes. */
  lemma {:induction false} OneByOne(c: Conn, calls: seq<Callback>, got: nat, taken: nat)
    requires Live(c) && InOrder(calls)
    requires forall i, j :: 0 <= i < j < |calls| ==> !(Closes(calls[i], got) && Closes(calls[j], got))
    ensures HandleAll(c, calls, got, taken).Ok?
    ensures var d := HandleAll(c, calls, got, taken).value;
      if exists call :: call in calls && Closes(call, got) then Ok(d) == HandleClose(c)
      else if WriteCallback in calls then d == HandleWrite(c, if taken < |c.out| then taken else |c.out|)
      else d == c
    decreases |calls|
  {
    if calls != [] {
      assert forall call :: call in calls <==> call == calls[0] || call in calls[1..];
      if Closes(calls[0], got) {
        ClosedActsNoMore(HandleClose(c).value, calls[1..], got, taken);
      } else if calls[0] == WriteCallback {
        FewAfter(calls);
      } else {
        OneByOne(c, calls[1..], got, taken);
      }
    }
  }

  function Place(call: Callback): nat {
    match call case CloseCallback => 0 case ErrorCallback => 1 case ReadCallback => 2 case WriteCallback => 3
  }

  /** For any bits: which callbacks run, each at most once, and in the order close, error, read, write. */
  lemma CalledExactly(revents: bv32)
    ensures InOrder(Called(revents))
    ensures var calls := Called(revents);
      && (CloseCallback in calls <==> revents & 0x010 != 0 && revents & 0x001 == 0)
      && (ErrorCallback in calls <==> revents & 0x028 != 0)
      && (ReadCallback in calls <==> revents & 0x003 != 0)
      && (WriteCallback in calls <==> revents & 0x004 != 0)
  {
    CalledInOrder(revents);
    hide InOrder;
  }

  predicate InOrder(calls: seq<Callback>) {
    forall i, j :: 0 <= i < j < |calls| ==> Place(calls[i]) < Place(calls[j])
  }

  lemma CalledInOrder(revents: bv32)
    ensures InOrder(Called(revents))
  {}
}

/** The loop over the channels a poll handed out (net/eventLoop.cpp), whose handlers may remove and destroy
    channels. A channel is its identity; one that a handler creates is not in the list. */
module Dispatch {
  import opened Outcomes

  /** The channels whose objects exist, and those the poller knows. */
  datatype Channels = Channels(live: set<nat>, added: set<nat>)

  datatype Effect = Remove(c: nat) | Destroy(c: nat) | Update(c: nat)

  /** `Broken`: an assert failed. `Dangling`: the loop took a destroyed channel from its list. */
  datatype Result = Done(s: Channels) | Broken | Dangling

  /** One thing a handler does while `current` is served: `EventLoop::removeChannel`, `~Channel` and
      `updateChannel` with their asserts. No channel is current while the timers run. */
  function Apply(s: Channels, active: seq<nat>, current: Option<nat>, e: Effect): Outcome<Channels> {
    match e
    case Remove(c) =>
      if c in s.live && c in s.added && (current == Some(c) || c !in active)
      then Ok(s.(added := s.added - {c})) else Fault
    case Destroy(c) =>
      if c in s.live && c !in s.added && current != Some(c)
      then Ok(s.(live := s.live - {c})) else Fault
    case Update(c) =>
      if c in s.live then Ok(s.(added := s.added + {c})) else Fault
  }

  /** What a handler may do and what comes of it: a channel is removed if the poller knows it and it is the one being
      served or not in the list at all; one is destroyed if it is removed and not the one being served; and an
      update makes the poller know it. Nothing else changes. */
  lemma EffectsExactly(s: Channels, active: seq<nat>, current: Option<nat>, c: nat, d: nat)
    requires c in s.live
    ensures var r := Apply(s, active, current, Remove(c));
      && (r.Ok? <==> c in s.added && (current == Some(c) || c !in active))
      && (r.Ok? ==> r.value.live == s.live && (d in r.value.added <==> d in s.added && d != c))
    ensures var r := Apply(s, active, current, Destroy(c));
      && (r.Ok? <==> c !in s.added && current != Some(c))
      && (r.Ok? ==> r.value.added == s.added && (d in r.value.live <==> d in s.live && d != c))
    ensures var r := Apply(s, active, current, Update(c));
      r.Ok? && r.value.live == s.live && (d in r.value.added <==> d in s.added || d == c)
  {}

  function Handle(s: Channels, active: seq<nat>, current: Option<nat>, es: seq<Effect>): Outcome<Channels>
    decreases |es|
  {
    if es == [] then Ok(s)
    else
      var t :- Apply(s, active, current, es[0]);
      Handle(t, active, current, es[1..])
  }

  /** A delivery takes a channel from the list and runs its handler. */
  function DeliverOne(s: Channels, active: seq<nat>, c: nat, es: seq<Effect>): Result {
    if c !in s.live then Dangling
    else
      match Handle(s, active, Some(c), es)
      case Ok(t) => Done(t)
      case Fault => Broken
  }

  /** The first `n` deliveries; `scripts[i]` is what the handler of the delivery `i` does. */
  function Deliver(s: Channels, active: seq<nat>, scripts: seq<seq<Effect>>, n: nat): Result
    requires n <= |active| == |scripts|
  {
    if n == 0 then Done(s)
    else
      var r := Deliver(s, active, scripts, n - 1);
      if r.Done? then DeliverOne(r.s, active, active[n - 1], scripts[n - 1]) else r
  }

  /** The part of an iteration of `loop` between the poll and the functors: the timers, then the list. */
  function Dispatched(s: Channels, active: seq<nat>, timers: seq<Effect>, scripts: seq<seq<Effect>>): Result
    requires |active| == |scripts|
  {
    match Handle(s, active, None, timers)
    case Ok(t) => Deliver(t, active, scripts, |active|)
    case Fault => Broken
  }

  /** The channels of a list as a poll hands it out. */
  predicate Deliverable(s: Channels, active: seq<nat>) {
    forall c :: c in active ==> c in s.live && c in s.added
  }

  /** Among the first `n` deliveries, one of `c` and, after it, one of another channel. */
  ghost predicate OtherAfter(active: seq<nat>, c: nat, n: nat)
    requires n <= |active|
  {
    exists k :: 0 <= k < n && active[k] != c && c in active[..k]
  }

  /** A channel is handed out twice with another one in between. */
  ghost predicate Sandwiched(active: seq<nat>) {
    exists j :: 0 <= j < |active| && OtherAfter(active, active[j], j)
  }

  /** What the asserts enforce: a channel of the list is removed by its own handler only, and destroyed by the
      handler of another one only. */
  ghost predicate Kept(s: Channels, active: seq<nat>, n: nat)
    requires n <= |active|
  {
    forall c :: c in active ==> (c !in s.added ==> c in active[..n]) && (c !in s.live ==> OtherAfter(active, c, n))
  }

  lemma {:induction false} HandleKeeps(s: Channels, active: seq<nat>, n: nat, current: Option<nat>, es: seq<Effect>)
    requires n <= |active| && Kept(s, active, n)
    requires if n == 0 then current == None else current == Some(active[n - 1])
    ensures var r := Handle(s, active, current, es); r.Ok? ==> Kept(r.value, active, n)
    decreases |es|
  {
    if es != [] && Apply(s, active, current, es[0]).Ok? {
      ApplyKeeps(s, active, n, current, es[0]);
      HandleKeeps(Apply(s, active, current, es[0]).value, active, n, current, es[1..]);
    }
  }

  lemma ApplyKeeps(s: Channels, active: seq<nat>, n: nat, current: Option<nat>, e: Effect)
    requires n <= |active| && Kept(s, active, n) && Apply(s, active, current, e).Ok?
    requires if n == 0 then current == None else current == Some(active[n - 1])
    ensures Kept(Apply(s, active, current, e).value, active, n)
  {
    if n > 0 {
      assert active[..n] == active[..n - 1] + [active[n - 1]];
    }
  }

  lemma KeptMore(s: Channels, active: seq<nat>, n: nat)
    requires n < |active| && Kept(s, active, n)
    ensures Kept(s, active, n + 1)
  {
    assert active[..n + 1] == active[..n] + [active[n]];
    forall c | c in active && c !in s.live ensures OtherAfter(active, c, n + 1) {
      assert OtherAfter(active, c, n);
    }
  }

  lemma {:induction false} DeliverKeeps(s: Channels, active: seq<nat>, scripts: seq<seq<Effect>>, n: nat)
    requires n <= |active| == |scripts| && Kept(s, active, 0)
    ensures var r := Deliver(s, active, scripts, n);
      (r.Done? ==> Kept(r.s, active, n)) && (r.Dangling? ==> Sandwiched(active))
  {
    if n > 0 {
      DeliverKeeps(s, active, scripts, n - 1);
      var r := Deliver(s, active, scripts, n - 1);
      if r.Done? && active[n - 1] in r.s.live {
        KeptMore(r.s, active, n - 1);
        HandleKeeps(r.s, active, n, Some(active[n - 1]), scripts[n - 1]);
      }
    }
  }

  /** The handlers that bring it about: the first one of the channel removes it, the one in between destroys it. */
  function Plot(active: seq<nat>, h: nat, k: nat): seq<seq<Effect>>
    requires h < |active|
  {
    seq(|active|, i requires 0 <= i < |active| =>
      if i == h then [Remove(active[h])] else if i == k then [Destroy(active[h])] else [])
  }

  lemma HandleOne(s: Channels, active: seq<nat>, current: Option<nat>, e: Effect)
    ensures Handle(s, active, current, [e]) == Apply(s, active, current, e)
  {}

  lemma {:induction false} PlotUnfolds(s: Channels, active: seq<nat>, h: nat, k: nat, n: nat)
    requires Deliverable(s, active) && h < k < |active| && n <= |active| && active[k] != active[h]
    ensures var c := active[h]; var r := Deliver(s, active, Plot(active, h, k), n);
      && (n <= h ==> r == Done(s))
      && (h < n <= k ==> r == Done(s.(added := s.added - {c})))
      && (k < n ==> r == Dangling || r == Done(Channels(s.live - {c}, s.added - {c})))
      && (k < n && c in active[k + 1..n] ==> r == Dangling)
  {
    if n > 0 {
      PlotUnfolds(s, active, h, k, n - 1);
      var r := Deliver(s, active, Plot(active, h, k), n - 1);
      if r.Done? && (n - 1 == h || n - 1 == k) {
        HandleOne(r.s, active, Some(active[n - 1]), Plot(active, h, k)[n - 1][0]);
        assert Plot(active, h, k)[n - 1] == [Plot(active, h, k)[n - 1][0]];
      }
      if n > k + 1 {
        assert active[k + 1..n] == active[k + 1..n - 1] + [active[n - 1]];
      }
    }
  }

  /** The asserts of the removal keep the list from dangling, whatever timers and handlers do, exactly when no channel
      is handed out twice with another one in between. */
  lemma DanglesExactly(s: Channels, active: seq<nat>)
    requires Deliverable(s, active)
    ensures (exists timers, scripts: seq<seq<Effect>> ::
               |scripts| == |active| && Dispatched(s, active, timers, scripts) == Dangling)
            <==> Sandwiched(active)
  {
    forall timers, scripts: seq<seq<Effect>> |
      |scripts| == |active| && Dispatched(s, active, timers, scripts) == Dangling
      ensures Sandwiched(active)
    {
      HandleKeeps(s, active, 0, None, timers);
      DeliverKeeps(Handle(s, active, None, timers).value, active, scripts, |active|);
    }
    if Sandwiched(active) {
      var j :| 0 <= j < |active| && OtherAfter(active, active[j], j);
      var k :| 0 <= k < j && active[k] != active[j] && active[j] in active[..k];
      var h :| 0 <= h < k && active[h] == active[j];
      PlotUnfolds(s, active, h, k, |active|);
      assert active[k + 1..][j - k - 1] == active[h];
      assert Dispatched(s, active, [], Plot(active, h, k)) == Dangling;
    }
  }

  predicate NoDestruction(es: seq<Effect>) { forall e :: e in es ==> !e.Destroy? }

  lemma {:induction false} HandleKeepsLive(s: Channels, active: seq<nat>, current: Option<nat>, es: seq<Effect>)
    requires NoDestruction(es)
    ensures var r := Handle(s, active, current, es); r.Ok? ==> r.value.live == s.live
    decreases |es|
  {
    if es != [] && Apply(s, active, current, es[0]).Ok? {
      HandleKeepsLive(Apply(s, active, current, es[0]).value, active, current, es[1..]);
    }
  }

  lemma {:induction false} DeliverKeepsLive(s: Channels, active: seq<nat>, scripts: seq<seq<Effect>>, n: nat)
    requires n <= |active| == |scripts| && (forall c :: c in active ==> c in s.live)
    requires forall es :: es in scripts ==> NoDestruction(es)
    ensures var r := Deliver(s, active, scripts, n); !r.Dangling? && (r.Done? ==> r.s.live == s.live)
  {
    if n > 0 {
      DeliverKeepsLive(s, active, scripts, n - 1);
      var r := Deliver(s, active, scripts, n - 1);
      if r.Done? { HandleKeepsLive(r.s, active, Some(active[n - 1]), scripts[n - 1]); }
    }
  }

  /** Leaving the destruction to the functors, as `TcpConnection` and `Connector` do, is safe for every list. */
  lemma DeferredDestructionIsSafe(s: Channels, active: seq<nat>, timers: seq<Effect>, scripts: seq<seq<Effect>>)
    requires |scripts| == |active| && Deliverable(s, active)
    requires NoDestruction(timers) && forall es :: es in scripts ==> NoDestruction(es)
    ensures !Dispatched(s, active, timers, scripts).Dangling?
  {
    HandleKeepsLive(s, active, None, timers);
    if Handle(s, active, None, timers).Ok? {
      DeliverKeepsLive(Handle(s, active, None, timers).value, active, scripts, |active|);
    }
  }

  /** Each handler removes its own channel or nothing. */
  predicate OwnOnly(active: seq<nat>, scripts: seq<seq<Effect>>) {
    |scripts| == |active| && forall i :: 0 <= i < |active| ==> scripts[i] == [] || scripts[i] == [Remove(active[i])]
  }

  /** Among the first `n` deliveries no two of the same channel both remove it. */
  predicate RemovedOnce(active: seq<nat>, scripts: seq<seq<Effect>>, n: nat)
    requires n <= |active| == |scripts|
  {
    forall a, b :: 0 <= a < b < n && active[a] == active[b] ==> scripts[a] == [] || scripts[b] == []
  }

  /** Such handlers meet the assert of `removeChannel`, and what fails is the second removal of a channel that was
      handed out twice. */
  lemma {:induction false} OwnRemovals(s: Channels, active: seq<nat>, scripts: seq<seq<Effect>>, n: nat)
    requires n <= |active| && Deliverable(s, active) && OwnOnly(active, scripts)
    ensures var r := Deliver(s, active, scripts, n);
      && (r.Done? <==> RemovedOnce(active, scripts, n))
      && (r.Done? ==> r.s == s.(added := s.added - set i | 0 <= i < n && scripts[i] != [] :: active[i]))
  {
    if n == 0 {
      assert s.added - {} == s.added;
    } else {
      OwnRemovals(s, active, scripts, n - 1);
      var r := Deliver(s, active, scripts, n - 1);
      if r.Done? && scripts[n - 1] != [] {
        HandleOne(r.s, active, Some(active[n - 1]), Remove(active[n - 1]));
      }
    }
  }
}

/** The same loop over the fields of `EventLoop`. */
module DispatchClass {
  import opened Dispatch
  import opened Outcomes

  class Reactor {
    var live: set<nat>
    var added: set<nat>
    var activeChannels: seq<nat>
    var currentActiveChannel: Option<nat>

    function At(): Channels
      reads this
    {
      Channels(live, added)
    }

    /** A callback, one effect after the other; false when an assert fails. */
    method RunCallback(es: seq<Effect>) returns (ok: bool)
      modifies this`live, this`added
      ensures var r := Handle(old(At()), activeChannels, currentActiveChannel, es);
        ok == r.Ok? && (ok ==> At() == r.value)
    {
      var i := 0;
      while i < |es|
        invariant i <= |es|
        invariant Handle(At(), activeChannels, currentActiveChannel, es[i..])
               == Handle(old(At()), activeChannels, currentActiveChannel, es)
      {
        var r := Apply(At(), activeChannels, currentActiveChannel, es[i]);
        assert es[i..][1..] == es[i + 1..];
        if r.Fault? {
          return false;
        }
        live, added := r.value.live, r.value.added;
        i := i + 1;
      }
      ok := true;
    }

    /** The timers, then the channels of the list. */
    method HandleActive(timers: seq<Effect>, scripts: seq<seq<Effect>>) returns (r: Result)
      requires |scripts| == |activeChannels|
      modifies this`live, this`added, this`currentActiveChannel
      ensures r == Dispatched(old(At()), activeChannels, timers, scripts)
      ensures r.Done? ==> At() == r.s && currentActiveChannel == None
    {
      currentActiveChannel := None;
      var ok := RunCallback(timers);
      if !ok {
        return Broken;
      }
      ghost var s := At();
      for i := 0 to |activeChannels|
        invariant Deliver(s, activeChannels, scripts, i) == Done(At())
        invariant Handle(old(At()), activeChannels, None, timers) == Ok(s)
      {
        currentActiveChannel := Some(activeChannels[i]);
        if activeChannels[i] !in live {
          DeliverEnds(s, activeChannels, scripts, i + 1);
          return Dangling;
        }
        ok := RunCallback(scripts[i]);
        if !ok {
          DeliverEnds(s, activeChannels, scripts, i + 1);
          return Broken;
        }
      }
      currentActiveChannel := None;
      r := Done(At());
    }
  }

  /** What ends the loop early is its result. */
  lemma {:induction false} DeliverEnds(s: Channels, active: seq<nat>, scripts: seq<seq<Effect>>, n: nat)
    requires n <= |active| == |scripts| && !Deliver(s, active, scripts, n).Done?
    ensures Deliver(s, active, scripts, |active|) == Deliver(s, active, scripts, n)
    decreases |active| - n
  {
    if n < |active| { DeliverEnds(s, active, scripts, n + 1); }
  }
}
