/** `EPollPoller` (net/epollPoller.cpp) on top of the emulated port: the kNew/kAdded/kDeleted life of a
    channel, and the promise that an event always reaches the channel its descriptor now belongs to. */
module EpollPoller {
  import opened Outcomes
  import opened Epoll
  import opened EpollInvariants
  import opened EpollTable

  const kNew := -1
  const kAdded := 1
  const kDeleted := 2

  /** The fields of `Channel` a poller works with. */
  datatype Channel = Channel(fd: int, events: bv32, index: int, revents: bv32)

  /** `objects` are the live `Channel`s by address; `capacity` is `events_.size()`. */
  datatype Poller = Poller(port: Port, objects: map<nat, Channel>, channels: map<int, nat>, capacity: nat)

  const FreshPoller := Poller(EmptyPort, map[], map[], 16)

  datatype Env = Env(setup: Setup, attempt: Attempt)

  datatype Ctl = CtlAdd | CtlMod | CtlDel

  function Load(s: Poller, c: nat): Outcome<Channel> {
    if c in s.objects then Ok(s.objects[c]) else Fault
  }

  /** `update(operation, channel)`: a failing `epoll_ctl` is only logged here. */
  function Update(s: Poller, op: Ctl, c: nat, e: Env): Outcome<Poller> {
    var ch :- Load(s, c);
    var (q, _) :- match op
      case CtlAdd => EpollAdd(s.port, ch.fd, ch.events, c, e.setup, e.attempt)
      case CtlMod => EpollMod(s.port, ch.fd, ch.events, c, e.setup, e.attempt)
      case CtlDel => EpollDel(s.port, ch.fd);
    Ok(s.(port := q))
  }

  function SetIndex(s: Poller, c: nat, index: int): Outcome<Poller> {
    var ch :- Load(s, c);
    Ok(s.(objects := s.objects[c := ch.(index := index)]))
  }

  /** `updateChannel`, with each assert of the source as a fault. */
  function UpdateChannel(s: Poller, c: nat, e: Env): Outcome<Poller> {
    var ch :- Load(s, c);
    if ch.index == kNew then
      if ch.fd in s.channels then Fault
      else
        var s1 :- SetIndex(s.(channels := s.channels[ch.fd := c]), c, kAdded);
        Update(s1, CtlAdd, c, e)
    else if !(ch.fd in s.channels && s.channels[ch.fd] == c) then Fault
    else if ch.index == kDeleted then
      var s1 :- SetIndex(s, c, kAdded);
      Update(s1, CtlAdd, c, e)
    else if ch.index != kAdded then Fault
    else if ch.events == 0 then
      var s1 :- Update(s, CtlDel, c, e);
      SetIndex(s1, c, kDeleted)
    else
      Update(s, CtlMod, c, e)
  }

  function RemoveChannel(s: Poller, c: nat, e: Env): Outcome<Poller> {
    var ch :- Load(s, c);
    if !(ch.fd in s.channels && s.channels[ch.fd] == c && ch.events == 0) then Fault
    else if ch.index != kAdded && ch.index != kDeleted then Fault
    else
      var s1 := s.(channels := s.channels - {ch.fd});
      if ch.index == kAdded then
        var s2 :- Update(s1, CtlDel, c, e);
        SetIndex(s2, c, kNew)
      else
        SetIndex(s1, c, kNew)
  }

  /** `fillActiveChannels`: the user data is the channel's address. */
  function FillActive(objects: map<nat, Channel>, channels: map<int, nat>, events: seq<Event>):
    Outcome<(map<nat, Channel>, seq<nat>)>
  {
    if events == [] then Ok((objects, []))
    else
      var n := |events| - 1;
      var (objects1, active) :- FillActive(objects, channels, events[..n]);
      var c := events[n].user;
      if c in objects1 && objects1[c].fd in channels && channels[objects1[c].fd] == c then
        Ok((objects1[c := objects1[c].(revents := events[n].events)], active + [c]))
      else Fault
  }

  /** The part of `poll` after `epoll_wait` returned. */
  function Deliver(s: Poller, p: Port, events: seq<Event>): Outcome<(Poller, seq<nat>)> {
    if |events| > s.capacity then Fault
    else
      var (objects, active) :- FillActive(s.objects, s.channels, events);
      Ok((Poller(p, objects, s.channels, if |events| == s.capacity then s.capacity * 2 else s.capacity), active))
  }

  /** `poll`: submit, dequeue a batch (empty on timeout), process it, hand out the channels. */
  function Poll(s: Poller, order: seq<Attention>, batch: seq<Completion>): Outcome<(Poller, seq<nat>)> {
    var p1 :- SubmitAll(s.port, order);
    var (p2, events) :- WaitBatch(p1, batch);
    Deliver(s, p2, events)
  }

  // ---------------------------------------------------------------------------------------------
  // Runs

  /** Channels come and go; each `Update` is an enable/disable call that has just set `events_`. */
  datatype Action =
    | Create(c: nat, fd: int)
    | Destroy(c: nat)
    | ChangeInterest(c: nat, ev: bv32, e: Env)
    | Remove(c: nat, e: Env)
    | PollOnce(order: seq<Attention>, batch: seq<Completion>)

  function Step(s: Poller, x: Action): Outcome<(Poller, seq<nat>)> {
    match x
    case Create(c, fd) => Ok((s.(objects := s.objects[c := Channel(fd, 0, kNew, 0)]), []))
    case Destroy(c) =>
      var ch :- Load(s, c);
      if ch.index != kNew then Fault else Ok((s.(objects := s.objects - {c}), []))
    case ChangeInterest(c, ev, e) =>
      var ch :- Load(s, c);
      var s1 :- UpdateChannel(s.(objects := s.objects[c := ch.(events := ev)]), c, e);
      Ok((s1, []))
    case Remove(c, e) =>
      var s1 :- RemoveChannel(s, c, e);
      Ok((s1, []))
    case PollOnce(order, batch) => Poll(s, order, batch)
  }

  predicate FreshEnv(p: Port, e: Env) { FreshSetup(p, e.setup) && FreshAttempt(p, e.attempt) }

  /** Any live channel may be updated, removed or destroyed at any time, and descriptors may be reused; allocator,
      iteration and kernel behave. */
  ghost predicate Possible(s: Poller, x: Action) {
    match x
    case Create(c, _) => c !in s.objects
    case Destroy(c) => c in s.objects
    case ChangeInterest(c, _, e) => c in s.objects && FreshEnv(s.port, e)
    case Remove(c, e) => c in s.objects && FreshEnv(s.port, e)
    case PollOnce(order, batch) =>
      && Iterates(s.port, order) && |batch| <= s.capacity && |batch| <= 64
      && (SubmitAll(s.port, order).Ok? ==> HandsBack(SubmitAll(s.port, order).value, batch))
  }

  /** What a caller can tell before a call: the descriptor of a channel that is not added is free, a removed channel
      is added and has no interest, a destroyed one is not added. */
  predicate Safe(s: Poller, x: Action) {
    match x
    case Destroy(c) => c in s.objects && s.objects[c].index == kNew
    case ChangeInterest(c, _, _) =>
      c in s.objects && (s.objects[c].index == kNew ==> s.objects[c].fd !in s.channels)
    case Remove(c, _) => c in s.objects && s.objects[c].index != kNew && s.objects[c].events == 0
    case _ => true
  }

  ghost predicate Enabled(s: Poller, x: Action) { Possible(s, x) && Safe(s, x) }

  predicate Owns(objects: map<nat, Channel>, channels: map<int, nat>, c: nat) {
    c in objects && objects[c].fd in channels && channels[objects[c].fd] == c
  }

  /** The poller's own tables agree with each other. */
  ghost predicate ChannelsAgree(objects: map<nat, Channel>, channels: map<int, nat>) {
    && (forall fd :: fd in channels ==>
          channels[fd] in objects && objects[channels[fd]].fd == fd
          && (objects[channels[fd]].index == kAdded || objects[channels[fd]].index == kDeleted))
    && (forall c :: c in objects && objects[c].index != kNew ==> Owns(objects, channels, c))
  }

  /** A descriptor in the port's table `m` belongs to the kAdded channel stored as its user data. */
  ghost predicate TableAgrees(objects: map<nat, Channel>, channels: map<int, nat>, m: map<int, nat>) {
    forall fd :: fd in m ==>
      fd in channels && channels[fd] == m[fd] && m[fd] in objects && objects[m[fd]].index == kAdded
  }

  ghost predicate PollerInv(s: Poller) {
    && Inv(s.port) && ChannelsAgree(s.objects, s.channels) && TableAgrees(s.objects, s.channels, Users(s.port))
    && (s.capacity == 16 || s.capacity == 32 || s.capacity == 64 || s.capacity == 128)
  }

  /** The channels handed out by a poll are live, added, and own their descriptor. */
  ghost predicate Deliverable(objects: map<nat, Channel>, channels: map<int, nat>, active: seq<nat>) {
    forall c :: c in active ==> Owns(objects, channels, c) && objects[c].index == kAdded
  }

  lemma UpdateKeepsPort(s: Poller, op: Ctl, c: nat, e: Env)
    requires Inv(s.port) && c in s.objects && FreshEnv(s.port, e)
    ensures Update(s, op, c, e).Ok? && Inv(Update(s, op, c, e).value.port)
  {
    var ch := s.objects[c];
    match op
    case CtlAdd => AddKeeps(s.port, ch.fd, ch.events, c, e.setup, e.attempt);
    case CtlMod => ModKeeps(s.port, ch.fd, ch.events, c, e.setup, e.attempt);
    case CtlDel => DelKeeps(s.port, ch.fd);
  }

  /** `ADD` and `MOD` may enter `fd -> c` into the table; `DEL` takes `fd` out. */
  lemma UpdateTable(s: Poller, op: Ctl, c: nat, e: Env, s1: Poller)
    requires Inv(s.port) && c in s.objects && FreshEnv(s.port, e) && Update(s, op, c, e) == Ok(s1)
    ensures s1 == s.(port := s1.port)
    ensures var fd := s.objects[c].fd; var m := Users(s.port); var n := Users(s1.port);
      && (op.CtlDel? ==> n == m - {fd})
      && (op.CtlMod? ==> n == m || n == m[fd := c])
      && (op.CtlAdd? ==> n == m || (fd !in m && n == m[fd := c]))
  {
    var ch := s.objects[c];
    match op
    case CtlAdd =>
      var (q, ok) := EpollAdd(s.port, ch.fd, ch.events, c, e.setup, e.attempt).value;
      AddTable(s.port, ch.fd, ch.events, c, e.setup, e.attempt, q, ok);
    case CtlMod =>
      var (q, ok) := EpollMod(s.port, ch.fd, ch.events, c, e.setup, e.attempt).value;
      ModTable(s.port, ch.fd, ch.events, c, e.setup, e.attempt, q, ok);
    case CtlDel =>
      var (q, ok) := EpollDel(s.port, ch.fd).value;
      DelTable(s.port, ch.fd, q, ok);
  }

  lemma AddedAgrees(objects: map<nat, Channel>, channels: map<int, nat>, m: map<int, nat>, c: nat, n: map<int, nat>)
    requires ChannelsAgree(objects, channels) && TableAgrees(objects, channels, m) && c in objects
    requires Owns(objects, channels, c) || (objects[c].index == kNew && objects[c].fd !in channels)
    requires n == m || n == m[objects[c].fd := c]
    ensures ChannelsAgree(objects[c := objects[c].(index := kAdded)], channels[objects[c].fd := c])
    ensures TableAgrees(objects[c := objects[c].(index := kAdded)], channels[objects[c].fd := c], n)
  {}

  lemma DeletedAgrees(objects: map<nat, Channel>, channels: map<int, nat>, m: map<int, nat>, c: nat, n: map<int, nat>)
    requires ChannelsAgree(objects, channels) && TableAgrees(objects, channels, m)
    requires Owns(objects, channels, c) && n == m - {objects[c].fd}
    ensures ChannelsAgree(objects[c := objects[c].(index := kDeleted)], channels)
    ensures TableAgrees(objects[c := objects[c].(index := kDeleted)], channels, n)
  {}

  lemma RemovedAgrees(objects: map<nat, Channel>, channels: map<int, nat>, m: map<int, nat>, c: nat, n: map<int, nat>)
    requires ChannelsAgree(objects, channels) && TableAgrees(objects, channels, m)
    requires Owns(objects, channels, c) && Sub(n, m) && objects[c].fd !in n
    ensures ChannelsAgree(objects[c := objects[c].(index := kNew)], channels - {objects[c].fd})
    ensures TableAgrees(objects[c := objects[c].(index := kNew)], channels - {objects[c].fd}, n)
  {}

  lemma AddKeepsInv(s: Poller, s1: Poller, c: nat, e: Env, t: Poller)
    requires PollerInv(s) && c in s.objects && FreshEnv(s.port, e)
    requires Owns(s.objects, s.channels, c) || (s.objects[c].index == kNew && s.objects[c].fd !in s.channels)
    requires s1.port == s.port && s1.capacity == s.capacity
    requires s1.objects == s.objects[c := s.objects[c].(index := kAdded)]
    requires s1.channels == s.channels[s.objects[c].fd := c]
    requires Update(s1, CtlAdd, c, e) == Ok(t) || Update(s1, CtlMod, c, e) == Ok(t)
    ensures PollerInv(t)
  {
    var op := if Update(s1, CtlAdd, c, e) == Ok(t) then CtlAdd else CtlMod;
    UpdateKeepsPort(s1, op, c, e);
    UpdateTable(s1, op, c, e, t);
    AddedAgrees(s.objects, s.channels, Users(s.port), c, Users(t.port));
  }

  lemma UpdateChannelKeeps(s: Poller, c: nat, e: Env)
    requires PollerInv(s) && c in s.objects && FreshEnv(s.port, e)
    requires s.objects[c].index == kNew ==> s.objects[c].fd !in s.channels
    ensures UpdateChannel(s, c, e).Ok? && PollerInv(UpdateChannel(s, c, e).value)
  {
    var ch := s.objects[c];
    if ch.index == kNew || ch.index == kDeleted {
      var s1 := s.(channels := s.channels[ch.fd := c], objects := s.objects[c := ch.(index := kAdded)]);
      UpdateKeepsPort(s1, CtlAdd, c, e);
      assert ch.index == kDeleted ==> s1.channels == s.channels;
      AddKeepsInv(s, s1, c, e, Update(s1, CtlAdd, c, e).value);
    } else if ch.events == 0 {
      UpdateKeepsPort(s, CtlDel, c, e);
      var t := Update(s, CtlDel, c, e).value;
      UpdateTable(s, CtlDel, c, e, t);
      DeletedAgrees(s.objects, s.channels, Users(s.port), c, Users(t.port));
    } else {
      UpdateKeepsPort(s, CtlMod, c, e);
      assert s.objects[c := ch.(index := kAdded)] == s.objects && s.channels[ch.fd := c] == s.channels;
      AddKeepsInv(s, s, c, e, Update(s, CtlMod, c, e).value);
    }
  }

  lemma RemoveChannelKeeps(s: Poller, c: nat, e: Env)
    requires PollerInv(s) && c in s.objects && FreshEnv(s.port, e)
    requires s.objects[c].index != kNew && s.objects[c].events == 0
    ensures RemoveChannel(s, c, e).Ok? && PollerInv(RemoveChannel(s, c, e).value)
    ensures var t, fd := RemoveChannel(s, c, e).value, s.objects[c].fd; fd !in t.channels && fd !in Users(t.port)
  {
    var ch := s.objects[c];
    var s1 := s.(channels := s.channels - {ch.fd});
    if ch.index == kAdded {
      UpdateKeepsPort(s1, CtlDel, c, e);
      var t := Update(s1, CtlDel, c, e).value;
      UpdateTable(s1, CtlDel, c, e, t);
      RemovedAgrees(s.objects, s.channels, Users(s.port), c, Users(t.port));
    } else {
      RemovedAgrees(s.objects, s.channels, Users(s.port), c, Users(s.port));
    }
  }

  ghost predicate SameButRevents(objects: map<nat, Channel>, after: map<nat, Channel>) {
    && after.Keys == objects.Keys
    && forall c :: c in objects ==> after[c] == objects[c].(revents := after[c].revents)
  }

  lemma RetouchedAgrees(objects: map<nat, Channel>, channels: map<int, nat>, m: map<int, nat>, after: map<nat, Channel>)
    requires ChannelsAgree(objects, channels) && TableAgrees(objects, channels, m) && SameButRevents(objects, after)
    ensures ChannelsAgree(after, channels) && TableAgrees(after, channels, m)
  {}

  lemma FillOne(objects: map<nat, Channel>, channels: map<int, nat>, m: map<int, nat>, e: Event)
    requires ChannelsAgree(objects, channels) && TableAgrees(objects, channels, m)
    requires exists fd :: Entry(m, fd, e.user)
    ensures Owns(objects, channels, e.user) && objects[e.user].index == kAdded
  {
    var fd :| Entry(m, fd, e.user);
  }

  /** No later event is for the same channel. */
  ghost predicate Latest(events: seq<Event>, i: nat)
    requires i < |events|
  {
    forall j :: i < j < |events| ==> events[j].user != events[i].user
  }

  /** Every channel handed out has the bits of its latest event, all others are as before. */
  ghost predicate Stored(objects: map<nat, Channel>, events: seq<Event>, after: map<nat, Channel>) {
    && (forall i :: 0 <= i < |events| && Latest(events, i) ==>
          events[i].user in after && after[events[i].user].revents == events[i].events)
    && forall c :: c in objects && (forall i :: 0 <= i < |events| ==> events[i].user != c) ==>
         c in after && after[c] == objects[c]
  }

  lemma StoredExtend(objects: map<nat, Channel>, events: seq<Event>, mid: map<nat, Channel>, e: Event,
                     after: map<nat, Channel>)
    requires Stored(objects, events, mid) && e.user in mid
    requires after == mid[e.user := mid[e.user].(revents := e.events)]
    ensures Stored(objects, events + [e], after)
  {
    var all := events + [e];
    forall i | 0 <= i < |all| && Latest(all, i)
      ensures all[i].user in after && after[all[i].user].revents == all[i].events
    {
      if i < |events| {
        assert all[|events|].user != all[i].user;
        assert Latest(events, i) by {
          forall j | i < j < |events| ensures events[j].user != events[i].user { assert all[j] == events[j]; }
        }
      }
    }
    forall c | c in objects && (forall i :: 0 <= i < |all| ==> all[i].user != c)
      ensures c in after && after[c] == objects[c]
    {
      assert all[|events|].user != c;
      forall i | 0 <= i < |events| ensures events[i].user != c { assert all[i] == events[i]; }
    }
  }

  ghost predicate Fills(objects: map<nat, Channel>, channels: map<int, nat>, events: seq<Event>,
                        after: map<nat, Channel>, active: seq<nat>)
  {
    && SameButRevents(objects, after) && Deliverable(after, channels, active) && Stored(objects, events, after)
    && |active| == |events| && forall i :: 0 <= i < |events| ==> active[i] == events[i].user
  }

  lemma ReportsSplit(m: map<int, nat>, init: seq<Event>, e: Event)
    requires Reports(m, init + [e])
    ensures Reports(m, init)
    ensures exists fd :: Entry(m, fd, e.user)
  {
    assert forall x :: x in init ==> x in init + [e];
    assert e in init + [e];
  }

  lemma OwnsExists(objects: map<nat, Channel>, channels: map<int, nat>, c: nat)
    requires Owns(objects, channels, c)
    ensures c in objects
  {}

  lemma FillsExtend(objects: map<nat, Channel>, channels: map<int, nat>, events: seq<Event>,
                    mid: map<nat, Channel>, active: seq<nat>, e: Event, after: map<nat, Channel>)
    requires Fills(objects, channels, events, mid, active)
    requires Owns(mid, channels, e.user) && mid[e.user].index == kAdded
    requires after == mid[e.user := mid[e.user].(revents := e.events)]
    ensures Fills(objects, channels, events + [e], after, active + [e.user])
  {
    hide Deliverable, Stored;
    OwnsExists(mid, channels, e.user);
    hide Owns;
    DeliverableExtend(objects, channels, mid, active, e, after);
    StoredExtend(objects, events, mid, e, after);
  }

  lemma DeliverableExtend(objects: map<nat, Channel>, channels: map<int, nat>, mid: map<nat, Channel>,
                          active: seq<nat>, e: Event, after: map<nat, Channel>)
    requires Deliverable(mid, channels, active) && Owns(mid, channels, e.user) && mid[e.user].index == kAdded
    requires after == mid[e.user := mid[e.user].(revents := e.events)]
    ensures Deliverable(after, channels, active + [e.user])
  {
    forall c | c in active + [e.user] ensures Owns(after, channels, c) && after[c].index == kAdded {
      assert Owns(mid, channels, c);
    }
  }

  /** No assert of `fillActiveChannels` fails, and every event's channel is handed out. */
  lemma {:induction false} FillActiveDelivers(objects: map<nat, Channel>, channels: map<int, nat>, m: map<int, nat>,
                                              events: seq<Event>)
    requires ChannelsAgree(objects, channels) && TableAgrees(objects, channels, m) && Reports(m, events)
    ensures FillActive(objects, channels, events).Ok?
    ensures var (after, active) := FillActive(objects, channels, events).value;
      Fills(objects, channels, events, after, active)
  {
    if events != [] {
      var n := |events| - 1;
      var e := events[n];
      assert events == events[..n] + [e];
      ReportsSplit(m, events[..n], e);
      FillActiveDelivers(objects, channels, m, events[..n]);
      var (mid, active) := FillActive(objects, channels, events[..n]).value;
      RetouchedAgrees(objects, channels, m, mid);
      FillOne(mid, channels, m, e);
      FillsExtend(objects, channels, events[..n], mid, active, e, mid[e.user := mid[e.user].(revents := e.events)]);
    }
  }

  /** Two events for one channel in one poll: it is handed out twice, both times with the later bits. */
  lemma LaterBitsStandForBoth(objects: map<nat, Channel>, channels: map<int, nat>, m: map<int, nat>, e: Event, f: Event)
    requires ChannelsAgree(objects, channels) && TableAgrees(objects, channels, m)
    requires Reports(m, [e, f]) && e.user == f.user
    ensures FillActive(objects, channels, [e, f]).Ok?
    ensures var (after, active) := FillActive(objects, channels, [e, f]).value;
      active == [e.user, e.user] && after == objects[e.user := objects[e.user].(revents := f.events)]
  {
    hide Stored, Deliverable;
    FillActiveDelivers(objects, channels, m, [e, f]);
    assert [e, f][..1] == [e] && [e][..0] == [];
    assert FillActive(objects, channels, []) == Ok((objects, []));
  }

  lemma DeliverKeeps(s: Poller, p: Port, events: seq<Event>)
    requires PollerInv(s) && Inv(p) && Sub(Users(p), Users(s.port)) && Reports(Users(s.port), events)
    requires |events| <= s.capacity && |events| <= 64
    ensures Deliver(s, p, events).Ok?
    ensures var (t, active) := Deliver(s, p, events).value;
      && PollerInv(t) && Deliverable(t.objects, t.channels, active) && |active| == |events|
      && s.capacity <= t.capacity && |active| < t.capacity
  {
    FillActiveDelivers(s.objects, s.channels, Users(s.port), events);
    var (after, active) := FillActive(s.objects, s.channels, events).value;
    RetouchedAgrees(s.objects, s.channels, Users(s.port), after);
  }

  /** What the port contributes to a poll. */
  lemma PortPolls(p: Port, order: seq<Attention>, batch: seq<Completion>)
    requires Inv(p) && Iterates(p, order)
    requires SubmitAll(p, order).Ok? ==> HandsBack(SubmitAll(p, order).value, batch)
    ensures SubmitAll(p, order).Ok? && WaitBatch(SubmitAll(p, order).value, batch).Ok?
    ensures var (p2, events) := WaitBatch(SubmitAll(p, order).value, batch).value;
      Inv(p2) && Sub(Users(p2), Users(p)) && Reports(Users(p), events) && |events| <= |batch|
  {
    SubmitAllKeeps(p, order);
    var p1 := SubmitAll(p, order).value;
    SubmitAllTable(p, order, p1);
    WaitBatchKeeps(p1, batch);
    var (p2, events) := WaitBatch(p1, batch).value;
    WaitTable(p1, batch, p2, events);
  }

  lemma PollKeeps(s: Poller, order: seq<Attention>, batch: seq<Completion>)
    requires PollerInv(s) && Enabled(s, PollOnce(order, batch))
    ensures Poll(s, order, batch).Ok?
    ensures var (t, active) := Poll(s, order, batch).value;
      && PollerInv(t) && Deliverable(t.objects, t.channels, active)
      && s.capacity <= t.capacity && |active| < t.capacity
  {
    PortPolls(s.port, order, batch);
    var (p2, events) := WaitBatch(SubmitAll(s.port, order).value, batch).value;
    DeliverKeeps(s, p2, events);
  }

  lemma ChangeKeeps(s: Poller, c: nat, ev: bv32, e: Env)
    requires PollerInv(s) && Enabled(s, ChangeInterest(c, ev, e))
    ensures Step(s, ChangeInterest(c, ev, e)).Ok? && PollerInv(Step(s, ChangeInterest(c, ev, e)).value.0)
  {
    UpdateChannelKeeps(s.(objects := s.objects[c := s.objects[c].(events := ev)]), c, e);
  }

  lemma CreateKeeps(s: Poller, c: nat, fd: int)
    requires PollerInv(s) && c !in s.objects
    ensures PollerInv(s.(objects := s.objects[c := Channel(fd, 0, kNew, 0)]))
  {}

  lemma DestroyKeeps(s: Poller, c: nat)
    requires PollerInv(s) && c in s.objects && s.objects[c].index == kNew
    ensures PollerInv(s.(objects := s.objects - {c}))
  {}

  lemma StepKeeps(s: Poller, x: Action)
    requires PollerInv(s) && Enabled(s, x)
    ensures Step(s, x).Ok? && PollerInv(Step(s, x).value.0)
    ensures x.PollOnce? ==> var (t, active) := Step(s, x).value; Deliverable(t.objects, t.channels, active)
  {
    hide PollerInv, UpdateChannel, RemoveChannel, Poll, Deliverable;
    match x
    case Create(c, fd) => CreateKeeps(s, c, fd);
    case Destroy(c) => DestroyKeeps(s, c);
    case ChangeInterest(c, ev, e) => ChangeKeeps(s, c, ev, e);
    case Remove(c, e) => RemoveChannelKeeps(s, c, e);
    case PollOnce(order, batch) => PollKeeps(s, order, batch);
  }

  /** A step passes its asserts if and only if it meets its guard. */
  lemma StepOkExactly(s: Poller, x: Action)
    requires PollerInv(s) && Possible(s, x)
    ensures Step(s, x).Ok? <==> Safe(s, x)
    ensures Step(s, x).Ok? ==> PollerInv(Step(s, x).value.0)
  {
    if Safe(s, x) { StepKeeps(s, x); }
  }

  function Run(s: Poller, xs: seq<Action>): Outcome<Poller>
    decreases |xs|
  {
    if xs == [] then Ok(s)
    else
      var (t, _) :- Step(s, xs[0]);
      Run(t, xs[1..])
  }

  ghost predicate Legal(s: Poller, xs: seq<Action>)
    decreases |xs|
  {
    xs == [] || (Enabled(s, xs[0]) && (Step(s, xs[0]).Ok? ==> Legal(Step(s, xs[0]).value.0, xs[1..])))
  }

  lemma RunUnfold(s: Poller, xs: seq<Action>, t: Poller)
    requires xs != [] && Step(s, xs[0]).Ok? && t == Step(s, xs[0]).value.0
    ensures Run(s, xs) == Run(t, xs[1..])
    ensures Legal(s, xs) <==> Enabled(s, xs[0]) && Legal(t, xs[1..])
  {}

  ghost predicate AllPossible(s: Poller, xs: seq<Action>)
    decreases |xs|
  {
    xs == [] || (Possible(s, xs[0]) && (Step(s, xs[0]).Ok? ==> AllPossible(Step(s, xs[0]).value.0, xs[1..])))
  }

  /** No assert fails in a run if and only if each of its steps meets its guard. */
  lemma {:induction false} RunOkExactly(s: Poller, xs: seq<Action>)
    requires PollerInv(s) && AllPossible(s, xs)
    ensures Run(s, xs).Ok? <==> Legal(s, xs)
    decreases |xs|
  {
    hide PollerInv, Possible, Safe, Step;
    if xs != [] {
      StepOkExactly(s, xs[0]);
      if Step(s, xs[0]).Ok? { RunOkExactly(Step(s, xs[0]).value.0, xs[1..]); }
    }
  }

  /** Every poll of every run delivers to live channels that own their descriptor, however descriptors
      are reused while operations of deleted registrations are still pending; no assert ever fails. */
  lemma {:induction false} NoStaleDelivery(s: Poller, xs: seq<Action>)
    requires PollerInv(s) && Legal(s, xs)
    ensures Run(s, xs).Ok? && PollerInv(Run(s, xs).value)
    decreases |xs|
  {
    if xs != [] {
      StepKeeps(s, xs[0]);
      var t := Step(s, xs[0]).value.0;
      RunUnfold(s, xs, t);
      NoStaleDelivery(t, xs[1..]);
    }
  }
}

/** The same poller as an object over the port object. */
module EpollPollerClass {
  import opened Outcomes
  import opened Epoll
  import opened EpollInvariants
  import opened EpollPoller
  import EpollPortClass

  class EPollPoller {
    const port: EpollPortClass.EpollPort
    var objects: map<nat, Channel>
    var channels: map<int, nat>
    var capacity: nat

    function State(): Poller
      reads this, port
    {
      Poller(port.State(), objects, channels, capacity)
    }

    ghost predicate Valid()
      reads this, port
    {
      PollerInv(State())
    }

    constructor ()
      ensures Valid() && fresh(port) && State() == FreshPoller
    {
      port := new EpollPortClass.EpollPort();
      objects, channels, capacity := map[], map[], 16;
    }

    method Control(op: Ctl, c: nat, e: Env)
      requires port.Valid() && c in objects && FreshEnv(port.State(), e)
      modifies port
      ensures port.Valid() && Update(old(State()), op, c, e) == Ok(State())
    {
      var ch := objects[c];
      match op {
        case CtlAdd => var _ := port.Add(ch.fd, ch.events, c, e.setup, e.attempt);
        case CtlMod => var _ := port.Mod(ch.fd, ch.events, c, e.setup, e.attempt);
        case CtlDel => var _ := port.Del(ch.fd);
      }
    }

    /** `updateChannel`; the asserts of the source hold. */
    method UpdateInterest(c: nat, e: Env)
      requires Valid() && c in objects && FreshEnv(port.State(), e)
      requires objects[c].index == kNew ==> objects[c].fd !in channels
      modifies this, port
      ensures Valid() && UpdateChannel(old(State()), c, e) == Ok(State())
    {
      hide Update, Inv, TableAgrees;
      UpdateChannelKeeps(State(), c, e);
      var index, fd := objects[c].index, objects[c].fd;
      if index == kNew || index == kDeleted {
        if index == kNew {
          channels := channels[fd := c];
        } else {
          assert fd in channels && channels[fd] == c;
        }
        objects := objects[c := objects[c].(index := kAdded)];
        Control(CtlAdd, c, e);
      } else {
        assert fd in channels && channels[fd] == c && index == kAdded;
        if objects[c].events == 0 {
          Control(CtlDel, c, e);
          objects := objects[c := objects[c].(index := kDeleted)];
        } else {
          Control(CtlMod, c, e);
        }
      }
    }

    /** `removeChannel`. */
    method RemoveInterest(c: nat, e: Env)
      requires Valid() && c in objects && FreshEnv(port.State(), e)
      requires objects[c].index != kNew && objects[c].events == 0
      modifies this, port
      ensures Valid() && RemoveChannel(old(State()), c, e) == Ok(State())
    {
      RemoveChannelKeeps(State(), c, e);
      Unlist(c, e);
    }

    method Unlist(c: nat, e: Env)
      requires port.Valid() && c in objects && FreshEnv(port.State(), e)
      requires Owns(objects, channels, c) && objects[c].index != kNew && objects[c].events == 0
      requires objects[c].index == kAdded || objects[c].index == kDeleted
      modifies this, port
      ensures RemoveChannel(old(State()), c, e) == Ok(State())
    {
      var index, fd := objects[c].index, objects[c].fd;
      channels := channels - {fd};
      if index == kAdded {
        Control(CtlDel, c, e);
      }
      objects := objects[c := objects[c].(index := kNew)];
    }

    method Fill(events: seq<Event>) returns (active: seq<nat>)
      requires FillActive(objects, channels, events).Ok?
      modifies this`objects
      ensures FillActive(old(objects), channels, events) == Ok((objects, active))
    {
      active := [];
      for i := 0 to |events|
        invariant FillActive(old(objects), channels, events[..i]) == Ok((objects, active))
      {
        FillPrefix(old(objects), channels, events, i + 1);
        assert events[..i + 1][..i] == events[..i];
        var c := events[i].user;
        objects := objects[c := objects[c].(revents := events[i].events)];
        active := active + [c];
      }
      assert events[..|events|] == events;
    }

    /** The part of `poll` after `epoll_wait` returned. */
    method HandOut(ghost p: Port, events: seq<Event>) returns (active: seq<nat>)
      requires port.State() == p && Deliver(State(), p, events).Ok?
      modifies this
      ensures Deliver(old(State()), p, events) == Ok((State(), active))
    {
      active := Fill(events);
      if |events| == capacity {
        capacity := capacity * 2;
      }
    }

    /** `poll`; `batch` is what the completion port hands back after the submission. */
    method PollPort(order: seq<Attention>, batch: seq<Completion>) returns (active: seq<nat>)
      requires Valid() && Enabled(State(), PollOnce(order, batch))
      modifies this, port
      ensures Valid() && Poll(old(State()), order, batch) == Ok((State(), active))
      ensures Deliverable(objects, channels, active)
    {
      PollKeeps(State(), order, batch);
      active := PollAgreed(order, batch);
    }

    method PollAgreed(order: seq<Attention>, batch: seq<Completion>) returns (active: seq<nat>)
      requires port.Valid() && Poll(State(), order, batch).Ok? && Iterates(port.State(), order)
      requires HandsBack(SubmitAll(port.State(), order).value, batch)
      modifies this, port
      ensures Poll(old(State()), order, batch) == Ok((State(), active))
    {
      port.SubmitAttention(order);
      var events := port.Wait(batch);
      active := HandOut(port.State(), events);
    }
  }

  lemma {:induction false} FillPrefix(objects: map<nat, Channel>, channels: map<int, nat>, events: seq<Event>, k: nat)
    requires k <= |events| && FillActive(objects, channels, events).Ok?
    ensures FillActive(objects, channels, events[..k]).Ok?
    decreases |events| - k
  {
    if k < |events| {
      FillPrefix(objects, channels, events, k + 1);
      assert events[..k + 1][..k] == events[..k];
    } else {
      assert events[..k] == events;
    }
  }
}
