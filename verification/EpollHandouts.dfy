/** How often one poll of `EPollPoller` can hand out the same channel. */
module EpollHandouts {
  import opened Epoll
  import opened EpollInvariants
  import opened EpollLeaks
  import opened EpollTable
  import opened EpollDuplicates
  import opened EpollPoller
  import Dispatch
  import EpollRuns

  // ---------------------------------------------------------------------------------------------
  // Events by user data

  function UsersOf(events: seq<Event>): seq<nat> {
    seq(|events|, i requires 0 <= i < |events| => events[i].user)
  }

  /** No other registered socket has `a`'s user data. */
  ghost predicate Sole(p: Port, a: Addr) {
    a in p.socks && forall b :: Registered(p, b) && b != a ==> p.socks[b].user != p.socks[a].user
  }

  lemma UsersAppend(evs: seq<Event>, ev: seq<Event>)
    ensures UsersOf(evs + ev) == UsersOf(evs) + UsersOf(ev)
  {}

  /** The events that carry `a`'s user data are those for `a`. */
  lemma {:induction false} MentionsAre(p: Port, batch: seq<Completion>, a: Addr)
    requires Inv(p) && HandsBack(p, batch) && Registered(p, a) && Sole(p, a)
    ensures WaitBatch(p, batch).Ok?
    ensures multiset(UsersOf(WaitBatch(p, batch).value.1))[p.socks[a].user] == EventsFor(p, batch, a)
  {
    hide Complete, Inv;
    if batch != [] {
      var n := |batch| - 1;
      BatchSplit(p, batch);
      WaitBatchKeeps(p, batch[..n]);
      WaitLater(p, batch[..n]);
      MentionsAre(p, batch[..n], a);
      var (q, evs) := WaitBatch(p, batch[..n]).value;
      CompleteKeeps(q, batch[n]);
      var ev := Complete(q, batch[n]).value.1;
      OneMention(p, q, batch[n], a);
      UsersAppend(evs, ev);
    }
  }

  lemma OneMention(p: Port, q: Port, c: Completion, a: Addr)
    requires Inv(p) && Inv(q) && Later(p, q) && Registered(p, a) && Sole(p, a)
    requires c.op in q.inflight && Complete(q, c).Ok?
    ensures var ev := Complete(q, c).value.1;
      multiset(UsersOf(ev))[p.socks[a].user] == if c.op in OpsOf(p.ops, a) then |ev| else 0
  {
    hide Complete;
    CompleteReports(q, c);
    var ev := Complete(q, c).value.1;
    if ev != [] { assert UsersOf(ev) == [q.socks[q.ops[c.op].sockData].user]; }
  }

  // ---------------------------------------------------------------------------------------------
  // Polls

  /** How many operations of the channel's socket are in flight. */
  function Pending(s: Poller, c: nat): nat {
    if Owns(s.objects, s.channels, c) then Polls(s.port, s.objects[c].fd) else 0
  }

  /** Its registration carries the channel, and no other does. */
  lemma RegistrationOf(s: Poller, c: nat)
    requires PollerInv(s) && c in s.objects && s.objects[c].fd in s.port.tree && Owns(s.objects, s.channels, c)
    ensures var a := s.port.tree[s.objects[c].fd];
      Registered(s.port, a) && s.port.socks[a].user == c && Sole(s.port, a)
  {
    var fd := s.objects[c].fd;
    var p, a := s.port, s.port.tree[s.objects[c].fd];
    assert fd in Users(p);
    forall b | Registered(p, b) && b != a ensures p.socks[b].user != c {
      assert p.socks[b].sock in Users(p);
    }
  }

  /** What submitting leaves as it was. */
  lemma SubmittedUsers(p: Port, order: seq<Attention>)
    requires Inv(p) && Iterates(p, order)
    ensures SubmitAll(p, order).Ok?
    ensures var q := SubmitAll(p, order).value;
      && q.tree == p.tree && q.socks.Keys == p.socks.Keys
      && forall a :: a in p.socks ==> q.socks[a].user == p.socks[a].user && q.socks[a].sock == p.socks[a].sock
  {
    SubmitAllKeeps(p, order);
    SubmittedEntries(p, order);
  }

  lemma {:induction false} SubmittedEntries(p: Port, order: seq<Attention>)
    requires SubmitEntries(p, order).Ok?
    ensures var q := SubmitEntries(p, order).value;
      && q.tree == p.tree && q.socks.Keys == p.socks.Keys
      && forall a :: a in p.socks ==> q.socks[a].user == p.socks[a].user && q.socks[a].sock == p.socks[a].sock
  {
    if order != [] { SubmittedEntries(p, order[..|order| - 1]); }
  }

  /** How often a poll hands the channel out. */
  function Handouts(s: Poller, order: seq<Attention>, batch: seq<Completion>, c: nat): nat {
    var r := Poll(s, order, batch);
    if r.Ok? then multiset(r.value.1)[c] else 0
  }

  /** A channel is handed out once for every event of its socket, and not without one. */
  lemma HandoutsAre(s: Poller, order: seq<Attention>, batch: seq<Completion>, c: nat)
    requires PollerInv(s) && Enabled(s, PollOnce(order, batch))
    ensures SubmitAll(s.port, order).Ok?
    ensures var q := SubmitAll(s.port, order).value;
      Handouts(s, order, batch, c) ==
        if Owns(s.objects, s.channels, c) && s.objects[c].fd in s.port.tree
        then EventsFor(q, batch, s.port.tree[s.objects[c].fd]) else 0
  {
    PortPolls(s.port, order, batch);
    SubmitAllKeeps(s.port, order);
    var q := SubmitAll(s.port, order).value;
    var (_, events) := WaitBatch(q, batch).value;
    PollUsers(s, order, batch, events);
    if Owns(s.objects, s.channels, c) && s.objects[c].fd in s.port.tree {
      var a := s.port.tree[s.objects[c].fd];
      RegistrationOf(s, c);
      SubmittedUsers(s.port, order);
      assert forall b :: Registered(q, b) <==> Registered(s.port, b);
      MentionsAre(q, batch, a);
    } else {
      NotMentioned(s, events, c);
    }
  }

  lemma DeliveredUsers(s: Poller, p: Port, events: seq<Event>)
    requires PollerInv(s) && Reports(Users(s.port), events)
    ensures var r := Deliver(s, p, events); r.Ok? ==> r.value.1 == UsersOf(events)
  {
    FillActiveDelivers(s.objects, s.channels, Users(s.port), events);
  }

  /** The active channels are the events' user data. */
  lemma PollUsers(s: Poller, order: seq<Attention>, batch: seq<Completion>, events: seq<Event>)
    requires PollerInv(s) && Enabled(s, PollOnce(order, batch)) && SubmitAll(s.port, order).Ok?
    requires var r := WaitBatch(SubmitAll(s.port, order).value, batch); r.Ok? && events == r.value.1
    requires Reports(Users(s.port), events)
    ensures Poll(s, order, batch).Ok? && Poll(s, order, batch).value.1 == UsersOf(events)
  {
    PollKeeps(s, order, batch);
    hide SubmitAll, WaitBatch, Deliver, PollerInv, Enabled;
    DeliveredUsers(s, WaitBatch(SubmitAll(s.port, order).value, batch).value.0, events);
  }

  lemma NotMentioned(s: Poller, events: seq<Event>, c: nat)
    requires PollerInv(s) && Reports(Users(s.port), events)
    requires !(Owns(s.objects, s.channels, c) && s.objects[c].fd in s.port.tree)
    ensures multiset(UsersOf(events))[c] == 0
  {
    assert forall i :: 0 <= i < |events| ==> events[i] in events;
  }

  /** Some batch makes a poll hand a channel out twice if and only if two operations of its socket are in flight
      before the poll. */
  lemma HandedOutTwiceExactly(s: Poller, order: seq<Attention>, c: nat)
    requires PollerInv(s) && NewestInFlight(s.port) && Iterates(s.port, order)
    ensures (exists batch :: Enabled(s, PollOnce(order, batch)) && Handouts(s, order, batch, c) >= 2)
       <==> Pending(s, c) >= 2
  {
    SubmitAllNewest(s.port, order);
    SubmitAllKeeps(s.port, order);
    var q := SubmitAll(s.port, order).value;
    forall batch | Enabled(s, PollOnce(order, batch)) && Handouts(s, order, batch, c) >= 2 ensures Pending(s, c) >= 2 {
      HandoutsBounded(s, order, batch, c);
    }
    if Pending(s, c) >= 2 {
      var fd := s.objects[c].fd;
      var a := s.port.tree[fd];
      RegistrationOf(s, c);
      SubmittedUsers(s.port, order);
      SubmitAllPolls(s.port, order, fd);
      var batch := TwoReport(q, a);
      HandoutsAre(s, order, batch, c);
      assert Enabled(s, PollOnce(order, batch)) && Handouts(s, order, batch, c) == 2;
    }
  }

  /** A poll hands a channel out no more often than there are operations of its socket, the one that the
      poll may submit first included. */
  lemma HandoutsBounded(s: Poller, order: seq<Attention>, batch: seq<Completion>, c: nat)
    requires PollerInv(s) && Enabled(s, PollOnce(order, batch))
    ensures Handouts(s, order, batch, c) <= if Pending(s, c) == 0 then 1 else Pending(s, c)
  {
    HandoutsAre(s, order, batch, c);
    if Owns(s.objects, s.channels, c) && s.objects[c].fd in s.port.tree {
      var q := SubmitAll(s.port, order).value;
      SubmittedUsers(s.port, order);
      SubmitAllPolls(s.port, order, s.objects[c].fd);
      EventsBounded(q, batch, s.port.tree[s.objects[c].fd]);
    }
  }

  // ---------------------------------------------------------------------------------------------
  // What brings a second operation about

  /** A change of interest that becomes an `EPOLL_CTL_MOD`. */
  predicate Rearms(s: Poller, x: Action, c: nat) {
    x.ChangeInterest? && x.c == c && c in s.objects && s.objects[c].index == kAdded && x.ev != 0
  }

  /** The call into the port that a change of interest makes. */
  function PortCall(s: Poller, c: nat, ev: bv32, e: Env): EpollRuns.Action
    requires c in s.objects
  {
    var ch := s.objects[c];
    if ch.index != kAdded then EpollRuns.Add(ch.fd, ev, c, e.setup, e.attempt)
    else if ev == 0 then EpollRuns.Del(ch.fd)
    else EpollRuns.Mod(ch.fd, ev, c, e.setup, e.attempt)
  }

  function ControlCall(op: Ctl, ch: Channel, c: nat, e: Env): EpollRuns.Action {
    match op
    case CtlAdd => EpollRuns.Add(ch.fd, ch.events, c, e.setup, e.attempt)
    case CtlMod => EpollRuns.Mod(ch.fd, ch.events, c, e.setup, e.attempt)
    case CtlDel => EpollRuns.Del(ch.fd)
  }

  lemma UpdateShape(s: Poller, op: Ctl, c: nat, e: Env)
    requires Update(s, op, c, e).Ok?
    ensures c in s.objects && EpollRuns.Step(s.port, ControlCall(op, s.objects[c], c, e)).Ok?
    ensures Update(s, op, c, e).value ==
      s.(port := EpollRuns.Step(s.port, ControlCall(op, s.objects[c], c, e)).value)
  {
    hide EpollAdd, EpollMod, EpollDel;
  }

  /** Everything but `c`'s own record stays. */
  ghost predicate OthersStay(s: Poller, t: Poller, c: nat) {
    && c in s.objects && t.objects.Keys == s.objects.Keys && t.objects[c].fd == s.objects[c].fd
    && forall d :: d in s.objects && d != c ==> t.objects[d] == s.objects[d]
  }

  lemma UpdateChannelShape(s: Poller, d: nat, e: Env)
    requires UpdateChannel(s, d, e).Ok? && ChannelsAgree(s.objects, s.channels)
    ensures d in s.objects && EpollRuns.Step(s.port, PortCall(s, d, s.objects[d].events, e)).Ok?
    ensures var t := UpdateChannel(s, d, e).value;
      && t.port == EpollRuns.Step(s.port, PortCall(s, d, s.objects[d].events, e)).value
      && t.channels == s.channels[s.objects[d].fd := d] && OthersStay(s, t, d)
  {
    hide Update, EpollRuns.Step;
    var ch := s.objects[d];
    if ch.index != kAdded {
      var s1 := s.(channels := s.channels[ch.fd := d], objects := s.objects[d := ch.(index := kAdded)]);
      assert ch.index != kNew ==> s1.channels == s.channels;
      UpdateShape(s1, CtlAdd, d, e);
    } else if ch.events == 0 {
      UpdateShape(s, CtlDel, d, e);
      assert s.channels[ch.fd := d] == s.channels;
    } else {
      UpdateShape(s, CtlMod, d, e);
      assert s.channels[ch.fd := d] == s.channels;
    }
  }

  lemma InterestAgrees(s: Poller, d: nat, ev: bv32)
    requires PollerInv(s) && d in s.objects
    ensures ChannelsAgree(s.objects[d := s.objects[d].(events := ev)], s.channels)
  {}

  lemma ChangeShape(s: Poller, d: nat, ev: bv32, e: Env)
    requires PollerInv(s) && Enabled(s, ChangeInterest(d, ev, e))
    ensures Step(s, ChangeInterest(d, ev, e)).Ok? && EpollRuns.Step(s.port, PortCall(s, d, ev, e)).Ok?
    ensures var t := Step(s, ChangeInterest(d, ev, e)).value.0;
      && t.port == EpollRuns.Step(s.port, PortCall(s, d, ev, e)).value
      && t.channels == s.channels[s.objects[d].fd := d] && OthersStay(s, t, d)
  {
    hide UpdateChannel, EpollRuns.Step, PollerInv, ChannelsAgree;
    ChangeKeeps(s, d, ev, e);
    InterestAgrees(s, d, ev);
    UpdateChannelShape(s.(objects := s.objects[d := s.objects[d].(events := ev)]), d, e);
  }

  /** A channel's descriptor is in the port's table for this channel only. */
  lemma OwnFd(s: Poller, d: nat, c: nat, ev: bv32, e: Env)
    requires PollerInv(s) && Enabled(s, ChangeInterest(d, ev, e))
    ensures c != d && Owns(s.objects, s.channels, c) ==> s.objects[c].fd != s.objects[d].fd
    ensures c == d ==> Polls(s.port, s.objects[c].fd) == Pending(s, c)
  {
    if s.objects[d].index == kNew {
      assert s.objects[d].fd !in Users(s.port);
      assert s.objects[d].fd !in s.port.tree;
    }
  }

  lemma ChangePending(s: Poller, d: nat, ev: bv32, e: Env, c: nat)
    requires PollerInv(s) && Enabled(s, ChangeInterest(d, ev, e)) && Pending(s, c) <= 1
    ensures Step(s, ChangeInterest(d, ev, e)).Ok?
    ensures Pending(Step(s, ChangeInterest(d, ev, e)).value.0, c) >= 2
       <==> Rearms(s, ChangeInterest(d, ev, e), c) && e.attempt.accepted && Pending(s, c) == 1
  {
    ChangeShape(s, d, ev, e);
    OwnFd(s, d, c, ev, e);
    var call := PortCall(s, d, ev, e);
    assert Inv(s.port) && EpollRuns.Enabled(s.port, call);
    hide Polls, PollerInv, EpollRuns.Step, Step, FreshSetup, FreshAttempt;
    if c in s.objects && (c == d || Owns(s.objects, s.channels, c)) {
      OnlyModPollsTwice(s.port, call, s.objects[c].fd);
    }
  }

  lemma RemoveShape(s: Poller, d: nat, e: Env)
    requires RemoveChannel(s, d, e).Ok? && EpollRuns.Step(s.port, EpollRuns.Del(s.objects[d].fd)).Ok?
    ensures var t, fd := RemoveChannel(s, d, e).value, s.objects[d].fd;
      && (t.port == s.port || t.port == EpollRuns.Step(s.port, EpollRuns.Del(fd)).value)
      && t.channels == s.channels - {fd} && OthersStay(s, t, d)
  {
    hide Update, EpollRuns.Step;
    if s.objects[d].index == kAdded {
      UpdateShape(s.(channels := s.channels - {s.objects[d].fd}), CtlDel, d, e);
    }
  }

  lemma DelRuns(s: Poller, sock: int)
    requires PollerInv(s)
    ensures Inv(s.port) && EpollRuns.Step(s.port, EpollRuns.Del(sock)).Ok?
  {
    DelKeeps(s.port, sock);
  }

  lemma DifferentFds(s: Poller, c: nat, d: nat)
    requires c != d && Owns(s.objects, s.channels, c) && Owns(s.objects, s.channels, d)
    ensures s.objects[c].fd != s.objects[d].fd
  {}

  lemma AddedOwns(s: Poller, d: nat)
    requires PollerInv(s) && d in s.objects && s.objects[d].index != kNew
    ensures Owns(s.objects, s.channels, d)
  {}

  lemma RemovePending(s: Poller, d: nat, e: Env, c: nat)
    requires PollerInv(s) && Enabled(s, Remove(d, e)) && Pending(s, c) <= 1
    ensures Step(s, Remove(d, e)).Ok? && Pending(Step(s, Remove(d, e)).value.0, c) <= 1
  {
    hide PollerInv, RemoveChannel, EpollRuns.Step, Polls;
    RemoveChannelKeeps(s, d, e);
    AddedOwns(s, d);
    DelRuns(s, s.objects[d].fd);
    RemoveShape(s, d, e);
    if c != d && Owns(s.objects, s.channels, c) {
      DifferentFds(s, c, d);
      OnlyModPollsTwice(s.port, EpollRuns.Del(s.objects[d].fd), s.objects[c].fd);
    }
  }

  lemma DeliverShape(s: Poller, p: Port, events: seq<Event>)
    requires PollerInv(s) && Reports(Users(s.port), events)
    ensures var r := Deliver(s, p, events);
      r.Ok? ==> r.value.0.port == p && r.value.0.channels == s.channels && SameButRevents(s.objects, r.value.0.objects)
  {
    FillActiveDelivers(s.objects, s.channels, Users(s.port), events);
  }

  lemma PollShape(s: Poller, order: seq<Attention>, batch: seq<Completion>)
    requires PollerInv(s) && Enabled(s, PollOnce(order, batch))
    ensures Step(s, PollOnce(order, batch)).Ok? && SubmitAll(s.port, order).Ok?
    ensures WaitBatch(SubmitAll(s.port, order).value, batch).Ok?
    ensures var t := Step(s, PollOnce(order, batch)).value.0;
      && t.port == WaitBatch(SubmitAll(s.port, order).value, batch).value.0
      && t.channels == s.channels && SameButRevents(s.objects, t.objects)
  {
    PollKeeps(s, order, batch);
    PortPolls(s.port, order, batch);
    hide SubmitAll, WaitBatch, Deliver, PollerInv, Enabled;
    var (p, events) := WaitBatch(SubmitAll(s.port, order).value, batch).value;
    DeliverShape(s, p, events);
  }

  lemma PollPending(s: Poller, order: seq<Attention>, batch: seq<Completion>, c: nat)
    requires PollerInv(s) && Enabled(s, PollOnce(order, batch)) && Pending(s, c) <= 1
    ensures Step(s, PollOnce(order, batch)).Ok? && Pending(Step(s, PollOnce(order, batch)).value.0, c) <= 1
  {
    PollShape(s, order, batch);
    if Owns(s.objects, s.channels, c) {
      var fd := s.objects[c].fd;
      SubmitAllKeeps(s.port, order);
      SubmitAllPolls(s.port, order, fd);
      WaitPolls(SubmitAll(s.port, order).value, batch, fd);
    }
  }

  /** The step that gives a channel's socket a second operation in flight is a change of its interest while it is
      added, to some interest, that AFD accepts; no step of any other channel is, and no poll. */
  lemma OnlyRearmingPollsTwice(s: Poller, x: Action, c: nat)
    requires PollerInv(s) && Enabled(s, x) && Pending(s, c) <= 1
    ensures Step(s, x).Ok?
    ensures Pending(Step(s, x).value.0, c) >= 2 <==> Rearms(s, x, c) && x.e.attempt.accepted && Pending(s, c) == 1
  {
    match x
    case Create(d, fd) => StepKeeps(s, x);
    case Destroy(d) => StepKeeps(s, x);
    case ChangeInterest(d, ev, e) => ChangePending(s, d, ev, e, c);
    case Remove(d, e) => RemovePending(s, d, e, c);
    case PollOnce(order, batch) => PollPending(s, order, batch, c);
  }

  ghost predicate NeverRearmed(s: Poller, xs: seq<Action>, c: nat)
    decreases |xs|
  {
    xs == [] || (!Rearms(s, xs[0], c) && (Step(s, xs[0]).Ok? ==> NeverRearmed(Step(s, xs[0]).value.0, xs[1..], c)))
  }

  lemma {:induction false} NeverRearmedPollsOnce(s: Poller, xs: seq<Action>, c: nat)
    requires PollerInv(s) && Legal(s, xs) && NeverRearmed(s, xs, c) && Pending(s, c) <= 1
    ensures Run(s, xs).Ok? && PollerInv(Run(s, xs).value) && Pending(Run(s, xs).value, c) <= 1
    decreases |xs|
  {
    hide PollerInv, Enabled, Step, Pending, Rearms;
    if xs != [] {
      StepKeeps(s, xs[0]);
      OnlyRearmingPollsTwice(s, xs[0], c);
      NeverRearmedPollsOnce(Step(s, xs[0]).value.0, xs[1..], c);
    }
  }

  /** A channel that only ever goes from no interest to some and back is handed out at most once by every poll,
      whatever happens to its own and to other descriptors. */
  lemma NeverRearmedHandedOutOnce(xs: seq<Action>, c: nat, order: seq<Attention>, batch: seq<Completion>)
    requires Legal(FreshPoller, xs) && NeverRearmed(FreshPoller, xs, c)
    ensures Run(FreshPoller, xs).Ok?
    ensures var s := Run(FreshPoller, xs).value;
      Enabled(s, PollOnce(order, batch)) ==> Handouts(s, order, batch, c) <= 1
  {
    NeverRearmedPollsOnce(FreshPoller, xs, c);
    var s := Run(FreshPoller, xs).value;
    if Enabled(s, PollOnce(order, batch)) { HandoutsBounded(s, order, batch, c); }
  }

  // ---------------------------------------------------------------------------------------------
  // Whole runs

  lemma PollNewest(s: Poller, order: seq<Attention>, batch: seq<Completion>)
    requires PollerInv(s) && NewestInFlight(s.port) && Enabled(s, PollOnce(order, batch))
    ensures Step(s, PollOnce(order, batch)).Ok? && NewestInFlight(Step(s, PollOnce(order, batch)).value.0.port)
  {
    hide SubmitAll, WaitBatch, NewestInFlight, Step;
    PollShape(s, order, batch);
    SubmitAllKeeps(s.port, order);
    SubmitAllNewest(s.port, order);
    WaitNewest(SubmitAll(s.port, order).value, batch);
  }

  lemma StepNewestInFlight(s: Poller, x: Action)
    requires PollerInv(s) && NewestInFlight(s.port) && Enabled(s, x)
    ensures Step(s, x).Ok? && NewestInFlight(Step(s, x).value.0.port)
  {
    hide NewestInFlight, EpollRuns.Step, PollerInv, UpdateChannel, RemoveChannel, Poll;
    StepKeeps(s, x);
    match x
    case Create(d, fd) =>
    case Destroy(d) =>
    case ChangeInterest(d, ev, e) =>
      DelRuns(s, 0);
      ChangeShape(s, d, ev, e);
      StepNewest(s.port, PortCall(s, d, ev, e));
    case Remove(d, e) =>
      DelRuns(s, s.objects[d].fd);
      RemoveShape(s, d, e);
      StepNewest(s.port, EpollRuns.Del(s.objects[d].fd));
    case PollOnce(order, batch) => PollNewest(s, order, batch);
  }

  lemma {:induction false} RunNewestInFlight(s: Poller, xs: seq<Action>)
    requires PollerInv(s) && NewestInFlight(s.port) && Legal(s, xs)
    ensures Run(s, xs).Ok? && PollerInv(Run(s, xs).value) && NewestInFlight(Run(s, xs).value.port)
    decreases |xs|
  {
    hide PollerInv, NewestInFlight, Enabled, Step;
    if xs != [] {
      StepKeeps(s, xs[0]);
      StepNewestInFlight(s, xs[0]);
      RunNewestInFlight(Step(s, xs[0]).value.0, xs[1..]);
    }
  }

  /** In every poller that any run leads to, the next poll can hand a channel out twice if and only if two
      operations of its socket are in flight. */
  lemma ReachedTwiceExactly(xs: seq<Action>, order: seq<Attention>, c: nat)
    requires Legal(FreshPoller, xs)
    ensures Run(FreshPoller, xs).Ok?
    ensures var s := Run(FreshPoller, xs).value;
      Iterates(s.port, order) ==>
        ((exists batch :: Enabled(s, PollOnce(order, batch)) && Handouts(s, order, batch, c) >= 2)
         <==> Pending(s, c) >= 2)
  {
    RunNewestInFlight(FreshPoller, xs);
    var s := Run(FreshPoller, xs).value;
    if Iterates(s.port, order) { HandedOutTwiceExactly(s, order, c); }
  }

  // ---------------------------------------------------------------------------------------------
  // Lists in which a channel comes again after another one

  lemma {:induction false} Occurs(active: seq<nat>, c: nat, i: nat)
    requires i < |active| && active[i] == c
    ensures multiset(active)[c] >= 1 && (c in active[..i] ==> multiset(active)[c] >= 2)
  {
    assert active == active[..i] + [c] + active[i + 1..];
  }

  /** The list of a poll. */
  function Active(s: Poller, order: seq<Attention>, batch: seq<Completion>): seq<nat> {
    var r := Poll(s, order, batch);
    if r.Ok? then r.value.1 else []
  }

  /** Some poll's list has a channel again after another one, as in `Dispatch.DanglesExactly`, if and only if one
      socket has two operations in flight and another one has one, which the poll may have submitted first. */
  lemma SandwichedExactly(s: Poller, order: seq<Attention>)
    requires PollerInv(s) && NewestInFlight(s.port) && Iterates(s.port, order)
    ensures SubmitAll(s.port, order).Ok?
    ensures (exists batch :: Enabled(s, PollOnce(order, batch)) && Dispatch.Sandwiched(Active(s, order, batch)))
       <==> exists c, d :: c != d && Pending(s, c) >= 2 && Submitted(s, order, d)
  {
    SubmitAllKeeps(s.port, order);
    forall batch | Enabled(s, PollOnce(order, batch)) && Dispatch.Sandwiched(Active(s, order, batch))
      ensures exists c, d :: c != d && Pending(s, c) >= 2 && Submitted(s, order, d)
    {
      SandwichedNeeds(s, order, batch);
    }
    if c, d :| c != d && Pending(s, c) >= 2 && Submitted(s, order, d) {
      var batch := SandwichBatch(s, order, c, d);
    }
  }

  /** After the submission of the poll, an operation of the channel's socket is in flight. */
  predicate Submitted(s: Poller, order: seq<Attention>, d: nat) {
    var r := SubmitAll(s.port, order);
    r.Ok? && Owns(s.objects, s.channels, d) && Polls(r.value, s.objects[d].fd) >= 1
  }

  lemma SandwichedNeeds(s: Poller, order: seq<Attention>, batch: seq<Completion>)
    requires PollerInv(s) && Enabled(s, PollOnce(order, batch)) && Dispatch.Sandwiched(Active(s, order, batch))
    ensures exists c, d :: c != d && Pending(s, c) >= 2 && Submitted(s, order, d)
  {
    var active := Active(s, order, batch);
    var j :| 0 <= j < |active| && Dispatch.OtherAfter(active, active[j], j);
    var k :| 0 <= k < j && active[k] != active[j] && active[j] in active[..k];
    var c, d := active[j], active[k];
    assert active[..j][..k] == active[..k];
    Occurs(active, c, j);
    Occurs(active, d, k);
    HandoutsBounded(s, order, batch, c);
    HandedOutIsSubmitted(s, order, batch, d);
  }

  lemma HandedOutIsSubmitted(s: Poller, order: seq<Attention>, batch: seq<Completion>, d: nat)
    requires PollerInv(s) && Enabled(s, PollOnce(order, batch)) && Handouts(s, order, batch, d) >= 1
    ensures Submitted(s, order, d)
  {
    HandoutsAre(s, order, batch, d);
    SubmittedUsers(s.port, order);
    EventsBounded(SubmitAll(s.port, order).value, batch, s.port.tree[s.objects[d].fd]);
  }

  lemma SubmittedRegistration(s: Poller, order: seq<Attention>, d: nat)
    requires PollerInv(s) && Iterates(s.port, order) && Submitted(s, order, d)
    ensures d in s.objects
    ensures var q, fd := SubmitAll(s.port, order).value, s.objects[d].fd;
      && fd in q.tree && Registered(q, q.tree[fd]) && InFlightOf(q, q.tree[fd]) != {}
      && q.socks[q.tree[fd]].user == d && |InFlightOf(q, q.tree[fd])| == Polls(q, fd)
  {
    SubmittedUsers(s.port, order);
    RegistrationOf(s, d);
  }

  lemma PendingIsSubmitted(s: Poller, order: seq<Attention>, c: nat)
    requires PollerInv(s) && Iterates(s.port, order) && Pending(s, c) >= 2
    ensures Submitted(s, order, c) && Polls(SubmitAll(s.port, order).value, s.objects[c].fd) >= 2
  {
    SubmitAllPolls(s.port, order, s.objects[c].fd);
  }

  lemma SandwichBatch(s: Poller, order: seq<Attention>, c: nat, d: nat) returns (batch: seq<Completion>)
    requires PollerInv(s) && NewestInFlight(s.port) && Iterates(s.port, order)
    requires c != d && Pending(s, c) >= 2 && Submitted(s, order, d)
    ensures Enabled(s, PollOnce(order, batch)) && Dispatch.Sandwiched(Active(s, order, batch))
  {
    hide PollerInv, SubmitAll, WaitBatch, Iterates, NewestInFlight, Submitted, Pending, Poll, Registered, InFlightOf,
      Polls, Inv, HandsBack;
    SubmittedPort(s, order);
    PendingIsSubmitted(s, order, c);
    SubmittedRegistration(s, order, c);
    SubmittedRegistration(s, order, d);
    var q := SubmitAll(s.port, order).value;
    batch := ThreeReport(q, q.tree[s.objects[c].fd], q.tree[s.objects[d].fd]);
    PortPolls(s.port, order, batch);
    var events := WaitBatch(q, batch).value.1;
    PollUsers(s, order, batch, events);
    assert UsersOf(events) == [c, d, c];
    ComesAgain(c, d);
  }

  lemma SubmittedPort(s: Poller, order: seq<Attention>)
    requires PollerInv(s) && NewestInFlight(s.port) && Iterates(s.port, order)
    ensures s.capacity >= 16 && Inv(s.port) && SubmitAll(s.port, order).Ok?
    ensures Inv(SubmitAll(s.port, order).value) && NewestInFlight(SubmitAll(s.port, order).value)
  {
    SubmitAllKeeps(s.port, order);
    SubmitAllNewest(s.port, order);
  }

  lemma ComesAgain(c: nat, d: nat)
    requires c != d
    ensures Dispatch.Sandwiched([c, d, c])
  {
    assert [c, d, c][..1] == [c] && Dispatch.OtherAfter([c, d, c], c, 2);
    assert [c, d, c][2] == c;
  }
}
