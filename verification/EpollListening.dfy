/** `EPollPoller` listens for what its channels want: the port's interest in a descriptor follows the interest of the
    channel it belongs to. */
module EpollListening {
  import opened Epoll
  import opened EpollInvariants
  import opened EpollTable
  import opened EpollAsked
  import opened EpollPoller
  import opened EpollHandouts
  import EpollRuns

  /** The interest of a registered descriptor is its channel's, with errors and hang-ups, EPOLLOUT aside. */
  ghost predicate Follows(s: Poller) {
    forall fd :: fd in s.port.tree ==>
      && fd in s.channels && s.channels[fd] in s.objects && s.port.tree[fd] in s.port.socks
      && SameButOut(WithErrors(s.objects[s.channels[fd]].events), Interest(s.port, fd))
  }

  lemma InTable(s: Poller, fd: int)
    requires PollerInv(s) && fd in s.port.tree
    ensures fd in s.channels && s.channels[fd] in s.objects && s.port.tree[fd] in s.port.socks
    ensures s.objects[s.channels[fd]].fd == fd && s.objects[s.channels[fd]].index == kAdded
  {
    assert fd in Users(s.port);
  }

  lemma ButOutTwice(a: bv32, b: bv32, c: bv32)
    requires SameButOut(a, b) && SameButOut(b, c)
    ensures SameButOut(a, c)
  {}

  /** The channel's own record after a change of interest. */
  lemma ChangedRecord(s: Poller, d: nat, ev: bv32, e: Env)
    requires PollerInv(s) && Enabled(s, ChangeInterest(d, ev, e)) && Step(s, ChangeInterest(d, ev, e)).Ok?
    ensures var t := Step(s, ChangeInterest(d, ev, e)).value.0;
      && d in t.objects && t.objects[d].events == ev && t.objects[d].fd == s.objects[d].fd
      && t.objects[d].index == if s.objects[d].index == kAdded && ev == 0 then kDeleted else kAdded
  {
    hide EpollAdd, EpollMod, EpollDel;
  }

  /** A descriptor follows its channel through a step of the port that does not ask about it. */
  lemma PortFollows(s: Poller, x: EpollRuns.Action, fd: int)
    requires PollerInv(s) && Follows(s) && EpollRuns.Enabled(s.port, x) && !Requests(s.port, x, fd)
    ensures EpollRuns.Step(s.port, x).Ok?
    ensures var q := EpollRuns.Step(s.port, x).value;
      fd in q.tree ==>
        && fd in s.port.tree && q.tree[fd] in q.socks && fd in s.channels && s.channels[fd] in s.objects
        && SameButOut(WithErrors(s.objects[s.channels[fd]].events), Interest(q, fd))
  {
    hide SameButOut, EpollRuns.Step;
    PortInv(s);
    StepAsks(s.port, x, fd);
    var q := EpollRuns.Step(s.port, x).value;
    if fd in q.tree {
      ButOutTwice(WithErrors(s.objects[s.channels[fd]].events), Interest(s.port, fd), Interest(q, fd));
    }
  }

  lemma PortInv(s: Poller)
    requires PollerInv(s)
    ensures Inv(s.port)
  {}

  lemma OwnFollows(s: Poller, d: nat, ev: bv32, e: Env)
    requires PollerInv(s) && Enabled(s, ChangeInterest(d, ev, e))
    ensures EpollRuns.Step(s.port, PortCall(s, d, ev, e)).Ok?
    ensures var q, fd := EpollRuns.Step(s.port, PortCall(s, d, ev, e)).value, s.objects[d].fd;
      fd in q.tree ==>
        && q.tree[fd] in q.socks && Interest(q, fd) == WithErrors(ev)
        && !(s.objects[d].index == kAdded && ev == 0)
  {
    hide EpollRuns.Step, PollerInv, Inv, WithErrors, Interest;
    PortInv(s);
    var call, fd := PortCall(s, d, ev, e), s.objects[d].fd;
    if s.objects[d].index != kAdded && fd in s.port.tree { NotInTable(s, d, ev, e); }
    StepAsks(s.port, call, fd);
    TreeLives(EpollRuns.Step(s.port, call).value);
    if call.Del? { DelForgets(s.port, fd); }
  }

  lemma NotInTable(s: Poller, d: nat, ev: bv32, e: Env)
    requires PollerInv(s) && Enabled(s, ChangeInterest(d, ev, e)) && s.objects[d].index != kAdded
    ensures s.objects[d].fd !in s.port.tree
  {
    if s.objects[d].fd in s.port.tree { InTable(s, s.objects[d].fd); }
  }

  lemma TreeLives(p: Port)
    requires Inv(p)
    ensures forall fd :: fd in p.tree ==> p.tree[fd] in p.socks
  {}

  lemma DelForgets(p: Port, fd: int)
    requires Inv(p)
    ensures EpollRuns.Step(p, EpollRuns.Del(fd)).Ok? && fd !in EpollRuns.Step(p, EpollRuns.Del(fd)).value.tree
  {
    DelKeeps(p, fd);
  }

  lemma ChangeFollows(s: Poller, d: nat, ev: bv32, e: Env)
    requires PollerInv(s) && Follows(s) && Enabled(s, ChangeInterest(d, ev, e))
    ensures Step(s, ChangeInterest(d, ev, e)).Ok? && Follows(Step(s, ChangeInterest(d, ev, e)).value.0)
  {
    hide PollerInv, EpollRuns.Step, Step, SameButOut, WithErrors, PortCall, Interest, FreshSetup, FreshAttempt;
    ChangeShape(s, d, ev, e);
    ChangedRecord(s, d, ev, e);
    OwnFollows(s, d, ev, e);
    CallAbout(s, d, ev, e);
    var t, own := Step(s, ChangeInterest(d, ev, e)).value.0, s.objects[d].fd;
    ButOutSame(WithErrors(ev));
    forall fd | fd in t.port.tree
      ensures fd in t.channels && t.channels[fd] in t.objects && t.port.tree[fd] in t.port.socks
        && SameButOut(WithErrors(t.objects[t.channels[fd]].events), Interest(t.port, fd))
    {
      if fd != own {
        PortFollows(s, PortCall(s, d, ev, e), fd);
        OtherChannel(s, d, fd);
      }
    }
  }

  lemma ButOutSame(a: bv32)
    ensures SameButOut(a, a)
  {}

  lemma CallAbout(s: Poller, d: nat, ev: bv32, e: Env)
    requires PollerInv(s) && Enabled(s, ChangeInterest(d, ev, e))
    ensures EpollRuns.Enabled(s.port, PortCall(s, d, ev, e))
    ensures forall fd :: fd != s.objects[d].fd ==> !Requests(s.port, PortCall(s, d, ev, e), fd)
  {}

  lemma OtherChannel(s: Poller, d: nat, fd: int)
    requires PollerInv(s) && d in s.objects && fd in s.port.tree && fd != s.objects[d].fd
    ensures fd in s.channels && s.channels[fd] != d
  {
    InTable(s, fd);
  }

  lemma RemoveFollows(s: Poller, d: nat, e: Env)
    requires PollerInv(s) && Follows(s) && Enabled(s, Remove(d, e))
    ensures Step(s, Remove(d, e)).Ok? && Follows(Step(s, Remove(d, e)).value.0)
  {
    hide PollerInv, EpollRuns.Step, RemoveChannel, SameButOut, WithErrors, Interest, Requests;
    RemoveChannelKeeps(s, d, e);
    DelRuns(s, s.objects[d].fd);
    RemoveShape(s, d, e);
    var t, own := Step(s, Remove(d, e)).value.0, s.objects[d].fd;
    forall fd | fd in t.port.tree
      ensures fd in t.channels && t.channels[fd] in t.objects && t.port.tree[fd] in t.port.socks
        && SameButOut(WithErrors(t.objects[t.channels[fd]].events), Interest(t.port, fd))
    {
      NotInPort(s, d, e, fd);
      NoRequest(s.port, own, fd);
      PortFollows(s, EpollRuns.Del(own), fd);
      OtherChannel(s, d, fd);
    }
  }

  lemma NoRequest(p: Port, sock: int, fd: int)
    ensures !Requests(p, EpollRuns.Del(sock), fd)
  {}

  lemma NotInPort(s: Poller, d: nat, e: Env, fd: int)
    requires PollerInv(s) && Enabled(s, Remove(d, e)) && Step(s, Remove(d, e)).Ok?
    requires fd in Step(s, Remove(d, e)).value.0.port.tree
    ensures fd != s.objects[d].fd && fd in s.port.tree
  {
    hide RemoveChannel, EpollRuns.Step;
    RemoveChannelKeeps(s, d, e);
    RemoveGone(s, d, e, fd);
  }

  lemma RemoveGone(s: Poller, d: nat, e: Env, fd: int)
    requires PollerInv(s) && Enabled(s, Remove(d, e)) && RemoveChannel(s, d, e).Ok?
    requires PollerInv(RemoveChannel(s, d, e).value) && s.objects[d].fd !in Users(RemoveChannel(s, d, e).value.port)
    requires fd in RemoveChannel(s, d, e).value.port.tree
    ensures fd != s.objects[d].fd && fd in s.port.tree
  {
    hide EpollRuns.Step;
    var t := RemoveChannel(s, d, e).value;
    assert fd in Users(t.port);
    var (q, ok) := EpollDel(s.port, s.objects[d].fd).value;
    DelTable(s.port, s.objects[d].fd, q, ok);
  }

  lemma PollFollows(s: Poller, order: seq<Attention>, batch: seq<Completion>)
    requires PollerInv(s) && Follows(s) && Enabled(s, PollOnce(order, batch))
    ensures Step(s, PollOnce(order, batch)).Ok? && Follows(Step(s, PollOnce(order, batch)).value.0)
  {
    hide PollerInv, SubmitAll, WaitBatch, Step, SameButOut, WithErrors;
    PollShape(s, order, batch);
    PortInv(s);
    SubmitAllKeeps(s.port, order);
    var q := SubmitAll(s.port, order).value;
    var t := Step(s, PollOnce(order, batch)).value.0;
    forall fd | fd in t.port.tree
      ensures fd in t.channels && t.channels[fd] in t.objects && t.port.tree[fd] in t.port.socks
        && SameButOut(WithErrors(t.objects[t.channels[fd]].events), Interest(t.port, fd))
    {
      SubmitAllAsks(s.port, order, fd);
      WaitAsks(q, batch, fd);
      KeptTwice(s.port, q, t.port, fd);
      ButOutTwice(WithErrors(s.objects[s.channels[fd]].events), Interest(s.port, fd), Interest(t.port, fd));
    }
  }

  lemma CreateFollows(s: Poller, c: nat, fd: int)
    requires PollerInv(s) && Follows(s) && c !in s.objects
    ensures Follows(s.(objects := s.objects[c := Channel(fd, 0, kNew, 0)]))
  {
    hide SameButOut, WithErrors, Inv;
  }

  lemma DestroyFollows(s: Poller, c: nat)
    requires PollerInv(s) && Follows(s) && c in s.objects && s.objects[c].index == kNew
    ensures Follows(s.(objects := s.objects - {c}))
  {
    hide SameButOut, WithErrors, Inv;
    forall fd | fd in s.port.tree ensures s.channels[fd] != c { InTable(s, fd); }
  }

  lemma StepFollows(s: Poller, x: Action)
    requires PollerInv(s) && Follows(s) && Enabled(s, x)
    ensures Step(s, x).Ok? && PollerInv(Step(s, x).value.0) && Follows(Step(s, x).value.0)
  {
    hide PollerInv, Follows, UpdateChannel, RemoveChannel, Poll;
    StepKeeps(s, x);
    match x
    case Create(c, fd) => CreateFollows(s, c, fd);
    case Destroy(c) => DestroyFollows(s, c);
    case ChangeInterest(d, ev, e) => ChangeFollows(s, d, ev, e);
    case Remove(d, e) => RemoveFollows(s, d, e);
    case PollOnce(order, batch) => PollFollows(s, order, batch);
  }

  /** After any run, a descriptor the port knows is registered for what its channel wants, EPOLLOUT aside. */
  lemma {:induction false} RunFollows(s: Poller, xs: seq<Action>)
    requires PollerInv(s) && Follows(s) && Legal(s, xs)
    ensures Run(s, xs).Ok? && PollerInv(Run(s, xs).value) && Follows(Run(s, xs).value)
    decreases |xs|
  {
    hide PollerInv, Follows, Step, Enabled;
    if xs != [] {
      StepFollows(s, xs[0]);
      RunFollows(Step(s, xs[0]).value.0, xs[1..]);
    }
  }

  /** Whether the port knows a socket after a call about it. */
  lemma CallRegisters(p: Port, call: EpollRuns.Action, sock: int)
    requires Inv(p) && EpollRuns.Enabled(p, call) && (call.Add? || call.Mod? || call.Del?) && call.sock == sock
    ensures EpollRuns.Step(p, call).Ok?
    ensures sock in EpollRuns.Step(p, call).value.tree <==>
      !call.Del? && (sock in p.tree || call.setup.usable)
  {
    hide AfdEvents;
    EpollRuns.StepKeeps(p, call);
  }

  /** A change of interest takes effect: the port knows the descriptor exactly when the channel is to be listened to
      and the system lets it be registered, for that interest, and an accepted poll asks for it at once. */
  lemma ChangeTakesEffect(s: Poller, d: nat, ev: bv32, e: Env)
    requires PollerInv(s) && Enabled(s, ChangeInterest(d, ev, e))
    ensures Step(s, ChangeInterest(d, ev, e)).Ok?
    ensures var t, fd := Step(s, ChangeInterest(d, ev, e)).value.0, s.objects[d].fd;
      && (fd in t.port.tree <==>
            !(s.objects[d].index == kAdded && ev == 0) && (fd in s.port.tree || e.setup.usable))
      && (fd in t.port.tree ==>
            && t.port.tree[fd] in t.port.socks && Interest(t.port, fd) == WithErrors(ev)
            && (e.attempt.accepted ==> PolledFor(t.port, fd, ev, e.attempt.op)))
  {
    hide PollerInv, EpollRuns.Step, Step, WithErrors, Interest, PolledFor, FreshSetup, FreshAttempt;
    PortInv(s);
    ChangeShape(s, d, ev, e);
    CallAbout(s, d, ev, e);
    OwnFollows(s, d, ev, e);
    var call, fd := PortCall(s, d, ev, e), s.objects[d].fd;
    CallRegisters(s.port, call, fd);
    if s.objects[d].index != kAdded { NotInTable(s, d, ev, e); }
    if !call.Del? && e.attempt.accepted { RequestIsPolled(s.port, call, fd); }
  }
}
