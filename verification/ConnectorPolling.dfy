/** The connector in a loop that runs on `EPollPoller`, together with any other channels: what it asks of the poller,
    and what a poll hands back to it. */
module ConnectorPolling {
  import opened Outcomes
  import opened Epoll
  import opened EpollAsked
  import opened EpollHandouts
  import EpollListening
  import C = Connector
  import P = EpollPoller

  /** `channel` is the address of the connector's channel while it has one; `active` are the channels of the
      current poll that are still to be served. */
  datatype World = World(c: C.Conn, s: P.Poller, channel: nat, active: seq<nat>)

  const NewWorld := World(C.NewConnector, P.FreshPoller, 0, [])

  // ---------------------------------------------------------------------------------------------
  // What the connector does with its channel

  /** `new Channel` and `enableWriting`. */
  function Enter(s: P.Poller, c: nat, fd: int, e: P.Env): Outcome<P.Poller> {
    var (s1, _) :- P.Step(s, P.Create(c, fd));
    var (s2, _) :- P.Step(s1, P.ChangeInterest(c, EPOLLOUT, e));
    Ok(s2)
  }

  /** `disableAll` and `remove`. */
  function Leave(s: P.Poller, c: nat, e: P.Env): Outcome<P.Poller> {
    var (s1, _) :- P.Step(s, P.ChangeInterest(c, 0, e));
    var (s2, _) :- P.Step(s1, P.Remove(c, e));
    Ok(s2)
  }

  function Drop(s: P.Poller, c: nat): Outcome<P.Poller> {
    var (s1, _) :- P.Step(s, P.Destroy(c));
    Ok(s1)
  }

  /** The poller after a step of the connector: a channel that came, was released, or was reset. */
  function Follow(s: P.Poller, before: C.Conn, after: C.Conn, c: nat, fd: int, e: P.Env): Outcome<P.Poller> {
    if before.channel.None? && after.channel.Some? then Enter(s, c, fd, e)
    else if before.watched && !after.watched then Leave(s, c, e)
    else if before.channel.Some? && after.channel.None? then Drop(s, c)
    else Ok(s)
  }

  // ---------------------------------------------------------------------------------------------
  // Runs

  datatype Action =
    | Own(x: C.Action, channel: nat, fd: int, e: P.Env)    // a call, a timer or a functor of the connector
    | Other(y: P.Action)                                   // a call for another channel
    | Serve(ev: C.Event, e: P.Env)                         // the next channel of the list
    | NextPoll(order: seq<Attention>, batch: seq<Completion>)

  /** Only an idle connector is started; destruction is left to the functors, which run when the list is done. A
      new channel's address and descriptor are not in use, and other channels keep to the poller's rules. */
  ghost predicate Possible(w: World, a: Action) {
    match a
    case Own(x, c, fd, e) =>
      && C.Possible(w.c, x) && !x.Dispatch? && !x.NextIteration? && C.Disciplined(w.c, x)
      && (x.TakeFunctors? ==> w.active == [])
      && P.FreshEnv(w.s.port, e) && c !in w.s.objects && fd !in w.s.channels
    case Other(y) =>
      && P.Enabled(w.s, y) && !y.PollOnce? && (y.Destroy? ==> w.active == [])
      && (w.c.channel.Some? ==> !About(y, w.channel))
    case Serve(_, e) => w.active != [] && !w.c.served && P.FreshEnv(w.s.port, e)
    case NextPoll(order, batch) => C.Possible(w.c, C.NextIteration) && P.Enabled(w.s, P.PollOnce(order, batch))
  }

  predicate About(y: P.Action, c: nat) { !y.PollOnce? && y.c == c }

  /** A step of the connector on its channel `c`. */
  function OwnStep(w: World, x: C.Action, c: nat, fd: int, e: P.Env): Outcome<World>
    requires C.Possible(w.c, x)
  {
    var d :- C.Step(w.c, x);
    var s :- Follow(w.s, w.c, d, c, fd, e);
    Ok(w.(c := d, s := s, channel := c))
  }

  function Step(w: World, a: Action): Outcome<World>
    requires a.Own? ==> C.Possible(w.c, a.x)
    requires a.Serve? ==> w.active != [] && !w.c.served
    requires a.NextPoll? ==> C.Possible(w.c, C.NextIteration)
  {
    match a
    case Own(x, c, fd, e) => OwnStep(w, x, if w.c.channel.Some? then w.channel else c, fd, e)
    case Other(y) =>
      var (s, _) :- P.Step(w.s, y);
      Ok(w.(s := s))
    case Serve(ev, e) =>
      var v := w.(active := w.active[1..]);
      if w.c.channel.Some? && w.active[0] == w.channel then OwnStep(v, C.Dispatch(ev), w.channel, 0, e) else Ok(v)
    case NextPoll(order, batch) =>
      var d :- C.Step(w.c, C.NextIteration);
      var (s, active) :- P.Step(w.s, P.PollOnce(order, batch));
      Ok(w.(c := d, s := s, active := active))
  }

  // ---------------------------------------------------------------------------------------------
  // What every step keeps

  /** A watched channel is added for EPOLLOUT with at most one operation in flight, and comes at most once more in the
      list; a released one is removed and not in the list. */
  ghost predicate Linked(w: World) {
    w.c.channel.Some? ==>
      && w.channel in w.s.objects
      && (if w.c.watched
          then w.s.objects[w.channel].index == P.kAdded && w.s.objects[w.channel].events == EPOLLOUT
               && Pending(w.s, w.channel) <= 1 && multiset(w.active)[w.channel] <= 1
          else w.s.objects[w.channel].index == P.kNew && w.channel !in w.active)
  }

  ghost predicate ListLives(w: World) {
    (forall c :: c in w.active ==> c in w.s.objects) && (w.c.served ==> w.active == [])
  }

  ghost predicate Inv(w: World) {
    C.Orderly(w.c) && P.PollerInv(w.s) && Linked(w) && ListLives(w)
  }

  lemma EnterKeeps(s: P.Poller, c: nat, fd: int, e: P.Env)
    requires P.PollerInv(s) && c !in s.objects && fd !in s.channels && P.FreshEnv(s.port, e)
    ensures Enter(s, c, fd, e).Ok?
    ensures var t := Enter(s, c, fd, e).value;
      && P.PollerInv(t) && t.objects.Keys == s.objects.Keys + {c}
      && t.objects[c].index == P.kAdded && t.objects[c].events == EPOLLOUT && Pending(t, c) <= 1
  {
    hide P.PollerInv, P.UpdateChannel, Pending;
    P.StepKeeps(s, P.Create(c, fd));
    var s1 := P.Step(s, P.Create(c, fd)).value.0;
    NewIsIdle(s, s1, c);
    P.StepKeeps(s1, P.ChangeInterest(c, EPOLLOUT, e));
    ChangeShape(s1, c, EPOLLOUT, e);
    OnlyRearmingPollsTwice(s1, P.ChangeInterest(c, EPOLLOUT, e), c);
    Armed(s1, c, e);
  }

  lemma NewIsIdle(s: P.Poller, s1: P.Poller, c: nat)
    requires P.PollerInv(s) && c !in s.objects && s1.channels == s.channels
    ensures Pending(s1, c) == 0
  {}

  lemma Armed(s: P.Poller, c: nat, e: P.Env)
    requires c in s.objects && s.objects[c].index == P.kNew && P.Step(s, P.ChangeInterest(c, EPOLLOUT, e)).Ok?
    ensures var t := P.Step(s, P.ChangeInterest(c, EPOLLOUT, e)).value.0;
      c in t.objects && t.objects[c].index == P.kAdded && t.objects[c].events == EPOLLOUT
  {
    hide EpollAdd;
  }

  lemma LeaveKeeps(s: P.Poller, c: nat, e: P.Env)
    requires P.PollerInv(s) && c in s.objects && s.objects[c].index == P.kAdded && P.FreshEnv(s.port, e)
    ensures Leave(s, c, e).Ok?
    ensures var t := Leave(s, c, e).value;
      P.PollerInv(t) && t.objects.Keys == s.objects.Keys && t.objects[c].index == P.kNew
  {
    P.StepKeeps(s, P.ChangeInterest(c, 0, e));
    ChangeShape(s, c, 0, e);
    Disarmed(s, c, e);
    var s1 := P.Step(s, P.ChangeInterest(c, 0, e)).value.0;
    P.StepKeeps(s1, P.Remove(c, e));
    Removed(s1, c, e);
  }

  lemma Disarmed(s: P.Poller, c: nat, e: P.Env)
    requires P.PollerInv(s) && c in s.objects && s.objects[c].index == P.kAdded && P.FreshEnv(s.port, e)
    requires P.Step(s, P.ChangeInterest(c, 0, e)).Ok?
    ensures var t := P.Step(s, P.ChangeInterest(c, 0, e)).value.0;
      && c in t.objects && t.objects[c].index == P.kDeleted && t.objects[c].events == 0 && P.FreshEnv(t.port, e)
  {
    hide EpollMod, EpollAdd;
  }

  lemma Removed(s: P.Poller, c: nat, e: P.Env)
    requires P.Step(s, P.Remove(c, e)).Ok? && c in s.objects
    ensures var t := P.Step(s, P.Remove(c, e)).value.0;
      t.objects.Keys == s.objects.Keys && t.objects[c].index == P.kNew
  {}

  lemma DropKeeps(s: P.Poller, c: nat)
    requires P.PollerInv(s) && c in s.objects && s.objects[c].index == P.kNew
    ensures Drop(s, c).Ok? && P.PollerInv(Drop(s, c).value)
    ensures Drop(s, c).value.objects.Keys == s.objects.Keys - {c}
  {
    P.StepKeeps(s, P.Destroy(c));
  }

  /** A call for another channel leaves this one alone. */
  lemma OtherKeeps(s: P.Poller, y: P.Action, c: nat)
    requires P.PollerInv(s) && P.Enabled(s, y) && !y.PollOnce? && !About(y, c) && c in s.objects && Pending(s, c) <= 1
    ensures P.Step(s, y).Ok?
    ensures var t := P.Step(s, y).value.0;
      && P.PollerInv(t) && c in t.objects && Pending(t, c) <= 1
      && t.objects[c].index == s.objects[c].index && t.objects[c].events == s.objects[c].events
  {
    hide P.PollerInv, P.UpdateChannel, P.RemoveChannel, Pending;
    P.StepKeeps(s, y);
    OnlyRearmingPollsTwice(s, y, c);
    match y
    case Create(_, _) =>
    case Destroy(_) =>
    case ChangeInterest(d, ev, e) => ChangeShape(s, d, ev, e);
    case Remove(d, e) =>
      DelRuns(s, s.objects[d].fd);
      RemoveShape(s, d, e);
  }

  lemma OtherObjects(s: P.Poller, y: P.Action)
    requires P.PollerInv(s) && P.Enabled(s, y) && !y.PollOnce?
    ensures P.Step(s, y).Ok?
    ensures var t := P.Step(s, y).value.0;
      && P.PollerInv(t)
      && if y.Destroy? then t.objects.Keys == s.objects.Keys - {y.c} else s.objects.Keys <= t.objects.Keys
  {
    hide P.PollerInv, P.UpdateChannel, P.RemoveChannel;
    P.StepKeeps(s, y);
    match y
    case Create(_, _) =>
    case Destroy(_) =>
    case ChangeInterest(d, ev, e) => ChangeShape(s, d, ev, e);
    case Remove(d, e) =>
      DelRuns(s, s.objects[d].fd);
      RemoveShape(s, d, e);
  }

  lemma OtherStepKeeps(w: World, y: P.Action)
    requires Inv(w) && Possible(w, Other(y))
    ensures Step(w, Other(y)).Ok? && Inv(Step(w, Other(y)).value)
  {
    hide P.Step, C.Orderly, P.PollerInv, P.Enabled;
    OtherObjects(w.s, y);
    if w.c.channel.Some? {
      if w.s.objects[w.channel].index == P.kNew { PendingUnadded(w.s, w.channel); }
      OtherKeeps(w.s, y, w.channel);
    }
  }

  lemma PendingUnadded(s: P.Poller, c: nat)
    requires P.PollerInv(s) && c in s.objects && s.objects[c].index == P.kNew
    ensures Pending(s, c) == 0
  {}

  /** What a step of the connector can do to its channel. */
  lemma ChannelShape(c: C.Conn, x: C.Action)
    requires C.Orderly(c) && C.Possible(c, x) && C.Step(c, x).Ok? && C.Orderly(C.Step(c, x).value)
    requires C.Disciplined(c, x)
    ensures var d := C.Step(c, x).value;
      && (c.channel.None? && d.channel.Some? ==> d.watched)
      && (c.channel.Some? && d.channel.None? ==> !c.watched)
      && (c.channel.Some? && d.channel.Some? && d.watched ==> c.watched)
      && (c.channel.None? ==> !c.watched) && (d.channel.None? ==> !d.watched)
      && (d.served ==> c.served || x.TakeFunctors?)
      && (c.watched && !d.watched ==> x.Dispatch? || x.RunFunctor?)
      && (c.channel.Some? && d.channel.None? ==> x.RunFunctor?)
  {}

  /** A step of the connector, `active` being the list after it. */
  lemma OwnKeeps(w: World, x: C.Action, c: nat, fd: int, e: P.Env)
    requires C.Orderly(w.c) && P.PollerInv(w.s) && Linked(w) && ListLives(w)
    requires C.Possible(w.c, x) && C.Disciplined(w.c, x) && !x.NextIteration?
    requires x.TakeFunctors? ==> w.active == []
    requires x.RunFunctor? ==> w.active == []
    requires P.FreshEnv(w.s.port, e)
    requires if w.c.channel.Some? then c == w.channel else c !in w.s.objects && fd !in w.s.channels
    requires w.c.channel.Some? && w.c.watched && x.Dispatch? ==> c !in w.active
    ensures OwnStep(w, x, c, fd, e).Ok? && Inv(OwnStep(w, x, c, fd, e).value)
  {
    hide P.PollerInv, C.Orderly, Enter, Leave, Drop, Pending, C.Step;
    C.StepOrderly(w.c, x);
    ChannelShape(w.c, x);
    var d := C.Step(w.c, x).value;
    if w.c.channel.None? && d.channel.Some? {
      EnterKeeps(w.s, c, fd, e);
    } else if w.c.watched && !d.watched {
      LeaveKeeps(w.s, c, e);
    } else if w.c.channel.Some? && d.channel.None? {
      DropKeeps(w.s, c);
    }
  }

  lemma ServedOnce(active: seq<nat>, c: nat)
    requires active != [] && multiset(active)[c] <= 1
    ensures multiset(active[1..])[c] <= multiset(active)[c] && (active[0] == c ==> c !in active[1..])
  {
    assert active == [active[0]] + active[1..];
  }

  lemma ServeKeeps(w: World, ev: C.Event, e: P.Env)
    requires Inv(w) && Possible(w, Serve(ev, e))
    ensures Step(w, Serve(ev, e)).Ok? && Inv(Step(w, Serve(ev, e)).value)
  {
    hide P.PollerInv, C.Orderly, Pending, C.Step;
    var v := w.(active := w.active[1..]);
    if w.c.channel.Some? {
      assert w.c.watched ==> multiset(w.active)[w.channel] <= 1;
      if w.c.watched { ServedOnce(w.active, w.channel); }
      if w.active[0] == w.channel { OwnKeeps(v, C.Dispatch(ev), w.channel, 0, e); }
    }
  }

  /** What a poll hands out is alive, and the connector's channel is in it at most once. */
  lemma PollHandsOut(s: P.Poller, order: seq<Attention>, batch: seq<Completion>)
    requires P.PollerInv(s) && P.Enabled(s, P.PollOnce(order, batch))
    ensures P.Step(s, P.PollOnce(order, batch)).Ok?
    ensures var (t, active) := P.Step(s, P.PollOnce(order, batch)).value;
      && P.PollerInv(t) && t.objects.Keys == s.objects.Keys
      && (forall c :: c in active ==> c in t.objects && s.objects[c].index == P.kAdded)
      && forall c :: c in s.objects ==>
           t.objects[c].index == s.objects[c].index && t.objects[c].events == s.objects[c].events
  {
    hide P.Poll, P.PollerInv, P.Enabled;
    P.StepKeeps(s, P.PollOnce(order, batch));
    PollShape(s, order, batch);
  }

  lemma NextPollKeeps(w: World, order: seq<Attention>, batch: seq<Completion>)
    requires Inv(w) && Possible(w, NextPoll(order, batch))
    ensures Step(w, NextPoll(order, batch)).Ok? && Inv(Step(w, NextPoll(order, batch)).value)
  {
    hide P.PollerInv, P.Enabled, C.Orderly, Pending, P.Poll;
    C.StepOrderly(w.c, C.NextIteration);
    PollHandsOut(w.s, order, batch);
    if w.c.channel.Some? && w.c.watched {
      OnlyRearmingPollsTwice(w.s, P.PollOnce(order, batch), w.channel);
      HandoutsBounded(w.s, order, batch, w.channel);
    }
  }

  lemma StepKeeps(w: World, a: Action)
    requires Inv(w) && Possible(w, a)
    ensures Step(w, a).Ok? && Inv(Step(w, a).value)
  {
    match a
    case Own(x, c, fd, e) =>
      FunctorsComeLast(w.c, x);
      hide OwnStep;
      OwnKeeps(w, x, if w.c.channel.Some? then w.channel else c, fd, e);
    case Other(y) => OtherStepKeeps(w, y);
    case Serve(ev, e) => ServeKeeps(w, ev, e);
    case NextPoll(order, batch) => NextPollKeeps(w, order, batch);
  }

  lemma FunctorsComeLast(c: C.Conn, x: C.Action)
    requires C.Orderly(c) && C.Possible(c, x)
    ensures x.RunFunctor? ==> c.served
  {}

  ghost predicate Legal(w: World, xs: seq<Action>)
    decreases |xs|
  {
    xs == [] || (Possible(w, xs[0]) && (Step(w, xs[0]).Ok? ==> Legal(Step(w, xs[0]).value, xs[1..])))
  }

  ghost function Run(w: World, xs: seq<Action>): Outcome<World>
    requires Legal(w, xs)
    decreases |xs|
  {
    if xs == [] then Ok(w)
    else
      var v :- Step(w, xs[0]);
      Run(v, xs[1..])
  }

  lemma {:induction false} RunKeeps(w: World, xs: seq<Action>)
    requires Inv(w) && Legal(w, xs)
    ensures Run(w, xs).Ok? && Inv(Run(w, xs).value)
    decreases |xs|
  {
    hide Inv, Step;
    if xs != [] {
      StepKeeps(w, xs[0]);
      RunKeeps(Step(w, xs[0]).value, xs[1..]);
    }
  }

  // ---------------------------------------------------------------------------------------------
  // What the poller makes of it

  /** The port knows the descriptor if the system lets it, for EPOLLOUT, and an accepted poll asks for it at once. */
  ghost predicate Listens(s: P.Poller, c: nat, fd: int, e: P.Env) {
    && c in s.objects && s.objects[c].fd == fd && s.objects[c].events == EPOLLOUT
    && fd in s.channels && s.channels[fd] == c && (fd in s.port.tree <==> e.setup.usable)
    && (fd in s.port.tree ==>
          && s.port.tree[fd] in s.port.socks && Interest(s.port, fd) == WithErrors(EPOLLOUT)
          && (e.attempt.accepted ==> PolledFor(s.port, fd, EPOLLOUT, e.attempt.op)))
  }

  lemma EnterListens(s: P.Poller, c: nat, fd: int, e: P.Env)
    requires P.PollerInv(s) && c !in s.objects && fd !in s.channels && P.FreshEnv(s.port, e)
    ensures Enter(s, c, fd, e).Ok? && Listens(Enter(s, c, fd, e).value, c, fd, e)
  {
    hide P.PollerInv, P.UpdateChannel, WithErrors, PolledFor;
    P.StepKeeps(s, P.Create(c, fd));
    var s1 := P.Step(s, P.Create(c, fd)).value.0;
    if fd in s.port.tree { EpollListening.InTable(s, fd); }
    P.StepKeeps(s1, P.ChangeInterest(c, EPOLLOUT, e));
    ChangeShape(s1, c, EPOLLOUT, e);
    EpollListening.ChangedRecord(s1, c, EPOLLOUT, e);
    EpollListening.ChangeTakesEffect(s1, c, EPOLLOUT, e);
  }

  lemma LeaveForgets(s: P.Poller, c: nat, e: P.Env)
    requires P.PollerInv(s) && c in s.objects && s.objects[c].index == P.kAdded && P.FreshEnv(s.port, e)
    ensures Leave(s, c, e).Ok?
    ensures var t, fd := Leave(s, c, e).value, s.objects[c].fd; fd !in t.channels && fd !in t.port.tree
  {
    hide P.PollerInv, P.UpdateChannel, P.RemoveChannel;
    LeaveKeeps(s, c, e);
    P.StepKeeps(s, P.ChangeInterest(c, 0, e));
    Disarmed(s, c, e);
    EpollListening.ChangedRecord(s, c, 0, e);
    var s1 := P.Step(s, P.ChangeInterest(c, 0, e)).value.0;
    P.RemoveChannelKeeps(s1, c, e);
    var t := Leave(s, c, e).value;
    if s.objects[c].fd in t.port.tree { EpollListening.InTable(t, s.objects[c].fd); }
  }

  /** The poller follows each step of the connector: a channel that came is listened to, one that was released is
      in neither table, and one that was reset is gone. */
  lemma PollerFollows(w: World, x: C.Action, c: nat, fd: int, e: P.Env)
    requires Inv(w) && Possible(w, Own(x, c, fd, e))
    ensures Step(w, Own(x, c, fd, e)).Ok?
    ensures var v := Step(w, Own(x, c, fd, e)).value;
      && C.Step(w.c, x) == Ok(v.c) && v.active == w.active
      && (w.c.channel.None? && v.c.channel.Some? ==> v.channel == c && Listens(v.s, c, fd, e))
      && (w.c.watched && !v.c.watched ==> Released(w, v))
      && (w.c.channel.Some? && v.c.channel.None? ==> v.s.objects.Keys == w.s.objects.Keys - {w.channel})
  {
    hide P.PollerInv, C.Orderly, Enter, Leave, Drop, Pending, C.Step, Listens;
    StepKeeps(w, Own(x, c, fd, e));
    C.StepOrderly(w.c, x);
    ChannelShape(w.c, x);
    var d := C.Step(w.c, x).value;
    if w.c.channel.None? && d.channel.Some? {
      EnterListens(w.s, c, fd, e);
    } else if w.c.watched && !d.watched {
      LeaveForgets(w.s, w.channel, e);
    } else if w.c.channel.Some? && d.channel.None? {
      DropKeeps(w.s, w.channel);
    }
  }

  /** The channel's descriptor is in no table any more. */
  ghost predicate Released(w: World, v: World) {
    w.channel in w.s.objects
    && w.s.objects[w.channel].fd !in v.s.channels && w.s.objects[w.channel].fd !in v.s.port.tree
  }

  /** From the poll to the callback: when the channel of a connecting connector is served for an event that connects,
      its socket is handed over and the poller has forgotten it. */
  lemma ConnectionLeavesPoller(w: World, ev: C.Event, e: P.Env)
    requires Inv(w) && Possible(w, Serve(ev, e)) && w.c.state.Connecting? && w.c.connect && w.active[0] == w.channel
    requires ev.write && !ev.error && !ev.soError && !ev.selfConnect
    ensures w.c.channel.Some? && Step(w, Serve(ev, e)).Ok?
    ensures var v := Step(w, Serve(ev, e)).value;
      && v.c.handed == w.c.handed + {w.c.channel.value} && v.c.state.Connected? && v.active == w.active[1..]
      && Released(w, v) && w.channel !in v.active
  {
    hide P.PollerInv, Pending, Leave;
    ServeKeeps(w, ev, e);
    C.SettlesExactly(w.c, ev);
    ServedOnce(w.active, w.channel);
    LeaveForgets(w.s, w.channel, e);
  }

  /** A connector that is started and restarted only when idle, on `EPollPoller`, among channels that do what they
      like with descriptors and interests and operations that complete in any order and with any status: in
      every run no assert of connector or poller fails, and its channel is served at most once per poll. */
  lemma ConnectorRunsAreSafe(xs: seq<Action>)
    requires Legal(NewWorld, xs)
    ensures Run(NewWorld, xs).Ok?
    ensures var w := Run(NewWorld, xs).value;
      && (w.c.channel.Some? ==> multiset(w.active)[w.channel] <= if w.c.watched then 1 else 0)
      && (w.c.watched ==> w.channel in w.s.objects && w.s.objects[w.channel].events == EPOLLOUT)
  {
    RunKeeps(NewWorld, xs);
  }
}
