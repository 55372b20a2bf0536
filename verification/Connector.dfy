/** Connecting a client socket, with retries (net/connector.cpp), in the loop that runs it. */
module Connector {
  import opened Outcomes

  datatype State = Disconnected | Connecting | Connected

  /** What `connect()` on the new socket leaves behind, as the switch of the source tells it apart. */
  datatype Errno =
    | NoError | EINPROGRESS | WSAEINTR | EISCONN | WSAEWOULDBLOCK
    | EAGAIN | EADDRINUSE | EADDRNOTAVAIL | ECONNREFUSED | ENETUNREACH
    | EACCES | EPERM | EAFNOSUPPORT | EALREADY | EBADF | EFAULT | ENOTSOCK
    | Unexpected(code: int)

  predicate InProgress(e: Errno) {
    e.NoError? || e.EINPROGRESS? || e.WSAEINTR? || e.EISCONN? || e.WSAEWOULDBLOCK?
  }

  predicate WorthRetrying(e: Errno) {
    e.EAGAIN? || e.EADDRINUSE? || e.EADDRNOTAVAIL? || e.ECONNREFUSED? || e.ENETUNREACH?
  }

  datatype Functor = StopInLoop | ResetChannel

  const INIT_RETRY_DELAY_MS := 500
  const MAX_RETRY_DELAY_MS := 30000

  /** The connector and its loop. Sockets are named by the order of their creation, so a descriptor that
      the system hands out again is a new socket; `open` are those neither closed nor handed over. */
  datatype Conn = Conn(
    connect: bool,
    state: State,
    channel: Option<nat>,     // channel_, by its socket
    watched: bool,            // the channel is registered with the poller
    retryDelay: int,
    created: nat,
    open: set<nat>,
    closed: set<nat>,
    handed: set<nat>,
    delays: seq<int>,         // retry delays asked for since construction or the last restart
    newTimers: nat,           // retry timers set in this iteration of the loop
    timers: nat,              // retry timers set in earlier ones
    taken: seq<Functor>,      // the functors doPendingFunctors is going through
    queued: seq<Functor>,     // pendingFunctors_
    served: bool              // doPendingFunctors has begun in this iteration
  )

  const NewConnector := Conn(false, Disconnected, None, false, 500, 0, {}, {}, {}, [], 0, 0, [], [], false)

  function Min(a: int, b: int): int { if a <= b then a else b }

  // ---------------------------------------------------------------------------------------------
  // The methods

  function CloseSocket(c: Conn, sock: nat): Outcome<Conn> {
    if sock in c.open then Ok(c.(open := c.open - {sock}, closed := c.closed + {sock})) else Fault
  }

  /** `newConnectionCallback_(sockfd)`: the socket is the callback's from here on. */
  function HandOver(c: Conn, sock: nat): Outcome<Conn> {
    if sock in c.open then Ok(c.(open := c.open - {sock}, handed := c.handed + {sock})) else Fault
  }

  function Retry(c: Conn, sock: nat): Outcome<Conn> {
    var d :- CloseSocket(c, sock);
    Ok(if c.connect
       then d.(state := Disconnected, newTimers := c.newTimers + 1, delays := c.delays + [c.retryDelay],
               retryDelay := Min(c.retryDelay * 2, MAX_RETRY_DELAY_MS))
       else d.(state := Disconnected))
  }

  /** `connecting`. */
  function Watch(c: Conn, sock: nat): Outcome<Conn> {
    if c.channel.Some? then Fault else Ok(c.(state := Connecting, channel := Some(sock), watched := true))
  }

  /** `connect`. */
  function Attempt(c: Conn, e: Errno): Outcome<Conn> {
    var sock := c.created;
    var d := c.(created := sock + 1, open := c.open + {sock});
    if InProgress(e) then Watch(d, sock)
    else if WorthRetrying(e) then Retry(d, sock)
    else CloseSocket(d, sock)
  }

  function StartInLoopStep(c: Conn, e: Errno): Outcome<Conn> {
    if !c.state.Disconnected? then Fault
    else if c.connect then Attempt(c, e)
    else Ok(c)
  }

  function StartStep(c: Conn, e: Errno): Outcome<Conn> { StartInLoopStep(c.(connect := true), e) }

  function RestartStep(c: Conn, e: Errno): Outcome<Conn> {
    StartInLoopStep(c.(state := Disconnected, retryDelay := INIT_RETRY_DELAY_MS, connect := true, delays := []), e)
  }

  function StopStep(c: Conn): Conn { c.(connect := false, queued := c.queued + [StopInLoop]) }

  /** `removeAndResetChannel`: the channel leaves the poller now and dies later. */
  function Release(c: Conn): Outcome<(Conn, nat)> {
    if c.channel.None? || !c.watched then Fault
    else Ok((c.(watched := false, queued := c.queued + [ResetChannel]), c.channel.value))
  }

  function StopInLoopStep(c: Conn): Outcome<Conn> {
    if c.state.Connecting? then
      var (d, sock) :- Release(c.(state := Disconnected));
      Retry(d, sock)
    else Ok(c)
  }

  /** `resetChannel`: the destructor of a channel still registered would fail its assert. */
  function ResetChannelStep(c: Conn): Outcome<Conn> {
    if c.watched then Fault else Ok(c.(channel := None))
  }

  function HandleWrite(c: Conn, soError: bool, selfConnect: bool): Outcome<Conn> {
    if c.state.Connecting? then
      var (d, sock) :- Release(c);
      if soError || selfConnect then Retry(d, sock)
      else if d.connect then HandOver(d.(state := Connected), sock)
      else CloseSocket(d.(state := Connected), sock)
    else if c.state.Disconnected? then Ok(c)
    else Fault
  }

  function HandleError(c: Conn): Outcome<Conn> {
    if c.state.Connecting? then
      var (d, sock) :- Release(c);
      Retry(d, sock)
    else Ok(c)
  }

  /** One event on the channel: its bits, and what the socket then reports about itself. */
  datatype Event = Event(error: bool, write: bool, soError: bool, selfConnect: bool)

  /** `Channel::handleEventWithGuard`: the error callback comes first. */
  function HandleEvent(c: Conn, ev: Event): Outcome<Conn> {
    var d :- if ev.error then HandleError(c) else Ok(c);
    if ev.write then HandleWrite(d, ev.soError, ev.selfConnect) else Ok(d)
  }

  // ---------------------------------------------------------------------------------------------
  // Runs: one iteration of the loop serves timers and events, then the functors queued by then

  datatype Action =
    | Start(e: Errno)
    | Restart(e: Errno)
    | Stop
    | Dispatch(ev: Event)
    | TimerFires(e: Errno)
    | TakeFunctors
    | RunFunctor
    | NextIteration

  /** Calls, events and timers may come at any time, also an event for a channel that was released in the same
      iteration; its object lives until its reset. */
  predicate Possible(c: Conn, x: Action) {
    match x
    case Dispatch(_) => c.channel.Some? && !c.served
    case TimerFires(_) => c.timers > 0 && !c.served
    case TakeFunctors => !c.served && c.taken == []
    case RunFunctor => c.taken != []
    case NextIteration => c.served && c.taken == []
    case _ => true
  }

  function RunFirst(c: Conn): Outcome<Conn>
    requires c.taken != []
  {
    var d := c.(taken := c.taken[1..]);
    if c.taken[0].StopInLoop? then StopInLoopStep(d) else ResetChannelStep(d)
  }

  function Step(c: Conn, x: Action): Outcome<Conn>
    requires Possible(c, x)
  {
    match x
    case Start(e) => StartStep(c, e)
    case Restart(e) => RestartStep(c, e)
    case Stop => Ok(StopStep(c))
    case Dispatch(ev) => HandleEvent(c, ev)
    case TimerFires(e) => StartInLoopStep(c.(timers := c.timers - 1), e)
    case TakeFunctors => Ok(c.(taken := c.queued, queued := [], served := true))
    case RunFunctor => RunFirst(c)
    case NextIteration => Ok(c.(served := false, timers := c.timers + c.newTimers, newTimers := 0))
  }

  predicate Legal(c: Conn, xs: seq<Action>)
    decreases |xs|
  {
    xs == [] || (Possible(c, xs[0]) && (Step(c, xs[0]).Ok? ==> Legal(Step(c, xs[0]).value, xs[1..])))
  }

  function Run(c: Conn, xs: seq<Action>): Outcome<Conn>
    requires Legal(c, xs)
    decreases |xs|
  {
    if xs == [] then Ok(c)
    else
      var d :- Step(c, xs[0]);
      Run(d, xs[1..])
  }

  // ---------------------------------------------------------------------------------------------

  function Pow2(k: nat): nat { if k == 0 then 1 else 2 * Pow2(k - 1) }

  /** The delay before the retry that follows `k` others. */
  function Backoff(k: nat): int { Min(INIT_RETRY_DELAY_MS * Pow2(k), MAX_RETRY_DELAY_MS) }

  /** Every socket made so far is in exactly one of the three sets. */
  ghost predicate Accounted(c: Conn) {
    && (forall s: nat :: s in c.open || s in c.closed || s in c.handed <==> s < c.created)
    && c.open !! c.closed !! c.handed
  }

  /** The only open socket is the one the channel watches: the one being connected, or one forgotten. */
  ghost predicate OpenIsWatched(c: Conn) {
    && (c.watched ==> c.channel.Some? && !c.state.Connected?) && (c.state.Connecting? ==> c.watched)
    && c.open == if c.watched then {c.channel.value} else {}
  }

  ghost predicate BacksOff(c: Conn) {
    && c.retryDelay == Backoff(|c.delays|)
    && forall k :: 0 <= k < |c.delays| ==> c.delays[k] == Backoff(k)
  }

  /** What every step keeps in which no assert fails. */
  ghost predicate Inv(c: Conn) {
    Accounted(c) && OpenIsWatched(c) && BacksOff(c)
  }

  lemma BackoffDoubles(k: nat)
    ensures Min(Backoff(k) * 2, MAX_RETRY_DELAY_MS) == Backoff(k + 1)
  {}

  /** A retry of a socket that no channel watches. */
  lemma RetryKeeps(c: Conn, sock: nat)
    requires Accounted(c) && BacksOff(c) && sock in c.open && (c.watched ==> c.channel.Some?)
    requires c.open - {sock} == if c.watched then {c.channel.value} else {}
    ensures Retry(c, sock).Ok? && Inv(Retry(c, sock).value)
  {
    BackoffDoubles(|c.delays|);
  }

  lemma ReleaseShape(c: Conn)
    requires Inv(c) && c.state.Connecting?
    ensures Release(c).Ok?
    ensures var (d, sock) := Release(c).value;
      d == c.(watched := false, queued := c.queued + [ResetChannel]) && c.open == {sock}
  {}

  lemma HandleErrorKeeps(c: Conn)
    requires Inv(c)
    ensures HandleError(c).Ok? && Inv(HandleError(c).value)
    ensures HandleError(c).value.state == if c.state.Connecting? then Disconnected else c.state
  {
    if c.state.Connecting? {
      ReleaseShape(c);
      var (d, sock) := Release(c).value;
      RetryKeeps(d.(state := Disconnected), sock);
    }
  }

  lemma HandleWriteKeeps(c: Conn, soError: bool, selfConnect: bool)
    requires Inv(c)
    ensures HandleWrite(c, soError, selfConnect).Ok? <==> !c.state.Connected?
    ensures !c.state.Connected? ==> Inv(HandleWrite(c, soError, selfConnect).value)
  {
    if c.state.Connecting? {
      ReleaseShape(c);
      var (d, sock) := Release(c).value;
      if soError || selfConnect {
        RetryKeeps(d.(state := Disconnected), sock);
      }
    }
  }

  lemma HandleEventKeeps(c: Conn, ev: Event)
    requires Inv(c)
    ensures HandleEvent(c, ev).Ok? <==> !(c.state.Connected? && ev.write)
    ensures HandleEvent(c, ev).Ok? ==> Inv(HandleEvent(c, ev).value)
  {
    var d := if ev.error then HandleError(c).value else c;
    if ev.error { HandleErrorKeeps(c); }
    if ev.write { HandleWriteKeeps(d, ev.soError, ev.selfConnect); }
  }

  lemma StopInLoopKeeps(c: Conn)
    requires Inv(c)
    ensures StopInLoopStep(c).Ok? && Inv(StopInLoopStep(c).value)
  {
    if c.state.Connecting? {
      ReleaseShape(c);
      var (d, sock) := Release(c).value;
      RetryKeeps(d.(state := Disconnected), sock);
    }
  }

  lemma AttemptKeeps(c: Conn, e: Errno)
    requires Inv(c) && !c.state.Connecting?
    ensures Attempt(c, e).Ok? <==> c.channel.None? || !InProgress(e)
    ensures Attempt(c, e).Ok? ==> Inv(Attempt(c, e).value)
  {
    var sock := c.created;
    var d := c.(created := sock + 1, open := c.open + {sock});
    assert d.open - {sock} == c.open;
    if WorthRetrying(e) && !InProgress(e) {
      RetryKeeps(d, sock);
    }
  }

  // ---------------------------------------------------------------------------------------------
  // When asserts fail

  /** What can be looked at before a step to tell whether an assert will fail. */
  predicate Safe(c: Conn, x: Action)
    requires Possible(c, x)
  {
    match x
    case Start(e) => c.state.Disconnected? && (c.channel.None? || !InProgress(e))
    case Restart(e) => c.channel.None? || !InProgress(e)
    case Dispatch(ev) => !(c.state.Connected? && ev.write)
    case TimerFires(e) => c.state.Disconnected? && (!c.connect || c.channel.None? || !InProgress(e))
    case RunFunctor => c.taken[0].ResetChannel? ==> !c.watched
    case _ => true
  }

  lemma StartInLoopKeeps(c: Conn, e: Errno)
    requires Inv(c)
    ensures StartInLoopStep(c, e).Ok? <==>
      c.state.Disconnected? && (!c.connect || c.channel.None? || !InProgress(e))
    ensures StartInLoopStep(c, e).Ok? ==> Inv(StartInLoopStep(c, e).value)
  {
    if c.state.Disconnected? { AttemptKeeps(c, e); }
  }

  /** `restart` up to its attempt: a socket being connected becomes a forgotten one. */
  lemma ResumedKeeps(c: Conn)
    requires Inv(c)
    ensures Inv(c.(state := Disconnected, retryDelay := INIT_RETRY_DELAY_MS, connect := true, delays := []))
  {}

  /** A step passes its asserts if and only if it meets its guard, and then keeps the account. */
  lemma StepOkExactly(c: Conn, x: Action)
    requires Inv(c) && Possible(c, x)
    ensures Step(c, x).Ok? <==> Safe(c, x)
    ensures Step(c, x).Ok? ==> Inv(Step(c, x).value)
  {
    hide StartInLoopStep, HandleEvent, StopInLoopStep, InProgress;
    match x
    case Start(e) => StartInLoopKeeps(c.(connect := true), e);
    case Restart(e) =>
      ResumedKeeps(c);
      StartInLoopKeeps(
        c.(state := Disconnected, retryDelay := INIT_RETRY_DELAY_MS, connect := true, delays := []), e);
    case Dispatch(ev) => HandleEventKeeps(c, ev);
    case TimerFires(e) => StartInLoopKeeps(c.(timers := c.timers - 1), e);
    case RunFunctor => StopInLoopKeeps(c.(taken := c.taken[1..]));
    case _ =>
  }

  lemma {:induction false} RunKeeps(c: Conn, xs: seq<Action>)
    requires Inv(c) && Legal(c, xs) && Run(c, xs).Ok?
    ensures Inv(Run(c, xs).value) && Run(c, xs).value.created >= c.created
    decreases |xs|
  {
    if xs != [] {
      StepOkExactly(c, xs[0]);
      NamesGrow(c, xs[0]);
      RunKeeps(Step(c, xs[0]).value, xs[1..]);
    }
  }

  /** A name once given to a socket is not given again. */
  lemma NamesGrow(c: Conn, x: Action)
    requires Possible(c, x) && Step(c, x).Ok?
    ensures Step(c, x).value.created >= c.created
  {}

  /** In every run in which no assert fails, whoever starts, stops and restarts and however often a channel is
      handed out: every socket `connect` made is closed, handed over or still watched by the channel, and no two
      of these, and the k-th retry since the last restart waits min(500 * 2^k, 30000) milliseconds. */
  lemma SocketsAccountedFor(xs: seq<Action>)
    requires Legal(NewConnector, xs) && Run(NewConnector, xs).Ok?
    ensures var c := Run(NewConnector, xs).value;
      && (forall s: nat :: s in c.open || s in c.closed || s in c.handed <==> s < c.created)
      && c.open !! c.closed !! c.handed
      && c.open == (if c.watched && c.channel.Some? then {c.channel.value} else {})
      && forall k :: 0 <= k < |c.delays| ==> c.delays[k] == Min(500 * Pow2(k), 30000)
  {
    RunKeeps(NewConnector, xs);
  }

  /** An event that carries both error and writability is over with the error. */
  lemma ErrorSettlesTheEvent(c: Conn, ev: Event)
    requires Inv(c) && c.state.Connecting? && ev.error
    ensures HandleEvent(c, ev) == HandleError(c)
    ensures HandleEvent(c, ev).Ok? && HandleEvent(c, ev).value.handed == c.handed
    ensures HandleEvent(c, ev).value.closed == c.closed + {c.channel.value}
  {
    HandleErrorKeeps(c);
  }

  /** Why the connector depends on being handed out once per poll: a second event in the same iteration would fail
      an assert if and only if the first was a plain successful write event and the second one writes again. That
      no poll brings one is `ConnectorPolling.ConnectorRunsAreSafe`. */
  lemma SecondDelivery(c: Conn, ev: Event, again: Event)
    requires Inv(c) && c.state.Connecting?
    ensures HandleEvent(c, ev).Ok?
    ensures HandleEvent(HandleEvent(c, ev).value, again).Fault?
       <==> again.write && ev.write && !ev.error && !ev.soError && !ev.selfConnect
  {
    HandleEventKeeps(c, ev);
    if ev.error { HandleErrorKeeps(c); }
    HandleEventKeeps(HandleEvent(c, ev).value, again);
  }

  /** The socket being connected is handed over if and only if the event connects and `connect_` is still set; any other
      event that carries an error or writability closes it, and schedules a retry exactly when the connection
      failed and `connect_` is set. An event with neither changes nothing. */
  lemma SettlesExactly(c: Conn, ev: Event)
    requires Inv(c) && c.state.Connecting?
    ensures HandleEvent(c, ev).Ok?
    ensures var d, sock := HandleEvent(c, ev).value, c.channel.value;
      var settles, connects := ev.error || ev.write, ev.write && !ev.error && !ev.soError && !ev.selfConnect;
      && d.handed == (if connects && c.connect then c.handed + {sock} else c.handed)
      && d.closed == (if settles && !(connects && c.connect) then c.closed + {sock} else c.closed)
      && d.state == (if connects then Connected else if settles then Disconnected else Connecting)
      && d.newTimers == c.newTimers + (if settles && !connects && c.connect then 1 else 0)
      && d.queued == c.queued + (if settles then [ResetChannel] else []) && d.connect == c.connect
      && (!settles ==> d == c)
  {
    HandleEventKeeps(c, ev);
  }

  /** What an attempt makes of the answer of `connect`, for each errno. */
  lemma AttemptsExactly(c: Conn, e: Errno)
    requires Inv(c) && c.state.Disconnected? && c.channel.None? && c.connect
    ensures StartInLoopStep(c, e).Ok?
    ensures var d, sock := StartInLoopStep(c, e).value, c.created;
      var goes := e in {NoError, EINPROGRESS, WSAEINTR, EISCONN, WSAEWOULDBLOCK};
      var again := e in {EAGAIN, EADDRINUSE, EADDRNOTAVAIL, ECONNREFUSED, ENETUNREACH};
      && d.created == c.created + 1 && d.handed == c.handed
      && (goes ==> d.state.Connecting? && d.channel == Some(sock) && d.watched && d.closed == c.closed)
      && (!goes ==> d.state.Disconnected? && d.channel.None? && d.closed == c.closed + {sock})
      && d.newTimers == c.newTimers + (if again then 1 else 0)
      && d.delays == c.delays + (if again then [Backoff(|c.delays|)] else [])
  {}

  /** `restart` begins the delays anew; `start` goes on with them; without `connect_` nothing is attempted. */
  lemma RestartBeginsAnew(c: Conn)
    requires Inv(c) && c.state.Disconnected?
    ensures RestartStep(c, ECONNREFUSED).Ok? && RestartStep(c, ECONNREFUSED).value.delays == [500]
    ensures StartStep(c, ECONNREFUSED).Ok?
    ensures StartStep(c, ECONNREFUSED).value.delays == c.delays + [Backoff(|c.delays|)]
    ensures !c.connect ==> forall e :: StartInLoopStep(c, e) == Ok(c)
    ensures !StopStep(c).connect && StopStep(c).queued == c.queued + [StopInLoop]
  {
    assert Pow2(0) == 1;
  }

  /** A run in which nobody stops the connector, every attempt gets going and every event that comes connects. */
  predicate Undisturbed(x: Action) {
    match x
    case Start(e) => InProgress(e)
    case Restart(e) => InProgress(e)
    case Stop => false
    case Dispatch(ev) => !ev.error && !ev.soError && !ev.selfConnect
    case TimerFires(e) => InProgress(e)
    case _ => true
  }

  ghost predicate NothingClosed(c: Conn) {
    && Inv(c) && c.closed == {} && (c.watched ==> c.connect)
    && StopInLoop !in c.taken && StopInLoop !in c.queued
  }

  lemma StepHandsOver(c: Conn, x: Action)
    requires NothingClosed(c) && Possible(c, x) && Undisturbed(x) && Step(c, x).Ok?
    ensures NothingClosed(Step(c, x).value)
  {
    StepOkExactly(c, x);
    match x
    case Dispatch(ev) => if c.state.Connecting? { SettlesExactly(c, ev); }
    case _ =>
  }

  lemma {:induction false} RunHandsOver(c: Conn, xs: seq<Action>)
    requires NothingClosed(c) && Legal(c, xs) && Run(c, xs).Ok? && (forall x :: x in xs ==> Undisturbed(x))
    ensures NothingClosed(Run(c, xs).value)
    decreases |xs|
  {
    if xs != [] {
      StepHandsOver(c, xs[0]);
      RunHandsOver(Step(c, xs[0]).value, xs[1..]);
    }
  }

  /** Such a run hands over every socket it makes, but for the one it may still be connecting. */
  lemma EveryConnectionIsHandedOver(xs: seq<Action>)
    requires Legal(NewConnector, xs) && Run(NewConnector, xs).Ok? && forall x :: x in xs ==> Undisturbed(x)
    ensures var c := Run(NewConnector, xs).value;
      forall s: nat :: s < c.created ==> s in c.handed || (c.watched && c.channel == Some(s))
  {
    RunHandsOver(NewConnector, xs);
  }

  /** Starting while the old channel waits for its reset fails an assert exactly when the attempt gets going. */
  lemma StartBeforeReset(c: Conn, e: Errno)
    requires Inv(c) && c.state.Disconnected?
    ensures StartStep(c, e).Fault? <==> c.channel.Some? && InProgress(e)
  {}

  /** Restarting while connecting: when the attempt does not get going, no assert fails, but the socket that was
      being connected is forgotten. */
  lemma RestartForgetsSocket(c: Conn, e: Errno)
    requires Inv(c) && c.state.Connecting?
    ensures RestartStep(c, e).Fault? <==> InProgress(e)
    ensures RestartStep(c, e).Ok? ==> Forgotten(RestartStep(c, e).value) && RestartStep(c, e).value.open == c.open
  {
    StepOkExactly(c, Restart(e));
  }

  /** The poller watches a socket that the connector no longer connects. */
  ghost predicate Forgotten(c: Conn) { Inv(c) && c.watched && c.state.Disconnected? }

  lemma StaysForgotten(c: Conn, x: Action)
    requires Forgotten(c) && Possible(c, x) && Step(c, x).Ok?
    ensures var d := Step(c, x).value; Forgotten(d) && d.open == c.open && d.handed == c.handed
  {
    StepOkExactly(c, x);
  }

  /** From there on, whatever is called and whatever happens, either an assert fails or the forgotten socket
      stays open and no other is ever handed over. */
  lemma {:induction false} ForgottenForever(c: Conn, xs: seq<Action>)
    requires Forgotten(c) && Legal(c, xs) && Run(c, xs).Ok?
    ensures var d := Run(c, xs).value; Forgotten(d) && d.open == c.open && d.handed == c.handed
    decreases |xs|
  {
    if xs != [] {
      StaysForgotten(c, xs[0]);
      ForgottenForever(Step(c, xs[0]).value, xs[1..]);
    }
  }

  // ---------------------------------------------------------------------------------------------
  // A discipline under which none fails

  /** Nothing is left of an earlier attempt: no retry to come, no channel to die, no stop to be served. */
  predicate Idle(c: Conn) {
    c.newTimers + c.timers == 0 && c.channel.None? && StopInLoop !in c.taken && StopInLoop !in c.queued
  }

  /** Only an idle connector is started, and a channel is handed out once. */
  predicate Disciplined(c: Conn, x: Action) {
    match x
    case Start(_) => c.state.Disconnected? && Idle(c)
    case Restart(_) => Idle(c)
    case Dispatch(_) => c.watched
    case _ => true
  }

  ghost function Resets(c: Conn): nat { multiset(c.taken)[ResetChannel] + multiset(c.queued)[ResetChannel] }

  /** A released channel has exactly one reset ahead of it, and no retry timer comes before that. */
  ghost predicate ResetsDue(c: Conn) {
    && Resets(c) == (if c.channel.Some? && !c.state.Connecting? then 1 else 0)
    && (c.timers > 0 ==> Resets(c) == 0)
    && (c.newTimers > 0 && c.served ==> ResetChannel !in c.queued)
  }

  ghost predicate TimersFit(c: Conn) {
    && (StopInLoop in c.taken || StopInLoop in c.queued ==> !c.connect)
    && c.newTimers + c.timers <= 1
    && (c.newTimers + c.timers > 0 ==> c.state.Disconnected?)
    && (!c.served ==> c.taken == [])
    && (c.watched ==> c.state.Connecting?)
  }

  ghost predicate Orderly(c: Conn) { Inv(c) && ResetsDue(c) && TimersFit(c) }

  lemma DisciplinedIsSafe(c: Conn, x: Action)
    requires Orderly(c) && Possible(c, x) && Disciplined(c, x)
    ensures Safe(c, x)
  {
    if x.RunFunctor? && c.taken[0].ResetChannel? {
      assert Resets(c) > 0;
    }
  }

  lemma ReleaseOrderly(c: Conn, d: Conn, sock: nat)
    requires Orderly(c) && c.state.Connecting? && (c.served ==> !c.connect) && Release(c) == Ok((d, sock))
    ensures Retry(d.(state := Disconnected), sock).Ok?
    ensures var r := Retry(d.(state := Disconnected), sock).value; ResetsDue(r) && TimersFit(r)
    ensures ResetsDue(d.(state := Connected)) && TimersFit(d.(state := Connected))
  {
    assert Resets(d) == Resets(c) + 1;
  }

  lemma AttemptOrderly(c: Conn, e: Errno)
    requires Orderly(c) && c.state.Disconnected? && c.channel.None? && c.newTimers + c.timers == 0
    ensures Attempt(c, e).Ok? && ResetsDue(Attempt(c, e).value) && TimersFit(Attempt(c, e).value)
  {
    AttemptKeeps(c, e);
  }

  lemma EventOrderly(c: Conn, ev: Event)
    requires Orderly(c) && c.watched && !c.served
    ensures HandleEvent(c, ev).Ok? && ResetsDue(HandleEvent(c, ev).value) && TimersFit(HandleEvent(c, ev).value)
  {
    HandleEventKeeps(c, ev);
    var (d, sock) := Release(c).value;
    ReleaseOrderly(c, d, sock);
    if ev.error { HandleErrorKeeps(c); }
  }

  lemma FunctorOrderly(c: Conn)
    requires Orderly(c) && c.taken != []
    ensures RunFirst(c).Ok? && ResetsDue(RunFirst(c).value) && TimersFit(RunFirst(c).value)
  {
    var d := c.(taken := c.taken[1..]);
    assert c.taken == [c.taken[0]] + d.taken;
    assert multiset(c.taken) == multiset{c.taken[0]} + multiset(d.taken);
    if c.taken[0].StopInLoop? {
      assert Resets(d) == Resets(c);
      if d.state.Connecting? {
        StopInLoopKeeps(d);
        var (r, sock) := Release(d).value;
        ReleaseOrderly(d, r, sock);
      }
    } else {
      assert Resets(c) > 0;
    }
  }

  lemma StepOrderly(c: Conn, x: Action)
    requires Orderly(c) && Possible(c, x) && Disciplined(c, x)
    ensures Step(c, x).Ok? && Orderly(Step(c, x).value)
  {
    hide Attempt, HandleEvent, RunFirst, StartStep, StartInLoopStep, RestartStep, StopStep, Inv, ResetsDue, TimersFit;
    DisciplinedIsSafe(c, x);
    StepOkExactly(c, x);
    match x
    case Start(e) => StartOrderly(c, e);
    case Restart(e) => RestartOrderly(c, e);
    case Stop => StopOrderly(c);
    case Dispatch(ev) => DispatchOrderly(c, ev);
    case TimerFires(e) => TimerOrderly(c, e);
    case TakeFunctors => LoopOrderly(c, x);
    case RunFunctor => FunctorOrderly(c);
    case NextIteration => LoopOrderly(c, x);
  }

  lemma StartOrderly(c: Conn, e: Errno)
    requires Orderly(c) && Disciplined(c, Start(e))
    ensures StartStep(c, e).Ok? && ResetsDue(StartStep(c, e).value) && TimersFit(StartStep(c, e).value)
  {
    AttemptOrderly(c.(connect := true), e);
  }

  lemma StopOrderly(c: Conn)
    requires Orderly(c) && Disciplined(c, Stop)
    ensures ResetsDue(StopStep(c)) && TimersFit(StopStep(c))
  {
    assert Resets(StopStep(c)) == Resets(c);
  }

  lemma DispatchOrderly(c: Conn, ev: Event)
    requires Orderly(c) && Possible(c, Dispatch(ev)) && Disciplined(c, Dispatch(ev))
    ensures HandleEvent(c, ev).Ok? && ResetsDue(HandleEvent(c, ev).value) && TimersFit(HandleEvent(c, ev).value)
  {
    EventOrderly(c, ev);
  }

  lemma TimerOrderly(c: Conn, e: Errno)
    requires Orderly(c) && Possible(c, TimerFires(e))
    ensures var r := StartInLoopStep(c.(timers := c.timers - 1), e);
      r.Ok? && ResetsDue(r.value) && TimersFit(r.value)
  {
    if c.connect { AttemptOrderly(c.(timers := c.timers - 1), e); }
  }

  lemma LoopOrderly(c: Conn, x: Action)
    requires Orderly(c) && Possible(c, x) && (x.TakeFunctors? || x.NextIteration?)
    ensures Step(c, x).Ok? && ResetsDue(Step(c, x).value) && TimersFit(Step(c, x).value)
  {}

  lemma RestartOrderly(c: Conn, e: Errno)
    requires Orderly(c) && Disciplined(c, Restart(e))
    ensures RestartStep(c, e).Ok? && ResetsDue(RestartStep(c, e).value) && TimersFit(RestartStep(c, e).value)
  {
    AttemptOrderly(c.(state := Disconnected, retryDelay := INIT_RETRY_DELAY_MS, connect := true, delays := []), e);
  }

  predicate AllDisciplined(c: Conn, xs: seq<Action>)
    requires Legal(c, xs)
    decreases |xs|
  {
    xs == [] || (Disciplined(c, xs[0]) && (Step(c, xs[0]).Ok? ==> AllDisciplined(Step(c, xs[0]).value, xs[1..])))
  }

  /** In every run that starts and restarts only an idle connector and hands its channel out once per poll, no
      assert fails; in particular no retry timer overtakes the reset of the channel before it. */
  lemma {:induction false} DisciplinedRunsAreSafe(c: Conn, xs: seq<Action>)
    requires Orderly(c) && Legal(c, xs) && AllDisciplined(c, xs)
    ensures Run(c, xs).Ok? && Orderly(Run(c, xs).value)
    decreases |xs|
  {
    if xs != [] {
      StepOrderly(c, xs[0]);
      DisciplinedRunsAreSafe(Step(c, xs[0]).value, xs[1..]);
    }
  }

  /** A retry that was scheduled does connect again: in the next iteration its timer makes a new socket. */
  lemma RetryConnectsAgain(c: Conn, e: Errno)
    requires Orderly(c) && c.served && c.taken == [] && c.newTimers > 0 && c.connect && InProgress(e)
    ensures Step(c, NextIteration).Ok? && Possible(Step(c, NextIteration).value, TimerFires(e))
    ensures Step(Step(c, NextIteration).value, TimerFires(e)).Ok?
    ensures var d := Step(Step(c, NextIteration).value, TimerFires(e)).value;
      d.state.Connecting? && d.channel == Some(c.created) && d.newTimers + d.timers == 0
  {}

  /** `stop` and then `start` on an idle connector: the queued stop takes down the new attempt, schedules a
      retry all the same, and leaves a reset queued that this retry must not overtake. */
  lemma StopOvertakesStart(c: Conn, e: Errno, again: Errno)
    requires Inv(c) && c.state.Disconnected? && Idle(c) && InProgress(e)
    ensures StartStep(StopStep(c), e).Ok?
    ensures var d := StartStep(StopStep(c), e).value;
      && StopInLoopStep(d).Ok?
      && var t := StopInLoopStep(d).value;
        && c.created in t.closed && t.newTimers == 1 && ResetChannel in t.queued
        && (StartInLoopStep(t, again).Fault? <==> InProgress(again))
  {}
}

/** The connector as an object. The fields behind the first four stand for the system and the loop. A method that
    returns `ok` stops at the assert of the source when it returns false. */
module ConnectorClass {
  import opened Outcomes
  import opened Connector

  class Client {
    var connect: bool
    var state: State
    var channel: Option<nat>
    var retryDelayMs: int
    var created: nat
    var queued: seq<Functor>
    ghost var watched: bool
    ghost var open: set<nat>
    ghost var closed: set<nat>
    ghost var handed: set<nat>
    ghost var delays: seq<int>
    ghost var newTimers: nat
    ghost var timers: nat
    ghost var taken: seq<Functor>
    ghost var served: bool

    ghost function Model(): Conn
      reads this
    {
      Conn(connect, state, channel, watched, retryDelayMs, created, open, closed, handed, delays,
           newTimers, timers, taken, queued, served)
    }

    ghost predicate Valid()
      reads this
    {
      Inv(Model())
    }

    constructor ()
      ensures Valid() && Model() == NewConnector
    {
      connect, state, channel, retryDelayMs, created, queued := false, Disconnected, None, 500, 0, [];
      watched, open, closed, handed, delays := false, {}, {}, {}, [];
      newTimers, timers, taken, served := 0, 0, [], false;
    }

    method CloseSock(sock: nat)
      requires sock in open
      modifies this`open, this`closed
      ensures CloseSocket(old(Model()), sock) == Ok(Model())
    {
      open, closed := open - {sock}, closed + {sock};
    }

    /** `retry`. */
    method RetryLater(sock: nat)
      requires sock in open
      modifies this
      ensures Retry(old(Model()), sock) == Ok(Model())
    {
      CloseSock(sock);
      state := Disconnected;
      if connect {
        newTimers, delays := newTimers + 1, delays + [retryDelayMs];
        retryDelayMs := Min(retryDelayMs * 2, MAX_RETRY_DELAY_MS);
      }
    }

    /** `connecting`; false when `assert(!channel_)` fails. */
    method WatchSock(sock: nat) returns (ok: bool)
      modifies this`state, this`channel, this`watched
      ensures ok <==> Watch(old(Model()), sock).Ok?
      ensures ok ==> Watch(old(Model()), sock) == Ok(Model())
    {
      state := Connecting;
      if channel.Some? { return false; }
      channel, watched := Some(sock), true;
      return true;
    }

    /** `connect`; false when the assert of `connecting` fails. */
    method TryConnect(e: Errno) returns (ok: bool)
      modifies this
      ensures ok <==> Attempt(old(Model()), e).Ok?
      ensures ok ==> Attempt(old(Model()), e) == Ok(Model())
    {
      hide Watch, Retry, CloseSocket;
      var sock := created;
      created := created + 1;
      open := open + {sock};
      ok := true;
      if InProgress(e) {
        ok := WatchSock(sock);
      } else if WorthRetrying(e) {
        RetryLater(sock);
      } else {
        CloseSock(sock);
      }
    }

    /** `startInLoop`; false when `assert(state_ == kDisconnected)` or a later assert fails. */
    method BeginInLoop(e: Errno) returns (ok: bool)
      modifies this
      ensures ok <==> StartInLoopStep(old(Model()), e).Ok?
      ensures ok ==> StartInLoopStep(old(Model()), e) == Ok(Model())
    {
      if !state.Disconnected? { return false; }
      ok := true;
      if connect {
        ok := TryConnect(e);
      }
    }

    method Begin(e: Errno) returns (ok: bool)
      requires Valid()
      modifies this
      ensures ok <==> Safe(old(Model()), Action.Start(e))
      ensures ok ==> Valid() && Step(old(Model()), Action.Start(e)) == Ok(Model())
    {
      hide Inv, Safe, StartInLoopStep;
      StepOkExactly(Model(), Action.Start(e));
      connect := true;
      ok := BeginInLoop(e);
    }

    method BeginAgain(e: Errno) returns (ok: bool)
      requires Valid()
      modifies this
      ensures ok <==> Safe(old(Model()), Restart(e))
      ensures ok ==> Valid() && Step(old(Model()), Restart(e)) == Ok(Model())
    {
      hide Inv, Safe, StartInLoopStep;
      StepOkExactly(Model(), Restart(e));
      state := Disconnected;
      retryDelayMs, delays := INIT_RETRY_DELAY_MS, [];
      connect := true;
      ok := BeginInLoop(e);
    }

    method Halt()
      requires Valid()
      modifies this`connect, this`queued
      ensures Valid() && Step(old(Model()), Stop) == Ok(Model())
    {
      StepOkExactly(Model(), Stop);
      connect := false;
      queued := queued + [StopInLoop];
    }

    /** `removeAndResetChannel`. */
    method ReleaseChannel() returns (sock: nat)
      requires Release(Model()).Ok?
      modifies this`watched, this`queued
      ensures Release(old(Model())) == Ok((Model(), sock))
    {
      watched := false;
      sock := channel.value;
      queued := queued + [ResetChannel];
    }

    method HaltInLoop()
      requires Valid()
      modifies this
      ensures Valid() && StopInLoopStep(old(Model())) == Ok(Model())
    {
      StopInLoopKeeps(Model());
      if state.Connecting? {
        state := Disconnected;
        var sock := ReleaseChannel();
        RetryLater(sock);
      }
    }

    /** `handleWrite`; false when its assert fails. */
    method OnWritable(soError: bool, selfConnect: bool) returns (ok: bool)
      requires Valid()
      modifies this
      ensures ok <==> HandleWrite(old(Model()), soError, selfConnect).Ok?
      ensures ok ==> HandleWrite(old(Model()), soError, selfConnect) == Ok(Model())
    {
      HandleWriteKeeps(Model(), soError, selfConnect);
      if state.Connecting? {
        var sock := ReleaseChannel();
        if soError || selfConnect {
          RetryLater(sock);
        } else {
          state := Connected;
          if connect {
            open, handed := open - {sock}, handed + {sock};
          } else {
            CloseSock(sock);
          }
        }
        return true;
      } else {
        return state.Disconnected?;
      }
    }

    method OnError()
      requires Valid()
      modifies this
      ensures Valid() && HandleError(old(Model())) == Ok(Model())
    {
      HandleErrorKeeps(Model());
      if state.Connecting? {
        var sock := ReleaseChannel();
        RetryLater(sock);
      }
    }

    /** One event on the channel. */
    method OnEvent(ev: Event) returns (ok: bool)
      requires Valid()
      modifies this
      ensures ok <==> !(old(state).Connected? && ev.write)
      ensures ok ==> Valid() && HandleEvent(old(Model()), ev) == Ok(Model())
    {
      HandleEventKeeps(Model(), ev);
      if ev.error { OnError(); }
      ok := true;
      if ev.write { ok := OnWritable(ev.soError, ev.selfConnect); }
    }
  }
}
