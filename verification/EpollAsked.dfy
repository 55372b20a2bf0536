/** The interest a registration keeps, and what AFD is asked for on its account. */
module EpollAsked {
  import opened Sizes
  import opened Epoll
  import opened EpollInvariants
  import opened EpollRuns
  import opened EpollBits
  import opened EpollLeaks
  import opened EpollDuplicates

  // ---------------------------------------------------------------------------------------------
  // One completion

  /** Of a registered socket, successful, current, and not of a socket closed locally: the socket is rearmed. */
  predicate Rearms(p: Port, c: Completion, a: Addr) {
    && Registered(p, a) && c.op in p.ops && p.ops[c.op].sockData == a && p.ops[c.op].generation >= p.socks[a].generation
    && c.success && CompletedEvents(c) & AFD_POLL_LOCAL_CLOSE == 0
  }

  ghost predicate InterestsStay(p: Port, q: Port, a: Addr) {
    forall b :: b in q.socks ==> b in p.socks && (b != a ==> q.socks[b].registered == p.socks[b].registered)
  }

  lemma CurrentInterest(p: Port, c: Completion, a: Addr)
    requires c.op in p.ops && p.ops[c.op].sockData == a && a in p.socks && p.socks[a].opCount >= 1
    requires p.ops[c.op].generation >= p.socks[a].generation
    ensures CompleteCurrent(p, c, a).Ok?
    ensures var q := CompleteCurrent(p, c, a).value.0;
      && InterestsStay(p, q, a)
      && (a in q.socks ==> q.socks[a].registered
                           == if Rearms(p, c, a) then WithoutEpollout(p.socks[a].registered) else p.socks[a].registered)
  {
    hide ReportedEvents, WithoutEpollout, CompletedEvents;
  }

  lemma CompleteInterest(p: Port, c: Completion)
    requires Inv(p) && c.op in p.inflight
    ensures Complete(p, c).Ok?
    ensures var q, a := Complete(p, c).value.0, p.ops[c.op].sockData;
      && InterestsStay(p, q, a)
      && (a in q.socks ==> q.socks[a].registered
                           == if Rearms(p, c, a) then WithoutEpollout(p.socks[a].registered) else p.socks[a].registered)
  {
    hide CompleteCurrent, CompletedEvents, WithoutEpollout;
    var a := p.ops[c.op].sockData;
    assert p.socks[a].opCount >= 1 by { SubsetSize({c.op}, OpsOf(p.ops, a)); }
    if p.ops[c.op].generation >= p.socks[a].generation {
      CurrentInterest(ResetGeneration(HandBack(p, c.op), a).value, c, a);
    }
  }

  /** The two interests agree in every bit but EPOLLOUT. */
  predicate SameButOut(before: bv32, after: bv32) { after & !EPOLLOUT == before & !EPOLLOUT }

  predicate WithoutOut(ev: bv32) { ev & EPOLLOUT == 0 }

  lemma MaskMeans(ev: bv32)
    ensures SameButOut(ev, WithoutEpollout(ev)) && WithoutOut(WithoutEpollout(ev)) && SameButOut(ev, ev)
  {}

  /** A completion clears EPOLLOUT, and no other bit, in the interest of the socket it rearms; no other interest
      changes. */
  lemma OnlyEpolloutIsDropped(p: Port, c: Completion, b: Addr)
    requires Inv(p) && c.op in p.inflight
    ensures Complete(p, c).Ok?
    ensures var q := Complete(p, c).value.0;
      b in q.socks ==>
        && b in p.socks && SameButOut(p.socks[b].registered, q.socks[b].registered)
        && (Rearms(p, c, b) ==> WithoutOut(q.socks[b].registered))
        && (!Rearms(p, c, b) ==> q.socks[b].registered == p.socks[b].registered)
  {
    hide Complete, WithoutEpollout, Rearms, SameButOut, WithoutOut;
    CompleteInterest(p, c);
    OwnOnly(p, c, b);
    if b in p.socks { MaskMeans(p.socks[b].registered); }
  }

  lemma OwnOnly(p: Port, c: Completion, b: Addr)
    ensures Rearms(p, c, b) ==> c.op in p.ops && b == p.ops[c.op].sockData
  {}

  // ---------------------------------------------------------------------------------------------
  // Every step

  function Interest(p: Port, sock: int): bv32
    requires sock in p.tree && p.tree[sock] in p.socks
  {
    p.socks[p.tree[sock]].registered
  }

  /** The step registers the socket, or modifies its registration. */
  predicate Requests(p: Port, x: Action, sock: int) {
    (x.Add? && x.sock == sock && sock !in p.tree) || (x.Mod? && x.sock == sock)
  }

  /** Errors and hang-ups belong to every interest. */
  function WithErrors(ev: bv32): bv32 { ev | EPOLLERR | EPOLLHUP }

  /** What may happen to the interest of a socket nobody asks about: EPOLLOUT may go. */
  ghost predicate Kept(p: Port, q: Port, sock: int) {
    NoDangling(p) && NoDangling(q) && (sock in q.tree ==>
      sock in p.tree && q.tree[sock] == p.tree[sock] && SameButOut(Interest(p, sock), Interest(q, sock)))
  }

  lemma AddAsks(p: Port, s: int, ev: bv32, user: nat, u: Setup, t: Attempt, sock: int)
    requires Inv(p) && FreshSetup(p, u) && FreshAttempt(p, t)
    ensures EpollAdd(p, s, ev, user, u, t).Ok?
    ensures var q := EpollAdd(p, s, ev, user, u, t).value.0;
      && Inv(q)
      && (sock in q.tree && s == sock && sock !in p.tree ==> Interest(q, sock) == WithErrors(ev))
      && (s != sock || sock in p.tree ==> Kept(p, q, sock))
  {
    hide SameButOut, AfdEvents;
    AddKeeps(p, s, ev, user, u, t);
    if sock in p.tree { MaskMeans(Interest(p, sock)); }
  }

  lemma ModAsks(p: Port, s: int, ev: bv32, user: nat, u: Setup, t: Attempt, sock: int)
    requires Inv(p) && FreshSetup(p, u) && FreshAttempt(p, t)
    ensures EpollMod(p, s, ev, user, u, t).Ok?
    ensures var q := EpollMod(p, s, ev, user, u, t).value.0;
      && Inv(q)
      && (sock in q.tree && s == sock ==> Interest(q, sock) == WithErrors(ev))
      && (s != sock ==> Kept(p, q, sock))
  {
    hide SameButOut, AfdEvents;
    ModKeeps(p, s, ev, user, u, t);
    if s !in p.tree { AddAsks(p, s, ev, user, u, t, sock); }
    if sock in p.tree { MaskMeans(Interest(p, sock)); }
  }

  lemma DelAsks(p: Port, s: int, sock: int)
    requires Inv(p)
    ensures EpollDel(p, s).Ok? && Kept(p, EpollDel(p, s).value.0, sock)
  {
    hide SameButOut;
    DelKeeps(p, s);
    if sock in p.tree { MaskMeans(Interest(p, sock)); }
  }

  lemma {:induction false} SubmitEntriesAsk(p: Port, order: seq<Attention>)
    requires SubmitEntries(p, order).Ok?
    ensures var q := SubmitEntries(p, order).value;
      && q.tree == p.tree && q.socks.Keys == p.socks.Keys
      && forall a :: a in p.socks ==> q.socks[a].registered == p.socks[a].registered
  {
    hide AfdEvents;
    if order != [] { SubmitEntriesAsk(p, order[..|order| - 1]); }
  }

  lemma SubmitAllAsks(p: Port, order: seq<Attention>, sock: int)
    requires Inv(p) && Iterates(p, order)
    ensures SubmitAll(p, order).Ok? && Kept(p, SubmitAll(p, order).value, sock)
    ensures sock in p.tree ==>
      sock in SubmitAll(p, order).value.tree && Interest(SubmitAll(p, order).value, sock) == Interest(p, sock)
  {
    hide SameButOut;
    SubmitAllKeeps(p, order);
    SubmitEntriesAsk(p, order);
    if sock in p.tree { MaskMeans(Interest(p, sock)); }
  }

  lemma KeptTwice(p: Port, q: Port, r: Port, sock: int)
    requires Kept(p, q, sock) && Kept(q, r, sock)
    ensures Kept(p, r, sock)
  {}

  lemma CompleteAsks(p: Port, c: Completion, sock: int)
    requires Inv(p) && c.op in p.inflight
    ensures Complete(p, c).Ok? && Kept(p, Complete(p, c).value.0, sock)
  {
    hide Complete, SameButOut, Rearms;
    CompleteKeeps(p, c);
    CompleteLater(p, c);
    var q := Complete(p, c).value.0;
    if sock in q.tree {
      assert Registered(q, q.tree[sock]);
      OnlyEpolloutIsDropped(p, c, q.tree[sock]);
    }
  }

  lemma {:induction false} WaitAsks(p: Port, batch: seq<Completion>, sock: int)
    requires Inv(p) && HandsBack(p, batch)
    ensures WaitBatch(p, batch).Ok? && Kept(p, WaitBatch(p, batch).value.0, sock)
  {
    hide Complete, SameButOut, Kept;
    if batch == [] {
      KeptSame(p, sock);
    } else {
      var n := |batch| - 1;
      BatchSplit(p, batch);
      WaitBatchKeeps(p, batch[..n]);
      WaitAsks(p, batch[..n], sock);
      var q := WaitBatch(p, batch[..n]).value.0;
      CompleteAsks(q, batch[n], sock);
      KeptTwice(p, q, Complete(q, batch[n]).value.0, sock);
    }
  }

  lemma KeptSame(p: Port, sock: int)
    requires Inv(p)
    ensures Kept(p, p, sock)
  {}

  /** A socket gets the interest that is asked for, with errors and hang-ups; every other step leaves it in every bit
      but EPOLLOUT. */
  lemma StepAsks(p: Port, x: Action, sock: int)
    requires Inv(p) && Enabled(p, x)
    ensures Step(p, x).Ok? && Inv(Step(p, x).value)
    ensures var q := Step(p, x).value;
      sock in q.tree ==>
        if Requests(p, x, sock) then Interest(q, sock) == WithErrors(x.ev)
        else sock in p.tree && SameButOut(Interest(p, sock), Interest(q, sock))
  {
    StepKeeps(p, x);
    hide Inv, SameButOut, EpollAdd, EpollMod, EpollDel, SubmitAll, WaitBatch, Iterates, HandsBack, WithErrors;
    match x
    case Add(s, ev, user, u, t) => AddAsks(p, s, ev, user, u, t, sock);
    case Mod(s, ev, user, u, t) => ModAsks(p, s, ev, user, u, t, sock);
    case Del(s) => DelAsks(p, s, sock);
    case Submit(order) => SubmitAllAsks(p, order, sock);
    case Wait(batch) => WaitAsks(p, batch, sock);
  }

  // ---------------------------------------------------------------------------------------------
  // Whole runs

  /** What is asked for by now, if it was `ev` before the step. */
  function NowAsked(p: Port, x: Action, sock: int, ev: bv32): bv32 {
    if Requests(p, x, sock) then WithErrors(x.ev) else ev
  }

  /** The interest last asked for, `ev` being what was asked for before the run. */
  function LastAsked(p: Port, xs: seq<Action>, sock: int, ev: bv32): bv32
    decreases |xs|
  {
    if xs == [] || Step(p, xs[0]).Fault? then ev
    else LastAsked(Step(p, xs[0]).value, xs[1..], sock, NowAsked(p, xs[0], sock, ev))
  }

  lemma StepAsksOn(p: Port, x: Action, sock: int, ev: bv32)
    requires Inv(p) && Enabled(p, x) && (sock in p.tree ==> SameButOut(ev, Interest(p, sock)))
    ensures Step(p, x).Ok? && Inv(Step(p, x).value)
    ensures sock in Step(p, x).value.tree ==>
      SameButOut(NowAsked(p, x, sock, ev), Interest(Step(p, x).value, sock))
  {
    hide Step, Enabled, WithErrors;
    StepAsks(p, x, sock);
  }

  /** In every run, whatever completes in which order with which status, a registered socket keeps the interest last
      asked for, except that EPOLLOUT may be gone. */
  lemma {:induction false} RunAsks(p: Port, xs: seq<Action>, sock: int, ev: bv32)
    requires Inv(p) && Legal(p, xs) && (sock in p.tree ==> SameButOut(ev, Interest(p, sock)))
    ensures Run(p, xs).Ok? && Inv(Run(p, xs).value)
    ensures sock in Run(p, xs).value.tree ==>
      SameButOut(LastAsked(p, xs, sock, ev), Interest(Run(p, xs).value, sock))
    decreases |xs|
  {
    hide Step, Enabled, NowAsked, SameButOut;
    if xs != [] {
      StepAsksOn(p, xs[0], sock, ev);
      RunAsks(Step(p, xs[0]).value, xs[1..], sock, NowAsked(p, xs[0], sock, ev));
    }
  }

  /** A submission that AFD accepts asks for what the interest asks for: data and connections to accept for a read
      interest, room to write and the end of connecting for a write interest, and the four conditions always. */
  lemma SubmissionAsks(p: Port, a: Addr, t: Attempt)
    requires a in p.socks && t.accepted
    ensures SubmitOp(p, a, t).Ok? && t.op in SubmitOp(p, a, t).value.0.inflight
    ensures t.op in SubmitOp(p, a, t).value.0.ops
    ensures AsksFor(p.socks[a].registered, SubmitOp(p, a, t).value.0.ops[t.op].afdEvents)
  {
    AskedBits(p.socks[a].registered);
    hide AsksFor, AfdEvents;
  }

  /** The new operation of an accepted request. */
  ghost predicate PolledFor(q: Port, sock: int, ev: bv32, o: Addr) {
    sock in q.tree ==>
      o in InFlightOf(q, q.tree[sock]) && AsksFor(WithErrors(ev), q.ops[o].afdEvents)
  }

  lemma AddIsPolled(p: Port, sock: int, ev: bv32, user: nat, u: Setup, t: Attempt)
    requires FreshSetup(p, u) && FreshAttempt(p, t) && t.accepted && sock !in p.tree
    ensures EpollAdd(p, sock, ev, user, u, t).Ok?
    ensures PolledFor(EpollAdd(p, sock, ev, user, u, t).value.0, sock, ev, t.op)
  {
    AskedBits(WithErrors(ev));
    hide AsksFor, AfdEvents;
  }

  lemma ModIsPolled(p: Port, sock: int, ev: bv32, user: nat, u: Setup, t: Attempt)
    requires NoDangling(p) && FreshSetup(p, u) && FreshAttempt(p, t) && t.accepted
    ensures EpollMod(p, sock, ev, user, u, t).Ok?
    ensures PolledFor(EpollMod(p, sock, ev, user, u, t).value.0, sock, ev, t.op)
  {
    hide AsksFor, AfdEvents;
    AskedBits(WithErrors(ev));
    if sock !in p.tree { AddIsPolled(p, sock, ev, user, u, t); }
  }

  /** An accepted request is polled at once, for what it asks. */
  lemma RequestIsPolled(p: Port, x: Action, sock: int)
    requires Inv(p) && Enabled(p, x) && Requests(p, x, sock) && x.attempt.accepted
    ensures Step(p, x).Ok? && PolledFor(Step(p, x).value, sock, x.ev, x.attempt.op)
  {
    hide EpollAdd, EpollMod, PolledFor;
    match x
    case Add(_, ev, user, u, t) => AddIsPolled(p, sock, ev, user, u, t);
    case Mod(_, ev, user, u, t) => ModIsPolled(p, sock, ev, user, u, t);
  }

  /** A socket whose last request had EPOLLIN asks AFD for data with every submission, after any run. */
  lemma StillAsksToReceive(xs: seq<Action>, sock: int, ev: bv32, t: Attempt)
    requires Legal(EmptyPort, xs) && LastAsked(EmptyPort, xs, sock, ev) & EPOLLIN != 0 && t.accepted
    ensures Run(EmptyPort, xs).Ok?
    ensures var p := Run(EmptyPort, xs).value;
      sock in p.tree ==>
        && p.tree[sock] in p.socks && SubmitOp(p, p.tree[sock], t).Ok?
        && t.op in SubmitOp(p, p.tree[sock], t).value.0.ops
        && SubmitOp(p, p.tree[sock], t).value.0.ops[t.op].afdEvents & AFD_POLL_RECEIVE != 0
  {
    RunAsks(EmptyPort, xs, sock, ev);
    var p := Run(EmptyPort, xs).value;
    if sock in p.tree {
      SubmissionAsks(p, p.tree[sock], t);
      ReceiveAsked(LastAsked(EmptyPort, xs, sock, ev), Interest(p, sock),
        SubmitOp(p, p.tree[sock], t).value.0.ops[t.op].afdEvents);
    }
  }

  lemma ReceiveAsked(asked: bv32, interest: bv32, afd: bv32)
    requires SameButOut(asked, interest) && asked & EPOLLIN != 0 && AsksFor(interest, afd)
    ensures afd & AFD_POLL_RECEIVE != 0
  {}

  // ---------------------------------------------------------------------------------------------
  // Events

  lemma CurrentEvents(p: Port, c: Completion, a: Addr)
    requires c.op in p.ops && p.ops[c.op].sockData == a && a in p.socks && p.socks[a].opCount >= 1
    requires p.ops[c.op].generation >= p.socks[a].generation
    ensures CompleteCurrent(p, c, a).Ok?
    ensures CompleteCurrent(p, c, a).value.1 ==
      if Registered(p, a) && !c.success then [Event(p.socks[a].user, EPOLLERR)]
      else if Rearms(p, c, a) && ReportedEvents(CompletedEvents(c)) != 0
        then [Event(p.socks[a].user, ReportedEvents(CompletedEvents(c)))]
      else []
  {
    hide ReportedEvents, CompletedEvents, WithoutEpollout;
  }

  /** What a completion reports: an error for a registered socket whose current poll failed, the translated bits for
      one that is rearmed, unless there are none, and nothing in every other case. A completion without handles
      has no bits. */
  lemma CompletionEvents(p: Port, c: Completion)
    requires Inv(p) && c.op in p.inflight
    ensures Complete(p, c).Ok?
    ensures var a, events := p.ops[c.op].sockData, Complete(p, c).value.1;
      var bits := ReportedEvents(if c.handles == 0 then 0 else c.events);
      var current := Registered(p, a) && p.ops[c.op].generation >= p.socks[a].generation;
      && (current && !c.success ==> events == [Event(p.socks[a].user, EPOLLERR)])
      && (Rearms(p, c, a) && bits != 0 ==> events == [Event(p.socks[a].user, bits)])
      && (!(current && !c.success) && !(Rearms(p, c, a) && bits != 0) ==> events == [])
  {
    hide CompleteCurrent, ReportedEvents;
    var a := p.ops[c.op].sockData;
    assert p.socks[a].opCount >= 1 by { SubsetSize({c.op}, OpsOf(p.ops, a)); }
    if p.ops[c.op].generation >= p.socks[a].generation {
      CurrentEvents(ResetGeneration(HandBack(p, c.op), a).value, c, a);
    }
  }

  /** The order that generations are for: an operation that was the newest before an accepted `epoll_mod` and completes
      before the new one is discarded without an event, whatever it brings. */
  lemma SupersededIsSilent(p: Port, sock: int, ev: bv32, user: nat, u: Setup, t: Attempt, older: Completion)
    requires Inv(p) && FreshSetup(p, u) && FreshAttempt(p, t) && t.accepted && sock in p.tree && older.op in p.inflight
    requires IsNewest(p, p.tree[sock], older.op) && p.ops[older.op].generation < 0xFFFF_FFFF
    ensures EpollMod(p, sock, ev, user, u, t).Ok?
    ensures var q := EpollMod(p, sock, ev, user, u, t).value.0;
      && Complete(q, older).Ok? && Complete(q, older).value.1 == []
      && var r := Complete(q, older).value.0;
        r.tree == q.tree && t.op in r.inflight && r.ops == q.ops - {older.op} && sock in r.tree
        && r.tree[sock] in r.socks && r.socks[r.tree[sock]].generation == p.ops[older.op].generation + 1
  {
    hide EpollMod, Complete;
    Renewed(p, sock, ev, user, u, t, older.op);
    OlderIsDiscarded(EpollMod(p, sock, ev, user, u, t).value.0, older, p.tree[sock]);
  }

  lemma Renewed(p: Port, sock: int, ev: bv32, user: nat, u: Setup, t: Attempt, older: Addr)
    requires Inv(p) && FreshSetup(p, u) && FreshAttempt(p, t) && t.accepted && sock in p.tree && older in p.inflight
    requires IsNewest(p, p.tree[sock], older) && p.ops[older].generation < 0xFFFF_FFFF
    ensures EpollMod(p, sock, ev, user, u, t).Ok?
    ensures var q, a := EpollMod(p, sock, ev, user, u, t).value.0, p.tree[sock];
      && Inv(q) && q.tree == p.tree && older in q.inflight && t.op in q.inflight && older != t.op
      && q.ops[older] == p.ops[older] && a in q.socks && q.socks[a].generation == p.ops[older].generation + 1
  {
    hide AfdEvents;
    ModKeeps(p, sock, ev, user, u, t);
  }

  lemma OlderIsDiscarded(p: Port, c: Completion, a: Addr)
    requires Inv(p) && c.op in p.inflight && a == p.ops[c.op].sockData
    requires p.ops[c.op].generation < p.socks[a].generation
    ensures Complete(p, c).Ok? && Complete(p, c).value.1 == []
    ensures var q := Complete(p, c).value.0;
      && q.tree == p.tree && q.ops == p.ops - {c.op} && q.inflight == p.inflight - {c.op}
      && a in q.socks && q.socks[a].generation == p.socks[a].generation
  {
    hide CompleteCurrent;
    SupersededIsNotLast(p, c.op);
  }
}
