/** How often one batch of completions can report the same socket. */
module EpollDuplicates {
  import opened Outcomes
  import opened Sizes
  import opened Epoll
  import opened EpollInvariants
  import opened EpollRuns
  import opened EpollStranded
  import opened EpollLeaks

  // ---------------------------------------------------------------------------------------------
  // The newest operation is in flight as long as it supersedes others

  predicate IsNewest(p: Port, a: Addr, o: Addr) { IsWitness(p, a, o) && o in p.inflight }

  /** A positive generation is the generation of an operation in flight. */
  ghost predicate NewestInFlight(p: Port) {
    forall a :: a in p.socks && p.socks[a].generation > 0 ==> exists o :: IsNewest(p, a, o)
  }

  /** It stays so while the operations that carry a generation stay in flight. */
  lemma NewestFrame(p: Port, q: Port)
    requires NewestInFlight(p)
    requires forall b :: b in q.socks ==>
      q.socks[b].generation == 0 || (b in p.socks && q.socks[b].generation == p.socks[b].generation)
    requires forall b, o :: IsNewest(p, b, o) && b in q.socks && q.socks[b].generation > 0 ==>
      o in q.ops && q.ops[o] == p.ops[o] && o in q.inflight
    ensures NewestInFlight(q)
  {
    forall b | b in q.socks && q.socks[b].generation > 0 ensures exists o :: IsNewest(q, b, o) {
      var o :| IsNewest(p, b, o);
      assert IsNewest(q, b, o);
    }
  }

  lemma SubmitOpNewest(p: Port, a: Addr, t: Attempt)
    requires NewestInFlight(p) && a in p.socks && FreshAttempt(p, t)
    ensures SubmitOp(p, a, t).Ok? && NewestInFlight(SubmitOp(p, a, t).value.0)
  {
    if t.accepted {
      var q := SubmitOp(p, a, t).value.0;
      assert IsNewest(q, a, t.op);
      forall b | b in q.socks && q.socks[b].generation > 0 && b != a ensures exists o :: IsNewest(q, b, o) {
        var o :| IsNewest(p, b, o);
        assert IsNewest(q, b, o);
      }
    }
  }

  lemma AddNewest(p: Port, sock: int, ev: bv32, user: nat, u: Setup, t: Attempt)
    requires NewestInFlight(p) && FreshSetup(p, u) && FreshAttempt(p, t)
    ensures EpollAdd(p, sock, ev, user, u, t).Ok? && NewestInFlight(EpollAdd(p, sock, ev, user, u, t).value.0)
  {
    if sock !in p.tree && u.usable {
      var q := Register(p, u.sockData, SockData(sock, ev | EPOLLERR | EPOLLHUP, 0, user, 0));
      NewestFrame(p, q);
      SubmitOpNewest(q, u.sockData, t);
    }
  }

  lemma ModNewest(p: Port, sock: int, ev: bv32, user: nat, u: Setup, t: Attempt)
    requires Inv(p) && NewestInFlight(p) && FreshSetup(p, u) && FreshAttempt(p, t)
    ensures EpollMod(p, sock, ev, user, u, t).Ok? && NewestInFlight(EpollMod(p, sock, ev, user, u, t).value.0)
  {
    if sock in p.tree {
      var a := p.tree[sock];
      var q := p.(socks := p.socks[a := p.socks[a].(registered := ev | EPOLLERR | EPOLLHUP, user := user)]);
      NewestFrame(p, q);
      SubmitOpNewest(q, a, t);
    } else {
      AddNewest(p, sock, ev, user, u, t);
    }
  }

  lemma DelNewest(p: Port, sock: int)
    requires Inv(p) && NewestInFlight(p)
    ensures EpollDel(p, sock).Ok? && NewestInFlight(EpollDel(p, sock).value.0)
  {
    if sock in p.tree { NewestFrame(p, EpollDel(p, sock).value.0); }
  }

  lemma {:induction false} SubmitEntriesNewest(p: Port, order: seq<Attention>)
    requires Inv(p) && NewestInFlight(p) && FreshAttempts(p, order) && (forall e :: e in order ==> e.entry in p.attn)
    ensures SubmitEntries(p, order).Ok? && NewestInFlight(SubmitEntries(p, order).value)
  {
    hide NewestInFlight, SubmitOp;
    if order != [] {
      var n := |order| - 1;
      SubmitEntriesKeeps(p, order[..n]);
      SubmitEntriesNewest(p, order[..n]);
      var q := SubmitEntries(p, order[..n]).value;
      AttendedLives(q, order[n].entry);
      SubmitOpNewest(q, order[n].entry, order[n].attempt);
    }
  }

  lemma SubmitAllNewest(p: Port, order: seq<Attention>)
    requires Inv(p) && NewestInFlight(p) && Iterates(p, order)
    ensures SubmitAll(p, order).Ok? && NewestInFlight(SubmitAll(p, order).value)
  {
    SubmitEntriesNewest(p, order);
    var q := SubmitEntries(p, order).value;
    NewestFrame(q, q.(attn := {}));
  }

  /** What a completion of `a`'s operation does to generations and user data. */
  ghost predicate SameBut(p: Port, q: Port, a: Addr, generation: UInt32) {
    forall b :: b in q.socks ==>
      && b in p.socks && q.socks[b].user == p.socks[b].user
      && q.socks[b].generation == if b == a then generation else p.socks[b].generation
  }

  lemma CurrentSocks(p: Port, c: Completion, a: Addr)
    requires c.op in p.ops && p.ops[c.op].sockData == a && a in p.socks && p.socks[a].opCount >= 1
    ensures CompleteCurrent(p, c, a).Ok?
    ensures SameBut(p, CompleteCurrent(p, c, a).value.0, a, p.socks[a].generation)
  {}

  lemma CompleteSocks(p: Port, c: Completion)
    requires Inv(p) && c.op in p.inflight
    ensures Complete(p, c).Ok?
    ensures var a := p.ops[c.op].sockData;
      SameBut(p, Complete(p, c).value.0, a,
              if p.ops[c.op].generation < p.socks[a].generation then p.socks[a].generation else 0)
  {
    hide CompleteCurrent;
    var a := p.ops[c.op].sockData;
    assert p.socks[a].opCount >= 1 by { SubsetSize({c.op}, OpsOf(p.ops, a)); }
    if p.ops[c.op].generation >= p.socks[a].generation {
      CurrentSocks(ResetGeneration(HandBack(p, c.op), a).value, c, a);
    }
  }

  lemma CompleteNewest(p: Port, c: Completion)
    requires Inv(p) && NewestInFlight(p) && c.op in p.inflight
    ensures Complete(p, c).Ok? && NewestInFlight(Complete(p, c).value.0)
  {
    hide Complete;
    CompleteSocks(p, c);
    CompleteTouches(p, c);
    NewestFrame(p, Complete(p, c).value.0);
  }

  lemma {:induction false} WaitNewest(p: Port, batch: seq<Completion>)
    requires Inv(p) && NewestInFlight(p) && HandsBack(p, batch)
    ensures WaitBatch(p, batch).Ok? && NewestInFlight(WaitBatch(p, batch).value.0)
  {
    hide Complete, NewestInFlight;
    if batch != [] {
      var n := |batch| - 1;
      BatchSplit(p, batch);
      WaitBatchKeeps(p, batch[..n]);
      WaitNewest(p, batch[..n]);
      CompleteNewest(WaitBatch(p, batch[..n]).value.0, batch[n]);
    }
  }

  lemma StepNewest(p: Port, x: Action)
    requires Inv(p) && NewestInFlight(p) && Enabled(p, x)
    ensures Step(p, x).Ok? && NewestInFlight(Step(p, x).value)
  {
    hide Inv, NewestInFlight, EpollAdd, EpollMod, EpollDel, SubmitAll, WaitBatch, Iterates, HandsBack;
    match x
    case Add(sock, ev, user, u, t) => AddNewest(p, sock, ev, user, u, t);
    case Mod(sock, ev, user, u, t) => ModNewest(p, sock, ev, user, u, t);
    case Del(sock) => DelNewest(p, sock);
    case Submit(order) => SubmitAllNewest(p, order);
    case Wait(batch) => WaitNewest(p, batch);
  }

  lemma {:induction false} RunNewest(p: Port, xs: seq<Action>)
    requires Inv(p) && NewestInFlight(p) && Legal(p, xs)
    ensures Run(p, xs).Ok? && Inv(Run(p, xs).value) && NewestInFlight(Run(p, xs).value)
    decreases |xs|
  {
    hide Inv, NewestInFlight, Step, Enabled;
    if xs != [] {
      StepKeeps(p, xs[0]);
      StepNewest(p, xs[0]);
      RunNewest(Step(p, xs[0]).value, xs[1..]);
    }
  }

  // ---------------------------------------------------------------------------------------------
  // The events of a batch, by registration

  /** How many events a batch yields for the registration `a`. */
  function EventsFor(p: Port, batch: seq<Completion>, a: Addr): nat {
    if batch == [] then 0
    else
      var n, r := |batch| - 1, WaitBatch(p, batch[..|batch| - 1]);
      EventsFor(p, batch[..n], a)
      + if r.Ok? && batch[n].op in OpsOf(p.ops, a) && Complete(r.value.0, batch[n]).Ok?
        then |Complete(r.value.0, batch[n]).value.1| else 0
  }

  /** The event of a completion, if any, is for the registered socket of its operation. */
  lemma CompleteReports(p: Port, c: Completion)
    requires Complete(p, c).Ok?
    ensures var a, events := p.ops[c.op].sockData, Complete(p, c).value.1;
      events == [] || (|events| == 1 && Registered(p, a) && events[0].user == p.socks[a].user)
  {}

  /** Some completions later: nothing was registered or submitted. */
  ghost predicate Later(p: Port, q: Port) {
    && q.inflight <= p.inflight && (forall o :: o in q.ops ==> o in p.ops && q.ops[o] == p.ops[o])
    && forall b :: Registered(q, b) ==>
         Registered(p, b) && q.socks[b].sock == p.socks[b].sock && q.socks[b].user == p.socks[b].user
  }

  lemma CompleteLater(p: Port, c: Completion)
    requires Inv(p) && c.op in p.inflight
    ensures Complete(p, c).Ok? && Later(p, Complete(p, c).value.0)
  {
    hide Complete;
    CompleteSocks(p, c);
    CompleteTouches(p, c);
    CompleteShape(p, c, p.ops[c.op].sockData);
  }

  lemma {:induction false} WaitLater(p: Port, batch: seq<Completion>)
    requires Inv(p) && HandsBack(p, batch)
    ensures WaitBatch(p, batch).Ok? && Later(p, WaitBatch(p, batch).value.0)
  {
    hide Complete;
    if batch != [] {
      var n := |batch| - 1;
      BatchSplit(p, batch);
      WaitBatchKeeps(p, batch[..n]);
      WaitLater(p, batch[..n]);
      CompleteLater(WaitBatch(p, batch[..n]).value.0, batch[n]);
    }
  }

  lemma EventsStep(p: Port, batch: seq<Completion>, a: Addr)
    requires batch != []
    ensures var n := |batch| - 1;
      EventsFor(p, batch, a) <= EventsFor(p, batch[..n], a) + if batch[n].op in OpsOf(p.ops, a) then 1 else 0
  {
    hide Complete, WaitBatch;
    var n, r := |batch| - 1, WaitBatch(p, batch[..|batch| - 1]);
    if r.Ok? && Complete(r.value.0, batch[n]).Ok? { CompleteReports(r.value.0, batch[n]); }
  }

  /** A batch reports a socket no more often than it has operations of it. */
  lemma {:induction false} EventsBounded(p: Port, batch: seq<Completion>, a: Addr)
    requires HandsBack(p, batch)
    ensures EventsFor(p, batch, a) <= |InFlightOf(p, a) * BatchOps(batch)| <= |InFlightOf(p, a)|
  {
    SubsetSize(InFlightOf(p, a) * BatchOps(batch), InFlightOf(p, a));
    if batch != [] {
      hide EventsFor;
      var n := |batch| - 1;
      BatchSplit(p, batch);
      EventsStep(p, batch, a);
      EventsBounded(p, batch[..n], a);
      var before, now := InFlightOf(p, a) * BatchOps(batch[..n]), InFlightOf(p, a) * BatchOps(batch);
      SubsetSize(before, now);
      if batch[n].op in OpsOf(p.ops, a) { assert now == before + {batch[n].op}; }
    }
  }

  /** A completion with which AFD may answer every operation: `AFD_POLL_ABORT` is always asked for. */
  function Aborted(o: Addr): Completion { Completion(o, true, 1, AFD_POLL_ABORT) }

  lemma AbortReports(o: Addr)
    ensures Reports(Aborted(o))
  {}

  /** An operation of `a` that a completion finds current. */
  lemma CurrentOne(p: Port, a: Addr) returns (o: Addr)
    requires NewestInFlight(p) && Registered(p, a) && InFlightOf(p, a) != {}
    ensures o in InFlightOf(p, a) && p.ops[o].generation >= p.socks[a].generation
  {
    o :| o in InFlightOf(p, a);
    if p.socks[a].generation > 0 { o :| IsNewest(p, a, o); }
  }

  /** With two operations in flight, complete the newest first; if none is marked as the newest, any will do. */
  lemma TwoReport(p: Port, a: Addr) returns (batch: seq<Completion>)
    requires Inv(p) && NewestInFlight(p) && Registered(p, a) && |InFlightOf(p, a)| >= 2
    ensures |batch| == 2 && HandsBack(p, batch) && EventsFor(p, batch, a) == 2
  {
    hide Complete, WaitBatch, Reports, ReportedEvents, CompletedEvents, EventsFor;
    var first := CurrentOne(p, a);
    assert |InFlightOf(p, a) - {first}| >= 1;
    var second :| second in InFlightOf(p, a) - {first};
    batch := [Aborted(first), Aborted(second)];
    assert {first, second} <= OpsOf(p.ops, a);
    AbortReports(first);
    AbortReports(second);
    OlderOpReportsAgain(p, Aborted(first), Aborted(second), a);
    CurrentReports(p, Aborted(first), a);
    TwoEvents(p, Aborted(first), Aborted(second), a);
  }

  lemma TwoEvents(p: Port, c: Completion, d: Completion, a: Addr)
    requires WaitBatch(p, [c, d]).Ok? && |WaitBatch(p, [c, d]).value.1| == 2 && {c.op, d.op} <= OpsOf(p.ops, a)
    requires Complete(p, c).Ok? && |Complete(p, c).value.1| == 1
    ensures EventsFor(p, [c, d], a) == 2
  {
    hide Complete;
    assert [c, d][..1] == [c] && [c][..0] == [];
    assert WaitBatch(p, []) == Ok((p, []));
    assert WaitBatch(p, [c]) == Ok((Complete(p, c).value.0, [] + Complete(p, c).value.1));
    assert EventsFor(p, [], a) == 0 && EventsFor(p, [c], a) == 1;
  }

  /** Some batch reports a registered socket twice if and only if two of its operations are in flight. */
  lemma TwiceExactly(p: Port, a: Addr)
    requires Inv(p) && NewestInFlight(p) && Registered(p, a)
    ensures (exists batch :: HandsBack(p, batch) && EventsFor(p, batch, a) >= 2) <==> |InFlightOf(p, a)| >= 2
  {
    forall batch | HandsBack(p, batch) ensures EventsFor(p, batch, a) <= |InFlightOf(p, a)| {
      EventsBounded(p, batch, a);
    }
    if |InFlightOf(p, a)| >= 2 { var batch := TwoReport(p, a); }
  }

  /** ... in every port that any run leads to. */
  lemma ReportedTwiceExactly(xs: seq<Action>, a: Addr)
    requires Legal(EmptyPort, xs)
    ensures Run(EmptyPort, xs).Ok?
    ensures var p := Run(EmptyPort, xs).value;
      Registered(p, a) ==>
        ((exists batch :: HandsBack(p, batch) && EventsFor(p, batch, a) >= 2) <==> |InFlightOf(p, a)| >= 2)
  {
    RunNewest(EmptyPort, xs);
    if Registered(Run(EmptyPort, xs).value, a) { TwiceExactly(Run(EmptyPort, xs).value, a); }
  }

  /** One aborted operation of `a`, and what it leaves alone. */
  lemma AbortOne(p: Port, a: Addr, o: Addr) returns (q: Port)
    requires Inv(p) && Registered(p, a) && o in InFlightOf(p, a) && p.ops[o].generation >= p.socks[a].generation
    ensures Complete(p, Aborted(o)) == Ok((q, [Event(p.socks[a].user, ReportedEvents(AFD_POLL_ABORT))]))
    ensures Inv(q) && q.ops == p.ops - {o} && q.inflight == p.inflight - {o}
    ensures a in q.socks && q.socks[a].generation == 0
    ensures forall b :: Registered(p, b) ==>
      && b in p.socks && Registered(q, b) && b in q.socks && q.socks[b].user == p.socks[b].user
      && (b != a ==> q.socks[b].generation == p.socks[b].generation)
  {
    hide Complete;
    AbortReports(o);
    CurrentReports(p, Aborted(o), a);
    CompleteKeeps(p, Aborted(o));
    CompleteSocks(p, Aborted(o));
    CompleteShape(p, Aborted(o), a);
    q := Complete(p, Aborted(o)).value.0;
  }

  /** Two events for `a` with one for `b` in between. */
  lemma ThreeReport(p: Port, a: Addr, b: Addr) returns (batch: seq<Completion>)
    requires Inv(p) && NewestInFlight(p) && Registered(p, a) && Registered(p, b) && a != b
    requires |InFlightOf(p, a)| >= 2 && InFlightOf(p, b) != {}
    ensures |batch| == 3 && HandsBack(p, batch) && WaitBatch(p, batch).Ok?
    ensures var events := WaitBatch(p, batch).value.1;
      |events| == 3 && events[0].user == events[2].user == p.socks[a].user && events[1].user == p.socks[b].user
  {
    hide Complete, WaitBatch, Inv, NewestInFlight, Registered;
    var first := CurrentOne(p, a);
    var other := CurrentOne(p, b);
    assert |InFlightOf(p, a) - {first}| >= 1;
    var second :| second in InFlightOf(p, a) - {first};
    batch := [Aborted(first), Aborted(other), Aborted(second)];
    var q := AbortOne(p, a, first);
    var r := AbortOne(q, b, other);
    var t := AbortOne(r, a, second);
    BatchOfThree(p, batch[0], q, batch[1], r, batch[2], t);
  }

  lemma BatchOfThree(p: Port, c: Completion, q: Port, d: Completion, r: Port, e: Completion, t: Port)
    requires Complete(p, c).Ok? && Complete(p, c).value.0 == q
    requires Complete(q, d).Ok? && Complete(q, d).value.0 == r
    requires Complete(r, e).Ok? && Complete(r, e).value.0 == t
    ensures WaitBatch(p, [c, d, e])
         == Ok((t, Complete(p, c).value.1 + Complete(q, d).value.1 + Complete(r, e).value.1))
  {
    hide Complete;
    BatchOfTwo(p, c, q, Complete(p, c).value.1, d, r, Complete(q, d).value.1);
    assert [c, d, e][..2] == [c, d];
  }

  // ---------------------------------------------------------------------------------------------
  // What brings a second operation about

  /** How many operations of a registered socket are in flight. */
  function Polls(p: Port, sock: int): nat {
    if sock in p.tree then |InFlightOf(p, p.tree[sock])| else 0
  }

  lemma InFlightSame(p: Port, q: Port, a: Addr)
    requires forall o :: (o in q.inflight && o in q.ops && q.ops[o].sockData == a)
                     <==> (o in p.inflight && o in p.ops && p.ops[o].sockData == a)
    ensures InFlightOf(q, a) == InFlightOf(p, a)
  {}

  lemma SubmitOpPolls(p: Port, a: Addr, t: Attempt, sock: int)
    requires NoDangling(p) && Registered(p, a) && FreshAttempt(p, t)
    ensures SubmitOp(p, a, t).Ok?
    ensures Polls(SubmitOp(p, a, t).value.0, sock)
         == Polls(p, sock) + if t.accepted && sock == p.socks[a].sock then 1 else 0
  {
    var q := SubmitOp(p, a, t).value.0;
    if t.accepted && sock in p.tree {
      if sock == p.socks[a].sock {
        assert InFlightOf(q, a) == InFlightOf(p, a) + {t.op};
      } else {
        InFlightSame(p, q, p.tree[sock]);
      }
    }
  }

  lemma RegisterPolls(p: Port, a: Addr, s: SockData, sock: int)
    requires NoDangling(p) && a !in p.socks && s.sock !in p.tree
    ensures Polls(Register(p, a, s), sock) == Polls(p, sock)
  {
    var q := Register(p, a, s);
    assert InFlightOf(p, a) == {};
    forall b ensures InFlightOf(q, b) == InFlightOf(p, b) { InFlightSame(p, q, b); }
  }

  lemma AddPolls(p: Port, s: int, ev: bv32, user: nat, u: Setup, t: Attempt, sock: int)
    requires Inv(p) && FreshSetup(p, u) && FreshAttempt(p, t)
    ensures EpollAdd(p, s, ev, user, u, t).Ok?
    ensures Polls(EpollAdd(p, s, ev, user, u, t).value.0, sock)
         == Polls(p, sock) + if s == sock && s !in p.tree && u.usable && t.accepted then 1 else 0
  {
    hide SubmitOp, Polls;
    if s !in p.tree && u.usable {
      var r := SockData(s, ev | EPOLLERR | EPOLLHUP, 0, user, 0);
      RegisterPolls(p, u.sockData, r, sock);
      RegisterKeeps(p, u.sockData, r);
      SubmitOpPolls(Register(p, u.sockData, r), u.sockData, t, sock);
    }
  }

  lemma ModPolls(p: Port, s: int, ev: bv32, user: nat, u: Setup, t: Attempt, sock: int)
    requires Inv(p) && FreshSetup(p, u) && FreshAttempt(p, t)
    ensures EpollMod(p, s, ev, user, u, t).Ok?
    ensures Polls(EpollMod(p, s, ev, user, u, t).value.0, sock)
         == Polls(p, sock) + if s == sock && (s in p.tree || u.usable) && t.accepted then 1 else 0
  {
    hide SubmitOp;
    if s in p.tree {
      var a := p.tree[s];
      var r := p.socks[a].(registered := ev | EPOLLERR | EPOLLHUP, user := user);
      var q := p.(socks := p.socks[a := r]);
      RetouchKeeps(p, a, r);
      assert Polls(q, sock) == Polls(p, sock) by {
        forall b ensures InFlightOf(q, b) == InFlightOf(p, b) { InFlightSame(p, q, b); }
      }
      SubmitOpPolls(q, a, t, sock);
    } else {
      AddPolls(p, s, ev, user, u, t, sock);
    }
  }

  lemma DelPolls(p: Port, s: int, sock: int)
    requires Inv(p)
    ensures EpollDel(p, s).Ok?
    ensures Polls(EpollDel(p, s).value.0, sock) == if s == sock then 0 else Polls(p, sock)
  {
    if s in p.tree {
      var q := EpollDel(p, s).value.0;
      forall b ensures InFlightOf(q, b) == InFlightOf(p, b) { InFlightSame(p, q, b); }
    }
  }

  /** Submitting gives an idle socket its first operation and no socket a second one. */
  ghost predicate OneAtMost(p: Port, q: Port, sock: int) {
    Polls(q, sock) == Polls(p, sock) || (Polls(p, sock) == 0 && Polls(q, sock) == 1)
  }

  lemma SubmitEntryPolls(p: Port, e: Attention, sock: int)
    requires Inv(p) && e.entry in p.attn && FreshAttempt(p, e.attempt)
    ensures SubmitEntry(p, e).Ok? && OneAtMost(p, SubmitEntry(p, e).value, sock)
  {
    hide SubmitOp;
    if p.socks[e.entry].opCount == 0 {
      assert OpsOf(p.ops, e.entry) == {};
      SubmitOpPolls(p, e.entry, e.attempt, sock);
    }
  }

  lemma {:induction false} SubmitEntriesPolls(p: Port, order: seq<Attention>, sock: int)
    requires Inv(p) && FreshAttempts(p, order) && (forall e :: e in order ==> e.entry in p.attn)
    ensures SubmitEntries(p, order).Ok? && OneAtMost(p, SubmitEntries(p, order).value, sock)
  {
    hide SubmitEntry, Polls, Inv;
    if order != [] {
      var n := |order| - 1;
      SubmitEntriesKeeps(p, order[..n]);
      SubmitEntriesPolls(p, order[..n], sock);
      SubmitEntryPolls(SubmitEntries(p, order[..n]).value, order[n], sock);
    }
  }

  lemma SubmitAllPolls(p: Port, order: seq<Attention>, sock: int)
    requires Inv(p) && Iterates(p, order)
    ensures SubmitAll(p, order).Ok? && OneAtMost(p, SubmitAll(p, order).value, sock)
  {
    SubmitEntriesPolls(p, order, sock);
    var q := SubmitEntries(p, order).value;
    forall b ensures InFlightOf(q.(attn := {}), b) == InFlightOf(q, b) { InFlightSame(q, q.(attn := {}), b); }
  }

  lemma LaterPolls(p: Port, q: Port, sock: int)
    requires NoDangling(p) && NoDangling(q) && Later(p, q)
    ensures Polls(q, sock) <= Polls(p, sock)
  {
    if sock in q.tree {
      var a := q.tree[sock];
      assert Registered(q, a) && Registered(p, a);
      SubsetSize(InFlightOf(q, a), InFlightOf(p, a));
    }
  }

  /** The step that gives a socket a second operation in flight is an accepted `epoll_mod` of it, while the first
      one is; no other step of the port is. */
  lemma OnlyModPollsTwice(p: Port, x: Action, sock: int)
    requires Inv(p) && Enabled(p, x) && Polls(p, sock) <= 1
    ensures Step(p, x).Ok?
    ensures Polls(Step(p, x).value, sock) >= 2
       <==> x.Mod? && x.sock == sock && x.attempt.accepted && Polls(p, sock) == 1
  {
    hide Inv, Polls, EpollAdd, EpollMod, EpollDel, SubmitAll, WaitBatch, Iterates, HandsBack;
    match x
    case Add(s, ev, user, u, t) => AddPolls(p, s, ev, user, u, t, sock); NotIn(p, sock);
    case Mod(s, ev, user, u, t) => ModPolls(p, s, ev, user, u, t, sock); NotIn(p, sock);
    case Del(s) => DelPolls(p, s, sock);
    case Submit(order) => SubmitAllPolls(p, order, sock);
    case Wait(batch) =>
      WaitBatchKeeps(p, batch);
      WaitPolls(p, batch, sock);
  }

  lemma NotIn(p: Port, sock: int)
    ensures sock !in p.tree ==> Polls(p, sock) == 0
  {}

  lemma WaitPolls(p: Port, batch: seq<Completion>, sock: int)
    requires Inv(p) && HandsBack(p, batch)
    ensures WaitBatch(p, batch).Ok? && Polls(WaitBatch(p, batch).value.0, sock) <= Polls(p, sock)
  {
    hide WaitBatch;
    WaitBatchKeeps(p, batch);
    WaitLater(p, batch);
    LaterPolls(p, WaitBatch(p, batch).value.0, sock);
  }

  lemma {:induction false} UnmodifiedPollsOnce(p: Port, xs: seq<Action>, sock: int)
    requires Inv(p) && Legal(p, xs) && Polls(p, sock) <= 1
    requires forall x :: x in xs && x.Mod? ==> x.sock != sock
    ensures Run(p, xs).Ok? && Inv(Run(p, xs).value) && Polls(Run(p, xs).value, sock) <= 1
    decreases |xs|
  {
    hide Inv, Step, Enabled, Polls;
    if xs != [] {
      StepKeeps(p, xs[0]);
      OnlyModPollsTwice(p, xs[0], sock);
      UnmodifiedPollsOnce(Step(p, xs[0]).value, xs[1..], sock);
    }
  }

  /** A socket that is never modified is reported at most once by every batch, however often it is added, deleted
      and submitted, with any completion order and status. */
  lemma UnmodifiedReportsOnce(xs: seq<Action>, sock: int, batch: seq<Completion>)
    requires Legal(EmptyPort, xs) && forall x :: x in xs && x.Mod? ==> x.sock != sock
    ensures Run(EmptyPort, xs).Ok?
    ensures var p := Run(EmptyPort, xs).value;
      sock in p.tree && HandsBack(p, batch) ==> EventsFor(p, batch, p.tree[sock]) <= 1
  {
    UnmodifiedPollsOnce(EmptyPort, xs, sock);
    var p := Run(EmptyPort, xs).value;
    if sock in p.tree && HandsBack(p, batch) { EventsBounded(p, batch, p.tree[sock]); }
  }
}
