/** Whole runs of the epoll emulation: memory safety, and what the completion of an operation frees and
    reports. */
module EpollRuns {
  import opened Outcomes
  import opened Sizes
  import opened Epoll
  import opened EpollInvariants

  /** One call into the port, with everything the environment decides about it. */
  datatype Action =
    | Add(sock: int, ev: bv32, user: nat, setup: Setup, attempt: Attempt)
    | Mod(sock: int, ev: bv32, user: nat, setup: Setup, attempt: Attempt)
    | Del(sock: int)
    | Submit(order: seq<Attention>)
    | Wait(batch: seq<Completion>)

  function Step(p: Port, x: Action): Outcome<Port> {
    match x
    case Add(sock, ev, user, u, t) =>
      var (q, _) :- EpollAdd(p, sock, ev, user, u, t); Ok(q)
    case Mod(sock, ev, user, u, t) =>
      var (q, _) :- EpollMod(p, sock, ev, user, u, t); Ok(q)
    case Del(sock) =>
      var (q, _) :- EpollDel(p, sock); Ok(q)
    case Submit(order) => SubmitAll(p, order)
    case Wait(batch) =>
      var (q, _) :- WaitBatch(p, batch); Ok(q)
  }

  /** The allocator, the iteration and the kernel behave; nothing is assumed about order or status. */
  ghost predicate Enabled(p: Port, x: Action) {
    match x
    case Add(_, _, _, u, t) => FreshSetup(p, u) && FreshAttempt(p, t)
    case Mod(_, _, _, u, t) => FreshSetup(p, u) && FreshAttempt(p, t)
    case Del(_) => true
    case Submit(order) => Iterates(p, order)
    case Wait(batch) => HandsBack(p, batch)
  }

  function Run(p: Port, xs: seq<Action>): Outcome<Port>
    decreases |xs|
  {
    if xs == [] then Ok(p)
    else
      var q :- Step(p, xs[0]);
      Run(q, xs[1..])
  }

  /** Every action is enabled in the state it starts from; a faulting action ends the run. */
  ghost predicate Legal(p: Port, xs: seq<Action>)
    decreases |xs|
  {
    xs == [] || (Enabled(p, xs[0]) && (Step(p, xs[0]).Ok? ==> Legal(Step(p, xs[0]).value, xs[1..])))
  }

  lemma StepKeeps(p: Port, x: Action)
    requires Inv(p) && Enabled(p, x)
    ensures Step(p, x).Ok? && Inv(Step(p, x).value)
  {
    match x
    case Add(sock, ev, user, u, t) => AddKeeps(p, sock, ev, user, u, t);
    case Mod(sock, ev, user, u, t) => ModKeeps(p, sock, ev, user, u, t);
    case Del(sock) => DelKeeps(p, sock);
    case Submit(order) => SubmitAllKeeps(p, order);
    case Wait(batch) => WaitBatchKeeps(p, batch);
  }

  /** No run touches a freed registration or operation, frees one twice, or drives a count negative. */
  lemma {:induction false} NoUseAfterFree(p: Port, xs: seq<Action>)
    requires Inv(p) && Legal(p, xs)
    ensures Run(p, xs).Ok? && Inv(Run(p, xs).value)
    decreases |xs|
  {
    if xs != [] {
      StepKeeps(p, xs[0]);
      NoUseAfterFree(Step(p, xs[0]).value, xs[1..]);
    }
  }

  /** ... in particular from a fresh port. */
  lemma PortIsMemorySafe(xs: seq<Action>)
    requires Legal(EmptyPort, xs)
    ensures Run(EmptyPort, xs).Ok? && Inv(Run(EmptyPort, xs).value)
  {
    NoUseAfterFree(EmptyPort, xs);
  }

  // ---------------------------------------------------------------------------------------------
  // What completions free and report

  /** A registration that left the tree is freed by the completion of its last operation, no other. */
  lemma OrphanFreedByItsLastOp(p: Port, c: Completion, a: Addr)
    requires Inv(p) && c.op in p.inflight && a in p.socks && !Registered(p, a)
    ensures Complete(p, c).Ok?
    ensures a !in Complete(p, c).value.0.socks <==> OpsOf(p.ops, a) == {c.op}
  {
    CompleteKeeps(p, c);
    var b := p.ops[c.op].sockData;
    assert c.op in OpsOf(p.ops, b);
    if a == b {
      if OpsOf(p.ops, a) == {c.op} {
        assert p.socks[a].opCount == 1;
        if p.ops[c.op].generation < p.socks[a].generation { SupersededIsNotLast(p, c.op); }
      } else if p.socks[a].opCount == 1 {
        SingletonIs(OpsOf(p.ops, a), c.op);
      }
    }
  }

  /** A completion that leads to an event of its own. */
  predicate Reports(c: Completion) {
    c.success && CompletedEvents(c) & AFD_POLL_LOCAL_CLOSE == 0 && ReportedEvents(CompletedEvents(c)) != 0
  }

  lemma CurrentReports(p: Port, c: Completion, a: Addr)
    requires Inv(p) && Registered(p, a) && c.op in p.inflight && c.op in OpsOf(p.ops, a)
    requires p.ops[c.op].generation >= p.socks[a].generation && Reports(c)
    ensures Complete(p, c).Ok?
    ensures var (q, events) := Complete(p, c).value;
      && events == [Event(p.socks[a].user, ReportedEvents(CompletedEvents(c)))]
      && Registered(q, a) && q.socks[a].user == p.socks[a].user && q.socks[a].generation == 0
      && q.ops == p.ops - {c.op} && q.inflight == p.inflight - {c.op}
  {
    assert p.socks[a].opCount >= 1 by { SubsetSize({c.op}, OpsOf(p.ops, a)); }
  }

  /** Supersession only works in one order: once the newest operation of a socket has completed, an older
      one counts as current again and reports a second event, even within the same batch. */
  lemma OlderOpReportsAgain(p: Port, newest: Completion, older: Completion, a: Addr)
    requires Inv(p) && Registered(p, a) && newest.op != older.op
    requires newest.op in p.inflight && older.op in p.inflight && {newest.op, older.op} <= OpsOf(p.ops, a)
    requires p.ops[newest.op].generation >= p.socks[a].generation
    requires Reports(newest) && Reports(older)
    ensures WaitBatch(p, [newest, older]).Ok?
    ensures WaitBatch(p, [newest, older]).value.1 ==
      [Event(p.socks[a].user, ReportedEvents(CompletedEvents(newest))),
       Event(p.socks[a].user, ReportedEvents(CompletedEvents(older)))]
  {
    hide Complete, WaitBatch, Inv, ReportedEvents;
    CurrentReports(p, newest, a);
    CompleteKeeps(p, newest);
    var (q, first) := Complete(p, newest).value;
    assert older.op in OpsOf(q.ops, a);
    CurrentReports(q, older, a);
    var (r, second) := Complete(q, older).value;
    BatchOfTwo(p, newest, q, first, older, r, second);
  }

  /** An accepted `epoll_mod` gives a socket that is being polled a second operation, so a change of interest is all
      it takes: if the new operation completes first, both report. */
  lemma ModThenTwoReports(p: Port, sock: int, ev: bv32, user: nat, u: Setup, t: Attempt,
                          older: Completion, newest: Completion)
    requires Inv(p) && FreshSetup(p, u) && FreshAttempt(p, t) && t.accepted && sock in p.tree
    requires older.op in p.inflight && older.op in OpsOf(p.ops, p.tree[sock]) && newest.op == t.op
    requires Reports(newest) && Reports(older)
    ensures EpollMod(p, sock, ev, user, u, t).Ok?
    ensures var (q, ok) := EpollMod(p, sock, ev, user, u, t).value;
      && ok && Inv(q) && WaitBatch(q, [newest, older]).Ok?
      && WaitBatch(q, [newest, older]).value.1 ==
           [Event(user, ReportedEvents(CompletedEvents(newest))), Event(user, ReportedEvents(CompletedEvents(older)))]
  {
    hide WaitBatch, Reports, ReportedEvents, AfdEvents, CompletedEvents;
    ModKeeps(p, sock, ev, user, u, t);
    OlderOpReportsAgain(EpollMod(p, sock, ev, user, u, t).value.0, newest, older, p.tree[sock]);
  }

  lemma BatchOfTwo(p: Port, c: Completion, q: Port, first: seq<Event>, d: Completion, r: Port, second: seq<Event>)
    requires Complete(p, c) == Ok((q, first)) && Complete(q, d) == Ok((r, second))
    ensures WaitBatch(p, [c, d]) == Ok((r, first + second))
  {
    hide Complete;
    assert [c, d][..1] == [c] && [c][..0] == [];
    assert WaitBatch(p, []) == Ok((p, [])) && [] + first == first;
    assert WaitBatch(p, [c]) == Ok((q, first));
  }
}
