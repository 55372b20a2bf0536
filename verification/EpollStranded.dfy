/** Operations that complete with an error: they are neither deleted nor given back to the kernel, so they
    and their registrations stay for good. */
module EpollStranded {
  import opened Sizes
  import opened Epoll
  import opened EpollInvariants
  import opened EpollRuns

  /** Undeleted, and no completion for it will ever come. */
  predicate Stranded(p: Port, o: Addr, op: Op) {
    o in p.ops && p.ops[o] == op && o !in p.inflight
  }

  /** A completion strands its operation exactly when it is current, registered and carries an error. */
  lemma ErrorStrands(p: Port, c: Completion)
    requires Inv(p) && c.op in p.inflight
    ensures Complete(p, c).Ok?
    ensures var op := p.ops[c.op]; var q := Complete(p, c).value.0;
      Stranded(q, c.op, op)
      <==> !c.success && Registered(p, op.sockData) && op.generation >= p.socks[op.sockData].generation
  {
    CompleteKeeps(p, c);
    CompleteTouches(p, c);
  }

  lemma DiscardTouches(p: Port, o: Addr, a: Addr)
    requires o in p.ops && p.ops[o].sockData == a && a in p.socks && p.socks[a].opCount >= 1
    ensures Discard(p, o, a).Ok?
    ensures Discard(p, o, a).value.ops == p.ops - {o} && Discard(p, o, a).value.inflight == p.inflight
  {}

  lemma CurrentTouches(p: Port, c: Completion, a: Addr)
    requires c.op in p.ops && p.ops[c.op].sockData == a && a in p.socks && p.socks[a].opCount >= 1
    ensures CompleteCurrent(p, c, a).Ok?
    ensures var q := CompleteCurrent(p, c, a).value.0;
      q.inflight == p.inflight && q.ops == if !c.success && Registered(p, a) then p.ops else p.ops - {c.op}
  {
    if !Registered(p, a) {
      DiscardTouches(p, c.op, a);
    } else if c.success && CompletedEvents(c) & AFD_POLL_LOCAL_CLOSE != 0 {
      DiscardTouches(Remove(p, a).value, c.op, a);
    }
  }

  /** What a completion does to the operations: its own may go, the others stay. */
  lemma CompleteTouches(p: Port, c: Completion)
    requires Inv(p) && c.op in p.inflight
    ensures Complete(p, c).Ok?
    ensures var op := p.ops[c.op]; var q := Complete(p, c).value.0;
      && q.inflight == p.inflight - {c.op}
      && q.ops == (if !c.success && Registered(p, op.sockData) && op.generation >= p.socks[op.sockData].generation
                   then p.ops else p.ops - {c.op})
  {
    hide CompleteCurrent;
    var a := p.ops[c.op].sockData;
    assert p.socks[a].opCount >= 1 by { SubsetSize({c.op}, OpsOf(p.ops, a)); }
    if p.ops[c.op].generation >= p.socks[a].generation {
      CurrentTouches(ResetGeneration(HandBack(p, c.op), a).value, c, a);
    }
  }

  lemma {:induction false} WaitStrands(p: Port, batch: seq<Completion>, o: Addr, op: Op)
    requires Inv(p) && HandsBack(p, batch) && Stranded(p, o, op)
    ensures WaitBatch(p, batch).Ok? && Stranded(WaitBatch(p, batch).value.0, o, op)
  {
    if batch != [] {
      var n := |batch| - 1;
      BatchSplit(p, batch);
      WaitBatchKeeps(p, batch[..n]);
      WaitStrands(p, batch[..n], o, op);
      CompleteTouches(WaitBatch(p, batch[..n]).value.0, batch[n]);
    }
  }

  lemma SubmitOpStrands(p: Port, a: Addr, t: Attempt, o: Addr, op: Op)
    requires a in p.socks && FreshAttempt(p, t) && Stranded(p, o, op)
    ensures SubmitOp(p, a, t).Ok? && Stranded(SubmitOp(p, a, t).value.0, o, op)
  {}

  lemma SubmitEntryStrands(p: Port, e: Attention, o: Addr, op: Op)
    requires e.entry in p.socks && FreshAttempt(p, e.attempt) && Stranded(p, o, op)
    ensures SubmitEntry(p, e).Ok? && Stranded(SubmitEntry(p, e).value, o, op)
  {
    hide SubmitOp;
    if p.socks[e.entry].opCount == 0 { SubmitOpStrands(p, e.entry, e.attempt, o, op); }
  }

  lemma AttendedLives(p: Port, a: Addr)
    requires Inv(p) && a in p.attn
    ensures a in p.socks
  {}

  lemma {:induction false} SubmitStrands(p: Port, order: seq<Attention>, o: Addr, op: Op)
    requires Inv(p) && FreshAttempts(p, order) && (forall e :: e in order ==> e.entry in p.attn) && Stranded(p, o, op)
    ensures SubmitEntries(p, order).Ok? && Stranded(SubmitEntries(p, order).value, o, op)
  {
    hide Inv, SubmitEntry, Stranded;
    if order != [] {
      var n := |order| - 1;
      SubmitEntriesKeeps(p, order[..n]);
      SubmitStrands(p, order[..n], o, op);
      var q := SubmitEntries(p, order[..n]).value;
      AttendedLives(q, order[n].entry);
      SubmitEntryStrands(q, order[n], o, op);
    }
  }

  lemma AddStrands(p: Port, sock: int, ev: bv32, user: nat, u: Setup, t: Attempt, o: Addr, op: Op)
    requires FreshSetup(p, u) && FreshAttempt(p, t) && Stranded(p, o, op)
    ensures EpollAdd(p, sock, ev, user, u, t).Ok? && Stranded(EpollAdd(p, sock, ev, user, u, t).value.0, o, op)
  {}

  lemma ModStrands(p: Port, sock: int, ev: bv32, user: nat, u: Setup, t: Attempt, o: Addr, op: Op)
    requires Inv(p) && FreshSetup(p, u) && FreshAttempt(p, t) && Stranded(p, o, op)
    ensures EpollMod(p, sock, ev, user, u, t).Ok? && Stranded(EpollMod(p, sock, ev, user, u, t).value.0, o, op)
  {
    if sock !in p.tree { AddStrands(p, sock, ev, user, u, t, o, op); }
  }

  lemma DelStrands(p: Port, sock: int, o: Addr, op: Op)
    requires Inv(p) && Stranded(p, o, op)
    ensures EpollDel(p, sock).Ok? && Stranded(EpollDel(p, sock).value.0, o, op)
  {}

  lemma SubmitAllStrands(p: Port, order: seq<Attention>, o: Addr, op: Op)
    requires Inv(p) && Iterates(p, order) && Stranded(p, o, op)
    ensures SubmitAll(p, order).Ok? && Stranded(SubmitAll(p, order).value, o, op)
  {
    SubmitStrands(p, order, o, op);
  }

  lemma StepStrands(p: Port, x: Action, o: Addr, op: Op)
    requires Inv(p) && Enabled(p, x) && Stranded(p, o, op)
    ensures Step(p, x).Ok? && Stranded(Step(p, x).value, o, op)
  {
    hide Inv, Stranded, EpollAdd, EpollMod, EpollDel, SubmitAll, WaitBatch, Iterates, HandsBack;
    match x
    case Add(sock, ev, user, u, t) => AddStrands(p, sock, ev, user, u, t, o, op);
    case Mod(sock, ev, user, u, t) => ModStrands(p, sock, ev, user, u, t, o, op);
    case Del(sock) => DelStrands(p, sock, o, op);
    case Submit(order) => SubmitAllStrands(p, order, o, op);
    case Wait(batch) => WaitStrands(p, batch, o, op);
  }

  /** Once stranded, always stranded: no later step of any run deletes the operation, and so the registration
      it belongs to is never freed, registered or not. */
  lemma {:induction false} StrandedForever(p: Port, xs: seq<Action>, o: Addr, op: Op)
    requires Inv(p) && Legal(p, xs) && Stranded(p, o, op)
    ensures Run(p, xs).Ok? && Stranded(Run(p, xs).value, o, op) && op.sockData in Run(p, xs).value.socks
    decreases |xs|
  {
    if xs != [] {
      StepKeeps(p, xs[0]);
      StepStrands(p, xs[0], o, op);
      StrandedForever(Step(p, xs[0]).value, xs[1..], o, op);
    }
  }
}
