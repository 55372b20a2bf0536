/** Nothing goes unwatched: while AFD accepts every submission and no completion carries an error,
    every registered socket has an operation with the kernel whenever the port blocks for events. */
module EpollWatch {
  import opened Outcomes
  import opened Sizes
  import opened Epoll
  import opened EpollInvariants
  import opened EpollRuns

  predicate Benign(x: Action) {
    match x
    case Add(_, _, _, _, t) => t.accepted
    case Mod(_, _, _, _, t) => t.accepted
    case Del(_) => true
    case Submit(order) => forall e :: e in order ==> e.attempt.accepted
    case Wait(batch) => forall c :: c in batch ==> c.success
  }

  /** Between waits a registered socket without operations is on the attention list. */
  ghost predicate Watched(p: Port) {
    forall a :: Registered(p, a) ==> p.socks[a].opCount > 0 || a in p.attn
  }

  predicate Covers(p: Port, a: Addr, o: Addr) {
    IsWitness(p, a, o) && p.ops[o].afdEvents == AfdEvents(p.socks[a].registered)
  }

  /** As long as the newest operation is outstanding, some operation polls exactly the current interest. */
  ghost predicate Covered(p: Port) {
    forall a :: a in p.socks && p.socks[a].generation > 0 ==> exists o :: Covers(p, a, o)
  }

  /** Every undeleted operation is still with the kernel. */
  predicate AllPending(p: Port) { p.ops.Keys == p.inflight }

  ghost predicate Clean(p: Port) { Watched(p) && Covered(p) && AllPending(p) }

  /** Coverage of every registration other than `a`. */
  ghost predicate CoveredBut(p: Port, a: Addr) {
    forall b :: b in p.socks && b != a && p.socks[b].generation > 0 ==> exists o :: Covers(p, b, o)
  }

  lemma SubmitOpCovers(p: Port, a: Addr, t: Attempt)
    requires Inv(p) && CoveredBut(p, a) && AllPending(p) && a in p.socks && FreshAttempt(p, t) && t.accepted
    ensures SubmitOp(p, a, t).Ok? && Covered(SubmitOp(p, a, t).value.0) && AllPending(SubmitOp(p, a, t).value.0)
    ensures SubmitOp(p, a, t).value.0.socks[a].opCount > 0
  {
    var q := SubmitOp(p, a, t).value.0;
    assert Covers(q, a, t.op);
    forall b | b in q.socks && q.socks[b].generation > 0 && b != a
      ensures exists o :: Covers(q, b, o)
    {
      var o :| Covers(p, b, o);
      assert Covers(q, b, o);
    }
  }

  lemma CoversElsewhere(p: Port, q: Port, a: Addr)
    requires Covered(p) && q.ops == p.ops
    requires forall b :: b in q.socks && b != a ==> b in p.socks && q.socks[b] == p.socks[b]
    ensures CoveredBut(q, a)
  {
    forall b | b in q.socks && b != a && q.socks[b].generation > 0 ensures exists o :: Covers(q, b, o) {
      var o :| Covers(p, b, o);
      assert Covers(q, b, o);
    }
  }

  /** Coverage survives while covering operations stay and interest only changes on reset. */
  lemma CoverFrame(p: Port, q: Port)
    requires Covered(p)
    requires forall b :: b in q.socks && q.socks[b].generation > 0 ==>
      b in p.socks && q.socks[b].generation == p.socks[b].generation && q.socks[b].registered == p.socks[b].registered
    requires forall b, o :: Covers(p, b, o) && b in q.socks && q.socks[b].generation > 0 ==>
      o in q.ops && q.ops[o] == p.ops[o]
    ensures Covered(q)
  {
    forall b | b in q.socks && q.socks[b].generation > 0 ensures exists o :: Covers(q, b, o) {
      var o :| Covers(p, b, o);
      assert Covers(q, b, o);
    }
  }

  /** What a completion may change about other registrations and operations: nothing. */
  ghost predicate CompletionEffect(p: Port, o: Addr, q: Port)
    requires o in p.ops
  {
    var a := p.ops[o].sockData;
    && q.ops == p.ops - {o} && q.inflight == p.inflight - {o}
    && (forall b :: b in q.socks ==> b in p.socks && (b != a ==> q.socks[b] == p.socks[b]))
    && (forall b :: Registered(q, b) ==> Registered(p, b) && (b in p.attn ==> b in q.attn))
    && (a in q.socks && q.socks[a].generation > 0 ==>
          q.socks[a].generation == p.socks[a].generation && q.socks[a].registered == p.socks[a].registered
          && p.ops[o].generation != p.socks[a].generation)
    && (Registered(q, a) ==> q.socks[a].opCount > 0 || a in q.attn)
  }

  lemma DiscardHasEffect(p: Port, o: Addr, a: Addr)
    requires o in p.ops && p.ops[o].sockData == a && o !in p.inflight
    requires a in p.socks && p.socks[a].opCount >= 1 && p.socks[a].generation == 0 && !Registered(p, a)
    ensures Discard(p, o, a).Ok? && CompletionEffect(p, o, Discard(p, o, a).value)
  {}

  lemma RetireShape(p: Port, o: Addr, a: Addr, q: Port)
    requires o in p.ops && p.ops[o].sockData == a && Retire(p, o, a) == Ok(q) && p.socks[a].generation == 0
    ensures q.tree == p.tree && q.ops == p.ops - {o} && q.inflight == p.inflight && q.attn == p.attn + {a}
    ensures q.socks.Keys == p.socks.Keys && q.socks[a].sock == p.socks[a].sock && q.socks[a].generation == 0
    ensures forall b :: b in q.socks && b != a ==> q.socks[b] == p.socks[b]
  {}

  lemma RetireHasEffect(p: Port, o: Addr, a: Addr, q: Port)
    requires o in p.ops && p.ops[o].sockData == a && o !in p.inflight
    requires Registered(p, a) && p.socks[a].generation == 0
    requires q.tree == p.tree && q.ops == p.ops - {o} && q.inflight == p.inflight && q.attn == p.attn + {a}
    requires q.socks.Keys == p.socks.Keys && q.socks[a].sock == p.socks[a].sock && q.socks[a].generation == 0
    requires forall b :: b in q.socks && b != a ==> q.socks[b] == p.socks[b]
    ensures CompletionEffect(p, o, q)
  {}

  lemma RemoveEffect(p: Port, a: Addr, o: Addr)
    requires o in p.ops && p.ops[o].sockData == a && o !in p.inflight
    requires Registered(p, a) && p.socks[a].opCount >= 1 && p.socks[a].generation == 0
    ensures Remove(p, a).Ok? && !Registered(Remove(p, a).value, a)
    ensures Discard(Remove(p, a).value, o, a).Ok?
    ensures CompletionEffect(p, o, Discard(Remove(p, a).value, o, a).value)
  {
    var p1 := Remove(p, a).value;
    DiscardHasEffect(p1, o, a);
    var q := Discard(p1, o, a).value;
    assert forall b :: Registered(p1, b) ==> Registered(p, b) && b != a;
  }

  lemma CompleteCurrentHasEffect(p: Port, c: Completion, a: Addr)
    requires c.op in p.ops && p.ops[c.op].sockData == a && c.op !in p.inflight && c.success
    requires a in p.socks && p.socks[a].opCount >= 1 && p.socks[a].generation == 0
    ensures CompleteCurrent(p, c, a).Ok? && CompletionEffect(p, c.op, CompleteCurrent(p, c, a).value.0)
  {
    if !Registered(p, a) {
      DiscardHasEffect(p, c.op, a);
    } else if CompletedEvents(c) & AFD_POLL_LOCAL_CLOSE != 0 {
      RemoveEffect(p, a, c.op);
    } else {
      var q := Retire(p, c.op, a).value;
      RetireShape(p, c.op, a, q);
      RetireHasEffect(p, c.op, a, q);
    }
  }

  lemma CompleteHasEffect(p: Port, c: Completion)
    requires Inv(p) && c.op in p.inflight && c.success
    ensures Complete(p, c).Ok? && CompletionEffect(p, c.op, Complete(p, c).value.0)
  {
    var a := p.ops[c.op].sockData;
    assert c.op in OpsOf(p.ops, a);
    if p.ops[c.op].generation < p.socks[a].generation {
      SupersededIsNotLast(p, c.op);
    } else {
      CompleteCurrentHasEffect(ResetGeneration(HandBack(p, c.op), a).value, c, a);
    }
  }

  lemma EffectClean(p: Port, o: Addr, q: Port)
    requires Inv(p) && Clean(p) && o in p.ops && CompletionEffect(p, o, q)
    ensures Clean(q)
  {
    CoverFrame(p, q);
  }

  lemma {:induction false} WaitClean(p: Port, batch: seq<Completion>)
    requires Inv(p) && Clean(p) && HandsBack(p, batch) && (forall c :: c in batch ==> c.success)
    ensures WaitBatch(p, batch).Ok? && Clean(WaitBatch(p, batch).value.0)
  {
    if batch != [] {
      var n := |batch| - 1;
      BatchSplit(p, batch);
      WaitBatchKeeps(p, batch[..n]);
      WaitClean(p, batch[..n]);
      var p1 := WaitBatch(p, batch[..n]).value.0;
      CompleteHasEffect(p1, batch[n]);
      EffectClean(p1, batch[n].op, Complete(p1, batch[n]).value.0);
    }
  }

  lemma SubmitOpWatches(p: Port, a: Addr, t: Attempt)
    requires Inv(p) && a in p.socks && FreshAttempt(p, t) && t.accepted
    requires forall b :: b != a && Registered(p, b) ==> p.socks[b].opCount > 0 || b in p.attn
    ensures SubmitOp(p, a, t).Ok? && Watched(SubmitOp(p, a, t).value.0)
  {
    SubmitOpCounted(p, a, t);
  }

  lemma RegisterClean(p: Port, a: Addr, s: SockData, t: Attempt, q: Port)
    requires Inv(p) && Clean(p) && a !in p.socks && s.sock !in p.tree && s.opCount == 0 && s.generation == 0
    requires q == Register(p, a, s) && Inv(q) && FreshAttempt(q, t) && t.accepted
    ensures SubmitOp(q, a, t).Ok? && Clean(SubmitOp(q, a, t).value.0)
  {
    CoverFrame(p, q);
    SubmitOpCovers(q, a, t);
    SubmitOpWatches(q, a, t);
  }

  lemma AddClean(p: Port, sock: int, ev: bv32, user: nat, u: Setup, t: Attempt)
    requires Inv(p) && Clean(p) && FreshSetup(p, u) && FreshAttempt(p, t) && t.accepted
    ensures EpollAdd(p, sock, ev, user, u, t).Ok? && Clean(EpollAdd(p, sock, ev, user, u, t).value.0)
  {
    if sock !in p.tree && u.usable {
      var s := SockData(sock, ev | EPOLLERR | EPOLLHUP, 0, user, 0);
      var q := Register(p, u.sockData, s);
      RegisterKeeps(p, u.sockData, s);
      RegisterClean(p, u.sockData, s, t, q);
    }
  }

  /** A modification changes the interest, so it is the new operation that covers it. */
  lemma ModClean(p: Port, sock: int, ev: bv32, user: nat, u: Setup, t: Attempt)
    requires Inv(p) && Clean(p) && FreshSetup(p, u) && FreshAttempt(p, t) && t.accepted
    ensures EpollMod(p, sock, ev, user, u, t).Ok? && Clean(EpollMod(p, sock, ev, user, u, t).value.0)
  {
    if sock in p.tree {
      var a := p.tree[sock];
      var s := p.socks[a].(registered := ev | EPOLLERR | EPOLLHUP, user := user);
      var q := p.(socks := p.socks[a := s]);
      RetouchKeeps(p, a, s);
      CoversElsewhere(p, q, a);
      SubmitOpCovers(q, a, t);
      SubmitOpWatches(q, a, t);
    } else {
      AddClean(p, sock, ev, user, u, t);
    }
  }

  lemma DelClean(p: Port, sock: int)
    requires Inv(p) && Clean(p)
    ensures EpollDel(p, sock).Ok? && Clean(EpollDel(p, sock).value.0)
  {
    if sock in p.tree {
      var a := p.tree[sock];
      var q := Remove(p, a).value;
      CoverFrame(p, q);
      assert forall b :: Registered(q, b) ==> Registered(p, b) && b != a;
    }
  }

  /** Every entry visited by the loop of `submit` ends up with an operation. */
  ghost predicate Visited(p: Port, order: seq<Attention>) {
    forall i :: 0 <= i < |order| ==> order[i].entry in p.socks && p.socks[order[i].entry].opCount > 0
  }

  lemma SubmitEntryClean(p: Port, e: Attention)
    requires Inv(p) && Clean(p) && e.entry in p.attn && FreshAttempt(p, e.attempt) && e.attempt.accepted
    ensures SubmitEntry(p, e).Ok? && Clean(SubmitEntry(p, e).value)
    ensures var q := SubmitEntry(p, e).value;
      && e.entry in q.socks && q.socks[e.entry].opCount > 0 && q.attn == p.attn
      && forall b :: b in p.socks ==> b in q.socks && q.socks[b].opCount >= p.socks[b].opCount
  {
    if p.socks[e.entry].opCount == 0 {
      SubmitOpCovers(p, e.entry, e.attempt);
      SubmitOpWatches(p, e.entry, e.attempt);
    }
  }

  lemma VisitedExtend(p: Port, q: Port, order: seq<Attention>, e: Attention)
    requires Visited(p, order) && e.entry in q.socks && q.socks[e.entry].opCount > 0
    requires forall b :: b in p.socks ==> b in q.socks && q.socks[b].opCount >= p.socks[b].opCount
    ensures Visited(q, order + [e])
  {}

  lemma SubmitNextClean(p: Port, order: seq<Attention>, e: Attention, q: Port)
    requires Inv(p) && Clean(p) && Visited(p, order) && e.entry in p.attn
    requires FreshAttempt(p, e.attempt) && e.attempt.accepted && SubmitEntry(p, e) == Ok(q)
    ensures Clean(q) && q.attn == p.attn && Visited(q, order + [e])
  {
    SubmitEntryClean(p, e);
    VisitedExtend(p, q, order, e);
  }

  lemma {:induction false} SubmitEntriesClean(p: Port, order: seq<Attention>, q: Port)
    requires Inv(p) && Clean(p) && FreshAttempts(p, order) && SubmitEntries(p, order) == Ok(q)
    requires forall e :: e in order ==> e.entry in p.attn && e.attempt.accepted
    ensures Clean(q) && q.attn == p.attn && Visited(q, order)
  {
    hide Inv, Clean, SubmitEntry;
    if order != [] {
      var n := |order| - 1;
      var p1 := SubmitEntries(p, order[..n]).value;
      assert SubmitEntry(p1, order[n]) == Ok(q);
      SubmitEntriesKeeps(p, order[..n]);
      SubmitEntriesClean(p, order[..n], p1);
      FreshAfter(p, order, p1);
      assert order == order[..n] + [order[n]];
      SubmitNextClean(p1, order[..n], order[n], q);
    }
  }

  lemma FreshAfter(p: Port, order: seq<Attention>, q: Port)
    requires order != [] && FreshAttempts(p, order)
    requires q.ops.Keys <= p.ops.Keys + set e | e in order[..|order| - 1] :: e.attempt.op
    ensures FreshAttempt(q, order[|order| - 1].attempt)
  {}

  /** Every registered socket has an operation with the kernel. */
  ghost predicate AllPolled(p: Port) {
    forall a :: Registered(p, a) ==> exists o :: o in p.inflight && o in p.ops && p.ops[o].sockData == a
  }

  lemma SubmitAllClean(p: Port, order: seq<Attention>)
    requires Inv(p) && Clean(p) && Iterates(p, order) && (forall e :: e in order ==> e.attempt.accepted)
    ensures SubmitAll(p, order).Ok? && Clean(SubmitAll(p, order).value) && AllPolled(SubmitAll(p, order).value)
  {
    SubmitEntriesKeeps(p, order);
    var q := SubmitEntries(p, order).value;
    SubmitEntriesClean(p, order, q);
    var r := q.(attn := {});
    CoverFrame(q, r);
    forall a | Registered(r, a) ensures r.socks[a].opCount > 0 {
      assert Registered(q, a);
      if a in q.attn {
        var i :| 0 <= i < |order| && order[i].entry == a;
      }
    }
    forall a | Registered(r, a) ensures exists o :: o in r.inflight && o in r.ops && r.ops[o].sockData == a {
      assert OpsOf(r.ops, a) != {};
      var o :| o in OpsOf(r.ops, a);
    }
  }

  lemma StepClean(p: Port, x: Action)
    requires Inv(p) && Clean(p) && Enabled(p, x) && Benign(x)
    ensures Step(p, x).Ok? && Clean(Step(p, x).value)
    ensures x.Submit? ==> AllPolled(Step(p, x).value)
  {
    match x
    case Add(sock, ev, user, u, t) => AddClean(p, sock, ev, user, u, t);
    case Mod(sock, ev, user, u, t) => ModClean(p, sock, ev, user, u, t);
    case Del(sock) => DelClean(p, sock);
    case Submit(order) => SubmitAllClean(p, order);
    case Wait(batch) => WaitClean(p, batch);
  }

  lemma {:induction false} RunClean(p: Port, xs: seq<Action>)
    requires Inv(p) && Clean(p) && Legal(p, xs) && (forall x :: x in xs ==> Benign(x))
    ensures Run(p, xs).Ok? && Clean(Run(p, xs).value)
    decreases |xs|
  {
    if xs != [] {
      StepKeeps(p, xs[0]);
      StepClean(p, xs[0]);
      RunClean(Step(p, xs[0]).value, xs[1..]);
    }
  }

  /** After any benign history, the submission that precedes a dequeue leaves no registered socket unpolled. */
  lemma NothingGoesUnwatched(xs: seq<Action>, order: seq<Attention>)
    requires Legal(EmptyPort, xs) && forall x :: x in xs ==> Benign(x)
    requires Run(EmptyPort, xs).Ok? && Iterates(Run(EmptyPort, xs).value, order)
    requires forall e :: e in order ==> e.attempt.accepted
    ensures SubmitAll(Run(EmptyPort, xs).value, order).Ok?
    ensures AllPolled(SubmitAll(Run(EmptyPort, xs).value, order).value)
  {
    NoUseAfterFree(EmptyPort, xs);
    RunClean(EmptyPort, xs);
    SubmitAllClean(Run(EmptyPort, xs).value, order);
  }

  /** Polled is not the same as polled for the current interest: while an older operation of the socket
      is outstanding, the attention list does not submit again. `EpollInterest` has the exact condition. */
  lemma OlderOpBlocksResubmission(p: Port, c: Completion, a: Addr, q: Port, t: Attempt)
    requires Inv(p) && c.op in p.inflight && Registered(p, a) && c.op in OpsOf(p.ops, a) && OpsOf(p.ops, a) != {c.op}
    requires c.success && CompletedEvents(c) & AFD_POLL_LOCAL_CLOSE == 0
    requires p.ops[c.op].generation >= p.socks[a].generation
    requires Complete(p, c).Ok? && q == Complete(p, c).value.0
    ensures a in q.attn && SubmitEntry(q, Attention(a, t)) == Ok(q)
    ensures OpsOf(q.ops, a) == OpsOf(p.ops, a) - {c.op}
  {
    OpsOfDelete(p.ops, c.op);
    if p.socks[a].opCount == 1 { SingletonIs(OpsOf(p.ops, a), c.op); }
  }
}
