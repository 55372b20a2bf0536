/** What every run of the epoll emulation keeps, for every allocator, every completion order and
    every completion status. */
module EpollInvariants {
  import opened Sizes
  import opened Epoll

  // ---------------------------------------------------------------------------------------------
  // The invariant

  /** The undeleted operations of registration `a`. */
  function OpsOf(ops: map<Addr, Op>, a: Addr): set<Addr> {
    set o | o in ops && ops[o].sockData == a
  }

  /** No stored pointer leads to freed memory. */
  ghost predicate NoDangling(p: Port) {
    && (forall k :: k in p.tree ==> p.tree[k] in p.socks && p.socks[p.tree[k]].sock == k)
    && (forall a :: a in p.attn ==> Registered(p, a))
    && (forall o :: o in p.ops ==> p.ops[o].sockData in p.socks)
    && p.inflight <= p.ops.Keys
  }

  /** `_op_count` is the number of undeleted operations. */
  ghost predicate Counted(p: Port) {
    forall a :: a in p.socks ==> p.socks[a].opCount == |OpsOf(p.ops, a)|
  }

  predicate IsWitness(p: Port, a: Addr, o: Addr) {
    a in p.socks && o in p.ops && p.ops[o].sockData == a && p.ops[o].generation == p.socks[a].generation
  }

  /** A positive `_op_generation` is the generation of some undeleted operation. */
  ghost predicate Witnessed(p: Port) {
    forall a :: a in p.socks && p.socks[a].generation > 0 ==> exists o :: IsWitness(p, a, o)
  }

  ghost predicate Inv(p: Port) {
    NoDangling(p) && Counted(p) && Witnessed(p)
  }

  // ---------------------------------------------------------------------------------------------
  // Frames

  lemma OpsOfAdd(ops: map<Addr, Op>, o: Addr, op: Op)
    requires o !in ops
    ensures OpsOf(ops[o := op], op.sockData) == OpsOf(ops, op.sockData) + {o}
    ensures |OpsOf(ops[o := op], op.sockData)| == |OpsOf(ops, op.sockData)| + 1
    ensures forall b :: b != op.sockData ==> OpsOf(ops[o := op], b) == OpsOf(ops, b)
  {
    var ops' := ops[o := op];
    assert OpsOf(ops', op.sockData) == OpsOf(ops, op.sockData) + {o};
    forall b | b != op.sockData ensures OpsOf(ops', b) == OpsOf(ops, b) {
      assert forall x :: x in OpsOf(ops', b) <==> x in OpsOf(ops, b);
    }
  }

  lemma OpsOfDelete(ops: map<Addr, Op>, o: Addr)
    requires o in ops
    ensures OpsOf(ops - {o}, ops[o].sockData) == OpsOf(ops, ops[o].sockData) - {o}
    ensures |OpsOf(ops - {o}, ops[o].sockData)| == |OpsOf(ops, ops[o].sockData)| - 1
    ensures forall b :: b != ops[o].sockData ==> OpsOf(ops - {o}, b) == OpsOf(ops, b)
  {
    var a := ops[o].sockData;
    var ops' := ops - {o};
    assert OpsOf(ops', a) == OpsOf(ops, a) - {o};
    assert o in OpsOf(ops, a);
    forall b | b != a ensures OpsOf(ops', b) == OpsOf(ops, b) {
      assert forall x :: x in OpsOf(ops', b) <==> x in OpsOf(ops, b);
    }
  }

  /** Witnesses survive as long as the operations they are stay and generations only reset. */
  lemma WitnessFrame(p: Port, q: Port)
    requires Witnessed(p)
    requires forall b :: b in q.socks ==>
      q.socks[b].generation == 0 || (b in p.socks && q.socks[b].generation == p.socks[b].generation)
    requires forall b, o :: IsWitness(p, b, o) && b in q.socks && q.socks[b].generation > 0 ==>
      o in q.ops && q.ops[o] == p.ops[o]
    ensures Witnessed(q)
  {
    forall b | b in q.socks && q.socks[b].generation > 0 ensures exists o :: IsWitness(q, b, o) {
      var o :| IsWitness(p, b, o);
      assert IsWitness(q, b, o);
    }
  }

  // ---------------------------------------------------------------------------------------------
  // The small updates the operations are made of

  lemma SubmitOpCounted(p: Port, a: Addr, t: Attempt)
    requires Counted(p) && a in p.socks && FreshAttempt(p, t)
    ensures SubmitOp(p, a, t).Ok? && Counted(SubmitOp(p, a, t).value.0)
  {
    if t.accepted {
      var s := p.socks[a];
      OpsOfAdd(p.ops, t.op, Op(NextGeneration(s.generation), a, AfdEvents(s.registered)));
    }
  }

  lemma SubmitOpWitnessed(p: Port, a: Addr, t: Attempt)
    requires Witnessed(p) && a in p.socks && FreshAttempt(p, t)
    ensures SubmitOp(p, a, t).Ok? && Witnessed(SubmitOp(p, a, t).value.0)
  {
    if t.accepted {
      var q := SubmitOp(p, a, t).value.0;
      assert IsWitness(q, a, t.op);
      forall b | b in q.socks && q.socks[b].generation > 0 && b != a
        ensures exists o :: IsWitness(q, b, o)
      {
        var o :| IsWitness(p, b, o);
        assert IsWitness(q, b, o);
      }
    }
  }

  lemma SubmitOpKeeps(p: Port, a: Addr, t: Attempt)
    requires Inv(p) && a in p.socks && FreshAttempt(p, t)
    ensures SubmitOp(p, a, t).Ok? && Inv(SubmitOp(p, a, t).value.0)
  {
    SubmitOpCounted(p, a, t);
    SubmitOpWitnessed(p, a, t);
  }

  /** Rewriting interest and user data, or resetting the generation, keeps the invariant. */
  lemma RetouchKeeps(p: Port, a: Addr, s: SockData)
    requires Inv(p) && a in p.socks
    requires s.sock == p.socks[a].sock && s.opCount == p.socks[a].opCount
    requires s.generation == p.socks[a].generation || s.generation == 0
    ensures Inv(p.(socks := p.socks[a := s]))
  {
    WitnessFrame(p, p.(socks := p.socks[a := s]));
  }

  /** Handing an operation back shrinks the set of operations the kernel holds. */
  lemma HandBackKeeps(p: Port, o: Addr)
    requires Inv(p)
    ensures Inv(HandBack(p, o))
  {
    WitnessFrame(p, HandBack(p, o));
  }

  lemma RegisterCounted(p: Port, a: Addr, s: SockData)
    requires Inv(p) && a !in p.socks && s.opCount == 0
    ensures Counted(Register(p, a, s))
  {
    assert OpsOf(p.ops, a) == {};
  }

  /** A new registration starts without operations. */
  lemma RegisterKeeps(p: Port, a: Addr, s: SockData)
    requires Inv(p) && a !in p.socks && s.sock !in p.tree && s.generation == 0 && s.opCount == 0
    ensures Inv(Register(p, a, s))
  {
    RegisterCounted(p, a, s);
    WitnessFrame(p, Register(p, a, s));
  }

  lemma RemoveKeeps(p: Port, a: Addr)
    requires Inv(p) && Registered(p, a)
    ensures Remove(p, a).Ok? && Inv(Remove(p, a).value) && !Registered(Remove(p, a).value, a)
  {
    WitnessFrame(p, Remove(p, a).value);
  }

  lemma AttendKeeps(p: Port, a: Addr)
    requires Inv(p) && Registered(p, a)
    ensures Attend(p, a).Ok? && Inv(Attend(p, a).value)
  {
    WitnessFrame(p, Attend(p, a).value);
  }

  lemma DeleteOpCounted(p: Port, o: Addr)
    requires Counted(p) && o in p.ops && p.ops[o].sockData in p.socks
    ensures DeleteOp(p, o).Ok? && Counted(DeleteOp(p, o).value)
  {
    assert o in OpsOf(p.ops, p.ops[o].sockData);
    OpsOfDelete(p.ops, o);
  }

  lemma DeleteOpWitnessed(p: Port, o: Addr)
    requires Witnessed(p) && DeleteOp(p, o).Ok?
    requires var s := p.socks[p.ops[o].sockData]; s.generation == 0 || p.ops[o].generation != s.generation
    ensures Witnessed(DeleteOp(p, o).value)
  {
    WitnessFrame(p, DeleteOp(p, o).value);
  }

  /** An operation that does not witness its registration's generation can be deleted. */
  lemma DeleteOpKeeps(p: Port, o: Addr)
    requires Inv(p) && o in p.ops && o !in p.inflight
    requires var s := p.socks[p.ops[o].sockData]; s.generation == 0 || p.ops[o].generation != s.generation
    ensures DeleteOp(p, o).Ok? && Inv(DeleteOp(p, o).value)
  {
    DeleteOpCounted(p, o);
    DeleteOpWitnessed(p, o);
  }

  /** A registration without operations that left the tree is referenced by nothing. */
  lemma FreeKeeps(p: Port, a: Addr)
    requires Inv(p) && a in p.socks && !Registered(p, a)
    ensures FreeIfIdle(p, a).Ok? && Inv(FreeIfIdle(p, a).value)
  {
    if p.socks[a].opCount == 0 {
      assert OpsOf(p.ops, a) == {};
      assert forall o :: o in p.ops && p.ops[o].sockData == a ==> o in OpsOf(p.ops, a);
      WitnessFrame(p, FreeIfIdle(p, a).value);
    }
  }

  /** Discarding a superseded operation never takes the count to zero. */
  lemma SupersededIsNotLast(p: Port, o: Addr)
    requires Inv(p) && o in p.ops && p.ops[o].generation < p.socks[p.ops[o].sockData].generation
    ensures p.socks[p.ops[o].sockData].opCount >= 2
  {
    var a := p.ops[o].sockData;
    var w :| IsWitness(p, a, w);
    SubsetSize({o, w}, OpsOf(p.ops, a));
  }

  // ---------------------------------------------------------------------------------------------
  // Every operation keeps the invariant and never faults

  lemma AddKeeps(p: Port, sock: int, ev: bv32, user: nat, u: Setup, t: Attempt)
    requires Inv(p) && FreshSetup(p, u) && FreshAttempt(p, t)
    ensures EpollAdd(p, sock, ev, user, u, t).Ok? && Inv(EpollAdd(p, sock, ev, user, u, t).value.0)
  {
    if sock !in p.tree && u.usable {
      var s := SockData(sock, ev | EPOLLERR | EPOLLHUP, 0, user, 0);
      RegisterKeeps(p, u.sockData, s);
      SubmitOpKeeps(Register(p, u.sockData, s), u.sockData, t);
    }
  }

  lemma ModKeeps(p: Port, sock: int, ev: bv32, user: nat, u: Setup, t: Attempt)
    requires Inv(p) && FreshSetup(p, u) && FreshAttempt(p, t)
    ensures EpollMod(p, sock, ev, user, u, t).Ok? && Inv(EpollMod(p, sock, ev, user, u, t).value.0)
  {
    if sock in p.tree {
      var a := p.tree[sock];
      var s := p.socks[a].(registered := ev | EPOLLERR | EPOLLHUP, user := user);
      RetouchKeeps(p, a, s);
      SubmitOpKeeps(p.(socks := p.socks[a := s]), a, t);
    } else {
      AddKeeps(p, sock, ev, user, u, t);
    }
  }

  lemma DelKeeps(p: Port, sock: int)
    requires Inv(p)
    ensures EpollDel(p, sock).Ok? && Inv(EpollDel(p, sock).value.0)
  {
    if sock in p.tree {
      RemoveKeeps(p, p.tree[sock]);
    }
  }

  lemma DiscardKeeps(p: Port, o: Addr, a: Addr)
    requires Inv(p) && o in p.ops && o !in p.inflight && p.ops[o].sockData == a
    requires p.socks[a].generation == 0 && !Registered(p, a)
    ensures Discard(p, o, a).Ok? && Inv(Discard(p, o, a).value)
  {
    DeleteOpKeeps(p, o);
    FreeKeeps(DeleteOp(p, o).value, a);
  }

  lemma RetireKeeps(p: Port, o: Addr, a: Addr)
    requires Inv(p) && o in p.ops && o !in p.inflight && p.ops[o].sockData == a
    requires p.socks[a].generation == 0 && Registered(p, a)
    ensures Retire(p, o, a).Ok? && Inv(Retire(p, o, a).value)
  {
    DeleteOpKeeps(p, o);
    var p1 := DeleteOp(p, o).value;
    AttendKeeps(p1, a);
  }

  lemma CompleteCurrentKeeps(p: Port, c: Completion, a: Addr)
    requires Inv(p) && c.op in p.ops && c.op !in p.inflight && p.ops[c.op].sockData == a
    requires p.socks[a].generation == 0
    ensures CompleteCurrent(p, c, a).Ok? && Inv(CompleteCurrent(p, c, a).value.0)
  {
    if !Registered(p, a) {
      DiscardKeeps(p, c.op, a);
    } else if c.success && CompletedEvents(c) & AFD_POLL_LOCAL_CLOSE != 0 {
      RemoveKeeps(p, a);
      DiscardKeeps(Remove(p, a).value, c.op, a);
    } else if c.success {
      RetireKeeps(p, c.op, a);
    }
  }

  /** One completion, whatever its operation, order and status, keeps the invariant. */
  lemma CompleteKeeps(p: Port, c: Completion)
    requires Inv(p) && c.op in p.inflight
    ensures Complete(p, c).Ok? && Inv(Complete(p, c).value.0)
  {
    HandBackKeeps(p, c.op);
    var p1 := HandBack(p, c.op);
    var a := p.ops[c.op].sockData;
    if p.ops[c.op].generation < p.socks[a].generation {
      DeleteOpKeeps(p1, c.op);
    } else {
      RetouchKeeps(p1, a, p1.socks[a].(generation := 0));
      CompleteCurrentKeeps(ResetGeneration(p1, a).value, c, a);
    }
  }

  lemma CompleteHandsBack(p: Port, c: Completion)
    requires Complete(p, c).Ok?
    ensures Complete(p, c).value.0.inflight == p.inflight - {c.op}
  {}

  function BatchOps(batch: seq<Completion>): set<Addr> {
    set c | c in batch :: c.op
  }

  lemma BatchSplit(p: Port, batch: seq<Completion>)
    requires batch != [] && HandsBack(p, batch)
    ensures var n := |batch| - 1;
      && HandsBack(p, batch[..n]) && batch[n].op in p.inflight - BatchOps(batch[..n])
      && BatchOps(batch) == BatchOps(batch[..n]) + {batch[n].op}
  {
    var n := |batch| - 1;
    assert batch == batch[..n] + [batch[n]];
    assert batch[n].op in BatchOps(batch);
  }

  lemma {:induction false} WaitBatchKeeps(p: Port, batch: seq<Completion>)
    requires Inv(p) && HandsBack(p, batch)
    ensures WaitBatch(p, batch).Ok? && Inv(WaitBatch(p, batch).value.0)
    ensures WaitBatch(p, batch).value.0.inflight == p.inflight - BatchOps(batch)
  {
    if batch != [] {
      var n := |batch| - 1;
      BatchSplit(p, batch);
      WaitBatchKeeps(p, batch[..n]);
      var p1 := WaitBatch(p, batch[..n]).value.0;
      CompleteKeeps(p1, batch[n]);
      CompleteHandsBack(p1, batch[n]);
    }
  }

  lemma SubmitEntryKeeps(p: Port, e: Attention)
    requires Inv(p) && e.entry in p.attn && FreshAttempt(p, e.attempt)
    ensures SubmitEntry(p, e).Ok? && Inv(SubmitEntry(p, e).value)
    ensures var q := SubmitEntry(p, e).value; q.attn == p.attn && q.ops.Keys <= p.ops.Keys + {e.attempt.op}
  {
    if p.socks[e.entry].opCount == 0 {
      SubmitOpKeeps(p, e.entry, e.attempt);
    }
  }

  lemma {:induction false} SubmitEntriesKeeps(p: Port, order: seq<Attention>)
    requires Inv(p) && FreshAttempts(p, order) && (forall e :: e in order ==> e.entry in p.attn)
    ensures SubmitEntries(p, order).Ok? && Inv(SubmitEntries(p, order).value)
    ensures var q := SubmitEntries(p, order).value;
      q.attn == p.attn && q.ops.Keys <= p.ops.Keys + set e | e in order :: e.attempt.op
  {
    if order != [] {
      var n := |order| - 1;
      SubmitEntriesKeeps(p, order[..n]);
      SubmitEntryKeeps(SubmitEntries(p, order[..n]).value, order[n]);
    }
  }

  lemma SubmitAllKeeps(p: Port, order: seq<Attention>)
    requires Inv(p) && Iterates(p, order)
    ensures SubmitAll(p, order).Ok? && Inv(SubmitAll(p, order).value)
  {
    SubmitEntriesKeeps(p, order);
    var q := SubmitEntries(p, order).value;
    WitnessFrame(q, q.(attn := {}));
  }
}
