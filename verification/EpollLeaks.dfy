/** An exact account of the registrations that leak: out of the tree, with nothing in flight that could
    free them. */
module EpollLeaks {
  import opened Outcomes
  import opened Sizes
  import opened Epoll
  import opened EpollInvariants
  import opened EpollRuns
  import opened EpollStranded

  function InFlightOf(p: Port, a: Addr): set<Addr> { OpsOf(p.ops, a) * p.inflight }

  /** Not in the tree, and no completion to come: the heap holds them, no code can reach them. */
  function Leaked(p: Port): set<Addr> {
    set a | a in p.socks && !Registered(p, a) && InFlightOf(p, a) == {}
  }

  // ---------------------------------------------------------------------------------------------
  // One completion

  /** A current completion of a registered socket that was closed locally: the registration leaves the tree. */
  predicate Closes(p: Port, c: Completion, a: Addr) {
    && Registered(p, a) && c.op in p.ops && p.ops[c.op].generation >= p.socks[a].generation
    && c.success && CompletedEvents(c) & AFD_POLL_LOCAL_CLOSE != 0
  }

  /** The registration a completion leaves behind for good: it is, or gets, out of the tree, this was its
      last operation in flight, and it still owns one that an error stranded. */
  function LeaksByCompletion(p: Port, c: Completion): set<Addr> {
    if c.op !in p.ops then {}
    else
      var a := p.ops[c.op].sockData;
      if a in p.socks && (!Registered(p, a) || Closes(p, c, a))
       && InFlightOf(p, a) == {c.op} && OpsOf(p.ops, a) != {c.op}
      then {a} else {}
  }

  lemma CountIsOne(p: Port, a: Addr, o: Addr)
    requires Counted(p) && a in p.socks && o in OpsOf(p.ops, a)
    ensures p.socks[a].opCount == 1 <==> OpsOf(p.ops, a) == {o}
  {
    if p.socks[a].opCount == 1 { SingletonIs(OpsOf(p.ops, a), o); }
  }

  /** `find` looks at the tree and the socket number only. */
  ghost predicate SameNumbers(p: Port, q: Port) {
    q.socks.Keys <= p.socks.Keys && forall b :: b in q.socks ==> q.socks[b].sock == p.socks[b].sock
  }

  lemma DiscardShape(p: Port, o: Addr, a: Addr)
    requires o in p.ops && p.ops[o].sockData == a && a in p.socks && p.socks[a].opCount >= 1
    ensures Discard(p, o, a).Ok?
    ensures var q := Discard(p, o, a).value;
      && q.tree == p.tree && SameNumbers(p, q)
      && q.socks.Keys == p.socks.Keys - (if p.socks[a].opCount == 1 then {a} else {})
  {}

  lemma CloseShape(p: Port, o: Addr, a: Addr)
    requires o in p.ops && p.ops[o].sockData == a && a in p.socks && p.socks[a].opCount >= 1
    ensures Remove(p, a).Ok? && Discard(Remove(p, a).value, o, a).Ok?
    ensures var q := Discard(Remove(p, a).value, o, a).value;
      && q.tree == p.tree - {p.socks[a].sock} && SameNumbers(p, q)
      && q.socks.Keys == p.socks.Keys - (if p.socks[a].opCount == 1 then {a} else {})
  {
    hide Discard;
    DiscardShape(Remove(p, a).value, o, a);
  }

  lemma RetireShape(p: Port, o: Addr, a: Addr)
    requires o in p.ops && p.ops[o].sockData == a && a in p.socks && p.socks[a].opCount >= 1
    ensures Retire(p, o, a).Ok?
    ensures var q := Retire(p, o, a).value; q.tree == p.tree && SameNumbers(p, q) && q.socks.Keys == p.socks.Keys
  {}

  lemma CurrentShape(p: Port, c: Completion, a: Addr)
    requires c.op in p.ops && p.ops[c.op].sockData == a && a in p.socks && p.socks[a].opCount >= 1
    requires p.socks[a].generation == 0
    ensures CompleteCurrent(p, c, a).Ok?
    ensures var q := CompleteCurrent(p, c, a).value.0;
      && q.tree == (if Closes(p, c, a) then p.tree - {p.socks[a].sock} else p.tree) && SameNumbers(p, q)
      && q.socks.Keys == p.socks.Keys
           - (if (!Registered(p, a) || Closes(p, c, a)) && p.socks[a].opCount == 1 then {a} else {})
  {
    hide Discard, Retire, Remove, Registered;
    if !Registered(p, a) {
      DiscardShape(p, c.op, a);
    } else if Closes(p, c, a) {
      CloseShape(p, c.op, a);
    } else {
      RetireShape(p, c.op, a);
    }
  }

  /** What one completion does to tree and registrations. */
  lemma CompleteShape(p: Port, c: Completion, a: Addr)
    requires Inv(p) && c.op in p.inflight && a == p.ops[c.op].sockData
    ensures Complete(p, c).Ok?
    ensures var q := Complete(p, c).value.0;
      && q.tree == (if Closes(p, c, a) then p.tree - {p.socks[a].sock} else p.tree) && SameNumbers(p, q)
      && q.socks.Keys == p.socks.Keys
           - (if (!Registered(p, a) || Closes(p, c, a)) && OpsOf(p.ops, a) == {c.op} then {a} else {})
  {
    hide CompleteCurrent;
    assert c.op in OpsOf(p.ops, a);
    CountIsOne(p, a, c.op);
    assert p.socks[a].opCount >= 1 by { SubsetSize({c.op}, OpsOf(p.ops, a)); }
    if p.ops[c.op].generation < p.socks[a].generation {
      SupersededIsNotLast(p, c.op);
    } else {
      var p1 := ResetGeneration(HandBack(p, c.op), a).value;
      assert Closes(p1, c, a) <==> Closes(p, c, a);
      CurrentShape(p1, c, a);
    }
  }

  lemma OthersInFlight(p: Port, q: Port, o: Addr, b: Addr)
    requires o in p.ops && (q.ops == p.ops || q.ops == p.ops - {o}) && q.inflight == p.inflight - {o}
    ensures InFlightOf(q, b) == InFlightOf(p, b) - {o}
  {}

  /** A completion leaks exactly this much, and frees nothing that had leaked. */
  lemma CompletionLeaks(p: Port, c: Completion)
    requires Inv(p) && c.op in p.inflight
    ensures Complete(p, c).Ok? && Leaked(Complete(p, c).value.0) == Leaked(p) + LeaksByCompletion(p, c)
  {
    hide Complete;
    var a := p.ops[c.op].sockData;
    CompleteShape(p, c, a);
    CompleteTouches(p, c);
    var q := Complete(p, c).value.0;
    LeaksFromShape(p, c, a, q);
  }

  lemma RegisteredAfter(p: Port, c: Completion, a: Addr, q: Port, b: Addr)
    requires NoDangling(p) && a in p.socks && SameNumbers(p, q) && b in q.socks
    requires q.tree == if Closes(p, c, a) then p.tree - {p.socks[a].sock} else p.tree
    ensures Registered(q, b) <==> Registered(p, b) && !(b == a && Closes(p, c, a))
  {}

  ghost predicate Shaped(p: Port, c: Completion, a: Addr, q: Port) {
    && a in p.socks && SameNumbers(p, q)
    && q.tree == (if Closes(p, c, a) then p.tree - {p.socks[a].sock} else p.tree)
    && q.socks.Keys == p.socks.Keys
         - (if (!Registered(p, a) || Closes(p, c, a)) && OpsOf(p.ops, a) == {c.op} then {a} else {})
  }

  lemma OtherLeaks(p: Port, c: Completion, a: Addr, q: Port, b: Addr)
    requires NoDangling(p) && Shaped(p, c, a, q) && c.op in p.ops && p.ops[c.op].sockData == a && b != a
    requires InFlightOf(q, b) == InFlightOf(p, b) - {c.op}
    ensures b in Leaked(q) <==> b in Leaked(p)
  {
    hide Closes, Registered;
    if b in q.socks { RegisteredAfter(p, c, a, q, b); }
    assert c.op !in OpsOf(p.ops, b);
    assert InFlightOf(q, b) == InFlightOf(p, b);
  }

  lemma OwnLeaks(p: Port, c: Completion, a: Addr, q: Port)
    requires NoDangling(p) && Shaped(p, c, a, q) && c.op in p.inflight && p.ops[c.op].sockData == a
    requires InFlightOf(q, a) == InFlightOf(p, a) - {c.op}
    ensures a !in Leaked(p) && (a in Leaked(q) <==> a in LeaksByCompletion(p, c))
  {
    hide Closes, Registered;
    assert c.op in InFlightOf(p, a);
    if a in q.socks { RegisteredAfter(p, c, a, q, a); }
    assert Closes(p, c, a) ==> Registered(p, a) by { ClosesRegistered(p, c, a); }
    if OpsOf(p.ops, a) == {c.op} { assert InFlightOf(p, a) == {c.op}; }
  }

  lemma ClosesRegistered(p: Port, c: Completion, a: Addr)
    ensures Closes(p, c, a) ==> Registered(p, a)
  {}

  lemma LeaksFromShape(p: Port, c: Completion, a: Addr, q: Port)
    requires NoDangling(p) && c.op in p.inflight && a == p.ops[c.op].sockData && Shaped(p, c, a, q)
    requires (q.ops == p.ops || q.ops == p.ops - {c.op}) && q.inflight == p.inflight - {c.op}
    ensures Leaked(q) == Leaked(p) + LeaksByCompletion(p, c)
  {
    hide Leaked, InFlightOf, Shaped, Registered, Closes;
    OthersInFlight(p, q, c.op, a);
    OwnLeaks(p, c, a, q);
    forall b ensures b in Leaked(q) <==> b in Leaked(p) + LeaksByCompletion(p, c) {
      if b != a {
        OthersInFlight(p, q, c.op, b);
        OtherLeaks(p, c, a, q, b);
      }
    }
  }

  // ---------------------------------------------------------------------------------------------
  // Every step

  function LeaksByBatch(p: Port, batch: seq<Completion>): set<Addr> {
    if batch == [] then {}
    else
      var init := batch[..|batch| - 1];
      LeaksByBatch(p, init)
      + if WaitBatch(p, init).Ok? then LeaksByCompletion(WaitBatch(p, init).value.0, batch[|batch| - 1]) else {}
  }

  /** Deleting a socket leaks its registration exactly when nothing of it is in flight. */
  function LeaksByDel(p: Port, sock: int): set<Addr> {
    if sock in p.tree && InFlightOf(p, p.tree[sock]) == {} then {p.tree[sock]} else {}
  }

  function LeaksBy(p: Port, x: Action): set<Addr> {
    match x
    case Del(sock) => LeaksByDel(p, sock)
    case Wait(batch) => LeaksByBatch(p, batch)
    case _ => {}
  }

  lemma {:induction false} WaitLeaks(p: Port, batch: seq<Completion>)
    requires Inv(p) && HandsBack(p, batch)
    ensures WaitBatch(p, batch).Ok? && Leaked(WaitBatch(p, batch).value.0) == Leaked(p) + LeaksByBatch(p, batch)
  {
    hide Complete, LeaksByCompletion, Leaked;
    if batch != [] {
      var n := |batch| - 1;
      BatchSplit(p, batch);
      WaitBatchKeeps(p, batch[..n]);
      WaitLeaks(p, batch[..n]);
      CompletionLeaks(WaitBatch(p, batch[..n]).value.0, batch[n]);
    }
  }

  /** Only registered sockets are submitted, so submitting changes nothing about the leaked ones. */
  lemma SubmitOpLeaks(p: Port, a: Addr, t: Attempt)
    requires NoDangling(p) && Registered(p, a) && FreshAttempt(p, t)
    ensures SubmitOp(p, a, t).Ok? && Leaked(SubmitOp(p, a, t).value.0) == Leaked(p)
  {
    var q := SubmitOp(p, a, t).value.0;
    forall b ensures b in Leaked(q) <==> b in Leaked(p) {
      assert Registered(q, b) <==> Registered(p, b);
      if b != a { assert InFlightOf(q, b) == InFlightOf(p, b); }
    }
  }

  lemma SubmitEntryLeaks(p: Port, e: Attention)
    requires Inv(p) && e.entry in p.attn && FreshAttempt(p, e.attempt)
    ensures SubmitEntry(p, e).Ok? && Leaked(SubmitEntry(p, e).value) == Leaked(p)
  {
    hide SubmitOp, Leaked;
    if p.socks[e.entry].opCount == 0 { SubmitOpLeaks(p, e.entry, e.attempt); }
  }

  lemma {:induction false} SubmitLeaks(p: Port, order: seq<Attention>)
    requires Inv(p) && FreshAttempts(p, order) && (forall e :: e in order ==> e.entry in p.attn)
    ensures SubmitEntries(p, order).Ok? && Leaked(SubmitEntries(p, order).value) == Leaked(p)
  {
    hide SubmitEntry, Leaked;
    if order != [] {
      var n := |order| - 1;
      SubmitEntriesKeeps(p, order[..n]);
      SubmitLeaks(p, order[..n]);
      SubmitEntryLeaks(SubmitEntries(p, order[..n]).value, order[n]);
    }
  }

  lemma AddLeaks(p: Port, sock: int, ev: bv32, user: nat, u: Setup, t: Attempt)
    requires Inv(p) && FreshSetup(p, u) && FreshAttempt(p, t)
    ensures EpollAdd(p, sock, ev, user, u, t).Ok? && Leaked(EpollAdd(p, sock, ev, user, u, t).value.0) == Leaked(p)
  {
    if sock !in p.tree && u.usable {
      var s := SockData(sock, ev | EPOLLERR | EPOLLHUP, 0, user, 0);
      RegisterKeeps(p, u.sockData, s);
      RegisterLeaks(p, u.sockData, s);
      SubmitOpLeaks(Register(p, u.sockData, s), u.sockData, t);
    }
  }

  lemma RegisterLeaks(p: Port, a: Addr, s: SockData)
    requires NoDangling(p) && a !in p.socks && s.sock !in p.tree
    ensures Leaked(Register(p, a, s)) == Leaked(p) && Registered(Register(p, a, s), a)
  {
    var q := Register(p, a, s);
    forall b ensures b in Leaked(q) <==> b in Leaked(p) {
      assert InFlightOf(q, b) == InFlightOf(p, b);
    }
  }

  lemma ModLeaks(p: Port, sock: int, ev: bv32, user: nat, u: Setup, t: Attempt)
    requires Inv(p) && FreshSetup(p, u) && FreshAttempt(p, t)
    ensures EpollMod(p, sock, ev, user, u, t).Ok? && Leaked(EpollMod(p, sock, ev, user, u, t).value.0) == Leaked(p)
  {
    if sock in p.tree {
      var a := p.tree[sock];
      var s := p.socks[a].(registered := ev | EPOLLERR | EPOLLHUP, user := user);
      var q := p.(socks := p.socks[a := s]);
      RetouchKeeps(p, a, s);
      forall b ensures b in Leaked(q) <==> b in Leaked(p) {
        assert InFlightOf(q, b) == InFlightOf(p, b);
      }
      SubmitOpLeaks(q, a, t);
    } else {
      AddLeaks(p, sock, ev, user, u, t);
    }
  }

  lemma RemoveShape(p: Port, a: Addr, q: Port)
    requires NoDangling(p) && Registered(p, a) && Remove(p, a) == Ok(q)
    ensures q.socks == p.socks && q.ops == p.ops && q.inflight == p.inflight
    ensures forall b :: Registered(q, b) <==> Registered(p, b) && b != a
  {}

  lemma DelLeaks(p: Port, sock: int)
    requires Inv(p)
    ensures EpollDel(p, sock).Ok? && Leaked(EpollDel(p, sock).value.0) == Leaked(p) + LeaksByDel(p, sock)
  {
    hide Counted, Witnessed, OpsOf;
    if sock in p.tree {
      var a := p.tree[sock];
      var q := Remove(p, a).value;
      RemoveShape(p, a, q);
      RemoveLeaks(p, a, q);
    }
  }

  lemma RemoveLeaks(p: Port, a: Addr, q: Port)
    requires q.socks == p.socks && q.ops == p.ops && q.inflight == p.inflight && Registered(p, a)
    requires forall b :: Registered(q, b) <==> Registered(p, b) && b != a
    ensures Leaked(q) == Leaked(p) + if InFlightOf(p, a) == {} then {a} else {}
  {
    assert a in p.socks;
    hide Registered;
    forall b ensures b in Leaked(q) <==> b in Leaked(p) || (b == a && InFlightOf(p, a) == {}) {
      assert InFlightOf(q, b) == InFlightOf(p, b);
    }
  }

  lemma SubmitAllLeaks(p: Port, order: seq<Attention>)
    requires Inv(p) && Iterates(p, order)
    ensures SubmitAll(p, order).Ok? && Leaked(SubmitAll(p, order).value) == Leaked(p)
  {
    SubmitLeaks(p, order);
    var q := SubmitEntries(p, order).value;
    assert forall b :: InFlightOf(q.(attn := {}), b) == InFlightOf(q, b);
  }

  /** Exactly two kinds of step leak: deleting a socket of which nothing is in flight, and completing the last
      operation in flight of a deleted or closed one that still owns a stranded operation. What has leaked
      stays: no step frees it. */
  lemma StepLeaks(p: Port, x: Action)
    requires Inv(p) && Enabled(p, x)
    ensures Step(p, x).Ok? && Leaked(Step(p, x).value) == Leaked(p) + LeaksBy(p, x)
  {
    hide Inv, Leaked, EpollAdd, EpollMod, EpollDel, SubmitAll, WaitBatch, LeaksByBatch, LeaksByDel, Iterates, HandsBack;
    match x
    case Add(sock, ev, user, u, t) => AddLeaks(p, sock, ev, user, u, t);
    case Mod(sock, ev, user, u, t) => ModLeaks(p, sock, ev, user, u, t);
    case Del(sock) => DelLeaks(p, sock);
    case Submit(order) => SubmitAllLeaks(p, order);
    case Wait(batch) => WaitLeaks(p, batch);
  }

  // ---------------------------------------------------------------------------------------------
  // Whole runs

  function LeakedBy(p: Port, xs: seq<Action>): set<Addr>
    decreases |xs|
  {
    if xs == [] then {}
    else LeaksBy(p, xs[0]) + if Step(p, xs[0]).Ok? then LeakedBy(Step(p, xs[0]).value, xs[1..]) else {}
  }

  /** After any run, with any errors and refusals, the unreachable registrations are exactly those its steps
      leaked, and none of them has been freed. */
  lemma {:induction false} RunLeaks(p: Port, xs: seq<Action>)
    requires Inv(p) && Legal(p, xs)
    ensures Run(p, xs).Ok? && Leaked(Run(p, xs).value) == Leaked(p) + LeakedBy(p, xs)
    decreases |xs|
  {
    hide Inv, Enabled, Step, LeaksBy, Leaked;
    if xs != [] {
      StepKeeps(p, xs[0]);
      StepLeaks(p, xs[0]);
      RunLeaks(Step(p, xs[0]).value, xs[1..]);
    }
  }

  /** Whenever the kernel holds nothing, the live registrations are the registered ones and those leaks. */
  lemma DrainedPortHoldsOnlyRegistered(xs: seq<Action>)
    requires Legal(EmptyPort, xs)
    ensures Run(EmptyPort, xs).Ok?
    ensures var p := Run(EmptyPort, xs).value;
      p.inflight == {} ==> forall a :: a in p.socks <==> Registered(p, a) || a in LeakedBy(EmptyPort, xs)
  {
    RunLeaks(EmptyPort, xs);
    assert Leaked(EmptyPort) == {};
    hide LeakedBy, Legal, Run;
    var p := Run(EmptyPort, xs).value;
    if p.inflight == {} { assert forall a :: InFlightOf(p, a) == {}; }
  }

  /** The two common ways to leak: the socket's only operation in flight delivers an event whose handler
      deletes the socket, or completes with an error before the socket is deleted. */
  lemma DelAfterLastCompletionLeaks(p: Port, c: Completion, a: Addr)
    requires Inv(p) && c.op in p.inflight && Registered(p, a) && InFlightOf(p, a) == {c.op} && !Closes(p, c, a)
    ensures Complete(p, c).Ok?
    ensures var q := Complete(p, c).value.0;
      EpollDel(q, p.socks[a].sock).Ok? && a in Leaked(EpollDel(q, p.socks[a].sock).value.0)
  {
    hide Complete, Closes;
    assert c.op in InFlightOf(p, a);
    CompleteKeeps(p, c);
    CompleteShape(p, c, a);
    CompleteTouches(p, c);
    var q := Complete(p, c).value.0;
    OthersInFlight(p, q, c.op, a);
    DelLeaks(q, p.socks[a].sock);
  }
}
