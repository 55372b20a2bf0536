/** Whether a registered socket is polled for its current interest. */
module EpollInterest {
  import opened Sizes
  import opened Epoll
  import opened EpollInvariants
  import opened EpollStranded
  import opened EpollLeaks

  /** Some operation in flight polls exactly the current interest. */
  predicate PollsInterest(p: Port, a: Addr)
    requires a in p.socks
  {
    exists o :: o in InFlightOf(p, a) && p.ops[o].afdEvents == AfdEvents(p.socks[a].registered)
  }

  /** AFD accepts the poll the submission offers for `a`. */
  predicate Accepted(order: seq<Attention>, a: Addr) {
    exists e :: e in order && e.entry == a && e.attempt.accepted
  }

  /** What the loop of `submit` has made of `a`, of which it was idle or not. */
  ghost predicate Tended(p: Port, order: seq<Attention>, q: Port, a: Addr)
    requires a in p.socks
  {
    && a in q.socks && q.socks[a].registered == p.socks[a].registered
    && q.tree == p.tree && q.socks[a].sock == p.socks[a].sock
    && (p.socks[a].opCount > 0 ==> InFlightOf(q, a) == InFlightOf(p, a))
    && (p.socks[a].opCount > 0 || (forall e :: e in order ==> e.entry != a) ==>
          q.socks[a].opCount == p.socks[a].opCount)
    && (PollsInterest(q, a) <==> PollsInterest(p, a) || (p.socks[a].opCount == 0 && Accepted(order, a)))
  }

  lemma SubmitOpInterest(p: Port, b: Addr, t: Attempt, a: Addr)
    requires NoDangling(p) && b in p.socks && a in p.socks && FreshAttempt(p, t)
    ensures SubmitOp(p, b, t).Ok?
    ensures var q := SubmitOp(p, b, t).value.0;
      && a in q.socks && q.socks[a].registered == p.socks[a].registered
      && q.tree == p.tree && q.socks[a].sock == p.socks[a].sock
      && (a != b ==> q.socks[a] == p.socks[a] && InFlightOf(q, a) == InFlightOf(p, a))
      && (PollsInterest(q, a) <==> PollsInterest(p, a) || (a == b && t.accepted))
  {
    var q := SubmitOp(p, b, t).value.0;
    if t.accepted {
      if a == b { assert t.op in InFlightOf(q, a); }
      forall o | o != t.op ensures o in InFlightOf(q, a) <==> o in InFlightOf(p, a) {}
    }
  }

  lemma SubmitEntryInterest(p: Port, e: Attention, a: Addr)
    requires Inv(p) && e.entry in p.attn && FreshAttempt(p, e.attempt) && a in p.socks
    ensures SubmitEntry(p, e).Ok? && Tended(p, [e], SubmitEntry(p, e).value, a)
  {
    hide SubmitOp, PollsInterest;
    if p.socks[e.entry].opCount == 0 { SubmitOpInterest(p, e.entry, e.attempt, a); }
    assert e in [e];
  }

  lemma TendedNext(p: Port, order: seq<Attention>, n: nat, q: Port, r: Port, a: Addr)
    requires a in p.socks && n < |order| && Tended(p, order[..n], q, a) && Tended(q, [order[n]], r, a)
    requires forall i, j :: 0 <= i < j < |order| ==> order[i].entry != order[j].entry
    ensures Tended(p, order[..n + 1], r, a)
  {
    hide PollsInterest;
    assert order[..n + 1] == order[..n] + [order[n]];
    assert Accepted(order[..n + 1], a) <==> Accepted(order[..n], a) || Accepted([order[n]], a);
    if e :| e in order[..n] && e.entry == a {
      assert order[n].entry != a;
    }
  }

  lemma {:induction false} SubmitEntriesInterest(p: Port, order: seq<Attention>, n: nat, a: Addr)
    requires Inv(p) && FreshAttempts(p, order) && (forall e :: e in order ==> e.entry in p.attn)
    requires forall i, j :: 0 <= i < j < |order| ==> order[i].entry != order[j].entry
    requires n <= |order| && a in p.socks
    ensures SubmitEntries(p, order[..n]).Ok? && Tended(p, order[..n], SubmitEntries(p, order[..n]).value, a)
  {
    hide Tended, SubmitEntry, Inv;
    if n == 0 {
      NothingTended(p, a);
    } else {
      SubmitEntriesInterest(p, order, n - 1, a);
      SubmitEntriesKeeps(p, order[..n - 1]);
      assert order[..n][..n - 1] == order[..n - 1];
      var q := SubmitEntries(p, order[..n - 1]).value;
      TendedLives(p, order[..n - 1], q, a);
      SubmitEntryInterest(q, order[n - 1], a);
      TendedNext(p, order, n - 1, q, SubmitEntry(q, order[n - 1]).value, a);
    }
  }

  lemma NothingTended(p: Port, a: Addr)
    requires a in p.socks
    ensures Tended(p, [], p, a)
  {}

  lemma TendedLives(p: Port, order: seq<Attention>, q: Port, a: Addr)
    requires a in p.socks && Tended(p, order, q, a)
    ensures a in q.socks
  {}

  /** When the port blocks for events, a socket is polled for its current interest if and only if it was before the
      submission, or it was idle, on the attention list, and AFD accepts the new poll. */
  lemma CoveredExactly(p: Port, order: seq<Attention>, a: Addr)
    requires Inv(p) && Iterates(p, order) && Registered(p, a)
    ensures SubmitAll(p, order).Ok? && a in SubmitAll(p, order).value.socks
    ensures PollsInterest(SubmitAll(p, order).value, a)
       <==> PollsInterest(p, a) || (p.socks[a].opCount == 0 && Accepted(order, a))
    ensures Registered(SubmitAll(p, order).value, a)
    ensures p.socks[a].opCount > 0 ==> InFlightOf(SubmitAll(p, order).value, a) == InFlightOf(p, a)
  {
    SubmitEntriesInterest(p, order, |order|, a);
    assert order[..|order|] == order;
    var q := SubmitEntries(p, order).value;
    assert InFlightOf(q.(attn := {}), a) == InFlightOf(q, a);
  }

  lemma RetiredInterest(p: Port, c: Completion, a: Addr)
    requires Inv(p) && c.op in p.inflight && a == p.ops[c.op].sockData && Registered(p, a)
    requires c.success && CompletedEvents(c) & AFD_POLL_LOCAL_CLOSE == 0
    requires p.ops[c.op].generation >= p.socks[a].generation
    ensures Complete(p, c).Ok?
    ensures var q := Complete(p, c).value.0;
      Registered(q, a) && q.socks[a].registered == WithoutEpollout(p.socks[a].registered)
  {
    hide ReportedEvents;
    assert p.socks[a].opCount >= 1 by { SubsetSize({c.op}, OpsOf(p.ops, a)); }
  }

  /** Modify a socket that one operation polls, and let the new operation complete first: after the next submission
      the old operation is the only one in flight, and the current interest is polled if and only if it is
      the interest of before but for EPOLLOUT. */
  lemma OldInterestIsPolled(p: Port, sock: int, ev: bv32, user: nat, u: Setup, t: Attempt, older: Addr,
                            c: Completion, order: seq<Attention>)
    requires Inv(p) && FreshSetup(p, u) && FreshAttempt(p, t) && t.accepted && sock in p.tree && older in p.inflight
    requires OpsOf(p.ops, p.tree[sock]) == {older} && c.op == t.op
    requires c.success && CompletedEvents(c) & AFD_POLL_LOCAL_CLOSE == 0
    ensures EpollMod(p, sock, ev, user, u, t).Ok?
    ensures var p1 := EpollMod(p, sock, ev, user, u, t).value.0;
      && Complete(p1, c).Ok?
      && var q := Complete(p1, c).value.0;
        Iterates(q, order) ==>
          && SubmitAll(q, order).Ok?
          && var r, a := SubmitAll(q, order).value, p.tree[sock];
            && Registered(r, a) && InFlightOf(r, a) == {older}
            && (PollsInterest(r, a)
                <==> p.ops[older].afdEvents == AfdEvents((ev | EPOLLERR | EPOLLHUP) & !EPOLLOUT))
  {
    hide EpollMod, Complete, SubmitAll, Iterates, PollsInterest, AfdEvents, CompletedEvents;
    var a := p.tree[sock];
    var p1 := Modified(p, sock, ev, user, u, t, older);
    var q := Completed(p1, c, a, older);
    if Iterates(q, order) {
      CoveredExactly(q, order, a);
      OnlyOne(q, a, older);
    }
  }

  lemma Modified(p: Port, sock: int, ev: bv32, user: nat, u: Setup, t: Attempt, older: Addr) returns (p1: Port)
    requires Inv(p) && FreshSetup(p, u) && FreshAttempt(p, t) && t.accepted && sock in p.tree && older in p.inflight
    requires OpsOf(p.ops, p.tree[sock]) == {older}
    ensures EpollMod(p, sock, ev, user, u, t).Ok? && EpollMod(p, sock, ev, user, u, t).value.0 == p1
    ensures Inv(p1) && OpsOf(p1.ops, p.tree[sock]) == {older, t.op} && t.op != older && {older, t.op} <= p1.inflight
    ensures Registered(p1, p.tree[sock]) && p1.ops[older] == p.ops[older]
    ensures var s := p1.socks[p.tree[sock]];
      s.registered == ev | EPOLLERR | EPOLLHUP && p1.ops[t.op].generation >= s.generation
  {
    hide AfdEvents;
    ModKeeps(p, sock, ev, user, u, t);
    p1 := EpollMod(p, sock, ev, user, u, t).value.0;
  }

  lemma Completed(p: Port, c: Completion, a: Addr, older: Addr) returns (q: Port)
    requires Inv(p) && Registered(p, a) && c.op != older && OpsOf(p.ops, a) == {older, c.op}
    requires {older, c.op} <= p.inflight && p.ops[c.op].generation >= p.socks[a].generation
    requires c.success && CompletedEvents(c) & AFD_POLL_LOCAL_CLOSE == 0
    ensures Complete(p, c).Ok? && Complete(p, c).value.0 == q
    ensures Inv(q) && Registered(q, a) && OpsOf(q.ops, a) == {older}
    ensures older in q.inflight && q.ops[older] == p.ops[older]
    ensures q.socks[a].registered == WithoutEpollout(p.socks[a].registered)
  {
    hide Complete, CompletedEvents;
    assert c.op in OpsOf(p.ops, a);
    CompleteKeeps(p, c);
    CompleteTouches(p, c);
    RetiredInterest(p, c, a);
    OpsOfDelete(p.ops, c.op);
    q := Complete(p, c).value.0;
  }

  lemma OnlyOne(p: Port, a: Addr, o: Addr)
    requires Inv(p) && a in p.socks && OpsOf(p.ops, a) == {o} && o in p.inflight
    ensures p.socks[a].opCount > 0 && InFlightOf(p, a) == {o}
    ensures PollsInterest(p, a) <==> p.ops[o].afdEvents == AfdEvents(p.socks[a].registered)
  {
    assert o in InFlightOf(p, a);
  }
}
