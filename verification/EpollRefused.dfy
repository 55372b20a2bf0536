/** Polls that AFD refuses: the port forgets about them, so the socket stays registered without being polled. */
module EpollRefused {
  import opened Outcomes
  import opened Sizes
  import opened Epoll
  import opened EpollInvariants
  import opened EpollRuns
  import opened EpollInterest

  /** Registered, without operations, and not waiting for a submission. */
  predicate Unpolled(p: Port, sock: int) {
    sock in p.tree && p.tree[sock] in p.socks && p.socks[p.tree[sock]].opCount == 0 && p.tree[sock] !in p.attn
  }

  /** A step that may poll the socket again, or takes it out. */
  predicate Rescues(x: Action, sock: int) { (x.Mod? || x.Del?) && x.sock == sock }

  // ---------------------------------------------------------------------------------------------
  // The submission

  /** What the loop of `submit` does about one registration. */
  lemma {:induction false} SubmittedOps(p: Port, order: seq<Attention>, a: Addr)
    requires SubmitEntries(p, order).Ok? && a in p.socks
    ensures var q := SubmitEntries(p, order).value;
      && q.tree == p.tree && a in q.socks
      && q.socks[a].opCount == p.socks[a].opCount + (if p.socks[a].opCount == 0 && Accepted(order, a) then 1 else 0)
  {
    hide AfdEvents, NextGeneration;
    if order != [] {
      var n := |order| - 1;
      SubmittedOps(p, order[..n], a);
      assert order == order[..n] + [order[n]];
      assert Accepted(order, a) <==> Accepted(order[..n], a) || (order[n].entry == a && order[n].attempt.accepted);
    }
  }

  /** The submission empties the attention list. After it a registered socket is unpolled if and only if it was idle
      and AFD has not accepted a poll for it. */
  lemma RefusedExactly(p: Port, order: seq<Attention>, sock: int)
    requires Inv(p) && Iterates(p, order) && sock in p.tree
    ensures SubmitAll(p, order).Ok? && SubmitAll(p, order).value.attn == {}
    ensures Unpolled(SubmitAll(p, order).value, sock)
       <==> p.socks[p.tree[sock]].opCount == 0 && !Accepted(order, p.tree[sock])
  {
    SubmitAllKeeps(p, order);
    SubmittedOps(p, order, p.tree[sock]);
  }

  /** `epoll_add` fails when AFD refuses the poll, and leaves the registration in: unpolled, and in the way of every
      other `epoll_add` of the socket. */
  lemma RefusedAddStays(p: Port, sock: int, ev: bv32, user: nat, u: Setup, t: Attempt)
    requires Inv(p) && FreshSetup(p, u) && FreshAttempt(p, t) && sock !in p.tree && u.usable && !t.accepted
    ensures EpollAdd(p, sock, ev, user, u, t).Ok?
    ensures var (q, ok) := EpollAdd(p, sock, ev, user, u, t).value;
      && !ok && Unpolled(q, sock)
      && forall ev', user', u', t' :: EpollAdd(q, sock, ev', user', u', t') == Ok((q, false))
  {
    AddKeeps(p, sock, ev, user, u, t);
  }

  // ---------------------------------------------------------------------------------------------
  // Every later step

  lemma AddLeaves(p: Port, s: int, ev: bv32, user: nat, u: Setup, t: Attempt, sock: int)
    requires FreshSetup(p, u) && Unpolled(p, sock)
    ensures EpollAdd(p, s, ev, user, u, t).Ok? && Unpolled(EpollAdd(p, s, ev, user, u, t).value.0, sock)
  {
    hide AfdEvents, NextGeneration;
  }

  lemma ModLeaves(p: Port, s: int, ev: bv32, user: nat, u: Setup, t: Attempt, sock: int)
    requires Inv(p) && FreshSetup(p, u) && Unpolled(p, sock) && s != sock
    ensures EpollMod(p, s, ev, user, u, t).Ok? && Unpolled(EpollMod(p, s, ev, user, u, t).value.0, sock)
  {
    hide AfdEvents, NextGeneration;
    if s !in p.tree { AddLeaves(p, s, ev, user, u, t, sock); }
  }

  lemma DelLeaves(p: Port, s: int, sock: int)
    requires Inv(p) && Unpolled(p, sock) && s != sock
    ensures EpollDel(p, s).Ok? && Unpolled(EpollDel(p, s).value.0, sock)
  {}

  lemma SubmitLeaves(p: Port, order: seq<Attention>, sock: int)
    requires Inv(p) && Iterates(p, order) && Unpolled(p, sock)
    ensures SubmitAll(p, order).Ok? && Unpolled(SubmitAll(p, order).value, sock)
  {
    RefusedExactly(p, order, sock);
  }

  /** An operation that completes belongs to another socket. */
  lemma CompleteLeaves(p: Port, c: Completion, sock: int)
    requires Inv(p) && c.op in p.inflight && Unpolled(p, sock)
    ensures Complete(p, c).Ok? && Unpolled(Complete(p, c).value.0, sock)
  {
    var b := p.ops[c.op].sockData;
    assert p.socks[b].opCount >= 1 by { SubsetSize({c.op}, OpsOf(p.ops, b)); }
    OthersStay(p, c, b, sock);
  }

  lemma OthersStay(p: Port, c: Completion, b: Addr, sock: int)
    requires c.op in p.ops && p.ops[c.op].sockData == b && b in p.socks && p.socks[b].opCount >= 1
    requires NoDangling(p) && Unpolled(p, sock)
    ensures Complete(p, c).Ok? && Unpolled(Complete(p, c).value.0, sock)
  {
    hide WithoutEpollout, ReportedEvents, CompletedEvents;
  }

  lemma {:induction false} WaitLeaves(p: Port, batch: seq<Completion>, sock: int)
    requires Inv(p) && HandsBack(p, batch) && Unpolled(p, sock)
    ensures WaitBatch(p, batch).Ok? && Unpolled(WaitBatch(p, batch).value.0, sock)
  {
    hide Complete, Unpolled;
    if batch != [] {
      var n := |batch| - 1;
      BatchSplit(p, batch);
      WaitBatchKeeps(p, batch[..n]);
      WaitLeaves(p, batch[..n], sock);
      CompleteLeaves(WaitBatch(p, batch[..n]).value.0, batch[n], sock);
    }
  }

  lemma StepLeaves(p: Port, x: Action, sock: int)
    requires Inv(p) && Enabled(p, x) && Unpolled(p, sock) && !Rescues(x, sock)
    ensures Step(p, x).Ok? && Unpolled(Step(p, x).value, sock)
  {
    hide Inv, Unpolled, EpollAdd, EpollMod, EpollDel, SubmitAll, WaitBatch, Iterates, HandsBack;
    match x
    case Add(s, ev, user, u, t) => AddLeaves(p, s, ev, user, u, t, sock);
    case Mod(s, ev, user, u, t) => ModLeaves(p, s, ev, user, u, t, sock);
    case Del(s) => DelLeaves(p, s, sock);
    case Submit(order) => SubmitLeaves(p, order, sock);
    case Wait(batch) => WaitLeaves(p, batch, sock);
  }

  /** Nobody but the caller notices: in every run in which the socket is neither modified nor deleted, it stays
      registered and unpolled, so nothing is ever reported about it. */
  lemma {:induction false} UnpolledForever(p: Port, xs: seq<Action>, sock: int)
    requires Inv(p) && Legal(p, xs) && Unpolled(p, sock) && (forall x :: x in xs ==> !Rescues(x, sock))
    ensures Run(p, xs).Ok? && Inv(Run(p, xs).value) && Unpolled(Run(p, xs).value, sock)
    ensures OpsOf(Run(p, xs).value.ops, Run(p, xs).value.tree[sock]) == {}
    decreases |xs|
  {
    hide Step, Enabled, Rescues;
    if xs != [] {
      StepKeeps(p, xs[0]);
      StepLeaves(p, xs[0], sock);
      UnpolledForever(Step(p, xs[0]).value, xs[1..], sock);
    }
  }
}
