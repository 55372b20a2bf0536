/** Seen from above, the port is a table from sockets to user data: add, modify and delete act on it
    like map updates, submissions leave it alone, and completions only ever report its entries. */
module EpollTable {
  import opened Outcomes
  import opened Epoll
  import opened EpollInvariants

  function Users(p: Port): map<int, nat> {
    map fd | fd in p.tree && p.tree[fd] in p.socks :: p.socks[p.tree[fd]].user
  }

  ghost predicate Sub(m: map<int, nat>, n: map<int, nat>) {
    forall fd :: fd in m ==> fd in n && n[fd] == m[fd]
  }

  predicate Entry(m: map<int, nat>, fd: int, user: nat) {
    fd in m && m[fd] == user
  }

  /** Every event carries the user data of an entry of the table. */
  ghost predicate Reports(m: map<int, nat>, events: seq<Event>) {
    forall e :: e in events ==> exists fd :: Entry(m, fd, e.user)
  }

  lemma SubmitOpTable(p: Port, a: Addr, t: Attempt, q: Port)
    requires SubmitOp(p, a, t).Ok? && q == SubmitOp(p, a, t).value.0
    ensures Users(q) == Users(p)
  {}

  lemma {:induction false} SubmitEntriesTable(p: Port, order: seq<Attention>, q: Port)
    requires SubmitEntries(p, order) == Ok(q)
    ensures Users(q) == Users(p)
  {
    if order != [] {
      var n := |order| - 1;
      var p1 := SubmitEntries(p, order[..n]).value;
      SubmitEntriesTable(p, order[..n], p1);
      if p1.socks[order[n].entry].opCount == 0 {
        SubmitOpTable(p1, order[n].entry, order[n].attempt, q);
      }
    }
  }

  lemma SubmitAllTable(p: Port, order: seq<Attention>, q: Port)
    requires SubmitAll(p, order) == Ok(q)
    ensures Users(q) == Users(p)
  {
    var p1 := SubmitEntries(p, order).value;
    SubmitEntriesTable(p, order, p1);
    assert Users(q) == Users(p1);
  }

  /** A refused `ADD` on a usable socket still leaves the entry in the table; an existing entry stays. */
  lemma AddTable(p: Port, sock: int, ev: bv32, user: nat, u: Setup, t: Attempt, q: Port, ok: bool)
    requires Inv(p) && FreshSetup(p, u) && EpollAdd(p, sock, ev, user, u, t) == Ok((q, ok))
    ensures Users(q) == if sock !in p.tree && u.usable then Users(p)[sock := user] else Users(p)
    ensures ok <==> sock !in p.tree && u.usable && t.accepted
  {
    if sock !in p.tree && u.usable {
      var r := Register(p, u.sockData, SockData(sock, ev | EPOLLERR | EPOLLHUP, 0, user, 0));
      assert Users(r) == Users(p)[sock := user] by {
        forall fd | fd in p.tree ensures p.tree[fd] in p.socks && p.tree[fd] != u.sockData && fd != sock {}
      }
      SubmitOpTable(r, u.sockData, t, q);
    }
  }

  lemma ModTable(p: Port, sock: int, ev: bv32, user: nat, u: Setup, t: Attempt, q: Port, ok: bool)
    requires Inv(p) && FreshSetup(p, u) && EpollMod(p, sock, ev, user, u, t) == Ok((q, ok))
    ensures Users(q) == if sock in p.tree || u.usable then Users(p)[sock := user] else Users(p)
    ensures ok <==> (sock in p.tree || u.usable) && t.accepted
  {
    if sock in p.tree {
      var a := p.tree[sock];
      var r := p.(socks := p.socks[a := p.socks[a].(registered := ev | EPOLLERR | EPOLLHUP, user := user)]);
      assert Users(r) == Users(p)[sock := user] by {
        forall fd | fd in p.tree && fd != sock ensures p.tree[fd] != a {}
      }
      SubmitOpTable(r, a, t, q);
    } else {
      AddTable(p, sock, ev, user, u, t, q, ok);
    }
  }

  lemma DelTable(p: Port, sock: int, q: Port, ok: bool)
    requires Inv(p) && EpollDel(p, sock) == Ok((q, ok))
    ensures Users(q) == Users(p) - {sock} && (ok <==> sock in Users(p))
  {}

  lemma DeleteOpTable(p: Port, o: Addr, q: Port)
    requires DeleteOp(p, o) == Ok(q)
    ensures Users(q) == Users(p)
  {}

  lemma FreeTable(p: Port, a: Addr, q: Port)
    requires FreeIfIdle(p, a) == Ok(q)
    ensures Sub(Users(q), Users(p))
  {}

  lemma DiscardTable(p: Port, o: Addr, a: Addr, q: Port)
    requires Discard(p, o, a) == Ok(q)
    ensures Sub(Users(q), Users(p))
  {
    var p1 := DeleteOp(p, o).value;
    DeleteOpTable(p, o, p1);
    FreeTable(p1, a, q);
  }

  lemma RemoveTable(p: Port, a: Addr, q: Port)
    requires Remove(p, a) == Ok(q)
    ensures Sub(Users(q), Users(p))
  {}

  lemma RetireTable(p: Port, o: Addr, a: Addr, q: Port)
    requires Retire(p, o, a) == Ok(q)
    ensures Users(q) == Users(p)
  {
    var p1 := DeleteOp(p, o).value;
    DeleteOpTable(p, o, p1);
    AttendTable(p1, a, q);
  }

  lemma AttendTable(p: Port, a: Addr, q: Port)
    requires Attend(p, a) == Ok(q)
    ensures Users(q) == Users(p)
  {}

  lemma CompleteCurrentTable(p: Port, c: Completion, a: Addr, q: Port, ev: seq<Event>)
    requires CompleteCurrent(p, c, a) == Ok((q, ev))
    ensures Sub(Users(q), Users(p)) && Reports(Users(p), ev)
  {
    if !Registered(p, a) {
      DiscardTable(p, c.op, a, q);
    } else {
      assert Entry(Users(p), p.socks[a].sock, p.socks[a].user);
      if c.success && CompletedEvents(c) & AFD_POLL_LOCAL_CLOSE != 0 {
        var p1 := Remove(p, a).value;
        RemoveTable(p, a, p1);
        DiscardTable(p1, c.op, a, q);
      } else if c.success {
        RetireTable(p, c.op, a, q);
      }
    }
  }

  lemma CompleteTable(p: Port, c: Completion, q: Port, ev: seq<Event>)
    requires Complete(p, c) == Ok((q, ev))
    ensures Sub(Users(q), Users(p)) && Reports(Users(p), ev)
  {
    var p1 := HandBack(p, c.op);
    assert Users(p1) == Users(p);
    var a := p.ops[c.op].sockData;
    if p.ops[c.op].generation < p.socks[a].generation {
      DeleteOpTable(p1, c.op, q);
    } else {
      var p2 := ResetGeneration(p1, a).value;
      assert Users(p2) == Users(p1);
      CompleteCurrentTable(p2, c, a, q, ev);
    }
  }

  lemma ReportsAppend(m: map<int, nat>, n: map<int, nat>, evs: seq<Event>, ev: seq<Event>)
    requires Reports(m, evs) && Reports(n, ev) && Sub(n, m)
    ensures Reports(m, evs + ev)
  {
    forall e | e in evs + ev ensures exists fd :: Entry(m, fd, e.user) {
      if e !in evs {
        var fd :| Entry(n, fd, e.user);
        assert Entry(m, fd, e.user);
      }
    }
  }

  /** Every event of a batch was in the table before the batch. */
  lemma {:induction false} WaitTable(p: Port, batch: seq<Completion>, q: Port, events: seq<Event>)
    requires WaitBatch(p, batch) == Ok((q, events))
    ensures Sub(Users(q), Users(p)) && Reports(Users(p), events) && |events| <= |batch|
  {
    if batch != [] {
      var n := |batch| - 1;
      var (p1, evs) := WaitBatch(p, batch[..n]).value;
      var (_, ev) := Complete(p1, batch[n]).value;
      WaitTable(p, batch[..n], p1, evs);
      CompleteTable(p1, batch[n], q, ev);
      ReportsAppend(Users(p), Users(p1), evs, ev);
    }
  }
}
