/** `epoll_port_data_t` as the object it is: the methods of net/epoll.cpp update its tables in place
    and are proved against the functions of module `Epoll`. */
module EpollPortClass {
  import opened Outcomes
  import opened Epoll
  import opened EpollInvariants

  method TranslateInterest(registered: bv32) returns (afdEvents: bv32)
    ensures afdEvents == AfdEvents(registered)
  {
    afdEvents := AFD_POLL_ABORT | AFD_POLL_DISCONNECT | AFD_POLL_CONNECT_FAIL | AFD_POLL_LOCAL_CLOSE;
    if registered & (EPOLLIN | EPOLLRDNORM) != 0 {
      afdEvents := afdEvents | AFD_POLL_RECEIVE | AFD_POLL_ACCEPT;
    }
    if registered & (EPOLLIN | EPOLLRDBAND) != 0 {
      afdEvents := afdEvents | AFD_POLL_RECEIVE_EXPEDITED;
    }
    if registered & (EPOLLOUT | EPOLLWRNORM | EPOLLRDBAND) != 0 {
      afdEvents := afdEvents | AFD_POLL_SEND | AFD_POLL_CONNECT;
    }
  }

  method TranslateEvents(afd: bv32) returns (reported: bv32)
    ensures reported == ReportedEvents(afd)
  {
    reported := 0;
    if afd & (AFD_POLL_RECEIVE | AFD_POLL_ACCEPT) != 0 { reported := reported | EPOLLIN; }
    if afd & AFD_POLL_RECEIVE_EXPEDITED != 0 { reported := reported | (EPOLLIN | EPOLLRDBAND); }
    if afd & AFD_POLL_SEND != 0 { reported := reported | EPOLLOUT; }
    if afd & AFD_POLL_DISCONNECT != 0 && afd & AFD_POLL_ABORT == 0 {
      reported := reported | (EPOLLRDHUP | EPOLLIN | EPOLLRDNORM | EPOLLRDBAND);
    }
    if afd & AFD_POLL_ABORT != 0 { reported := reported | (EPOLLHUP | EPOLLERR); }
    if afd & AFD_POLL_CONNECT != 0 { reported := reported | (EPOLLOUT | EPOLLWRNORM | EPOLLWRBAND); }
    if afd & AFD_POLL_CONNECT_FAIL != 0 { reported := reported | EPOLLERR; }
  }

  class EpollPort {
    var socks: map<Addr, SockData>
    var ops: map<Addr, Op>
    var inflight: set<Addr>
    var tree: map<int, Addr>
    var attn: set<Addr>

    function State(): Port
      reads this
    {
      Port(socks, ops, inflight, tree, attn)
    }

    ghost predicate Valid()
      reads this
    {
      Inv(State())
    }

    constructor ()
      ensures Valid() && State() == EmptyPort
    {
      socks, ops, inflight, tree, attn := map[], map[], {}, map[], {};
    }

    /** `new epoll_op_t(sock_data, afd_events)`. */
    method CreateOp(a: Addr, o: Addr, afdEvents: bv32)
      requires a in socks && o !in ops
      modifies this`socks, this`ops
      ensures socks == old(socks[a := socks[a].(opCount := socks[a].opCount + 1)])
      ensures ops == old(ops[o := Op(NextGeneration(socks[a].generation), a, afdEvents)])
    {
      ops := ops[o := Op(NextGeneration(socks[a].generation), a, afdEvents)];
      socks := socks[a := socks[a].(opCount := socks[a].opCount + 1)];
    }

    /** `epoll_sock_data_t::submit`. */
    method SubmitSock(a: Addr, t: Attempt) returns (ok: bool)
      requires a in socks && FreshAttempt(State(), t) && socks[a].opCount >= 0
      modifies this`socks, this`ops, this`inflight
      ensures SubmitOp(old(State()), a, t) == Ok((State(), ok))
    {
      var afdEvents := TranslateInterest(socks[a].registered);
      CreateOp(a, t.op, afdEvents);
      if t.accepted {
        inflight := inflight + {t.op};
        socks := socks[a := socks[a].(generation := ops[t.op].generation)];
        ghost var s := old(socks[a]);
        assert socks == old(socks)[a := s.(generation := NextGeneration(s.generation), opCount := s.opCount + 1)];
        return true;
      } else {
        DestroyOp(t.op);
        assert ops == old(ops) && socks == old(socks);
        return false;
      }
    }

    method Add(sock: int, ev: bv32, user: nat, u: Setup, t: Attempt) returns (ok: bool)
      requires Valid() && FreshSetup(State(), u) && FreshAttempt(State(), t)
      modifies this
      ensures Valid() && EpollAdd(old(State()), sock, ev, user, u, t) == Ok((State(), ok))
    {
      if sock in tree { return false; }
      if !u.usable { return false; }
      ghost var s := SockData(sock, ev | EPOLLERR | EPOLLHUP, 0, user, 0);
      RegisterKeeps(State(), u.sockData, s);
      socks := socks[u.sockData := SockData(sock, 0, 0, 0, 0)];
      tree := tree[sock := u.sockData];
      socks := socks[u.sockData := socks[u.sockData].(registered := ev | EPOLLERR | EPOLLHUP, user := user)];
      assert State() == Register(old(State()), u.sockData, s);
      SubmitOpKeeps(State(), u.sockData, t);
      ok := SubmitSock(u.sockData, t);
    }

    method Mod(sock: int, ev: bv32, user: nat, u: Setup, t: Attempt) returns (ok: bool)
      requires Valid() && FreshSetup(State(), u) && FreshAttempt(State(), t)
      modifies this
      ensures Valid() && EpollMod(old(State()), sock, ev, user, u, t) == Ok((State(), ok))
    {
      if sock in tree {
        var a := tree[sock];
        RetouchKeeps(State(), a, socks[a].(registered := ev | EPOLLERR | EPOLLHUP, user := user));
        socks := socks[a := socks[a].(registered := ev | EPOLLERR | EPOLLHUP)];
        socks := socks[a := socks[a].(user := user)];
        assert socks == old(socks)[a := old(socks)[a].(registered := ev | EPOLLERR | EPOLLHUP, user := user)];
        SubmitOpKeeps(State(), a, t);
        ok := SubmitSock(a, t);
      } else {
        ok := Add(sock, ev, user, u, t);
      }
    }

    /** `remove`. */
    method RemoveSock(a: Addr)
      requires a in socks
      modifies this`tree, this`attn
      ensures Remove(old(State()), a) == Ok(State())
    {
      tree := tree - {socks[a].sock};
      attn := attn - {a};
    }

    method Del(sock: int) returns (ok: bool)
      requires Valid()
      modifies this
      ensures Valid() && EpollDel(old(State()), sock) == Ok((State(), ok))
    {
      DelKeeps(State(), sock);
      if sock !in tree { return false; }
      RemoveSock(tree[sock]);
      return true;
    }

    /** The destructor of `epoll_op_t`, with its assert. */
    method DestroyOp(o: Addr)
      requires o in ops && ops[o].sockData in socks && socks[ops[o].sockData].opCount >= 1
      modifies this`ops, this`socks
      ensures DeleteOp(old(State()), o) == Ok(State())
    {
      var a := ops[o].sockData;
      socks := socks[a := socks[a].(opCount := socks[a].opCount - 1)];
      assert socks[a].opCount >= 0;
      ops := ops - {o};
    }

    method DestroyOpAndIdleSock(o: Addr, a: Addr)
      requires o in ops && ops[o].sockData == a && a in socks && socks[a].opCount >= 1
      modifies this`ops, this`socks
      ensures Discard(old(State()), o, a) == Ok(State())
    {
      DestroyOp(o);
      if socks[a].opCount == 0 {
        socks := socks - {a};
      }
    }

    /** The loop body of `epoll_wait`, after the supersession test. */
    method ProcessCurrent(c: Completion, a: Addr) returns (events: seq<Event>)
      requires c.op in ops && ops[c.op].sockData == a && a in socks && socks[a].opCount >= 1
      modifies this
      ensures CompleteCurrent(old(State()), c, a) == Ok((State(), events))
    {
      if !(socks[a].sock in tree && tree[socks[a].sock] == a) {
        DestroyOpAndIdleSock(c.op, a);
        return [];
      }
      if !c.success {
        return [Event(socks[a].user, EPOLLERR)];
      }
      var afd := if c.handles == 0 then 0 else c.events;
      if afd & AFD_POLL_LOCAL_CLOSE != 0 {
        RemoveSock(a);
        DestroyOpAndIdleSock(c.op, a);
        return [];
      }
      var user := socks[a].user;
      RetireOp(c.op, a);
      var reported := TranslateEvents(afd);
      return if reported != 0 then [Event(user, reported)] else [];
    }

    /** Keep the registration's attention, without EPOLLOUT. */
    method KeepAttention(a: Addr)
      requires a in socks
      modifies this`socks, this`attn
      ensures Attend(old(State()), a) == Ok(State())
    {
      var s := socks[a];
      socks := socks[a := s.(registered := WithoutEpollout(s.registered))];
      attn := attn + {a};
    }

    method RetireOp(o: Addr, a: Addr)
      requires o in ops && ops[o].sockData == a && a in socks && socks[a].opCount >= 1
      modifies this`ops, this`socks, this`attn
      ensures Retire(old(State()), o, a) == Ok(State())
    {
      DestroyOp(o);
      KeepAttention(a);
    }

    method Process(c: Completion) returns (events: seq<Event>)
      requires Valid() && c.op in inflight
      modifies this
      ensures Valid() && Complete(old(State()), c) == Ok((State(), events))
    {
      CompleteKeeps(State(), c);
      var a := ops[c.op].sockData;
      assert c.op in OpsOf(ops, a);
      inflight := inflight - {c.op};
      if ops[c.op].generation < socks[a].generation {
        DestroyOp(c.op);
        return [];
      }
      socks := socks[a := socks[a].(generation := 0)];
      events := ProcessCurrent(c, a);
    }

    /** `epoll_wait(entries, count, events)`. */
    method Wait(batch: seq<Completion>) returns (events: seq<Event>)
      requires Valid() && HandsBack(State(), batch)
      modifies this
      ensures Valid() && WaitBatch(old(State()), batch) == Ok((State(), events))
    {
      events := [];
      for i := 0 to |batch|
        invariant Valid() && WaitBatch(old(State()), batch[..i]) == Ok((State(), events))
        invariant forall j :: i <= j < |batch| ==> batch[j].op in inflight
      {
        ghost var before := State();
        var ev := Process(batch[i]);
        CompleteHandsBack(before, batch[i]);
        assert batch[..i + 1][..i] == batch[..i];
        events := events + ev;
      }
      assert batch[..|batch|] == batch;
    }

    /** One entry of the attention list. */
    method VisitEntry(e: Attention)
      requires Valid() && e.entry in attn && FreshAttempt(State(), e.attempt)
      modifies this
      ensures Valid() && SubmitEntry(old(State()), e) == Ok(State())
      ensures attn == old(attn) && ops.Keys <= old(ops.Keys) + {e.attempt.op}
    {
      SubmitEntryKeeps(State(), e);
      if socks[e.entry].opCount == 0 {
        var _ := SubmitSock(e.entry, e.attempt);
      }
    }

    /** `submit()`: `order` is the iteration order of the attention list. */
    method SubmitAttention(order: seq<Attention>)
      requires Valid() && Iterates(State(), order)
      modifies this
      ensures Valid() && SubmitAll(old(State()), order) == Ok(State())
    {
      SubmitAllKeeps(State(), order);
      hide Inv, SubmitEntry;
      for i := 0 to |order|
        invariant Valid() && SubmitEntries(old(State()), order[..i]) == Ok(State())
        invariant attn == old(attn)
        invariant forall j :: i <= j < |order| ==> FreshAttempt(State(), order[j].attempt)
      {
        VisitEntry(order[i]);
        assert order[..i + 1][..i] == order[..i];
      }
      assert order[..|order|] == order;
      attn := {};
    }
  }
}
