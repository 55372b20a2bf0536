/** The epoll emulation over AFD polls and an I/O completion port (net/epoll.cpp).

    The C++ heap is modelled by two maps from addresses to live records, so reading a freed
    registration or operation is a visible `Fault` and an address may be handed out again once its
    record is gone. The kernel is the set of operations it has been given and not yet handed back
    for processing; it may hand back any of them, in any order, with any status. */
module Epoll {
  import opened Outcomes

  type Addr = nat
  type UInt32 = g: int | 0 <= g < 0x1_0000_0000

  const EPOLLIN: bv32 := 0x001
  const EPOLLOUT: bv32 := 0x004
  const EPOLLERR: bv32 := 0x008
  const EPOLLHUP: bv32 := 0x010
  const EPOLLRDNORM: bv32 := 0x040
  const EPOLLRDBAND: bv32 := 0x080
  const EPOLLWRNORM: bv32 := 0x100
  const EPOLLWRBAND: bv32 := 0x200
  const EPOLLRDHUP: bv32 := 0x2000

  const AFD_POLL_RECEIVE: bv32 := 0x001
  const AFD_POLL_RECEIVE_EXPEDITED: bv32 := 0x002
  const AFD_POLL_SEND: bv32 := 0x004
  const AFD_POLL_DISCONNECT: bv32 := 0x008
  const AFD_POLL_ABORT: bv32 := 0x010
  const AFD_POLL_LOCAL_CLOSE: bv32 := 0x020
  const AFD_POLL_CONNECT: bv32 := 0x040
  const AFD_POLL_ACCEPT: bv32 := 0x080
  const AFD_POLL_CONNECT_FAIL: bv32 := 0x100

  /** `epoll_sock_data_t`: one registration. */
  datatype SockData = SockData(sock: int, registered: bv32, generation: UInt32, user: nat, opCount: int)

  /** `epoll_op_t`: one AFD poll request. */
  datatype Op = Op(generation: UInt32, sockData: Addr, afdEvents: bv32)

  /** `epoll_port_data_t` together with the heap and the kernel it works on. */
  datatype Port = Port(
    socks: map<Addr, SockData>,  // live registrations
    ops: map<Addr, Op>,          // live operations
    inflight: set<Addr>,         // operations the kernel has not yet handed back
    tree: map<int, Addr>,        // _sock_data_tree
    attn: set<Addr>              // _attn_list
  )

  const EmptyPort := Port(map[], map[], {}, map[], {})

  datatype Event = Event(user: nat, events: bv32)

  /** Environment of one submission: where `new epoll_op_t` lands, and whether AFD takes the request. */
  datatype Attempt = Attempt(op: Addr, accepted: bool)

  /** One dequeued OVERLAPPED_ENTRY. */
  datatype Completion = Completion(op: Addr, success: bool, handles: nat, events: bv32)

  // ---------------------------------------------------------------------------------------------
  // Event translation

  function AfdEvents(registered: bv32): bv32 {
    AFD_POLL_ABORT | AFD_POLL_DISCONNECT | AFD_POLL_CONNECT_FAIL | AFD_POLL_LOCAL_CLOSE
    | (if registered & (EPOLLIN | EPOLLRDNORM) != 0 then AFD_POLL_RECEIVE | AFD_POLL_ACCEPT else 0)
    | (if registered & (EPOLLIN | EPOLLRDBAND) != 0 then AFD_POLL_RECEIVE_EXPEDITED else 0)
    | (if registered & (EPOLLOUT | EPOLLWRNORM | EPOLLRDBAND) != 0 then AFD_POLL_SEND | AFD_POLL_CONNECT else 0)
  }

  function ReportedEvents(afd: bv32): bv32 {
    (if afd & (AFD_POLL_RECEIVE | AFD_POLL_ACCEPT) != 0 then EPOLLIN else 0)
    | (if afd & AFD_POLL_RECEIVE_EXPEDITED != 0 then EPOLLIN | EPOLLRDBAND else 0)
    | (if afd & AFD_POLL_SEND != 0 then EPOLLOUT else 0)
    | (if afd & AFD_POLL_DISCONNECT != 0 && afd & AFD_POLL_ABORT == 0
       then EPOLLRDHUP | EPOLLIN | EPOLLRDNORM | EPOLLRDBAND else 0)
    | (if afd & AFD_POLL_ABORT != 0 then EPOLLHUP | EPOLLERR else 0)
    | (if afd & AFD_POLL_CONNECT != 0 then EPOLLOUT | EPOLLWRNORM | EPOLLWRBAND else 0)
    | (if afd & AFD_POLL_CONNECT_FAIL != 0 then EPOLLERR else 0)
  }

  // ---------------------------------------------------------------------------------------------
  // The operations, as functions on the state

  function LoadSock(p: Port, a: Addr): Outcome<SockData> {
    if a in p.socks then Ok(p.socks[a]) else Fault
  }

  function LoadOp(p: Port, o: Addr): Outcome<Op> {
    if o in p.ops then Ok(p.ops[o]) else Fault
  }

  /** `_generation = sock_data->_op_generation + 1` on uint32_t: it wraps. */
  function NextGeneration(g: UInt32): UInt32 {
    (g + 1) % 0x1_0000_0000
  }

  /** `epoll_sock_data_t::submit`; the flag is `return 0`. A rejected operation is built and deleted again. */
  function SubmitOp(p: Port, a: Addr, t: Attempt): Outcome<(Port, bool)> {
    var s :- LoadSock(p, a);
    if t.accepted then
      var op := Op(NextGeneration(s.generation), a, AfdEvents(s.registered));
      Ok((p.(socks := p.socks[a := s.(generation := op.generation, opCount := s.opCount + 1)],
             ops := p.ops[t.op := op],
             inflight := p.inflight + {t.op}), true))
    else
      Ok((p, false))
  }

  /** Environment of `epoll_add`: the socket calls succeed, and where the registration lands. */
  datatype Setup = Setup(usable: bool, sockData: Addr)

  /** `add`: the new registration enters the heap and the tree. */
  function Register(p: Port, a: Addr, s: SockData): Port {
    p.(socks := p.socks[a := s], tree := p.tree[s.sock := a])
  }

  function EpollAdd(p: Port, sock: int, ev: bv32, user: nat, u: Setup, t: Attempt): Outcome<(Port, bool)> {
    if sock in p.tree || !u.usable then Ok((p, false))
    else
      var s := SockData(sock, ev | EPOLLERR | EPOLLHUP, 0, user, 0);
      SubmitOp(Register(p, u.sockData, s), u.sockData, t)
  }

  function EpollMod(p: Port, sock: int, ev: bv32, user: nat, u: Setup, t: Attempt): Outcome<(Port, bool)> {
    if sock in p.tree then
      var a := p.tree[sock];
      var s :- LoadSock(p, a);
      SubmitOp(p.(socks := p.socks[a := s.(registered := ev | EPOLLERR | EPOLLHUP, user := user)]), a, t)
    else
      EpollAdd(p, sock, ev, user, u, t)
  }

  /** `epoll_port_data_t::remove`. */
  function Remove(p: Port, a: Addr): Outcome<Port> {
    var s :- LoadSock(p, a);
    Ok(p.(tree := p.tree - {s.sock}, attn := p.attn - {a}))
  }

  function EpollDel(p: Port, sock: int): Outcome<(Port, bool)> {
    if sock !in p.tree then Ok((p, false))
    else
      var p1 :- Remove(p, p.tree[sock]);
      Ok((p1, true))
  }

  /** `epoll_port_data_t::find`. */
  predicate Registered(p: Port, a: Addr) {
    a in p.socks && p.socks[a].sock in p.tree && p.tree[p.socks[a].sock] == a
  }

  /** `delete op`: the destructor updates the registration and asserts the count stays non-negative. */
  function DeleteOp(p: Port, o: Addr): Outcome<Port> {
    var op :- LoadOp(p, o);
    var s :- LoadSock(p, op.sockData);
    if s.opCount < 1 then Fault
    else Ok(p.(ops := p.ops - {o}, socks := p.socks[op.sockData := s.(opCount := s.opCount - 1)]))
  }

  /** `if (sock_data->_op_count == 0) delete sock_data;` */
  function FreeIfIdle(p: Port, a: Addr): Outcome<Port> {
    var s :- LoadSock(p, a);
    Ok(if s.opCount == 0 then p.(socks := p.socks - {a}) else p)
  }

  /** `delete op; if (sock_data->_op_count == 0) delete sock_data;` */
  function Discard(p: Port, o: Addr, a: Addr): Outcome<Port> {
    var p1 :- DeleteOp(p, o);
    FreeIfIdle(p1, a)
  }

  function WithoutEpollout(ev: bv32): bv32 {
    ev & !EPOLLOUT
  }

  /** Drop EPOLLOUT from the interest and put the registration on the attention list. */
  function Attend(p: Port, a: Addr): Outcome<Port> {
    var s :- LoadSock(p, a);
    Ok(p.(socks := p.socks[a := s.(registered := WithoutEpollout(s.registered))], attn := p.attn + {a}))
  }

  function Retire(p: Port, o: Addr, a: Addr): Outcome<Port> {
    var p1 :- DeleteOp(p, o);
    Attend(p1, a)
  }

  function CompletedEvents(c: Completion): bv32 {
    if c.handles == 0 then 0 else c.events
  }

  /** The rest of the iteration once the generation of registration `a` is reset. */
  function CompleteCurrent(p: Port, c: Completion, a: Addr): Outcome<(Port, seq<Event>)> {
    var s :- LoadSock(p, a);
    if !Registered(p, a) then
      var p1 :- Discard(p, c.op, a);
      Ok((p1, []))
    else if !c.success then
      Ok((p, [Event(s.user, EPOLLERR)]))
    else if CompletedEvents(c) & AFD_POLL_LOCAL_CLOSE != 0 then
      var p1 :- Remove(p, a);
      var p2 :- Discard(p1, c.op, a);
      Ok((p2, []))
    else
      var p1 :- Retire(p, c.op, a);
      var reported := ReportedEvents(CompletedEvents(c));
      Ok((p1, if reported != 0 then [Event(s.user, reported)] else []))
  }

  /** Dequeued the most recent op. Reset generation. */
  function ResetGeneration(p: Port, a: Addr): Outcome<Port> {
    var s :- LoadSock(p, a);
    Ok(p.(socks := p.socks[a := s.(generation := 0)]))
  }

  function HandBack(p: Port, o: Addr): Port {
    p.(inflight := p.inflight - {o})
  }

  /** One iteration of the loop of `epoll_port_data_t::epoll_wait`. */
  function Complete(p: Port, c: Completion): Outcome<(Port, seq<Event>)> {
    var p1 := HandBack(p, c.op);
    var op :- LoadOp(p1, c.op);
    var s :- LoadSock(p1, op.sockData);
    if op.generation < s.generation then
      var p2 :- DeleteOp(p1, c.op);
      Ok((p2, []))
    else
      var p2 :- ResetGeneration(p1, op.sockData);
      CompleteCurrent(p2, c, op.sockData)
  }

  /** The loop of `epoll_port_data_t::epoll_wait`. */
  function WaitBatch(p: Port, batch: seq<Completion>): Outcome<(Port, seq<Event>)> {
    if batch == [] then Ok((p, []))
    else
      var (p1, evs) :- WaitBatch(p, batch[..|batch| - 1]);
      var (p2, ev) :- Complete(p1, batch[|batch| - 1]);
      Ok((p2, evs + ev))
  }

  /** One entry of the attention list, in iteration order, with the environment of its submission. */
  datatype Attention = Attention(entry: Addr, attempt: Attempt)

  function SubmitEntry(p: Port, e: Attention): Outcome<Port> {
    var s :- LoadSock(p, e.entry);
    if s.opCount == 0 then
      var (p1, _) :- SubmitOp(p, e.entry, e.attempt);
      Ok(p1)
    else
      Ok(p)
  }

  /** The loop of `epoll_port_data_t::submit`. */
  function SubmitEntries(p: Port, order: seq<Attention>): Outcome<Port> {
    if order == [] then Ok(p)
    else
      var p1 :- SubmitEntries(p, order[..|order| - 1]);
      SubmitEntry(p1, order[|order| - 1])
  }

  /** `epoll_port_data_t::submit`. */
  function SubmitAll(p: Port, order: seq<Attention>): Outcome<Port> {
    var p1 :- SubmitEntries(p, order);
    Ok(p1.(attn := {}))
  }

  // ---------------------------------------------------------------------------------------------
  // Environment assumptions: the allocator returns unused addresses, the iteration visits the
  // attention list once each, the kernel hands back distinct operations it holds.

  predicate FreshAttempt(p: Port, t: Attempt) { t.op !in p.ops }

  predicate FreshSetup(p: Port, u: Setup) { u.sockData !in p.socks }

  ghost predicate Iterates(p: Port, order: seq<Attention>) {
    && (forall i :: 0 <= i < |order| ==> order[i].entry in p.attn)
    && (forall a :: a in p.attn ==> exists i :: 0 <= i < |order| && order[i].entry == a)
    && (forall i, j :: 0 <= i < j < |order| ==> order[i].entry != order[j].entry)
    && FreshAttempts(p, order)
  }

  ghost predicate FreshAttempts(p: Port, order: seq<Attention>) {
    && (forall i :: 0 <= i < |order| ==> FreshAttempt(p, order[i].attempt))
    && (forall i, j :: 0 <= i < j < |order| ==> order[i].attempt.op != order[j].attempt.op)
  }

  ghost predicate HandsBack(p: Port, batch: seq<Completion>) {
    && (forall i :: 0 <= i < |batch| ==> batch[i].op in p.inflight)
    && (forall i, j :: 0 <= i < j < |batch| ==> batch[i].op != batch[j].op)
  }
}
