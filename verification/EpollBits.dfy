/** What the translation between epoll's and AFD's event bits means for a caller. */
module EpollBits {
  import opened Epoll

  const READ_BITS: bv32 := EPOLLIN | EPOLLRDNORM | EPOLLRDBAND

  const WRITE_BITS: bv32 := EPOLLOUT | EPOLLWRNORM | EPOLLRDBAND

  /** The bits AFD watches for every socket, whatever its interest. */
  const ALWAYS: bv32 := AFD_POLL_ABORT | AFD_POLL_DISCONNECT | AFD_POLL_CONNECT_FAIL | AFD_POLL_LOCAL_CLOSE

  /** AFD answers with bits it was asked for. */
  predicate Answers(registered: bv32, afd: bv32) { afd & !AfdEvents(registered) == 0 }

  /** A socket is reported writable exactly when AFD says so, and AFD is asked exactly when the interest has
      a write bit, among which the translation counts EPOLLRDBAND. */
  lemma WritableOnlyIfAsked(registered: bv32, afd: bv32)
    requires Answers(registered, afd)
    ensures AfdEvents(registered) & AFD_POLL_SEND != 0 <==> registered & WRITE_BITS != 0
    ensures ReportedEvents(afd) & EPOLLOUT != 0 <==> afd & (AFD_POLL_SEND | AFD_POLL_CONNECT) != 0
    ensures ReportedEvents(afd) & EPOLLOUT != 0 ==> registered & WRITE_BITS != 0
  {}

  /** A socket is reported readable only if the interest has a read bit, or the peer has disconnected. */
  lemma ReadableOnlyIfAsked(registered: bv32, afd: bv32)
    requires Answers(registered, afd)
    ensures ReportedEvents(afd) & EPOLLIN != 0 ==>
      registered & READ_BITS != 0 || (afd & AFD_POLL_DISCONNECT != 0 && afd & AFD_POLL_ABORT == 0)
    ensures registered & EPOLLIN != 0 && afd & AFD_POLL_RECEIVE != 0 ==> ReportedEvents(afd) & EPOLLIN != 0
  {}

  /** Nothing but a local close is swallowed: a completion reports no event if and only if AFD said nothing else. */
  lemma NothingSwallowed(registered: bv32, afd: bv32)
    requires Answers(registered, afd)
    ensures ReportedEvents(afd) == 0 <==> afd & !AFD_POLL_LOCAL_CLOSE == 0
  {}

  /** A hang-up comes without readability, unless data is reported with it, and always with an error. */
  lemma HangUpComesAlone(afd: bv32)
    requires ReportedEvents(afd) & EPOLLHUP != 0
    ensures ReportedEvents(afd) & EPOLLERR != 0
    ensures ReportedEvents(afd) & EPOLLIN != 0 <==>
      afd & (AFD_POLL_RECEIVE | AFD_POLL_ACCEPT | AFD_POLL_RECEIVE_EXPEDITED) != 0
  {}

  const ACCEPTED: bv32 := EPOLLIN | EPOLLRDNORM

  const URGENT: bv32 := EPOLLIN | EPOLLRDBAND

  /** What AFD is asked for, bit by bit, and nothing else. */
  predicate AsksFor(registered: bv32, afd: bv32) {
    && afd & ALWAYS == ALWAYS
    && (afd & AFD_POLL_RECEIVE != 0 <==> registered & ACCEPTED != 0)
    && (afd & AFD_POLL_ACCEPT != 0 <==> registered & ACCEPTED != 0)
    && (afd & AFD_POLL_RECEIVE_EXPEDITED != 0 <==> registered & URGENT != 0)
    && (afd & AFD_POLL_SEND != 0 <==> registered & WRITE_BITS != 0)
    && (afd & AFD_POLL_CONNECT != 0 <==> registered & WRITE_BITS != 0)
    && afd & 0xFFFF_FE00 == 0
  }

  lemma AskedBits(registered: bv32)
    ensures AsksFor(registered, AfdEvents(registered))
  {}

  /** What AFD reports, bit by bit: every epoll bit that comes of it. */
  lemma ReportedBits(afd: bv32)
    ensures var ev, gone := ReportedEvents(afd), afd & AFD_POLL_DISCONNECT != 0 && afd & AFD_POLL_ABORT == 0;
      && (ev & EPOLLIN != 0 <==> afd & (AFD_POLL_RECEIVE | AFD_POLL_ACCEPT | AFD_POLL_RECEIVE_EXPEDITED) != 0 || gone)
      && (ev & EPOLLRDBAND != 0 <==> afd & AFD_POLL_RECEIVE_EXPEDITED != 0 || gone)
      && (ev & EPOLLRDNORM != 0 <==> gone) && (ev & EPOLLRDHUP != 0 <==> gone)
      && (ev & EPOLLOUT != 0 <==> afd & (AFD_POLL_SEND | AFD_POLL_CONNECT) != 0)
      && (ev & EPOLLWRNORM != 0 <==> afd & AFD_POLL_CONNECT != 0)
      && (ev & EPOLLWRBAND != 0 <==> afd & AFD_POLL_CONNECT != 0)
      && (ev & EPOLLERR != 0 <==> afd & (AFD_POLL_ABORT | AFD_POLL_CONNECT_FAIL) != 0)
      && (ev & EPOLLHUP != 0 <==> afd & AFD_POLL_ABORT != 0)
  {}

  /** The interest of the channels of this library: what they ask for is what AFD watches on top of its own. */
  lemma InterestDecides(registered: bv32)
    ensures AfdEvents(registered) & ALWAYS == ALWAYS
    ensures AfdEvents(registered) == ALWAYS <==> registered & (READ_BITS | WRITE_BITS) == 0
  {}
}
