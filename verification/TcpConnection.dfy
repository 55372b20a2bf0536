/** One TCP connection of net/tcpConnection.cpp, driven by its loop thread. */
module TcpConnection {
  import opened Outcomes
  import opened NetworkBytes

  datatype State = Connecting | Connected | Disconnecting | Disconnected

  function Rank(s: State): nat {
    match s case Connecting => 0 case Connected => 1 case Disconnecting => 2 case Disconnected => 3
  }

  /** The fields, and the history the promises are about: `wire` are the bytes the socket took, `accepted`
      the messages `sendInLoop` took on, `fins` the calls of `shutdownWrite`. */
  datatype Conn = Conn(
    state: State,
    reading: bool,
    chReading: bool,
    chWriting: bool,
    added: bool,          // the poller knows the channel
    out: seq<Byte>,
    wire: seq<Byte>,
    accepted: seq<Byte>,
    fins: nat,
    ups: nat,
    downs: nat
  )

  const NewConn := Conn(Connecting, true, false, false, false, [], [], [], 0, 0, 0)

  // ---------------------------------------------------------------------------------------------
  // The methods, as functions on the state; a failed assert is a fault

  predicate Live(c: Conn) { c.state.Connected? || c.state.Disconnecting? }

  function ConnectEstablished(c: Conn): Outcome<Conn> {
    if !c.state.Connecting? then Fault
    else Ok(c.(state := Connected, chReading := true, added := true, ups := c.ups + 1))
  }

  /** `channel_->remove()`: the channel must have no interest left and the poller must know it. */
  function RemoveChannel(c: Conn): Outcome<Conn> {
    if c.chReading || c.chWriting || !c.added then Fault else Ok(c.(added := false))
  }

  function ConnectDestroyed(c: Conn): Outcome<Conn> {
    RemoveChannel(
      if c.state.Connected?
      then c.(state := Disconnected, chReading := false, chWriting := false, added := true, downs := c.downs + 1)
      else c)
  }

  /** `n` is what a direct write returns, when there is one. */
  function SendInLoop(c: Conn, data: seq<Byte>, n: nat): Conn
    requires n <= |data|
  {
    if c.state.Disconnected? then c
    else
      var direct := !c.chWriting && c.out == [];
      var nwrote := if direct then n else 0;
      var rest := data[nwrote..];
      c.(wire := c.wire + data[..nwrote],
         out := c.out + rest,
         chWriting := c.chWriting || rest != [],
         added := c.added || (!c.chWriting && rest != []),
         accepted := c.accepted + data)
  }

  function Send(c: Conn, data: seq<Byte>, n: nat): Conn
    requires n <= |data|
  {
    if c.state.Connected? then SendInLoop(c, data, n) else c
  }

  function ShutdownInLoop(c: Conn): Conn {
    if !c.chWriting then c.(fins := c.fins + 1) else c
  }

  function Shutdown(c: Conn): Conn {
    if c.state.Connected? then ShutdownInLoop(c.(state := Disconnecting)) else c
  }

  function HandleWrite(c: Conn, n: nat): Conn
    requires n <= |c.out|
  {
    if c.chWriting && n > 0 then
      var c1 := c.(wire := c.wire + c.out[..n], out := c.out[n..]);
      if c1.out == [] then
        var c2 := c1.(chWriting := false, added := true);
        if c.state.Disconnecting? then ShutdownInLoop(c2) else c2
      else c1
    else c
  }

  function HandleClose(c: Conn): Outcome<Conn> {
    if !Live(c) then Fault
    else Ok(c.(state := Disconnected, chReading := false, chWriting := false, added := true, downs := c.downs + 1))
  }

  /** `readFd` returned `n` bytes; with an unsigned `ssize_t` there is no third outcome. */
  function HandleRead(c: Conn, n: nat): Outcome<Conn> {
    if n > 0 then Ok(c) else HandleClose(c)
  }

  /** `forceClose`, and equally the first half of `forceCloseWithDelay`. */
  function ForceClose(c: Conn): Conn {
    if Live(c) then c.(state := Disconnecting) else c
  }

  function ForceCloseInLoop(c: Conn): Outcome<Conn> {
    if Live(c) then HandleClose(c) else Ok(c)
  }

  function StartRead(c: Conn): Conn {
    if !c.reading || !c.chReading then c.(chReading := true, added := true, reading := true) else c
  }

  function StopRead(c: Conn): Conn {
    if c.reading || c.chReading then c.(chReading := false, added := true, reading := false) else c
  }

  // ---------------------------------------------------------------------------------------------
  // Runs of the loop thread

  datatype Action =
    | Establish
    | Destroy
    | SendData(data: seq<Byte>, n: nat)
    | QueuedSend(data: seq<Byte>, n: nat)  // a sendInLoop that another thread queued
    | ShutdownWrite
    | WriteReady(n: nat)
    | ReadReady(n: nat)
    | HangUp
    | ForceIt
    | ForcedInLoop
    | Start
    | Stop

  /** Any call and any event may come at any time; a socket takes no more than it is offered. */
  predicate Plausible(c: Conn, x: Action) {
    match x
    case SendData(data, n) => n <= |data|
    case QueuedSend(data, n) => n <= |data|
    case WriteReady(n) => n <= |c.out|
    case _ => true
  }

  function Step(c: Conn, x: Action): Outcome<Conn>
    requires Plausible(c, x)
  {
    match x
    case Establish => ConnectEstablished(c)
    case Destroy => ConnectDestroyed(c)
    case SendData(data, n) => Ok(Send(c, data, n))
    case QueuedSend(data, n) => Ok(SendInLoop(c, data, n))
    case ShutdownWrite => Ok(Shutdown(c))
    case WriteReady(n) => Ok(HandleWrite(c, n))
    case ReadReady(n) => HandleRead(c, n)
    case HangUp => HandleClose(c)
    case ForceIt => Ok(ForceClose(c))
    case ForcedInLoop => ForceCloseInLoop(c)
    case Start => Ok(StartRead(c))
    case Stop => Ok(StopRead(c))
  }

  predicate Legal(c: Conn, xs: seq<Action>)
    decreases |xs|
  {
    xs == [] || (Plausible(c, xs[0]) && (Step(c, xs[0]).Ok? ==> Legal(Step(c, xs[0]).value, xs[1..])))
  }

  function Run(c: Conn, xs: seq<Action>): Outcome<Conn>
    requires Legal(c, xs)
    decreases |xs|
  {
    if xs == [] then Ok(c)
    else
      var d :- Step(c, xs[0]);
      Run(d, xs[1..])
  }

  // ---------------------------------------------------------------------------------------------
  // What every step keeps

  predicate Inv(c: Conn) {
    && c.wire + c.out == c.accepted
    && (if c.state.Disconnected? then !c.chWriting else c.chWriting == (c.out != []))
    && (c.chReading || c.chWriting ==> c.added)
    && c.ups == (if c.state.Connecting? then 0 else 1)
    && c.downs == (if c.state.Disconnected? then 1 else 0)
    && (c.fins > 0 ==> Rank(c.state) >= 2)
  }

  lemma StepKeeps(c: Conn, x: Action)
    requires Inv(c) && Plausible(c, x) && Step(c, x).Ok?
    ensures var d := Step(c, x).value; Inv(d) && Rank(c.state) <= Rank(d.state) && c.wire <= d.wire
    ensures c.state.Disconnected? ==> Step(c, x).value.wire == c.wire && Step(c, x).value.accepted == c.accepted
  {
    match x
    case SendData(data, n) => if c.state.Connected? { SendConserves(c, data, n); }
    case QueuedSend(data, n) => if !c.state.Disconnected? { SendConserves(c, data, n); }
    case WriteReady(n) =>
      assert c.out == c.out[..n] + c.out[n..];
      assert (c.wire + c.out[..n]) + c.out[n..] == c.wire + c.out;
    case _ =>
  }

  lemma SendConserves(c: Conn, data: seq<Byte>, n: nat)
    requires c.wire + c.out == c.accepted && n <= |data| && !c.state.Disconnected?
    ensures var d := SendInLoop(c, data, n); d.wire + d.out == d.accepted && d.accepted == c.accepted + data
  {
    assert data == data[..n] + data[n..];
    if !c.chWriting && c.out == [] {
      assert (c.wire + data[..n]) + data[n..] == c.wire + data;
    } else {
      assert data[0..] == data && c.wire + data[..0] == c.wire;
      assert c.wire + (c.out + data) == (c.wire + c.out) + data;
    }
  }

  lemma {:induction false} RunKeeps(c: Conn, xs: seq<Action>)
    requires Inv(c) && Legal(c, xs) && Run(c, xs).Ok?
    ensures var d := Run(c, xs).value; Inv(d) && Rank(c.state) <= Rank(d.state) && c.wire <= d.wire
    decreases |xs|
  {
    if xs != [] {
      StepKeeps(c, xs[0]);
      RunKeeps(Step(c, xs[0]).value, xs[1..]);
    }
  }

  /** Nothing is lost, duplicated or reordered: in every state of every run, with sends of any thread, the
      bytes the socket took, followed by the output buffer, are the accepted messages; while the connection
      is not down the channel asks for writability exactly while something is buffered. */
  lemma StreamConservation(xs: seq<Action>)
    requires Legal(NewConn, xs) && Run(NewConn, xs).Ok?
    ensures var c := Run(NewConn, xs).value;
      && c.wire + c.out == c.accepted
      && (!c.state.Disconnected? ==> c.chWriting == (c.out != []))
      && (c.state.Disconnected? ==> !c.chWriting)
  {
    RunKeeps(NewConn, xs);
  }

  lemma {:induction false} RunSplit(c: Conn, xs: seq<Action>, ys: seq<Action>)
    requires Legal(c, xs + ys) && Run(c, xs + ys).Ok?
    ensures Legal(c, xs) && Run(c, xs).Ok? && Legal(Run(c, xs).value, ys)
    ensures Run(c, xs + ys) == Run(Run(c, xs).value, ys)
    decreases |xs|
  {
    if xs == [] {
      assert xs + ys == ys;
    } else {
      assert (xs + ys)[1..] == xs[1..] + ys;
      RunSplit(Step(c, xs[0]).value, xs[1..], ys);
    }
  }

  /** The life of a connection, in every run in which no assert fails: the state never goes back, UP is
      announced once and before the one DOWN, and written bytes stay written. */
  lemma Lifecycle(xs: seq<Action>, ys: seq<Action>)
    requires Legal(NewConn, xs + ys) && Run(NewConn, xs + ys).Ok?
    ensures Legal(NewConn, xs) && Run(NewConn, xs).Ok?
    ensures var c, d := Run(NewConn, xs).value, Run(NewConn, xs + ys).value;
      && Rank(c.state) <= Rank(d.state) && c.wire <= d.wire
      && c.downs <= c.ups <= 1
      && (c.ups == 1 <==> !c.state.Connecting?) && (c.downs == 1 <==> c.state.Disconnected?)
  {
    RunSplit(NewConn, xs, ys);
    RunKeeps(NewConn, xs);
    RunKeeps(Run(NewConn, xs).value, ys);
  }

  // ---------------------------------------------------------------------------------------------
  // Which runs those are

  /** What a caller can look at before a call or an event to tell whether an assert will fail. */
  predicate Safe(c: Conn, x: Action) {
    match x
    case Establish => c.state.Connecting?
    case Destroy => c.state.Connected? || (c.added && !c.chReading && !c.chWriting)
    case ReadReady(n) => n > 0 || Live(c)
    case HangUp => Live(c)
    case _ => true
  }

  lemma StepOkExactly(c: Conn, x: Action)
    requires Plausible(c, x)
    ensures Step(c, x).Ok? <==> Safe(c, x)
  {}

  predicate AllSafe(c: Conn, xs: seq<Action>)
    requires Legal(c, xs)
    decreases |xs|
  {
    xs == [] || (Safe(c, xs[0]) && (Step(c, xs[0]).Ok? ==> AllSafe(Step(c, xs[0]).value, xs[1..])))
  }

  /** No assert fails in a run if and only if each of its steps meets its guard. */
  lemma {:induction false} RunOkExactly(c: Conn, xs: seq<Action>)
    requires Legal(c, xs)
    ensures Run(c, xs).Ok? <==> AllSafe(c, xs)
    decreases |xs|
  {
    if xs != [] {
      StepOkExactly(c, xs[0]);
      if Step(c, xs[0]).Ok? { RunOkExactly(Step(c, xs[0]).value, xs[1..]); }
    }
  }

  /** One poll may hand a channel out twice. Once a delivery has closed the connection, another one in the same
      poll fails the assert of `handleClose` exactly when it reads nothing or hangs up. */
  lemma SecondDelivery(c: Conn, first: Action, second: Action)
    requires Inv(c) && Live(c) && (first == ReadReady(0) || first == HangUp)
    requires second.ReadReady? || second.HangUp? || second.WriteReady?
    ensures Step(c, first).Ok?
    ensures var d := Step(c, first).value;
      Plausible(d, second) ==> (Step(d, second).Fault? <==> second == HangUp || second == ReadReady(0))
  {}

  /** Destroying a connection that is not up works if and only if the poller still knows its channel and the
      channel has no interest; half closed, that means that reading was stopped and nothing is buffered. */
  lemma DestroyExactly(c: Conn)
    requires Inv(c)
    ensures ConnectDestroyed(c).Ok? <==>
      || c.state.Connected?
      || (c.state.Disconnected? && c.added && !c.chReading)
      || (!c.state.Disconnected? && c.added && !c.chReading && c.out == [])
    ensures ConnectDestroyed(c).Ok? && Rank(c.state) > 0 && !c.state.Disconnecting? ==>
      ConnectDestroyed(c).value.state.Disconnected?
  {}

  /** A close from the peer leaves a connection that can be destroyed once: not after reading is started
      again, not a second time. */
  lemma DestroyAfterClose(c: Conn)
    requires Inv(c) && Live(c)
    ensures HandleClose(c).Ok?
    ensures var d := HandleClose(c).value;
      && ConnectDestroyed(d).Ok? && ConnectDestroyed(StartRead(d)).Fault?
      && ConnectDestroyed(StopRead(StartRead(d))).Ok? && ConnectDestroyed(ConnectDestroyed(d).value).Fault?
  {}

  /** `~TcpConnection` and the channel's destructor: both asserts hold if and only if the connection is down
      and its channel removed. */
  predicate Releasable(c: Conn) { c.state.Disconnected? && !c.added }

  /** A connection destroyed while half closed is left half closed, and its own destructor's assert would fail. */
  lemma DestroyedIsReleasable(c: Conn)
    requires Inv(c) && ConnectDestroyed(c).Ok?
    ensures Releasable(ConnectDestroyed(c).value) <==> c.state.Connected? || c.state.Disconnected?
  {}

  // ---------------------------------------------------------------------------------------------
  // What each step does

  predicate IsUp(c: Conn, d: Conn) {
    d.state.Connected? && d.chReading && d.ups == 1 && d.out == c.out && d.wire == c.wire
  }

  predicate IsDown(c: Conn, d: Conn) {
    d.state.Disconnected? && !d.chReading && !d.chWriting && d.downs == 1 && d.wire == c.wire && d.fins == c.fins
  }

  /** `connectEstablished` starts reading and says UP; `handleClose` ends all interest and says DOWN. */
  lemma UpAndDown(c: Conn)
    requires Inv(c)
    ensures c.state.Connecting? ==> ConnectEstablished(c).Ok? && IsUp(c, ConnectEstablished(c).value)
    ensures Live(c) ==> HandleClose(c).Ok? && IsDown(c, HandleClose(c).value)
    ensures Live(c) ==> HandleRead(c, 0) == HandleClose(c)
    ensures forall n: nat :: n > 0 ==> HandleRead(c, n) == Ok(c)
    ensures c.state.Connected? ==> ConnectDestroyed(c).Ok? && IsDown(c, ConnectDestroyed(c).value)
    ensures c.state.Connected? ==> !ConnectDestroyed(c).value.added
  {}

  /** Forcing a live connection closes it, whatever is buffered, and sends no FIN; it does nothing to any other. */
  lemma ForcingCloses(c: Conn)
    requires Inv(c)
    ensures ForceCloseInLoop(ForceClose(c)).Ok?
    ensures var d := ForceCloseInLoop(ForceClose(c)).value;
      if Live(c) then IsDown(c, d) else d == c
  {}

  lemma ReadingAsAsked(c: Conn)
    ensures StartRead(c).chReading && StartRead(c).reading && !StopRead(c).chReading && !StopRead(c).reading
    ensures StartRead(c).state == c.state == StopRead(c).state
    ensures c.chReading && c.reading ==> StartRead(c) == c
    ensures !c.chReading && !c.reading ==> StopRead(c) == c
  {}

  /** A connected connection accepts every message: what the socket takes at once is written, as long as nothing waits,
      and the rest is buffered. No other state accepts one from `send`, and none but a closed one refuses a queued
      one. */
  lemma SendsExactly(c: Conn, data: seq<Byte>, n: nat)
    requires Inv(c) && n <= |data|
    ensures !c.state.Connected? ==> Send(c, data, n) == c
    ensures c.state.Disconnected? ==> SendInLoop(c, data, n) == c
    ensures c.state.Connected? ==> Send(c, data, n) == SendInLoop(c, data, n)
    ensures !c.state.Disconnected? ==>
      var d := SendInLoop(c, data, n);
      && d.accepted == c.accepted + data && d.state == c.state && d.fins == c.fins
      && (c.out == [] ==> d.wire == c.wire + data[..n] && d.out == data[n..])
      && (c.out != [] ==> d.wire == c.wire && d.out == c.out + data)
  {
    assert data[0..] == data && c.wire + data[..0] == c.wire && [] + data[n..] == data[n..];
  }

  /** A writable event writes what the socket takes from the front of the buffer; when that empties it, the interest in
      writing ends, and a half closed connection gets its FIN. */
  lemma WritesExactly(c: Conn, n: nat)
    requires Inv(c) && !c.state.Disconnected? && n <= |c.out|
    ensures var d := HandleWrite(c, n);
      && d.wire == c.wire + c.out[..n] && d.out == c.out[n..] && d.state == c.state
      && d.fins == c.fins + if c.state.Disconnecting? && n > 0 && n == |c.out| then 1 else 0
  {
    if n == 0 {
      assert c.wire + c.out[..0] == c.wire && c.out[0..] == c.out;
    }
  }

  // ---------------------------------------------------------------------------------------------
  // The FIN

  /** A send queued by another thread that reaches the half-closed connection with something to say. */
  predicate Behind(c: Conn, x: Action) {
    x.QueuedSend? && c.fins > 0 && c.state.Disconnecting? && x.data != []
  }

  /** `shutdown` sends the FIN at once if nothing is buffered, and leaves it for the write that empties the buffer
      otherwise. It does nothing to a connection that is not up. */
  lemma ShutdownExactly(c: Conn)
    requires Inv(c)
    ensures !c.state.Connected? ==> Shutdown(c) == c
    ensures c.state.Connected? ==>
      var d := Shutdown(c);
      && d.state.Disconnecting? && d.fins == (if c.out == [] then 1 else 0)
      && d.out == c.out && d.wire == c.wire && d.chReading == c.chReading
  {}

  /** No FIN before the half close; after it, exactly one once the buffer is empty. */
  predicate FinMatches(c: Conn) {
    match c.state
    case Connecting => c.fins == 0
    case Connected => c.fins == 0
    case Disconnecting => c.fins == if c.out == [] then 1 else 0
    case Disconnected => true
  }

  /** A forced close of a connection with nothing to write, and a queued send that fills the buffer again after
      the FIN. */
  predicate Spoils(c: Conn, x: Action) {
    || (x.ForceIt? && c.state.Connected? && c.out == [])
    || (x.QueuedSend? && c.state.Disconnecting? && c.out == [] && x.n < |x.data|)
  }

  lemma FinMatchesExactly(c: Conn, x: Action)
    requires Inv(c) && FinMatches(c) && Plausible(c, x) && Step(c, x).Ok?
    ensures FinMatches(Step(c, x).value) <==> !Spoils(c, x)
  {
    match x
    case SendData(data, n) => if c.state.Connected? { SendsExactly(c, data, n); }
    case QueuedSend(data, n) =>
      if !c.state.Disconnected? { SendsExactly(c, data, n); }
      assert |data[n..]| == |data| - n && |c.out + data| == |c.out| + |data|;
    case WriteReady(n) => if !c.state.Disconnected? { WritesExactly(c, n); }
    case _ =>
  }

  predicate NoneSpoils(c: Conn, xs: seq<Action>)
    requires Legal(c, xs)
    decreases |xs|
  {
    xs == [] || (!Spoils(c, xs[0]) && (Step(c, xs[0]).Ok? ==> NoneSpoils(Step(c, xs[0]).value, xs[1..])))
  }

  lemma {:induction false} RunFinMatches(c: Conn, xs: seq<Action>)
    requires Inv(c) && FinMatches(c) && Legal(c, xs) && Run(c, xs).Ok? && NoneSpoils(c, xs)
    ensures FinMatches(Run(c, xs).value)
    decreases |xs|
  {
    if xs != [] {
      StepKeeps(c, xs[0]);
      FinMatchesExactly(c, xs[0]);
      RunFinMatches(Step(c, xs[0]).value, xs[1..]);
    }
  }

  /** In every run without these two, a half closed connection has sent its FIN if and only if its buffer is empty. */
  lemma HalfCloseSendsFin(xs: seq<Action>)
    requires Legal(NewConn, xs) && Run(NewConn, xs).Ok? && NoneSpoils(NewConn, xs)
    ensures var c := Run(NewConn, xs).value;
      && (c.state.Disconnecting? ==> c.fins <= 1 && (c.fins == 1 <==> c.out == []))
      && (c.state.Connecting? || c.state.Connected? ==> c.fins == 0)
  {
    RunFinMatches(NewConn, xs);
  }

  /** `shutdownWrite` was called at most once, and nothing is left to write after it. */
  predicate FinIsLast(c: Conn) { c.fins > 0 ==> c.fins == 1 && c.out == [] }

  /** A step keeps the FIN last, and writes nothing behind it, if and only if it is no such send. */
  lemma FinStaysLast(c: Conn, x: Action)
    requires Inv(c) && FinIsLast(c) && Plausible(c, x) && Step(c, x).Ok?
    ensures var d := Step(c, x).value; FinIsLast(d) && (c.fins > 0 ==> d.wire == c.wire) <==> !Behind(c, x)
  {
    match x
    case QueuedSend(data, n) =>
      if c.fins > 0 && c.state.Disconnecting? {
        assert |SendInLoop(c, data, n).wire| == |c.wire| + n;
        assert |SendInLoop(c, data, n).out| == |data| - n;
      }
    case _ =>
  }

  predicate NoneBehind(c: Conn, xs: seq<Action>)
    requires Legal(c, xs)
    decreases |xs|
  {
    xs == [] || (!Behind(c, xs[0]) && (Step(c, xs[0]).Ok? ==> NoneBehind(Step(c, xs[0]).value, xs[1..])))
  }

  /** Orderly half close: without such sends, `shutdownWrite` happens at most once in a run, on an empty
      buffer, and no byte is written after it. */
  lemma {:induction false} OrderlyHalfClose(c: Conn, xs: seq<Action>)
    requires Inv(c) && FinIsLast(c) && Legal(c, xs) && Run(c, xs).Ok? && NoneBehind(c, xs)
    ensures FinIsLast(Run(c, xs).value) && (c.fins > 0 ==> Run(c, xs).value.wire == c.wire)
    decreases |xs|
  {
    if xs != [] {
      StepKeeps(c, xs[0]);
      FinStaysLast(c, xs[0]);
      FinsGrow(c, xs[0]);
      OrderlyHalfClose(Step(c, xs[0]).value, xs[1..]);
    }
  }

  lemma FinsGrow(c: Conn, x: Action)
    requires Plausible(c, x) && Step(c, x).Ok?
    ensures Step(c, x).value.fins >= c.fins
  {}

  /** Such a send writes behind the FIN at once exactly when the socket takes a byte; otherwise the bytes wait,
      and with them a second FIN. */
  lemma QueuedSendBehindFin(c: Conn, data: seq<Byte>, n: nat)
    requires Inv(c) && FinIsLast(c) && c.fins > 0 && n <= |data| && Behind(c, QueuedSend(data, n))
    ensures var d := SendInLoop(c, data, n);
      && (d.wire != c.wire <==> n > 0) && d.out == data[n..]
      && (n < |data| ==> HandleWrite(d, |data| - n).fins == 2 && HandleWrite(d, |data| - n).wire == c.wire + data)
  {
    var d := SendInLoop(c, data, n);
    assert |d.wire| == |c.wire| + n;
    assert (c.wire + data[..n]) + data[n..] == c.wire + data;
  }
}

/** The connection as an object that owns its output buffer. A method that returns `ok` stops at the assert
    of the source when it returns false. */
module TcpConnectionClass {
  import opened Outcomes
  import opened NetworkBytes
  import opened BufferClass
  import opened TcpConnection

  class Connection {
    var state: State
    var reading: bool
    var chReading: bool
    var chWriting: bool
    var added: bool
    const outputBuffer: Buffer
    ghost var wire: seq<Byte>
    ghost var accepted: seq<Byte>
    ghost var fins: nat
    ghost var ups: nat
    ghost var downs: nat

    ghost function Model(): Conn
      reads this, outputBuffer, outputBuffer.data
      requires outputBuffer.Valid()
    {
      Conn(state, reading, chReading, chWriting, added, outputBuffer.Contents(), wire, accepted, fins, ups, downs)
    }

    ghost predicate Valid()
      reads this, outputBuffer, outputBuffer.data
    {
      outputBuffer.Valid() && Inv(Model())
    }

    constructor ()
      ensures Valid() && Model() == NewConn && fresh(outputBuffer) && fresh(outputBuffer.data)
    {
      state, reading, chReading, chWriting, added := Connecting, true, false, false, false;
      wire, accepted, fins, ups, downs := [], [], 0, 0, 0;
      outputBuffer := new Buffer(INITIAL_SIZE);
    }

    method Establish() returns (ok: bool)
      requires Valid()
      modifies this
      ensures ok <==> Safe(old(Model()), Action.Establish)
      ensures ok ==> Valid() && ConnectEstablished(old(Model())) == Ok(Model())
    {
      if !state.Connecting? { return false; }
      state := Connected;
      chReading, added := true, true;
      ups := ups + 1;
      return true;
    }

    method Destroy() returns (ok: bool)
      requires Valid()
      modifies this
      ensures ok <==> Safe(old(Model()), Action.Destroy)
      ensures ok ==> Valid() && ConnectDestroyed(old(Model())) == Ok(Model())
    {
      if state.Connected? {
        state := Disconnected;
        chReading, chWriting, added := false, false, true;
        downs := downs + 1;
      }
      if chReading || chWriting || !added { return false; }
      added := false;
      return true;
    }

    /** The direct write of `sendInLoop`, tried only when nothing waits ahead of it. */
    method WriteDirectly(data: seq<Byte>, n: nat) returns (nwrote: nat)
      requires outputBuffer.Valid() && n <= |data|
      modifies this`wire
      ensures nwrote == (if !chWriting && outputBuffer.Contents() == [] then n else 0)
      ensures wire == old(wire) + data[..nwrote]
    {
      nwrote := 0;
      if !chWriting && outputBuffer.Readable() == 0 {
        nwrote := n;
        wire := wire + data[..n];
      }
    }

    /** `sendInLoop`; `n` is the result of the direct write. */
    method QueueOrWrite(data: seq<Byte>, n: nat)
      requires outputBuffer.Valid() && n <= |data|
      modifies this, outputBuffer, outputBuffer.data
      ensures outputBuffer.Valid() && Model() == SendInLoop(old(Model()), data, n)
      ensures outputBuffer.data == old(outputBuffer.data) || fresh(outputBuffer.data)
    {
      if state.Disconnected? { return; }
      var nwrote := WriteDirectly(data, n);
      accepted := accepted + data;
      if |data| - nwrote > 0 {
        outputBuffer.Append(data[nwrote..]);
        if !chWriting {
          chWriting, added := true, true;
        }
      }
      assert outputBuffer.Contents() == old(outputBuffer.Contents()) + data[nwrote..];
    }

    method SendMessage(data: seq<Byte>, n: nat)
      requires Valid() && n <= |data|
      modifies this, outputBuffer, outputBuffer.data
      ensures Valid() && Model() == Send(old(Model()), data, n)
    {
      StepKeeps(Model(), SendData(data, n));
      if state.Connected? {
        QueueOrWrite(data, n);
      }
    }

    /** `shutdownInLoop`. */
    method HalfClose()
      requires outputBuffer.Valid()
      modifies this`fins
      ensures outputBuffer.Valid() && Model() == ShutdownInLoop(old(Model()))
    {
      if !chWriting {
        fins := fins + 1;
      }
    }

    method RequestShutdown()
      requires Valid()
      modifies this
      ensures Valid() && Model() == Shutdown(old(Model()))
    {
      StepKeeps(Model(), ShutdownWrite);
      if state.Connected? {
        state := Disconnecting;
        HalfClose();
      }
    }

    /** `handleWrite`; the socket took `n` bytes. */
    method OnWritable(n: nat)
      requires Valid() && n <= outputBuffer.Readable()
      modifies this, outputBuffer
      ensures Valid() && Model() == HandleWrite(old(Model()), n)
    {
      StepKeeps(Model(), WriteReady(n));
      DrainOutput(n);
    }

    method DrainOutput(n: nat)
      requires outputBuffer.Valid() && n <= outputBuffer.Readable()
      modifies this, outputBuffer
      ensures outputBuffer.Valid() && Model() == HandleWrite(old(Model()), n)
    {
      if chWriting {
        if n > 0 {
          wire := wire + outputBuffer.Contents()[..n];
          outputBuffer.Retrieve(n);
          if outputBuffer.Readable() == 0 {
            chWriting, added := false, true;
            if state.Disconnecting? {
              HalfClose();
            }
          }
        }
      }
    }

    /** `handleClose`. */
    method Close() returns (ok: bool)
      requires Valid()
      modifies this
      ensures ok <==> Live(old(Model()))
      ensures ok ==> Valid() && HandleClose(old(Model())) == Ok(Model())
    {
      if !state.Connected? && !state.Disconnecting? { return false; }
      state := Disconnected;
      chReading, chWriting, added := false, false, true;
      downs := downs + 1;
      return true;
    }

    /** `handleRead`. */
    method OnReadable(n: nat) returns (ok: bool)
      requires Valid()
      modifies this
      ensures ok <==> Safe(old(Model()), ReadReady(n))
      ensures ok ==> Valid() && HandleRead(old(Model()), n) == Ok(Model())
    {
      ok := true;
      if n == 0 {
        ok := Close();
      }
    }

    method RequestForceClose()
      requires Valid()
      modifies this
      ensures Valid() && Model() == ForceClose(old(Model()))
    {
      if state.Connected? || state.Disconnecting? {
        state := Disconnecting;
      }
    }

    /** `forceCloseInLoop`; the assert of `handleClose` holds. */
    method ForcedClose()
      requires Valid()
      modifies this
      ensures Valid() && ForceCloseInLoop(old(Model())) == Ok(Model())
    {
      if state.Connected? || state.Disconnecting? {
        var ok := Close();
        assert ok;
      }
    }

    method ResumeReading()
      requires Valid()
      modifies this
      ensures Valid() && Model() == StartRead(old(Model()))
    {
      if !reading || !chReading {
        chReading, added := true, true;
        reading := true;
      }
    }

    method PauseReading()
      requires Valid()
      modifies this
      ensures Valid() && Model() == StopRead(old(Model()))
    {
      if reading || chReading {
        chReading, added := false, true;
        reading := false;
      }
    }
  }
}
