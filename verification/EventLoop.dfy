/** The functor queue and the wakeup pipe of net/eventLoop.cpp, as a protocol between the loop thread and
    any number of foreign threads. Each step is one region that no other thread can observe halfway: a
    critical section of `mutex_`, one access to `quit_`, or one pipe operation. */
module EventLoop {

  type Functor = nat
  type Thread = nat

  /** Where the loop thread is. */
  datatype Phase =
    | Testing       // about to evaluate `while (!quit_)`
    | Polling       // in `poller_->poll`
    | Handling(readable: bool)  // timers and channel events; `readable` while `handleRead` is still to run
    | Swapping      // `callingPendingFunctors_` is set, the queue is not yet taken
    | Running       // running the functors taken
    | Waking        // a functor queued another one from the loop thread and has yet to write the pipe
    | Stopped

  /** `pushed` and `ran` are the whole history; `taken` is `|pushed|` at the last swap. */
  datatype Loop = Loop(
    phase: Phase,
    quit: bool,
    pending: seq<Functor>,      // pendingFunctors_
    functors: seq<Functor>,     // taken and not yet run
    tokens: nat,                // unread 8-byte messages in the pipe
    waking: set<Thread>,        // foreign threads between their push or `quit_ = true` and their write
    pushed: seq<Functor>,
    ran: seq<Functor>,
    taken: nat
  )

  /** `loop()` has set `quit_ = false`; nothing was queued from the loop thread before. */
  const Start := Loop(Testing, false, [], [], 0, {}, [], [], 0)

  datatype Action =
    // foreign threads
    | ForeignPush(t: Thread, f: Functor)   // the critical section of queueInLoop
    | ForeignQuit(t: Thread)               // quit_ = true
    | ForeignWrite(t: Thread)              // wakeup()
    // the loop thread
    | Test
    | PollReturns(readable: bool)          // an event, a timeout, or both
    | HandleRead
    | QueueWhileHandling(f: Functor)       // a callback queues: callingPendingFunctors_ is false, no wakeup
    | LoopQuit                             // a callback or functor calls quit()
    | BeginPending                         // callingPendingFunctors_ = true
    | Swap
    | RunOne
    | QueueWhileRunning(f: Functor)        // a functor queues: pushes, then wakes
    | LoopWrite
    | EndPending                           // callingPendingFunctors_ = false

  predicate Enabled(s: Loop, x: Action) {
    match x
    case ForeignPush(t, _) => t !in s.waking
    case ForeignQuit(t) => t !in s.waking
    case ForeignWrite(t) => t in s.waking
    case Test => s.phase.Testing?
    case PollReturns(readable) => s.phase.Polling? && (readable ==> s.tokens > 0)
    case HandleRead => s.phase.Handling? && s.phase.readable
    case QueueWhileHandling(_) => s.phase.Handling?
    case LoopQuit => s.phase.Handling? || s.phase.Running?
    case BeginPending => s.phase.Handling? && !s.phase.readable
    case Swap => s.phase.Swapping?
    case RunOne => s.phase.Running? && s.functors != []
    case QueueWhileRunning(_) => s.phase.Running?
    case LoopWrite => s.phase.Waking?
    case EndPending => s.phase.Running? && s.functors == []
  }

  function Push(s: Loop, f: Functor): Loop {
    s.(pending := s.pending + [f], pushed := s.pushed + [f])
  }

  function Step(s: Loop, x: Action): Loop
    requires Enabled(s, x)
  {
    match x
    case ForeignPush(t, f) => Push(s, f).(waking := s.waking + {t})
    case ForeignQuit(t) => s.(quit := true, waking := s.waking + {t})
    case ForeignWrite(t) => s.(tokens := s.tokens + 1, waking := s.waking - {t})
    case Test => s.(phase := if s.quit then Stopped else Polling)
    case PollReturns(readable) => s.(phase := Handling(readable))
    case HandleRead => s.(phase := Handling(false), tokens := if s.tokens > 0 then s.tokens - 1 else 0)
    case QueueWhileHandling(f) => Push(s, f)
    case LoopQuit => s.(quit := true)
    case BeginPending => s.(phase := Swapping)
    case Swap => s.(phase := Running, functors := s.pending, pending := [], taken := |s.pushed|)
    case RunOne => s.(functors := s.functors[1..], ran := s.ran + [s.functors[0]])
    case QueueWhileRunning(f) => Push(s, f).(phase := Waking)
    case LoopWrite => s.(phase := Running, tokens := s.tokens + 1)
    case EndPending => s.(phase := Testing)
  }

  predicate Legal(s: Loop, xs: seq<Action>)
    decreases |xs|
  {
    xs == [] || (Enabled(s, xs[0]) && Legal(Step(s, xs[0]), xs[1..]))
  }

  function Run(s: Loop, xs: seq<Action>): Loop
    requires Legal(s, xs)
    decreases |xs|
  {
    if xs == [] then s else Run(Step(s, xs[0]), xs[1..])
  }

  // ---------------------------------------------------------------------------------------------

  /** A wakeup is in the pipe or on its way. */
  predicate WakeupDue(s: Loop) {
    s.tokens > 0 || s.waking != {} || s.phase.Waking?
  }

  /** The queue was taken in this iteration, and nothing has been read from the pipe since. */
  predicate AfterSwap(s: Loop) {
    s.phase.Running? || s.phase.Waking? || s.phase.Testing? || s.phase.Polling?
  }

  predicate Inv(s: Loop) {
    && s.pushed == s.ran + s.functors + s.pending
    && (s.functors != [] ==> s.phase.Running? || s.phase.Waking?)
    && (AfterSwap(s) && s.pending != [] ==> WakeupDue(s))
    && (s.phase.Polling? && s.quit ==> WakeupDue(s))
    && s.taken <= |s.pushed|
    && (AfterSwap(s) ==> s.taken == |s.ran| + |s.functors|)
    && (s.phase.Handling? && s.phase.readable ==> s.tokens > 0)
  }

  lemma StepKeeps(s: Loop, x: Action)
    requires Inv(s) && Enabled(s, x)
    ensures Inv(Step(s, x))
  {
    if x.RunOne? {
      assert s.functors == [s.functors[0]] + s.functors[1..];
    }
  }

  lemma {:induction false} RunKeeps(s: Loop, xs: seq<Action>)
    requires Inv(s) && Legal(s, xs)
    ensures Inv(Run(s, xs))
    decreases |xs|
  {
    if xs != [] {
      StepKeeps(s, xs[0]);
      RunKeeps(Step(s, xs[0]), xs[1..]);
    }
  }

  /** No lost wakeup: a loop thread inside poll with work queued, or with a quit it has not seen, has a
      token to read or a foreign thread about to write one. */
  lemma NoLostWakeup(xs: seq<Action>)
    requires Legal(Start, xs)
    ensures var s := Run(Start, xs);
      s.phase.Polling? && (s.pending != [] || s.quit) ==> s.tokens > 0 || s.waking != {}
  {
    RunKeeps(Start, xs);
  }

  /** Functors run in push order, each exactly once: what ran is a prefix of what was pushed, and at the
      end of an iteration it is everything pushed before that iteration took the queue. */
  lemma FifoExactlyOnce(xs: seq<Action>)
    requires Legal(Start, xs)
    ensures var s := Run(Start, xs);
      && s.ran <= s.pushed
      && s.pushed[|s.ran|..] == s.functors + s.pending
      && (s.phase.Testing? ==> s.taken <= |s.pushed| && s.ran == s.pushed[..s.taken])
  {
    RunKeeps(Start, xs);
  }

  function Pushed(x: Action): seq<Functor> {
    match x
    case ForeignPush(_, f) => [f]
    case QueueWhileHandling(f) => [f]
    case QueueWhileRunning(f) => [f]
    case _ => []
  }

  predicate Quits(x: Action) { x.ForeignQuit? || x.LoopQuit? }

  /** What a run pushes, by whatever thread, in order. */
  function Pushes(xs: seq<Action>): seq<Functor> {
    if xs == [] then [] else Pushed(xs[0]) + Pushes(xs[1..])
  }

  function Writes(xs: seq<Action>): nat {
    if xs == [] then 0 else (if xs[0].ForeignWrite? || xs[0].LoopWrite? then 1 else 0) + Writes(xs[1..])
  }

  function Reads(xs: seq<Action>): nat {
    if xs == [] then 0 else (if xs[0].HandleRead? then 1 else 0) + Reads(xs[1..])
  }

  predicate SomeQuit(xs: seq<Action>) { xs != [] && (Quits(xs[0]) || SomeQuit(xs[1..])) }

  lemma StepAccounts(s: Loop, x: Action)
    requires Inv(s) && Enabled(s, x)
    ensures var t := Step(s, x);
      && t.pushed == s.pushed + Pushed(x)
      && t.tokens + (if x.HandleRead? then 1 else 0) == s.tokens + (if x.ForeignWrite? || x.LoopWrite? then 1 else 0)
      && (t.quit <==> s.quit || Quits(x)) && (t.phase.Stopped? ==> s.phase.Stopped? || s.quit)
  {}

  lemma {:induction false} RunAccounts(s: Loop, xs: seq<Action>)
    requires Inv(s) && Legal(s, xs)
    ensures var t := Run(s, xs);
      && t.pushed == s.pushed + Pushes(xs) && t.tokens + Reads(xs) == s.tokens + Writes(xs)
      && (t.quit <==> s.quit || SomeQuit(xs)) && (t.phase.Stopped? ==> s.phase.Stopped? || t.quit)
    decreases |xs|
  {
    hide Inv, Step, Pushed, Quits;
    if xs != [] {
      StepKeeps(s, xs[0]);
      StepAccounts(s, xs[0]);
      RunAccounts(Step(s, xs[0]), xs[1..]);
    }
  }

  /** In every run: every functor queued is in the queue's history, in order; the pipe holds what was written and not
      yet read; `quit_` is set if and only if somebody quit; and the loop stops for no other reason. */
  lemma LoopAccounts(xs: seq<Action>)
    requires Legal(Start, xs)
    ensures var s := Run(Start, xs);
      && s.pushed == Pushes(xs) && s.tokens == Writes(xs) - Reads(xs)
      && (s.quit <==> SomeQuit(xs)) && (s.phase.Stopped? ==> SomeQuit(xs))
  {
    RunAccounts(Start, xs);
  }

  /** The loop goes on to poll as long as nobody has quit, and stops at the next test when somebody has. */
  lemma GoesOnUntilQuit(s: Loop)
    requires s.phase.Testing?
    ensures Step(s, Test) == s.(phase := if s.quit then Stopped else Polling)
  {}

  /** `loop()` begins with a queue that the loop thread has filled before. */
  function StartWith(fs: seq<Functor>): Loop { Start.(pending := fs, pushed := fs) }

  predicate Foreign(x: Action) { x.ForeignPush? || x.ForeignQuit? || x.ForeignWrite? }

  predicate SomeForeign(xs: seq<Action>) { exists x :: x in xs && Foreign(x) }

  lemma SomeForeignSplit(xs: seq<Action>)
    requires xs != []
    ensures SomeForeign(xs) <==> Foreign(xs[0]) || SomeForeign(xs[1..])
  {
    assert forall x :: x in xs <==> x == xs[0] || x in xs[1..];
  }

  /** Up to and inside the first poll: wakeups come from foreign threads only. */
  lemma {:induction false} UntilFirstPoll(s: Loop, xs: seq<Action>)
    requires Legal(s, xs) && (forall x :: x in xs ==> Foreign(x) || x.Test?) && !s.phase.Waking?
    ensures var t := Run(s, xs);
      && !t.phase.Waking? && s.pending <= t.pending && (t.pending != s.pending ==> SomeForeign(xs))
      && (WakeupDue(t) <==> WakeupDue(s) || SomeForeign(xs))
    decreases |xs|
  {
    if xs != [] {
      SomeForeignSplit(xs);
      assert xs[0] in xs;
      hide SomeForeign;
      UntilFirstPoll(Step(s, xs[0]), xs[1..]);
    }
  }

  /** The guarantee starts with `loop()`: in the first poll, work that is queued has a wakeup in the pipe or on
      its way if and only if the loop thread queued nothing before, or some foreign thread has acted. */
  lemma FirstPollWokenExactly(fs: seq<Functor>, xs: seq<Action>)
    requires Legal(StartWith(fs), xs) && (forall x :: x in xs ==> Foreign(x) || x.Test?)
    requires Run(StartWith(fs), xs).phase.Polling?
    ensures var s := Run(StartWith(fs), xs);
      (s.pending != [] ==> s.tokens > 0 || s.waking != {}) <==> fs == [] || SomeForeign(xs)
  {
    UntilFirstPoll(StartWith(fs), xs);
  }

  // ---------------------------------------------------------------------------------------------
  // What a wakeup achieves

  predicate LoopStep(x: Action) {
    !x.ForeignPush? && !x.ForeignQuit? && !x.ForeignWrite?
  }

  function RunAll(n: nat): seq<Action> {
    if n == 0 then [] else [RunOne] + RunAll(n - 1)
  }

  /** The iteration that a readable pipe brings about. */
  function Iteration(s: Loop): seq<Action> {
    [PollReturns(true), HandleRead, BeginPending, Swap] + RunAll(|s.pending|) + [EndPending]
  }

  lemma {:induction false} LegalConcat(s: Loop, xs: seq<Action>, ys: seq<Action>)
    requires Legal(s, xs) && Legal(Run(s, xs), ys)
    ensures Legal(s, xs + ys) && Run(s, xs + ys) == Run(Run(s, xs), ys)
    decreases |xs|
  {
    if xs == [] {
      assert xs + ys == ys;
    } else {
      assert (xs + ys)[1..] == xs[1..] + ys;
      LegalConcat(Step(s, xs[0]), xs[1..], ys);
    }
  }

  lemma {:induction false} RunAllRuns(s: Loop, n: nat)
    requires s.phase.Running? && |s.functors| == n
    ensures Legal(s, RunAll(n)) && Run(s, RunAll(n)) == s.(functors := [], ran := s.ran + s.functors)
    ensures forall x :: x in RunAll(n) ==> LoopStep(x)
    decreases n
  {
    if n > 0 {
      var t := Step(s, RunOne);
      RunAllRuns(t, n - 1);
      assert RunAll(n)[1..] == RunAll(n - 1);
      assert t.ran + t.functors == s.ran + s.functors;
    }
  }

  lemma LastStep(u: Loop)
    requires u.phase.Running? && u.functors == []
    ensures Legal(u, [EndPending]) && Run(u, [EndPending]) == u.(phase := Testing)
  {
    assert [EndPending][1..] == [];
    assert Run(u.(phase := Testing), []) == u.(phase := Testing);
  }

  lemma IterationRuns(s: Loop)
    requires s.phase.Polling? && s.tokens > 0 && s.functors == []
    ensures Legal(s, Iteration(s)) && (forall x :: x in Iteration(s) ==> LoopStep(x))
    ensures Run(s, Iteration(s)).phase.Testing? && Run(s, Iteration(s)).ran == s.ran + s.pending
  {
    var first, rest := [PollReturns(true), HandleRead, BeginPending, Swap], RunAll(|s.pending|);
    var t := s.(phase := Running, tokens := s.tokens - 1, functors := s.pending, pending := [], taken := |s.pushed|);
    FourSteps(s, t);
    RunAllRuns(t, |s.pending|);
    LegalConcat(s, first, rest);
    LastStep(Run(t, rest));
    LegalConcat(s, first + rest, [EndPending]);
  }

  /** Once the foreign threads are done, the loop thread alone gets every queued functor run: the pipe is
      readable and one iteration, without any timeout, suffices. */
  lemma WakeupGetsQueueRun(xs: seq<Action>)
    requires Legal(Start, xs)
    requires var s := Run(Start, xs); s.phase.Polling? && s.pending != [] && s.waking == {}
    ensures var s := Run(Start, xs);
      && Legal(s, Iteration(s)) && (forall x :: x in Iteration(s) ==> LoopStep(x))
      && Run(s, Iteration(s)).phase.Testing? && Run(s, Iteration(s)).ran == s.pushed
  {
    RunKeeps(Start, xs);
    IterationRuns(Run(Start, xs));
  }

  lemma FourSteps(s: Loop, t: Loop)
    requires s.phase.Polling? && s.tokens > 0
    requires t ==
      s.(phase := Running, tokens := s.tokens - 1, functors := s.pending, pending := [], taken := |s.pushed|)
    ensures var first := [PollReturns(true), HandleRead, BeginPending, Swap]; Legal(s, first) && Run(s, first) == t
  {
    var a := s.(phase := Handling(true));
    var b := a.(phase := Handling(false), tokens := s.tokens - 1);
    var c := b.(phase := Swapping);
    assert Legal(t, []) && Run(t, []) == t;
    assert [Swap][1..] == [] && Legal(c, [Swap]) && Run(c, [Swap]) == t;
    assert [BeginPending, Swap][1..] == [Swap] && Legal(b, [BeginPending, Swap]) && Run(b, [BeginPending, Swap]) == t;
    assert [HandleRead, BeginPending, Swap][1..] == [BeginPending, Swap];
    assert Legal(a, [HandleRead, BeginPending, Swap]) && Run(a, [HandleRead, BeginPending, Swap]) == t;
    assert [PollReturns(true), HandleRead, BeginPending, Swap][1..] == [HandleRead, BeginPending, Swap];
  }
}

/** The queue operations of the loop as an object; what other threads do in between is in the protocol. */
module EventLoopClass {
  import opened Outcomes
  import opened EventLoop

  /** A call of `queueInLoop` from another thread, from a functor, or from any other callback of the loop. */
  function QueueScript(s: Loop, f: Functor, caller: Option<Thread>): seq<Action> {
    if caller.Some? then [ForeignPush(caller.value, f), ForeignWrite(caller.value)]
    else if s.phase.Running? then [QueueWhileRunning(f), LoopWrite]
    else [QueueWhileHandling(f)]
  }

  /** A functor that runs and queues `fs` one after another. */
  function QueueAll(fs: seq<Functor>): seq<Action> {
    if fs == [] then [] else QueueAll(fs[..|fs| - 1]) + [QueueWhileRunning(fs[|fs| - 1]), LoopWrite]
  }

  lemma QueueNone(s: Loop)
    ensures Legal(s, QueueAll([])) && Run(s, QueueAll([])) == s
  {}

  lemma QueueMore(s: Loop, fs: seq<Functor>, i: nat)
    requires i < |fs| && Legal(s, QueueAll(fs[..i]))
    requires Legal(Run(s, QueueAll(fs[..i])), [QueueWhileRunning(fs[i]), LoopWrite])
    ensures Legal(s, QueueAll(fs[..i + 1]))
    ensures Run(s, QueueAll(fs[..i + 1])) == Run(Run(s, QueueAll(fs[..i])), [QueueWhileRunning(fs[i]), LoopWrite])
  {
    hide Legal, Run;
    assert fs[..i + 1][..i] == fs[..i];
    LegalConcat(s, QueueAll(fs[..i]), [QueueWhileRunning(fs[i]), LoopWrite]);
  }

  /** Running functors of which the `i`-th queues `queues[i]`. */
  function RunScript(queues: seq<seq<Functor>>): seq<Action> {
    if queues == [] then [] else RunScript(queues[..|queues| - 1]) + ([RunOne] + QueueAll(queues[|queues| - 1]))
  }

  function Flatten(queues: seq<seq<Functor>>): seq<Functor> {
    if queues == [] then [] else Flatten(queues[..|queues| - 1]) + queues[|queues| - 1]
  }

  lemma RunTwo(s: Loop, a: Action, b: Action)
    requires Enabled(s, a) && Enabled(Step(s, a), b)
    ensures Legal(s, [a, b]) && Run(s, [a, b]) == Step(Step(s, a), b)
  {
    assert [a, b][1..] == [b] && [b][1..] == [];
    assert Legal(Step(s, a), [b]) && Run(Step(s, a), [b]) == Step(Step(s, a), b);
  }

  lemma RunSingle(s: Loop, a: Action)
    requires Enabled(s, a)
    ensures Legal(s, [a]) && Run(s, [a]) == Step(s, a)
  {
    assert [a][1..] == [];
  }

  class Dispatcher {
    var quit: bool
    var callingPendingFunctors: bool
    var pendingFunctors: seq<Functor>
    var tokens: nat
    ghost var phase: Phase
    ghost var functors: seq<Functor>
    ghost var waking: set<Thread>
    ghost var pushed: seq<Functor>
    ghost var ran: seq<Functor>
    ghost var taken: nat

    ghost function State(): Loop
      reads this
    {
      Loop(phase, quit, pendingFunctors, functors, tokens, waking, pushed, ran, taken)
    }

    ghost predicate Valid()
      reads this
    {
      Inv(State()) && (callingPendingFunctors <==> phase.Swapping? || phase.Running? || phase.Waking?)
    }

    constructor ()
      ensures Valid() && State() == Start
    {
      quit, callingPendingFunctors, pendingFunctors, tokens := false, false, [], 0;
      phase, functors, waking, pushed, ran, taken := Testing, [], {}, [], [], 0;
    }

    /** `queueInLoop`: push, and wake the loop unless it is itself about to look at the queue. */
    method QueueInLoop(f: Functor, caller: Option<Thread>)
      requires Valid()
      requires if caller.Some? then caller.value !in waking else phase.Handling? || phase.Running?
      modifies this`pendingFunctors, this`pushed, this`tokens
      ensures Valid() && pendingFunctors == old(pendingFunctors) + [f]
      ensures Legal(old(State()), QueueScript(old(State()), f, caller))
      ensures State() == Run(old(State()), QueueScript(old(State()), f, caller))
    {
      ghost var s := State();
      if caller.Some? {
        RunTwo(s, ForeignPush(caller.value, f), ForeignWrite(caller.value));
        assert s.waking + {caller.value} - {caller.value} == s.waking;
      } else if phase.Running? {
        RunTwo(s, QueueWhileRunning(f), LoopWrite);
      } else {
        RunSingle(s, QueueWhileHandling(f));
      }
      RunKeeps(s, QueueScript(s, f, caller));
      pendingFunctors, pushed := pendingFunctors + [f], pushed + [f];
      if caller.Some? || callingPendingFunctors {
        tokens := tokens + 1;
      }
    }

    method QueueEach(fs: seq<Functor>)
      requires Valid() && phase.Running?
      modifies this`pendingFunctors, this`pushed, this`tokens
      ensures Valid() && pendingFunctors == old(pendingFunctors) + fs
      ensures Legal(old(State()), QueueAll(fs)) && State() == Run(old(State()), QueueAll(fs))
    {
      hide Inv, Legal, Run, QueueAll;
      ghost var s := State();
      QueueNone(s);
      assert fs[..0] == [];
      for i := 0 to |fs|
        invariant Valid() && pendingFunctors == s.pending + fs[..i]
        invariant Legal(s, QueueAll(fs[..i])) && State() == Run(s, QueueAll(fs[..i]))
      {
        QueueInLoop(fs[i], None);
        QueueMore(s, fs, i);
      }
      assert fs[..|fs|] == fs;
    }

    /** `functor()`, which queues `fs` in turn. */
    method RunNext(fs: seq<Functor>)
      requires Valid() && phase.Running? && functors != []
      modifies this`functors, this`ran, this`pendingFunctors, this`pushed, this`tokens
      ensures Valid() && functors == old(functors[1..]) && ran == old(ran + [functors[0]])
      ensures pendingFunctors == old(pendingFunctors) + fs
      ensures Legal(old(State()), [RunOne] + QueueAll(fs)) && State() == Run(old(State()), [RunOne] + QueueAll(fs))
    {
      ghost var s := State();
      RunSingle(s, RunOne);
      StepKeeps(s, RunOne);
      ran, functors := ran + [functors[0]], functors[1..];
      hide Inv, Legal, Run;
      QueueEach(fs);
      LegalConcat(s, [RunOne], QueueAll(fs));
    }

    /** The loop of `doPendingFunctors`. */
    method RunTaken(queues: seq<seq<Functor>>)
      requires Valid() && phase.Running? && |queues| == |functors| && pendingFunctors == []
      modifies this`functors, this`ran, this`pendingFunctors, this`pushed, this`tokens
      ensures Valid() && functors == [] && ran == old(ran + functors) && pendingFunctors == Flatten(queues)
      ensures Legal(old(State()), RunScript(queues)) && State() == Run(old(State()), RunScript(queues))
    {
      ghost var s := State();
      for i := 0 to |queues|
        invariant Valid() && functors == s.functors[i..]
        invariant ran == s.ran + s.functors[..i] && pendingFunctors == Flatten(queues[..i])
        invariant Legal(s, RunScript(queues[..i])) && State() == Run(s, RunScript(queues[..i]))
      {
        hide Inv, Legal, Run;
        assert queues[..i + 1][..i] == queues[..i];
        RunNext(queues[i]);
        LegalConcat(s, RunScript(queues[..i]), [RunOne] + QueueAll(queues[i]));
      }
      assert queues[..|queues|] == queues && s.functors[..|queues|] == s.functors;
    }

    /** `doPendingFunctors`: exactly what was queued when the queue was taken runs now, in order; what its
        functors queue waits for the next round. */
    method DoPendingFunctors(queues: seq<seq<Functor>>)
      requires Valid() && phase.Handling? && !phase.readable && |queues| == |pendingFunctors|
      modifies this
      ensures Valid() && phase.Testing?
      ensures ran == old(ran + pendingFunctors) && pendingFunctors == Flatten(queues)
      ensures Legal(old(State()), Round(queues)) && State() == Run(old(State()), Round(queues))
    {
      ghost var s := State();
      TakeQueue(s);
      callingPendingFunctors := true;
      functors, pendingFunctors, taken, phase := pendingFunctors, [], |pushed|, Running;
      ghost var t := State();
      RunTaken(queues);
      ghost var u := State();
      EndRound(s, t, u, queues);
      callingPendingFunctors := false;
      phase := Testing;
    }
  }

  function Round(queues: seq<seq<Functor>>): seq<Action> { [BeginPending, Swap] + RunScript(queues) + [EndPending] }

  lemma TakeQueue(s: Loop)
    requires Inv(s) && s.phase == Handling(false)
    ensures var t := s.(phase := Running, functors := s.pending, pending := [], taken := |s.pushed|);
      Inv(t) && Legal(s, [BeginPending, Swap]) && Run(s, [BeginPending, Swap]) == t
  {
    RunTwo(s, BeginPending, Swap);
    RunKeeps(s, [BeginPending, Swap]);
  }

  lemma EndRound(s: Loop, t: Loop, u: Loop, queues: seq<seq<Functor>>)
    requires Legal(s, [BeginPending, Swap]) && Run(s, [BeginPending, Swap]) == t
    requires Legal(t, RunScript(queues)) && Run(t, RunScript(queues)) == u
    requires Inv(u) && u.phase.Running? && u.functors == []
    ensures Legal(s, Round(queues)) && Run(s, Round(queues)) == u.(phase := Testing) && Inv(u.(phase := Testing))
  {
    LegalConcat(s, [BeginPending, Swap], RunScript(queues));
    LastStep(u);
    LegalConcat(s, [BeginPending, Swap] + RunScript(queues), [EndPending]);
    StepKeeps(u, EndPending);
  }
}
