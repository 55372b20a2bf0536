/** The double-buffered logger of base/asyncLogging.cpp: any number of producers append under the lock, one
    backend thread swaps the filled buffers out under the lock and writes them outside it. A buffer is its
    text; a moved-from `unique_ptr` is `None`. */
module AsyncLogging {
  import opened FixedBufferModule
  import opened Outcomes

  /** What went to the log file, and what was thrown away instead, in the order of the appended text. */
  datatype Entry =
    | Text(buffer: string)
    | Notice(buffers: nat)          // the "Dropped log messages" line
    | Lost(dropped: seq<string>)    // not in the file: the buffers the notice stands for

  /** Where the backend is: about to take the lock, or with a batch to write. */
  datatype Backend = AtTop | Holding

  datatype Logger = Logger(
    current: Option<string>,      // currentBuffer_
    next: Option<string>,         // nextBuffer_
    buffers: seq<string>,         // buffers_
    new1: Option<string>,         // newBuffer1
    new2: Option<string>,         // newBuffer2
    batch: seq<string>,           // buffersToWrite
    backend: Backend,
    log: seq<Entry>,
    lines: seq<string>            // everything given to `append`
  )

  const FreshLogger := Logger(Some(""), Some(""), [], Some(""), Some(""), [], AtTop, [], [])

  const MAX_BATCH := 25

  function Deref(b: Option<string>): Outcome<string> {
    if b.Some? then Ok(b.value) else Fault
  }

  /** `append`, under the lock. */
  function Append(s: Logger, line: string): Outcome<Logger> {
    var cur :- Deref(s.current);
    if LARGE_BUFFER - |cur| > |line| then
      Ok(s.(current := Some(Put(LARGE_BUFFER, cur, line)), lines := s.lines + [line]))
    else
      var spare := if s.next.Some? then s.next.value else "";
      Ok(s.(buffers := s.buffers + [cur], next := None,
            current := Some(Put(LARGE_BUFFER, spare, line)), lines := s.lines + [line]))
  }

  /** The asserts at the top of the loop of `threadFunc` and the critical section below them. */
  function Swap(s: Logger): Outcome<Logger> {
    if s.new1 != Some("") || s.new2 != Some("") || s.batch != [] then Fault
    else
      var cur :- Deref(s.current);
      Ok(s.(batch := s.buffers + [cur], buffers := [], current := s.new1, new1 := None,
            next := if s.next.Some? then s.next else s.new2,
            new2 := if s.next.Some? then s.new2 else None,
            backend := Holding))
  }

  function Texts(batch: seq<string>): seq<Entry> {
    if batch == [] then [] else Texts(batch[..|batch| - 1]) + [Text(batch[|batch| - 1])]
  }

  /** A batch that grew too large: a notice, its first two buffers, and the loss of all others. */
  function Entries(batch: seq<string>): seq<Entry> {
    if |batch| > MAX_BATCH
    then [Notice(|batch| - 2)] + Texts(batch[..2]) + [Lost(batch[2..])]
    else Texts(batch)
  }

  /** The rest of the loop of `threadFunc`: write, keep two buffers, refill the spares from them. */
  function Write(s: Logger): Outcome<Logger> {
    if s.batch == [] then Fault
    else
      var kept := if |s.batch| > 2 then s.batch[..2] else s.batch;
      if s.new1.None? && kept == [] then Fault
      else
        var left := if s.new1.None? then kept[..|kept| - 1] else kept;
        if s.new2.None? && left == [] then Fault
        else
          Ok(s.(new1 := Some(if s.new1.None? then "" else s.new1.value),
                new2 := Some(if s.new2.None? then "" else s.new2.value),
                batch := [], backend := AtTop, log := s.log + Entries(s.batch)))
  }

  // ---------------------------------------------------------------------------------------------
  // Runs

  datatype Action = Line(line: string) | TakeBuffers | WriteBuffers

  /** Producers append lines at any time; the backend alternates. */
  predicate Enabled(s: Logger, x: Action) {
    match x
    case Line(_) => true
    case TakeBuffers => s.backend.AtTop?
    case WriteBuffers => s.backend.Holding?
  }

  function Step(s: Logger, x: Action): Outcome<Logger> {
    match x
    case Line(line) => Append(s, line)
    case TakeBuffers => Swap(s)
    case WriteBuffers => Write(s)
  }

  function Run(s: Logger, xs: seq<Action>): Outcome<Logger>
    decreases |xs|
  {
    if xs == [] then Ok(s)
    else
      var t :- Step(s, xs[0]);
      Run(t, xs[1..])
  }

  predicate Legal(s: Logger, xs: seq<Action>)
    decreases |xs|
  {
    xs == [] || (Enabled(s, xs[0]) && (Step(s, xs[0]).Ok? ==> Legal(Step(s, xs[0]).value, xs[1..])))
  }

  function Flat(bs: seq<string>): string {
    if bs == [] then "" else Flat(bs[..|bs| - 1]) + bs[|bs| - 1]
  }

  /** The text of the lines that fit into an empty buffer. */
  function Kept(lines: seq<string>): string {
    if lines == [] then ""
    else
      var line := lines[|lines| - 1];
      Kept(lines[..|lines| - 1]) + if |line| < LARGE_BUFFER then line else ""
  }

  /** The appended text an entry accounts for. */
  function EntryText(e: Entry): string {
    match e
    case Text(b) => b
    case Notice(_) => ""
    case Lost(bs) => Flat(bs)
  }

  function Pieces(log: seq<Entry>): seq<string> {
    seq(|log|, i requires 0 <= i < |log| => EntryText(log[i]))
  }

  function LogText(log: seq<Entry>): string { Flat(Pieces(log)) }

  /** Text is lost only from batches of more than 25 buffers, all but their first two, and right behind a
      notice with the number and those two. */
  predicate LossesAnnounced(log: seq<Entry>) {
    forall i :: 0 <= i < |log| && log[i].Lost? ==>
      i >= 3 && |log[i].dropped| > MAX_BATCH - 2
      && log[i - 3] == Notice(|log[i].dropped|) && log[i - 2].Text? && log[i - 1].Text?
  }

  predicate Empty(b: Option<string>) { b.Some? ==> b.value == "" }

  /** The lock invariant, the state of the backend's spares, and conservation. */
  predicate Inv(s: Logger) {
    && s.current.Some? && |s.current.value| < LARGE_BUFFER
    && (s.next.None? ==> s.buffers != [])
    && Empty(s.next) && Empty(s.new1) && Empty(s.new2)
    && (s.backend.AtTop? ==> s.new1.Some? && s.new2.Some? && s.batch == [])
    && (s.backend.Holding? ==> s.new1.None? && |s.batch| >= (if s.new2.None? then 2 else 1))
    && LogText(s.log) + Flat(s.batch) + Flat(s.buffers) + s.current.value == Kept(s.lines)
    && LossesAnnounced(s.log)
  }

  lemma Assoc(a: string, b: string, c: string)
    ensures (a + b) + c == a + (b + c)
  {}

  lemma FlatSnoc(bs: seq<string>, b: string)
    ensures Flat(bs + [b]) == Flat(bs) + b
  {
    assert (bs + [b])[..|bs|] == bs;
  }

  lemma {:induction false} FlatConcat(a: seq<string>, b: seq<string>)
    ensures Flat(a + b) == Flat(a) + Flat(b)
  {
    if b == [] {
      assert a + b == a && Flat(a) + "" == Flat(a);
    } else {
      var n := |b| - 1;
      FlatConcat(a, b[..n]);
      assert a + b == (a + b[..n]) + [b[n]];
      FlatSnoc(a + b[..n], b[n]);
      Assoc(Flat(a), Flat(b[..n]), b[n]);
    }
  }

  lemma LogConcat(a: seq<Entry>, b: seq<Entry>)
    ensures LogText(a + b) == LogText(a) + LogText(b)
  {
    assert Pieces(a + b) == Pieces(a) + Pieces(b);
    FlatConcat(Pieces(a), Pieces(b));
  }

  lemma {:induction false} TextsPieces(batch: seq<string>)
    ensures Pieces(Texts(batch)) == batch
  {
    if batch != [] {
      TextsPieces(batch[..|batch| - 1]);
    }
  }

  /** The buffers that reach the file, and those that do not. */
  function Written(log: seq<Entry>): seq<string> {
    if log == [] then []
    else
      var e := log[|log| - 1];
      Written(log[..|log| - 1]) + if e.Text? then [e.buffer] else []
  }

  function Dropped(log: seq<Entry>): seq<string> {
    if log == [] then []
    else
      var e := log[|log| - 1];
      Dropped(log[..|log| - 1]) + if e.Lost? then e.dropped else []
  }

  lemma {:induction false} TextsWritten(batch: seq<string>)
    ensures Written(Texts(batch)) == batch && Dropped(Texts(batch)) == []
  {
    if batch != [] {
      var n := |batch| - 1;
      TextsWritten(batch[..n]);
      assert Texts(batch)[..|Texts(batch)| - 1] == Texts(batch[..n]);
    }
  }

  lemma {:induction false} NoticeFirst(n: nat, es: seq<Entry>)
    ensures Written([Notice(n)] + es) == Written(es) && Dropped([Notice(n)] + es) == Dropped(es)
    decreases |es|
  {
    var all := [Notice(n)] + es;
    if es == [] {
      assert all[..0] == [];
    } else {
      assert all[..|all| - 1] == [Notice(n)] + es[..|es| - 1];
      NoticeFirst(n, es[..|es| - 1]);
    }
  }

  /** A batch of up to 25 buffers is written whole; a larger one loses exactly the buffers after its first two.
      Written and lost buffers are together the text of the batch. */
  lemma EntriesAccount(batch: seq<string>)
    ensures LogText(Entries(batch)) == Flat(batch)
    ensures Written(Entries(batch)) == if |batch| > 25 then batch[..2] else batch
    ensures Dropped(Entries(batch)) == if |batch| > 25 then batch[2..] else []
  {
    hide Written, Dropped, LogText, Flat, Texts;
    EntriesText(batch);
    if |batch| > MAX_BATCH {
      TextsWritten(batch[..2]);
      LostLast(Texts(batch[..2]), batch[2..]);
      NoticeFirst(|batch| - 2, Texts(batch[..2]) + [Lost(batch[2..])]);
      assert Entries(batch) == [Notice(|batch| - 2)] + (Texts(batch[..2]) + [Lost(batch[2..])]);
    } else {
      TextsWritten(batch);
    }
  }

  lemma LostLast(es: seq<Entry>, dropped: seq<string>)
    ensures Written(es + [Lost(dropped)]) == Written(es) && Dropped(es + [Lost(dropped)]) == Dropped(es) + dropped
  {
    assert (es + [Lost(dropped)])[..|es|] == es;
  }

  lemma FlatNothing()
    ensures Flat([""]) == ""
  {
    FlatSnoc([], "");
    assert [] + [""] == [""];
  }

  lemma EntriesText(batch: seq<string>)
    ensures LogText(Entries(batch)) == Flat(batch)
  {
    hide Flat, Texts;
    if |batch| > MAX_BATCH {
      var head, lost := batch[..2], batch[2..];
      TextsPieces(head);
      assert Pieces(Entries(batch)) == [""] + head + [Flat(lost)];
      FlatSnoc([""] + head, Flat(lost));
      FlatConcat([""], head);
      FlatNothing();
      assert "" + Flat(head) == Flat(head);
      FlatConcat(head, lost);
      assert batch == head + lost;
    } else {
      TextsPieces(batch);
    }
  }

  lemma EntriesAnnounce(log: seq<Entry>, batch: seq<string>)
    requires LossesAnnounced(log)
    ensures LossesAnnounced(log + Entries(batch))
  {
    var es := Entries(batch);
    TextsAreTexts(batch);
    TextsAreTexts(batch[..if |batch| > MAX_BATCH then 2 else 0]);
    var all := log + es;
    forall i | 0 <= i < |all| && all[i].Lost? && i >= |log|
      ensures i == |log| + 3 && es[3] == Lost(batch[2..]) && |es| == 4 && |batch| > MAX_BATCH
    {
      assert all[i] == es[i - |log|];
    }
  }

  lemma {:induction false} TextsAreTexts(batch: seq<string>)
    ensures |Texts(batch)| == |batch| && forall i :: 0 <= i < |batch| ==> Texts(batch)[i].Text?
  {
    if batch != [] {
      TextsAreTexts(batch[..|batch| - 1]);
    }
  }

  lemma KeptMore(lines: seq<string>, line: string)
    ensures Kept(lines + [line]) == Kept(lines) + if |line| < LARGE_BUFFER then line else ""
  {
    assert (lines + [line])[..|lines|] == lines;
  }

  lemma AppendKeeps(s: Logger, line: string)
    requires Inv(s)
    ensures Append(s, line).Ok? && Inv(Append(s, line).value)
  {
    var t := Append(s, line).value;
    var cur, before := s.current.value, LogText(s.log) + Flat(s.batch);
    KeptMore(s.lines, line);
    if LARGE_BUFFER - |cur| > |line| {
      Assoc(before + Flat(s.buffers), cur, line);
    } else {
      FlatSnoc(s.buffers, cur);
      Assoc(before, Flat(s.buffers), cur);
      assert t.current.value == if |line| < LARGE_BUFFER then line else "";
      assert before + Flat(t.buffers) == Kept(s.lines);
    }
  }

  lemma SwapKeeps(s: Logger)
    requires Inv(s) && s.backend.AtTop?
    ensures Swap(s).Ok? && Inv(Swap(s).value)
  {
    var t := Swap(s).value;
    FlatSnoc(s.buffers, s.current.value);
    assert LogText(s.log) + "" == LogText(s.log);
    Assoc(LogText(s.log), Flat(s.buffers), s.current.value);
    assert LogText(s.log) + Flat(t.batch) + "" + "" == LogText(s.log) + Flat(t.batch);
  }

  lemma WriteKeeps(s: Logger)
    requires Inv(s) && s.backend.Holding?
    ensures Write(s).Ok? && Inv(Write(s).value)
  {
    hide LossesAnnounced, Entries, LogText, Written, Dropped, Kept;
    EntriesAccount(s.batch);
    EntriesAnnounce(s.log, s.batch);
    LogConcat(s.log, Entries(s.batch));
    var before := LogText(s.log) + Flat(s.batch);
    assert before + Flat([]) == before;
  }

  lemma {:induction false} RunKeeps(s: Logger, xs: seq<Action>)
    requires Inv(s) && Legal(s, xs)
    ensures Run(s, xs).Ok? && Inv(Run(s, xs).value)
    decreases |xs|
  {
    if xs != [] {
      match xs[0] {
        case Line(line) => AppendKeeps(s, line);
        case TakeBuffers => SwapKeeps(s);
        case WriteBuffers => WriteKeeps(s);
      }
      RunKeeps(Step(s, xs[0]).value, xs[1..]);
    }
  }

  /** Whatever the interleaving of producers and backend, no assert of the backend's loop fails, and the
      file, the batch in hand, the filled buffers and the current one are together everything appended,
      in order, with the lost buffers in their places. */
  lemma LogConservation(xs: seq<Action>)
    requires Legal(FreshLogger, xs)
    ensures Run(FreshLogger, xs).Ok?
    ensures var s := Run(FreshLogger, xs).value;
      && s.current.Some? && (s.next.None? ==> s.buffers != [])
      && LogText(s.log) + Flat(s.batch) + Flat(s.buffers) + s.current.value == Kept(s.lines)
      && LossesAnnounced(s.log)
  {
    RunKeeps(FreshLogger, xs);
  }

  // ---------------------------------------------------------------------------------------------
  // When a buffer is turned over, and when text can be lost

  /** A line goes into the current buffer, and nothing else changes, if and only if the buffer has more room than the
      line takes; otherwise the current buffer is filed and another one begins with the line. */
  lemma AppendsExactly(s: Logger, line: string)
    requires Inv(s)
    ensures Append(s, line).Ok?
    ensures var t, cur := Append(s, line).value, s.current.value;
      && (|cur| + |line| < LARGE_BUFFER ==>
            t.current == Some(cur + line) && t.buffers == s.buffers && t.next == s.next)
      && (|cur| + |line| >= LARGE_BUFFER ==>
            t.current == Some(if |line| < LARGE_BUFFER then line else "")
            && t.buffers == s.buffers + [cur] && t.next == None)
      && t.lines == s.lines + [line] && t.log == s.log && t.batch == s.batch && t.backend == s.backend
  {
    assert "" + line == line;
  }

  /** The backend takes everything that has been filed, and the current buffer, full or not; the producers go on with
      two empty ones. */
  lemma SwapTakesAll(s: Logger)
    requires Inv(s) && s.backend.AtTop?
    ensures Swap(s).Ok?
    ensures var t := Swap(s).value;
      && t.batch == s.buffers + [s.current.value] && t.buffers == [] && t.backend.Holding?
      && t.current == Some("") && t.next == Some("") && t.log == s.log && t.lines == s.lines
  {}

  /** Any two neighbours hold together at least a buffer's worth. */
  ghost predicate Packed(bs: seq<string>) {
    forall i :: 0 <= i < |bs| - 1 ==> |bs[i]| + |bs[i + 1]| >= LARGE_BUFFER
  }

  ghost predicate Tight(s: Logger) {
    s.current.Some? && Packed(s.buffers + [s.current.value]) && Packed(s.batch)
  }

  lemma AppendTight(s: Logger, line: string)
    requires Inv(s) && Tight(s) && |line| < LARGE_BUFFER
    ensures Append(s, line).Ok? && Tight(Append(s, line).value)
  {
    AppendsExactly(s, line);
    var t, before := Append(s, line).value, s.buffers + [s.current.value];
    var after := t.buffers + [t.current.value];
    forall i | 0 <= i < |after| - 1 ensures |after[i]| + |after[i + 1]| >= LARGE_BUFFER {
      if i < |before| - 1 { assert |before[i]| + |before[i + 1]| >= LARGE_BUFFER; }
    }
  }

  lemma {:induction false} RunTight(s: Logger, xs: seq<Action>)
    requires Inv(s) && Tight(s) && Legal(s, xs) && forall x :: x in xs && x.Line? ==> |x.line| < LARGE_BUFFER
    ensures Run(s, xs).Ok? && Inv(Run(s, xs).value) && Tight(Run(s, xs).value)
    decreases |xs|
  {
    if xs != [] {
      match xs[0] {
        case Line(line) => AppendKeeps(s, line); AppendTight(s, line);
        case TakeBuffers => SwapKeeps(s);
        case WriteBuffers => WriteKeeps(s);
      }
      RunTight(Step(s, xs[0]).value, xs[1..]);
    }
  }

  lemma {:induction false} PackedSize(bs: seq<string>)
    requires Packed(bs)
    ensures |Flat(bs)| >= |bs| / 2 * LARGE_BUFFER
  {
    if |bs| >= 2 {
      var n := |bs|;
      assert |bs[n - 2]| + |bs[n - 2 + 1]| >= LARGE_BUFFER;
      assert bs[..n - 1][..n - 2] == bs[..n - 2];
      assert Flat(bs) == Flat(bs[..n - 1]) + bs[n - 1];
      PackedSize(bs[..n - 2]);
    }
  }

  lemma FreshTight()
    ensures Inv(FreshLogger) && Tight(FreshLogger)
  {
    RunKeeps(FreshLogger, []);
  }

  lemma PackedLoses(batch: seq<string>)
    requires Packed(batch)
    ensures Dropped(Entries(batch)) != [] ==> |Flat(batch)| >= 13 * LARGE_BUFFER
    ensures |Flat(batch)| < 13 * LARGE_BUFFER ==> Written(Entries(batch)) == batch && Dropped(Entries(batch)) == []
  {
    hide Flat, Entries, Dropped, Written, Packed;
    EntriesAccount(batch);
    PackedSize(batch);
  }

  /** Text is lost only from a batch of at least 13 buffers' worth, in every run of lines that fit. */
  lemma LossTakesTooMuch(xs: seq<Action>)
    requires Legal(FreshLogger, xs) && forall x :: x in xs && x.Line? ==> |x.line| < LARGE_BUFFER
    ensures Run(FreshLogger, xs).Ok?
    ensures var s := Run(FreshLogger, xs).value;
      Dropped(Entries(s.batch)) != [] ==> |Flat(s.batch)| >= 13 * LARGE_BUFFER
  {
    hide Run, Legal, Inv, Flat, Entries, Dropped, Packed;
    FreshTight();
    RunTight(FreshLogger, xs);
    PackedLoses(Run(FreshLogger, xs).value.batch);
  }

  /** What producers append in the course of some steps. */
  function LinesOf(xs: seq<Action>): seq<string> {
    if xs == [] then [] else (if xs[0].Line? then [xs[0].line] else []) + LinesOf(xs[1..])
  }

  function Filling(s: Logger): string
    requires s.current.Some?
  {
    Flat(s.buffers) + s.current.value
  }

  lemma AppendFills(s: Logger, line: string)
    requires Inv(s)
    ensures Append(s, line).Ok? && Inv(Append(s, line).value)
    ensures Filling(Append(s, line).value) == Filling(s) + if |line| < LARGE_BUFFER then line else ""
  {
    AppendKeeps(s, line);
    AppendsExactly(s, line);
    FlatSnoc(s.buffers, s.current.value);
    if |s.current.value| + |line| < LARGE_BUFFER { Assoc(Flat(s.buffers), s.current.value, line); }
  }

  lemma {:induction false} KeptFirst(line: string, lines: seq<string>)
    ensures Kept([line] + lines) == (if |line| < LARGE_BUFFER then line else "") + Kept(lines)
  {
    if lines == [] {
      KeptMore([], line);
      assert [] + [line] == [line] + [] && Kept([]) == "";
    } else {
      var n := |lines| - 1;
      KeptFirst(line, lines[..n]);
      KeptMore([line] + lines[..n], lines[n]);
      KeptMore(lines[..n], lines[n]);
      assert lines[..n] + [lines[n]] == lines;
      assert ([line] + lines[..n]) + [lines[n]] == [line] + lines;
      Assoc(if |line| < LARGE_BUFFER then line else "", Kept(lines[..n]),
        if |lines[n]| < LARGE_BUFFER then lines[n] else "");
    }
  }

  /** Between two swaps the filled buffers and the current one gather what is appended, and nothing else. */
  lemma {:induction false} FillsBetweenSwaps(s: Logger, xs: seq<Action>)
    requires Inv(s) && Legal(s, xs) && forall x :: x in xs ==> !x.TakeBuffers?
    ensures Run(s, xs).Ok? && Inv(Run(s, xs).value)
    ensures Filling(Run(s, xs).value) == Filling(s) + Kept(LinesOf(xs))
    decreases |xs|
  {
    if xs != [] {
      match xs[0] {
        case Line(line) => AppendFills(s, line); KeptFirst(line, LinesOf(xs[1..]));
        case WriteBuffers => WriteKeeps(s);
      }
      var t := Step(s, xs[0]).value;
      FillsBetweenSwaps(t, xs[1..]);
      if xs[0].Line? {
        Assoc(Filling(s), if |xs[0].line| < LARGE_BUFFER then xs[0].line else "", Kept(LinesOf(xs[1..])));
      } else {
        assert [] + LinesOf(xs[1..]) == LinesOf(xs[1..]);
      }
    }
  }

  /** The batch that a swap takes. */
  lemma BatchTaken(s: Logger)
    requires Inv(s) && Tight(s) && s.backend.AtTop?
    ensures Swap(s).Ok?
    ensures var batch := Swap(s).value.batch;
      && Packed(batch) && Flat(batch) == Filling(s) && (|Filling(s)| < LARGE_BUFFER ==> batch == [Filling(s)])
  {
    SwapTakesAll(s);
    var batch := Swap(s).value.batch;
    FlatSnoc(s.buffers, s.current.value);
    PackedSize(batch);
    if |batch| == 1 {
      assert s.buffers == [] && Flat([]) + s.current.value == s.current.value;
    }
  }

  /** What is appended between two swaps, in lines that fit, is written in full as long as it is less than 13 buffers'
      worth, and in one piece if it fits one buffer. */
  lemma SmallBatchIsWritten(s: Logger, xs: seq<Action>)
    requires Inv(s) && Tight(s) && s.buffers == [] && s.current == Some("")
    requires Legal(s, xs) && forall x :: x in xs ==> !x.TakeBuffers? && (x.Line? ==> |x.line| < LARGE_BUFFER)
    requires Run(s, xs).Ok? ==> Run(s, xs).value.backend.AtTop?
    ensures Run(s, xs).Ok? && Swap(Run(s, xs).value).Ok?
    ensures var batch, text := Swap(Run(s, xs).value).value.batch, Kept(LinesOf(xs));
      && Flat(batch) == text
      && (|text| < 13 * LARGE_BUFFER ==> Written(Entries(batch)) == batch && Dropped(Entries(batch)) == [])
      && (|text| < LARGE_BUFFER ==> batch == [text])
  {
    hide Run, Legal, Inv, Entries, Dropped, Written, Packed, Kept, Swap;
    RunTight(s, xs);
    FillsBetweenSwaps(s, xs);
    BatchTaken(Run(s, xs).value);
    PackedLoses(Swap(Run(s, xs).value).value.batch);
    assert Filling(s) == "" && "" + Kept(LinesOf(xs)) == Kept(LinesOf(xs));
  }

  /** A line that does not fit into an empty buffer is lost without a trace in the log, though a buffer is
      used up for it; every shorter line is in the account. */
  lemma HugeLineVanishes(s: Logger, line: string)
    requires Inv(s)
    ensures Append(s, line).Ok?
    ensures var t := Append(s, line).value;
      && Kept(t.lines) == Kept(s.lines) + (if |line| < LARGE_BUFFER then line else "")
      && (|line| >= LARGE_BUFFER ==> t.current == Some("") && t.buffers == s.buffers + [s.current.value])
  {
    KeptMore(s.lines, line);
  }
}

/** The logger as an object that owns its buffers; each method is one critical section or one stretch of the
    backend. */
module AsyncLoggingClass {
  import opened FixedBufferModule
  import opened Outcomes
  import opened AsyncLogging

  /** What each buffer holds. */
  type Memory = map<FixedBuffer, string>

  ghost function Opt(b: FixedBuffer?): set<FixedBuffer> { if b == null then {} else {b} }

  ghost function Elems(bs: seq<FixedBuffer>): set<FixedBuffer> { set b | b in bs }

  ghost predicate NoDuplicates(bs: seq<FixedBuffer>) {
    forall i, j :: 0 <= i < j < |bs| ==> bs[i] != bs[j]
  }

  ghost function TextOf(texts: Memory, b: FixedBuffer): string { if b in texts then texts[b] else "" }

  /** A moved-from pointer is null. */
  ghost function Held(texts: Memory, b: FixedBuffer?): Option<string> {
    if b == null then None else Some(TextOf(texts, b))
  }

  ghost function AllTexts(texts: Memory, bs: seq<FixedBuffer>): seq<string> {
    if bs == [] then [] else AllTexts(texts, bs[..|bs| - 1]) + [TextOf(texts, bs[|bs| - 1])]
  }

  lemma AllTextsSnoc(texts: Memory, bs: seq<FixedBuffer>, b: FixedBuffer)
    ensures AllTexts(texts, bs + [b]) == AllTexts(texts, bs) + [TextOf(texts, b)]
  {
    assert (bs + [b])[..|bs|] == bs;
  }

  /** Changing one buffer does not change the others. */
  lemma {:induction false} AllTextsElsewhere(texts: Memory, bs: seq<FixedBuffer>, b: FixedBuffer, text: string)
    requires b !in bs
    ensures AllTexts(texts[b := text], bs) == AllTexts(texts, bs)
  {
    if bs != [] { AllTextsElsewhere(texts, bs[..|bs| - 1], b, text); }
  }

  lemma {:induction false} AllTextsLength(texts: Memory, bs: seq<FixedBuffer>)
    ensures |AllTexts(texts, bs)| == |bs|
    ensures forall i :: 0 <= i < |bs| ==> AllTexts(texts, bs)[i] == TextOf(texts, bs[i])
  {
    if bs != [] { AllTextsLength(texts, bs[..|bs| - 1]); }
  }

  ghost function Arrays(bs: set<FixedBuffer>): set<array<char>> { set b | b in bs :: b.data }

  /** The buffers really hold these texts, each in an array of its own and of full size. */
  ghost predicate Backed(bs: set<FixedBuffer>, texts: Memory)
    reads bs, Arrays(bs)
  {
    && (forall b :: b in bs ==>
          b in texts && b.Valid() && b.data.Length == LARGE_BUFFER && b.Contents() == texts[b])
    && (forall a, b :: a in bs && b in bs && a != b ==> a.data != b.data)
  }

  /** `append` and `reset` on one of several buffers. */
  method AppendTo(b: FixedBuffer, line: string, ghost bs: set<FixedBuffer>, ghost texts: Memory)
    requires Backed(bs, texts) && b in bs
    modifies b, b.data
    ensures Backed(bs, texts[b := Put(LARGE_BUFFER, texts[b], line)])
  {
    b.Append(line);
  }

  method ResetOne(b: FixedBuffer, ghost bs: set<FixedBuffer>, ghost texts: Memory)
    requires Backed(bs, texts) && b in bs
    modifies b, b.data
    ensures Backed(bs, texts[b := ""])
  {
    b.Reset();
  }

  /** `new Buffer`. */
  method SpareBuffer(ghost bs: set<FixedBuffer>, ghost texts: Memory) returns (b: FixedBuffer)
    requires Backed(bs, texts)
    ensures fresh(b) && fresh(b.data) && Backed(bs + {b}, texts[b := ""])
  {
    b := new FixedBuffer(LARGE_BUFFER);
  }

  method FourBuffers() returns (b1: FixedBuffer, b2: FixedBuffer, b3: FixedBuffer, b4: FixedBuffer)
    ensures b1 != b2 && b1 != b3 && b1 != b4 && b2 != b3 && b2 != b4 && b3 != b4
    ensures fresh({b1, b2, b3, b4})
    ensures Backed({b1, b2, b3, b4}, map[b1 := "", b2 := "", b3 := "", b4 := ""])
  {
    b1 := SpareBuffer({}, map[]);
    hide Backed;
    b2 := SpareBuffer({} + {b1}, map[b1 := ""]);
    b3 := SpareBuffer({} + {b1} + {b2}, map[b1 := "", b2 := ""]);
    b4 := SpareBuffer({} + {b1} + {b2} + {b3}, map[b1 := "", b2 := "", b3 := ""]);
    assert {} + {b1} + {b2} + {b3} + {b4} == {b1, b2, b3, b4};
  }

  /** Where the buffers are. */
  datatype Places = Places(current: FixedBuffer?, next: FixedBuffer?, buffers: seq<FixedBuffer>,
                           new1: FixedBuffer?, new2: FixedBuffer?, batch: seq<FixedBuffer>)

  ghost function Owned(p: Places): set<FixedBuffer> {
    Opt(p.current) + Opt(p.next) + Elems(p.buffers) + Opt(p.new1) + Opt(p.new2) + Elems(p.batch)
  }

  /** Every buffer is in one place. */
  ghost predicate Apart(p: Places) {
    && (Opt(p.current) !! Opt(p.next) !! Elems(p.buffers) !! Opt(p.new1) !! Opt(p.new2) !! Elems(p.batch))
    && NoDuplicates(p.buffers) && NoDuplicates(p.batch)
  }

  ghost predicate Shows(p: Places, texts: Memory, s: Logger) {
    && s.current == Held(texts, p.current) && s.next == Held(texts, p.next) && s.buffers == AllTexts(texts, p.buffers)
    && s.new1 == Held(texts, p.new1) && s.new2 == Held(texts, p.new2) && s.batch == AllTexts(texts, p.batch)
  }

  lemma NoDuplicatesSnoc(bs: seq<FixedBuffer>, b: FixedBuffer)
    requires NoDuplicates(bs) && b !in Elems(bs)
    ensures NoDuplicates(bs + [b]) && Elems(bs + [b]) == Elems(bs) + {b}
  {}

  lemma NoDuplicatesInit(bs: seq<FixedBuffer>)
    requires NoDuplicates(bs) && bs != []
    ensures NoDuplicates(bs[..|bs| - 1]) && Elems(bs) == Elems(bs[..|bs| - 1]) + {bs[|bs| - 1]}
    ensures bs[|bs| - 1] !in Elems(bs[..|bs| - 1])
  {}

  ghost function Turned(p: Places, b: FixedBuffer): Places
    requires p.current != null
  {
    p.(buffers := p.buffers + [p.current], current := b, next := null)
  }

  ghost function Rotated(s: Logger): Logger
    requires s.current.Some?
  {
    s.(buffers := s.buffers + [s.current.value], next := None,
       current := Some(if s.next.Some? then s.next.value else ""))
  }

  /** A buffer in no place may hold anything. */
  lemma Elsewhere(p: Places, texts: Memory, s: Logger, b: FixedBuffer, text: string)
    requires Shows(p, texts, s) && b !in Owned(p)
    ensures Shows(p, texts[b := text], s)
  {
    AllTextsElsewhere(texts, p.buffers, b, text);
    AllTextsElsewhere(texts, p.batch, b, text);
  }

  /** `append` with a full buffer: `b` is the spare, or new when there is none. */
  lemma Rotates(p: Places, texts: Memory, s: Logger, b: FixedBuffer)
    requires Apart(p) && Shows(p, texts, s) && p.current != null
    requires b == p.next || (p.next == null && b !in Owned(p) && TextOf(texts, b) == "")
    ensures Apart(Turned(p, b)) && Owned(Turned(p, b)) == Owned(p) + {b} && (p.next != null ==> b in Owned(p))
    ensures s.current.Some? && Shows(Turned(p, b), texts, Rotated(s)) && Rotated(s).log == s.log
  {
    NoDuplicatesSnoc(p.buffers, p.current);
    AllTextsSnoc(texts, p.buffers, p.current);
  }

  lemma Writes(p: Places, texts: Memory, s: Logger, text: string, lines: seq<string>)
    requires Apart(p) && Shows(p, texts, s) && p.current != null
    ensures Shows(p, texts[p.current := text], s.(current := Some(text), lines := lines))
  {
    assert p.current !in Elems(p.buffers) && p.current !in Elems(p.batch);
    AllTextsElsewhere(texts, p.buffers, p.current, text);
    AllTextsElsewhere(texts, p.batch, p.current, text);
  }

  ghost function Taken(p: Places): Places
    requires p.current != null
  {
    Places(p.new1, if p.next != null then p.next else p.new2, [], null,
           if p.next != null then p.new2 else null, p.buffers + [p.current])
  }

  /** The moves of the critical section. */
  lemma Takes(p: Places, texts: Memory, s: Logger)
    requires Apart(p) && Shows(p, texts, s) && p.current != null && p.new1 != null && p.new2 != null && p.batch == []
    requires Swap(s).Ok?
    ensures Apart(Taken(p)) && Owned(Taken(p)) == Owned(p)
    ensures Shows(Taken(p), texts, Swap(s).value) && Swap(s).value.log == s.log
  {
    NoDuplicatesSnoc(p.buffers, p.current);
    AllTextsSnoc(texts, p.buffers, p.current);
  }

  /** The log without what is not in the file. */
  function Filed(log: seq<Entry>): seq<Entry> {
    if log == [] then []
    else
      var e := log[|log| - 1];
      Filed(log[..|log| - 1]) + if e.Lost? then [] else [e]
  }

  lemma FiledSnoc(log: seq<Entry>, e: Entry)
    ensures Filed(log + [e]) == Filed(log) + if e.Lost? then [] else [e]
  {
    assert (log + [e])[..|log|] == log;
  }

  lemma {:induction false} AllTextsFront(texts: Memory, bs: seq<FixedBuffer>, n: nat)
    requires n <= |bs|
    ensures |AllTexts(texts, bs)| == |bs| && AllTexts(texts, bs[..n]) == AllTexts(texts, bs)[..n]
  {
    AllTextsLength(texts, bs);
    AllTextsLength(texts, bs[..n]);
  }

  lemma ShowsLog(p: Places, texts: Memory, s: Logger, log: seq<Entry>)
    requires Shows(p, texts, s)
    ensures Shows(p, texts, s.(log := log))
  {}

  /** Erasing the buffers of the batch behind the first `n`. */
  lemma Cuts(p: Places, texts: Memory, s: Logger, n: nat)
    requires Apart(p) && Shows(p, texts, s) && n <= |p.batch|
    ensures var q := p.(batch := p.batch[..n]);
      && Apart(q) && Owned(q) <= Owned(p)
      && n <= |s.batch| && Shows(q, texts, s.(batch := s.batch[..n]))
  {
    AllTextsFront(texts, p.batch, n);
  }

  /** Taking the last buffer of the batch out and clearing it. */
  lemma Pops(p: Places, texts: Memory, s: Logger)
    requires Apart(p) && Shows(p, texts, s) && p.batch != []
    ensures var n := |p.batch| - 1;
      var q := p.(batch := p.batch[..n]);
      && Apart(q) && Owned(q) <= Owned(p) && p.batch[n] in Owned(p) && p.batch[n] !in Owned(q)
      && |s.batch| == |p.batch| && Shows(q, texts[p.batch[n] := ""], s.(batch := s.batch[..n]))
  {
    var n := |p.batch| - 1;
    var b := p.batch[n];
    Cuts(p, texts, s, n);
    NoDuplicatesInit(p.batch);
    AllTextsElsewhere(texts, p.buffers, b, "");
    AllTextsElsewhere(texts, p.batch[..n], b, "");
  }

  /** An empty buffer in no place becomes a spare of the backend. */
  lemma Refills(p: Places, texts: Memory, s: Logger, b: FixedBuffer)
    requires Apart(p) && Shows(p, texts, s) && b !in Owned(p) && TextOf(texts, b) == ""
    ensures var q := p.(new1 := b);
      p.new1 == null ==> Apart(q) && Owned(q) == Owned(p) + {b} && Shows(q, texts, s.(new1 := Some("")))
    ensures var q := p.(new2 := b);
      p.new2 == null ==> Apart(q) && Owned(q) == Owned(p) + {b} && Shows(q, texts, s.(new2 := Some("")))
  {}

  /** What the erasure leaves of a batch. */
  function Left(batch: seq<string>): seq<string> { if |batch| > MAX_BATCH then batch[..2] else batch }

  class Log {
    var currentBuffer: FixedBuffer?
    var nextBuffer: FixedBuffer?
    var buffers: seq<FixedBuffer>
    var newBuffer1: FixedBuffer?
    var newBuffer2: FixedBuffer?
    var buffersToWrite: seq<FixedBuffer>
    var file: seq<Entry>
    ghost var repr: set<FixedBuffer>
    ghost var texts: Memory
    ghost var model: Logger

    ghost function At(): Places
      reads this
    {
      Places(currentBuffer, nextBuffer, buffers, newBuffer1, newBuffer2, buffersToWrite)
    }

    /** `model` is the logger these buffers make up. */
    ghost predicate Sound()
      reads this, repr, Arrays(repr)
    {
      && Apart(At()) && Owned(At()) <= repr && Backed(repr, texts) && Shows(At(), texts, model)
      && file == Filed(model.log)
    }

    ghost predicate Valid()
      reads this, repr, Arrays(repr)
    {
      Sound() && Inv(model)
    }

    constructor ()
      ensures Valid() && model == FreshLogger && fresh(repr)
    {
      hide Apart, Shows, Owned, Inv, Filed;
      var b1, b2, b3, b4 := FourBuffers();
      currentBuffer, nextBuffer, newBuffer1, newBuffer2 := b1, b2, b3, b4;
      buffers, buffersToWrite, file := [], [], [];
      repr, texts := {b1, b2, b3, b4}, map[b1 := "", b2 := "", b3 := "", b4 := ""];
      model := FreshLogger;
      new;
      FreshIsSound(At(), texts);
    }

    /** `currentBuffer_->append(logline, len)`. */
    method AppendToCurrent(line: string)
      requires Sound() && currentBuffer != null
      modifies this`texts, this`model, currentBuffer, currentBuffer.data
      ensures Sound()
      ensures model == old(model).(current := Some(Put(LARGE_BUFFER, old(model.current.value), line)),
                                   lines := old(model.lines) + [line])
    {
      hide Apart, Shows;
      CurrentIsOwned(At(), repr, texts, model);
      ghost var was, text := texts, Put(LARGE_BUFFER, model.current.value, line);
      Writes(At(), texts, model, text, model.lines + [line]);
      texts := texts[currentBuffer := text];
      model := model.(current := Some(text), lines := model.lines + [line]);
      AppendTo(currentBuffer, line, repr, was);
    }

    /** The full buffer goes to the filled ones, and the spare takes its place. */
    method UseSpare()
      requires Sound() && currentBuffer != null && nextBuffer != null
      modifies this`currentBuffer, this`nextBuffer, this`buffers, this`model
      ensures Sound() && currentBuffer == old(nextBuffer) && currentBuffer in repr && model == Rotated(old(model))
    {
      hide Apart, Shows, Owned, Rotated;
      ghost var p := At();
      Rotates(p, texts, model, nextBuffer);
      model := Rotated(model);
      buffers, currentBuffer := buffers + [currentBuffer], null;
      currentBuffer, nextBuffer := nextBuffer, null;
      assert At() == Turned(p, p.next);
    }

    /** `new Buffer`. */
    method NewBuffer() returns (b: FixedBuffer)
      requires Sound()
      modifies this`repr, this`texts
      ensures Sound() && repr == old(repr) + {b} && fresh(b) && fresh(b.data)
      ensures b !in Owned(At()) && TextOf(texts, b) == ""
    {
      hide Apart, Shows, Owned;
      b := SpareBuffer(repr, texts);
      assert b !in repr;
      Elsewhere(At(), texts, model, b, "");
      repr, texts := repr + {b}, texts[b := ""];
    }

    /** The same without a spare: a new buffer, which rarely happens. */
    method UseNew()
      requires Sound() && currentBuffer != null && nextBuffer == null
      modifies this`currentBuffer, this`buffers, this`repr, this`texts, this`model
      ensures Sound() && repr == old(repr) + {currentBuffer} && fresh(currentBuffer) && fresh(currentBuffer.data)
      ensures model == Rotated(old(model))
    {
      hide Apart, Shows, Owned, Rotated;
      var b := NewBuffer();
      ghost var p := At();
      Rotates(p, texts, model, b);
      model := Rotated(model);
      buffers, currentBuffer := buffers + [currentBuffer], b;
      assert At() == Turned(p, b);
    }

    /** `append`, by a producer. */
    method AppendLine(line: string)
      requires Valid()
      modifies this, repr, Arrays(repr)
      ensures Valid() && fresh(repr - old(repr)) && Append(old(model), line) == Ok(model)
    {
      hide Apart, Shows, Owned, Inv;
      AppendKeeps(model, line);
      CurrentIsHeld(At(), repr, texts, model);
      if currentBuffer.Avail() <= |line| {
        if nextBuffer != null {
          UseSpare();
        } else {
          UseNew();
        }
      }
      AppendToCurrent(line);
      assert Append(old(model), line) == Ok(model);
    }

    /** The critical section of `threadFunc`. */
    method TakeFilled()
      requires Valid() && model.backend.AtTop?
      modifies this
      ensures Valid() && repr == old(repr) && Swap(old(model)) == Ok(model)
    {
      hide Apart, Shows, Inv, Swap, Owned;
      SwapKeeps(model);
      SparesAreHeld(At(), texts, model);
      Takes(At(), texts, model);
      ghost var p := At();
      model := Swap(model).value;
      buffers, currentBuffer := buffers + [currentBuffer], null;
      currentBuffer, newBuffer1 := newBuffer1, null;
      buffersToWrite, buffers := buffers, buffersToWrite;
      if nextBuffer == null {
        nextBuffer, newBuffer2 := newBuffer2, null;
      }
      assert At() == Taken(p);
    }

    /** `output->append`. */
    method WriteEntry(e: Entry)
      requires Sound() && !e.Lost?
      modifies this`file, this`model
      ensures Sound() && model == old(model).(log := old(model.log) + [e])
    {
      hide Apart, Shows, Owned;
      ShowsLog(At(), texts, model, model.log + [e]);
      FiledSnoc(model.log, e);
      file, model := file + [e], model.(log := model.log + [e]);
    }

    /** `buffersToWrite.erase` and `resize`: only the first `n` are left. */
    method Cut(n: nat)
      requires Sound() && n <= |buffersToWrite|
      modifies this`buffersToWrite, this`model
      ensures Sound() && buffersToWrite == old(buffersToWrite)[..n]
      ensures n <= |old(model.batch)| && model == old(model).(batch := old(model.batch)[..n])
    {
      hide Apart, Shows, Owned;
      Cuts(At(), texts, model, n);
      buffersToWrite, model := buffersToWrite[..n], model.(batch := model.batch[..n]);
    }

    /** The write loop. */
    method WriteTexts()
      requires Sound()
      modifies this`file, this`model
      ensures Sound() && model == old(model).(log := old(model.log) + Texts(old(model.batch)))
    {
      hide Apart, Shows, Owned;
      BatchIsHeld(At(), repr, texts, model);
      ghost var s := model;
      assert s.log + Texts(s.batch[..0]) == s.log;
      for i := 0 to |buffersToWrite|
        invariant Sound() && model == s.(log := s.log + Texts(s.batch[..i]))
      {
        TextsSnoc(s.log, s.batch, i);
        WriteEntry(Text(buffersToWrite[i].Contents()));
      }
      assert s.batch[..|s.batch|] == s.batch;
    }

    /** `newBuffer = std::move(buffersToWrite.back())`, `pop_back` and `reset`. */
    method Recycle() returns (b: FixedBuffer)
      requires Sound() && buffersToWrite != []
      modifies this`buffersToWrite, this`texts, this`model, repr, Arrays(repr)
      ensures Sound() && b in repr && b !in Owned(At()) && TextOf(texts, b) == ""
      ensures model == old(model).(batch := old(model.batch)[..|old(model.batch)| - 1])
      ensures buffersToWrite == old(buffersToWrite)[..|old(buffersToWrite)| - 1]
    {
      hide Apart, Shows, Owned;
      Pops(At(), texts, model);
      var n := |buffersToWrite| - 1;
      ghost var was := texts;
      b := buffersToWrite[n];
      buffersToWrite, texts, model := buffersToWrite[..n], texts[b := ""], model.(batch := model.batch[..n]);
      ResetOne(b, repr, was);
    }

    /** The notice, the erasure and the write loop. */
    method WriteBatch()
      requires Sound()
      modifies this`file, this`buffersToWrite, this`model
      ensures Sound() && |buffersToWrite| == (if |old(model.batch)| > MAX_BATCH then 2 else |old(model.batch)|)
      ensures model == old(model).(log := old(model.log) + Entries(old(model.batch)), batch := Left(old(model.batch)))
    {
      hide Apart, Shows, Owned, Entries, Texts, Filed;
      BatchIsHeld(At(), repr, texts, model);
      EntriesInOrder(model.log, model.batch);
      if |buffersToWrite| > MAX_BATCH {
        ghost var dropped := model.batch[2..];
        WriteEntry(Notice(|buffersToWrite| - 2));
        Cut(2);
        WriteTexts();
        Lose(dropped);
      } else {
        WriteTexts();
      }
    }

    /** What was erased is not in the file. */
    ghost method Lose(dropped: seq<string>)
      requires Sound()
      modifies this`model
      ensures Sound() && model == old(model).(log := old(model.log) + [Lost(dropped)])
    {
      hide Apart, Shows, Owned;
      ShowsLog(At(), texts, model, model.log + [Lost(dropped)]);
      FiledSnoc(model.log, Lost(dropped));
      model := model.(log := model.log + [Lost(dropped)]);
    }

    /** The backend's spares come back from the batch. */
    method RecycleFirst()
      requires Sound() && newBuffer1 == null && buffersToWrite != []
      modifies this`newBuffer1, this`buffersToWrite, this`texts, this`model, repr, Arrays(repr)
      ensures Sound() && buffersToWrite == old(buffersToWrite)[..|old(buffersToWrite)| - 1]
      ensures model == old(model).(batch := old(model.batch)[..|old(model.batch)| - 1], new1 := Some(""))
    {
      hide Apart, Shows, Owned;
      var b := Recycle();
      Refills(At(), texts, model, b);
      newBuffer1, model := b, model.(new1 := Some(""));
    }

    method RecycleSecond()
      requires Sound() && newBuffer2 == null && buffersToWrite != []
      modifies this`newBuffer2, this`buffersToWrite, this`texts, this`model, repr, Arrays(repr)
      ensures Sound() && buffersToWrite == old(buffersToWrite)[..|old(buffersToWrite)| - 1]
      ensures model == old(model).(batch := old(model.batch)[..|old(model.batch)| - 1], new2 := Some(""))
    {
      hide Apart, Shows, Owned;
      var b := Recycle();
      Refills(At(), texts, model, b);
      newBuffer2, model := b, model.(new2 := Some(""));
    }

    /** `buffersToWrite.clear()`, and back to the top of the loop. */
    method Finish()
      requires Sound()
      modifies this`buffersToWrite, this`model
      ensures Sound() && model == old(model).(batch := [], backend := AtTop)
    {
      hide Apart, Shows, Owned;
      Cut(0);
      ShowsBackend(At(), texts, model, AtTop);
      model := model.(backend := AtTop);
    }

    /** The rest of the loop of `threadFunc`. */
    method WriteFilled()
      requires Valid() && model.backend.Holding?
      modifies this, repr, Arrays(repr)
      ensures Valid() && repr == old(repr) && Write(old(model)) == Ok(model)
    {
      hide Apart, Shows, Owned, Inv, Entries, Backed;
      WriteKeeps(model);
      WriteNeeds(model);
      WriteBatch();
      SizesMatch(At(), texts, model);
      if |buffersToWrite| > 2 {
        Cut(2);
      }
      if newBuffer1 == null {
        RecycleFirst();
      }
      if newBuffer2 == null {
        RecycleSecond();
      }
      Finish();
      assert Write(old(model)) == Ok(model);
    }
  }

  lemma CurrentIsHeld(p: Places, bs: set<FixedBuffer>, texts: Memory, s: Logger)
    requires Inv(s) && Owned(p) <= bs && Backed(bs, texts) && Shows(p, texts, s)
    ensures p.current != null && p.current in bs && p.current.Valid()
    ensures p.current.Avail() == LARGE_BUFFER - |s.current.value|
  {}

  /** What the asserts of the recycling rest on. */
  lemma WriteNeeds(s: Logger)
    requires Inv(s) && s.backend.Holding?
    ensures s.new1.None? && |s.batch| >= (if s.new2.None? then 2 else 1)
  {}

  lemma ShowsBackend(p: Places, texts: Memory, s: Logger, backend: Backend)
    requires Shows(p, texts, s)
    ensures Shows(p, texts, s.(backend := backend))
  {}

  lemma SizesMatch(p: Places, texts: Memory, s: Logger)
    requires Shows(p, texts, s)
    ensures |s.batch| == |p.batch| && (s.new1.None? <==> p.new1 == null) && (s.new2.None? <==> p.new2 == null)
  {
    AllTextsLength(texts, p.batch);
  }

  lemma BatchIsHeld(p: Places, bs: set<FixedBuffer>, texts: Memory, s: Logger)
    requires Owned(p) <= bs && Backed(bs, texts) && Shows(p, texts, s)
    ensures |s.batch| == |p.batch|
    ensures forall i :: 0 <= i < |p.batch| ==>
      p.batch[i] in bs && p.batch[i].Valid() && p.batch[i].Contents() == s.batch[i]
  {
    AllTextsLength(texts, p.batch);
  }

  lemma TextsSnoc(log: seq<Entry>, batch: seq<string>, i: nat)
    requires i < |batch|
    ensures log + Texts(batch[..i + 1]) == log + Texts(batch[..i]) + [Text(batch[i])]
  {
    assert batch[..i + 1][..i] == batch[..i];
  }

  lemma EntriesInOrder(log: seq<Entry>, batch: seq<string>)
    ensures log + Entries(batch) ==
      if |batch| > MAX_BATCH
      then log + [Notice(|batch| - 2)] + Texts(batch[..2]) + [Lost(batch[2..])]
      else log + Texts(batch)
  {
    hide Texts;
    if |batch| > MAX_BATCH {
      Regroup(log, [Notice(|batch| - 2)], Texts(batch[..2]), [Lost(batch[2..])]);
    }
  }

  lemma Regroup(a: seq<Entry>, b: seq<Entry>, c: seq<Entry>, d: seq<Entry>)
    ensures a + (b + c + d) == a + b + c + d
  {}

  lemma SparesAreHeld(p: Places, texts: Memory, s: Logger)
    requires Inv(s) && Shows(p, texts, s) && s.backend.AtTop?
    ensures p.current != null && p.new1 != null && p.new2 != null && p.batch == []
  {
    AllTextsLength(texts, p.batch);
  }

  lemma FreshIsSound(p: Places, texts: Memory)
    requires p.buffers == [] && p.batch == [] && (Opt(p.current) !! Opt(p.next) !! Opt(p.new1) !! Opt(p.new2))
    requires p.current != null && p.next != null && p.new1 != null && p.new2 != null
    requires forall b :: b in Owned(p) ==> TextOf(texts, b) == ""
    ensures Apart(p) && Shows(p, texts, FreshLogger) && Inv(FreshLogger) && Filed([]) == []
    ensures Owned(p) == {p.current, p.next, p.new1, p.new2}
  {
    RunKeeps(FreshLogger, []);
  }

  lemma CurrentIsOwned(p: Places, bs: set<FixedBuffer>, texts: Memory, s: Logger)
    requires p.current != null && Owned(p) <= bs && Backed(bs, texts) && Shows(p, texts, s)
    ensures p.current in bs && p.current in texts && s.current == Some(texts[p.current])
  {}
}
