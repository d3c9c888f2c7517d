/**
 The bounded process supervisor as an interleaved step system.

 Two reader threads, one writer thread, the child (with its descendants), a clock and the
 supervising thread take atomic steps in any order.  `Apply` performs one labelled step, `Exec`
 a whole run.  The cleanup phase appears here with its decisions only; its waiting times are the
 subject of module `Cleanup`.
 */
module Supervisor {
  import opened Common

  datatype Error = TimedOut | OutputLimit | IoFailure | StartFailed | CleanupFailed

  const READ_CHUNK: nat := 64 * 1024

  // ----- pipe readers ---------------------------------------------------------------------

  /** `sent` is everything written to the pipe so far, `taken` how much of it was read, and `open`
      says whether some process still holds a writing end. */
  datatype Pipe = Pipe(sent: seq<Byte>, open: bool, taken: nat)

  datatype ReaderPc =
    | Unborn | Top | Reading | Got(chunk: seq<Byte>) | Over | Raised | Leaving | Closing | Ended

  datatype Reader = Reader(limit: nat, pipe: Pipe, pc: ReaderPc, buffer: seq<Byte>,
                           error: Option<Error>, done: bool)

  /** What the operating system answers to a step of a reader. */
  datatype ReaderEvent = Proceed | Chunk(n: nat) | Eof | Fail

  function ReadSize(remaining: int): int {
    if remaining >= READ_CHUNK then READ_CHUNK else remaining + 1
  }

  function ReaderStep(r: Reader, stop: bool, e: ReaderEvent): Option<Reader> {
    match r.pc
    case Unborn => None
    case Top => Some(r.(pc := if stop then Leaving else Reading))
    case Reading =>
      (match e
       case Chunk(n) =>
         if 1 <= n <= ReadSize(r.limit - |r.buffer|) && r.pipe.taken + n <= |r.pipe.sent| then
           Some(r.(pc := Got(r.pipe.sent[r.pipe.taken..r.pipe.taken + n]),
                   pipe := r.pipe.(taken := r.pipe.taken + n)))
         else None
       case Eof => if !r.pipe.open && r.pipe.taken == |r.pipe.sent| then Some(r.(pc := Leaving)) else None
       case Fail => Some(r.(pc := Raised))
       case Proceed => None)
    case Got(chunk) =>
      var remaining := r.limit - |r.buffer|;
      if |chunk| > remaining then
        Some(r.(buffer := if remaining > 0 then r.buffer + chunk[..remaining] else r.buffer, pc := Over))
      else
        Some(r.(buffer := r.buffer + chunk, pc := Top))
    case Over => Some(r.(error := Some(OutputLimit), pc := Leaving))
    case Raised => Some(r.(error := if stop then r.error else Some(IoFailure), pc := Leaving))
    case Leaving => Some(r.(done := true, pc := Closing))
    case Closing => Some(r.(pc := Ended))
    case Ended => None
  }

  // ----- pipe writer ----------------------------------------------------------------------

  datatype WriterPc = WUnborn | WTop | WClock | WWriting | WRaised | WLeaving | WClosed | WEnded

  /** How the writer left its loop; the source does not keep this, the claims below do. */
  datatype Leave = Delivered | Stopped | LateClock | BrokenPipe | Errored

  datatype Writer = Writer(input: seq<Byte>, offset: nat, pc: WriterPc,
                           error: Option<Error>, done: bool, left: Option<Leave>)

  datatype WriterEvent = WProceed | Accepts(n: nat) | Breaks | WFail

  function WriterStep(w: Writer, stop: bool, clock: int, deadline: int, e: WriterEvent): Option<Writer> {
    match w.pc
    case WUnborn => None
    case WTop =>
      if w.offset >= |w.input| then Some(w.(pc := WLeaving, left := Some(Delivered)))
      else if stop then Some(w.(pc := WLeaving, left := Some(Stopped)))
      else Some(w.(pc := WClock))
    case WClock =>
      if clock >= deadline then Some(w.(pc := WLeaving, left := Some(LateClock)))
      else Some(w.(pc := WWriting))
    case WWriting =>
      (match e
       case Accepts(n) =>
         if n == 0 then Some(w.(pc := WRaised))
         else if n <= READ_CHUNK && w.offset + n <= |w.input| then Some(w.(offset := w.offset + n, pc := WTop))
         else None
       case Breaks => Some(w.(pc := WLeaving, left := Some(BrokenPipe)))
       case WFail => Some(w.(pc := WRaised))
       case WProceed => None)
    case WRaised =>
      Some(w.(error := if stop then w.error else Some(IoFailure), pc := WLeaving, left := Some(Errored)))
    case WLeaving => Some(w.(pc := WClosed))
    case WClosed => Some(w.(done := true, pc := WEnded))
    case WEnded => None
  }

  // ----- the supervising thread -----------------------------------------------------------

  datatype Outcome = Returned(code: int, stdout: seq<Byte>, stderr: seq<Byte>) | Failed(error: Error)

  datatype SupPc =
    | Start(next: nat) | Now | Check(at: nat) | Poll | Kill | DoneTest(at: nat) | Wait
    | Recheck(at: nat) | Collect
    | Stop(primary: Outcome) | CleanKill(primary: Outcome) | Reap(primary: Outcome)
    | Join(primary: Outcome, reaped: bool) | Close(primary: Outcome, reaped: bool, alive: bool)
    | Finished(outcome: Outcome)

  datatype State = State(
    clock: int, deadline: int,
    stdout: Reader, stderr: Reader, writer: Writer,
    child: Option<int>,         // exit status once the direct child is gone
    stop: bool, own: Own, sup: SupPc)

  /** What only the supervising thread keeps. */
  datatype Own = Own(
    now: Option<int>,           // its last clock reading
    returncode: Option<int>,    // what poll() has reported
    treeTerminated: bool, killFailed: bool, reapFailed: bool,
    groupKills: nat,            // SIGKILLs sent to the process group
    closedByCleanup: bool)

  datatype SupEvent = Go | Trouble

  predicate ReaderAlive(r: Reader) { r.pc != Unborn && r.pc != Ended }
  predicate WriterAlive(w: Writer) { w.pc != WUnborn && w.pc != WEnded }
  predicate WorkersAlive(s: State) {
    ReaderAlive(s.stdout) || ReaderAlive(s.stderr) || WriterAlive(s.writer)
  }

  function ErrorOf(s: State, i: nat): Option<Error> {
    if i == 0 then s.stdout.error else if i == 1 then s.stderr.error else s.writer.error
  }

  predicate DoneOf(s: State, i: nat) {
    if i == 0 then s.stdout.done else if i == 1 then s.stderr.done else s.writer.done
  }

  /** `Thread.start` of worker `i`; without input the writer's event is set and no thread exists. */
  function StartWorker(s: State, i: nat, hasInput: bool): State {
    if i == 0 then s.(stdout := s.stdout.(pc := Top))
    else if i == 1 then s.(stderr := s.stderr.(pc := Top))
    else if hasInput then s.(writer := s.writer.(pc := WTop))
    else s.(writer := s.writer.(done := true, pc := WEnded, left := Some(Delivered)))
  }

  function Signalled(own: Own, e: SupEvent): Own {
    own.(groupKills := own.groupKills + 1, killFailed := own.killFailed || e == Trouble)
  }

  /** Starting the workers and the loop; `None` once the loop is over. */
  function LoopStep(s: State, e: SupEvent, hasInput: bool): Option<State> {
    match s.sup
    case Start(i) =>
      if i >= 3 then Some(s.(sup := Now))
      else if e == Trouble then Some(s.(sup := Stop(Failed(StartFailed))))
      else Some(StartWorker(s, i, hasInput).(sup := Start(i + 1)))
    case Now =>
      Some(s.(own := s.own.(now := Some(s.clock)), sup := if s.clock >= s.deadline then Stop(Failed(TimedOut)) else Check(0)))
    case Check(i) =>
      if i >= 3 then Some(s.(sup := Poll))
      else if ErrorOf(s, i).Some? then Some(s.(sup := Stop(Failed(ErrorOf(s, i).value))))
      else Some(s.(sup := Check(i + 1)))
    case Poll =>
      if s.child.None? then Some(s.(sup := Wait))
      else Some(s.(own := s.own.(returncode := s.child), sup := if s.own.treeTerminated then DoneTest(0) else Kill))
    case Kill =>
      Some(s.(own := Signalled(s.own, e).(treeTerminated := true), sup := DoneTest(0)))
    case DoneTest(i) =>
      if i >= 3 then Some(s.(sup := Recheck(0)))
      else if DoneOf(s, i) then Some(s.(sup := DoneTest(i + 1)))
      else Some(s.(sup := Wait))
    case Wait => Some(s.(sup := Now))
    case _ => None
  }

  /** Everything after the loop, and the cleanup. */
  function EndStep(s: State, e: SupEvent): Option<State> {
    match s.sup
    case Recheck(i) =>
      if i >= 3 then Some(s.(sup := Collect))
      else if ErrorOf(s, i).Some? then Some(s.(sup := Stop(Failed(ErrorOf(s, i).value))))
      else Some(s.(sup := Recheck(i + 1)))
    case Collect =>
      if s.own.returncode.None? then None
      else Some(s.(sup := Stop(Returned(s.own.returncode.value, s.stdout.buffer, s.stderr.buffer))))
    case Stop(p) => Some(s.(stop := true, sup := CleanKill(p)))
    case CleanKill(p) =>
      if s.own.treeTerminated then Some(s.(sup := Reap(p)))
      else Some(s.(own := Signalled(s.own, e), sup := Reap(p)))
    case Reap(p) => if e == Go && s.child.None? then None else Some(s.(own := s.own.(reapFailed := e != Go), sup := Join(p, e == Go)))
    case Join(p, reaped) => Some(s.(sup := Close(p, reaped, WorkersAlive(s))))
    case Close(p, reaped, alive) =>
      Some(s.(own := s.own.(closedByCleanup := !alive),
              sup := Finished(if s.own.killFailed || !reaped || alive then Failed(CleanupFailed) else p)))
    case _ => None
  }

  predicate InLoop(p: SupPc) { p.Start? || p.Now? || p.Check? || p.Poll? || p.Kill? || p.DoneTest? || p.Wait? }

  function SupStep(s: State, e: SupEvent, hasInput: bool): Option<State> {
    if InLoop(s.sup) then LoopStep(s, e, hasInput) else EndStep(s, e)
  }

  // ----- whole runs -----------------------------------------------------------------------

  datatype ChildEvent = WriteOut(data: seq<Byte>) | WriteErr(data: seq<Byte>) | ShutOut | ShutErr | Exit(code: int)

  function ChildStep(s: State, e: ChildEvent): Option<State> {
    match e
    case WriteOut(d) => if s.stdout.pipe.open then Some(s.(stdout := Feed(s.stdout, d))) else None
    case WriteErr(d) => if s.stderr.pipe.open then Some(s.(stderr := Feed(s.stderr, d))) else None
    case ShutOut => Some(s.(stdout := Shut(s.stdout)))
    case ShutErr => Some(s.(stderr := Shut(s.stderr)))
    case Exit(c) => if s.child.None? then Some(s.(child := Some(c))) else None
  }

  function Feed(r: Reader, d: seq<Byte>): Reader { r.(pipe := r.pipe.(sent := r.pipe.sent + d)) }
  function Shut(r: Reader): Reader { r.(pipe := r.pipe.(open := false)) }

  datatype Step = Tick(d: nat) | Child(c: ChildEvent) | Out(e: ReaderEvent) | Err(e: ReaderEvent)
                | In(w: WriterEvent) | Sup(v: SupEvent)

  /** One step of one actor; `None` when the actor cannot take it in this state. */
  function Apply(s: State, step: Step, hasInput: bool): Option<State> {
    match step
    case Tick(d) => Some(s.(clock := s.clock + d))
    case Child(c) => ChildStep(s, c)
    case Out(e) =>
      (match ReaderStep(s.stdout, s.stop, e) case None => None case Some(r) => Some(s.(stdout := r)))
    case Err(e) =>
      (match ReaderStep(s.stderr, s.stop, e) case None => None case Some(r) => Some(s.(stderr := r)))
    case In(e) =>
      (match WriterStep(s.writer, s.stop, s.clock, s.deadline, e)
       case None => None case Some(w) => Some(s.(writer := w)))
    case Sup(e) => SupStep(s, e, hasInput)
  }

  function Exec(s: State, steps: seq<Step>, hasInput: bool): Option<State>
    decreases |steps|
  {
    if steps == [] then Some(s) else
      match Apply(s, steps[0], hasInput)
      case None => None
      case Some(t) => Exec(t, steps[1..], hasInput)
  }

  function FreshReader(limit: nat): Reader { Reader(limit, Pipe([], true, 0), Unborn, [], None, false) }

  /** The state just after the child was spawned. */
  function Spawned(clock: int, deadline: int, outLimit: nat, errLimit: nat, input: seq<Byte>): State {
    State(clock, deadline, FreshReader(outLimit), FreshReader(errLimit),
          Writer(input, 0, WUnborn, None, false, None), None, false, Own(None, None, false, false, false, 0, false), Start(0))
  }

  // ----- invariants -----------------------------------------------------------------------

  /** The reader has taken exactly its buffer from the pipe, or the first `limit` bytes of a
      stream that is too long, and never holds more than one byte beyond the limit; leaving without an
      error means end of file or a stop request. */
  ghost predicate ReaderInv(r: Reader, stop: bool) {
    && |r.buffer| <= r.limit
    && r.pipe.taken <= |r.pipe.sent|
    && (r.done <==> r.pc == Closing || r.pc == Ended)
    && (r.pc.Unborn? ==> r.buffer == [] && r.pipe.taken == 0)
    && (r.pc.Unborn? || r.pc.Top? || r.pc.Reading? || r.pc.Raised? || r.pc.Got? || r.pc.Over? ==> r.error.None?)
    && (r.pc.Top? || r.pc.Reading? || r.pc.Raised? ==> r.buffer == r.pipe.sent[..r.pipe.taken])
    && (r.pc.Got? ==> r.buffer + r.pc.chunk == r.pipe.sent[..r.pipe.taken])
    && (r.pc.Got? ==> |r.pc.chunk| <= READ_CHUNK && |r.buffer + r.pc.chunk| <= r.limit + 1)
    && (r.pc.Over? || r.error == Some(OutputLimit) ==> Overflowed(r))
    && (r.error.Some? ==> r.error.value == OutputLimit || r.error.value == IoFailure)
    && (r.pc.Leaving? || r.done ==> r.error.Some? || stop || Complete(r))
  }

  predicate Overflowed(r: Reader) { |r.pipe.sent| > r.limit && r.buffer == r.pipe.sent[..r.limit] }

  /** Every writing end is closed and the buffer holds the whole stream. */
  predicate Complete(r: Reader) { !r.pipe.open && r.buffer == r.pipe.sent }

  ghost predicate WriterInv(w: Writer, stop: bool, clock: int, deadline: int) {
    && w.offset <= |w.input|
    && (w.done <==> w.pc == WEnded)
    && (w.pc.WLeaving? || w.pc.WClosed? || w.pc.WEnded? <==> w.left.Some?)
    && (w.left.None? ==> w.error.None?)
    && (w.error.Some? ==> w.error.value == IoFailure)
    && (w.left == Some(Delivered) ==> w.offset == |w.input|)
    && (w.left == Some(Stopped) ==> stop)
    && (w.pc.WClock? || w.left == Some(LateClock) ==> w.offset < |w.input|)
    && (w.left == Some(LateClock) ==> clock >= deadline)
    && (w.left == Some(Errored) ==> w.error.Some? || stop)
  }

  /** Exactly the first `n` workers were started. */
  predicate StartedExactly(s: State, n: nat) {
    (!s.stdout.pc.Unborn? <==> n > 0) && (!s.stderr.pc.Unborn? <==> n > 1) && (!s.writer.pc.WUnborn? <==> n > 2)
  }

  predicate FirstDone(s: State, n: nat) {
    (n > 0 ==> s.stdout.done) && (n > 1 ==> s.stderr.done) && (n > 2 ==> s.writer.done)
  }

  predicate FirstClean(s: State, n: nat) {
    (n > 0 ==> s.stdout.error.None?) && (n > 1 ==> s.stderr.error.None?) && (n > 2 ==> s.writer.error.None?)
  }

  predicate Winding(p: SupPc) { p.CleanKill? || p.Reap? || p.Join? || p.Close? || p.Finished? }

  /** What a collected result promises; stable once every worker is done. */
  ghost predicate Faithful(s: State, o: Outcome) {
    o.Returned? ==>
      && s.stdout.done && s.stderr.done && s.writer.done
      && s.stdout.error.None? && s.stderr.error.None? && s.writer.error.None?
      && Complete(s.stdout) && Complete(s.stderr)
      && o.stdout == s.stdout.pipe.sent && o.stderr == s.stderr.pipe.sent
      && s.child == Some(o.code)
      && s.own.treeTerminated && ReadInTime(s)
      && (s.writer.left == Some(Delivered) || s.writer.left == Some(BrokenPipe) || s.writer.left == Some(LateClock))
  }

  /** The last clock reading was before the deadline. */
  predicate ReadInTime(s: State) { s.own.now.Some? && s.own.now.value < s.deadline && s.own.now.value <= s.clock }

  /** An error outcome is backed by the state. */
  ghost predicate Justified(s: State, o: Outcome) {
    o.Failed? ==>
      && (o.error.TimedOut? ==> s.clock >= s.deadline)
      && (o.error.StartFailed? ==> s.writer.pc.WUnborn?)
      && (o.error.OutputLimit? ==> Overflowed(s.stdout) || Overflowed(s.stderr))
      && (o.error.IoFailure? ==> s.stdout.error == Some(IoFailure) || s.stderr.error == Some(IoFailure)
                                 || s.writer.error == Some(IoFailure))
  }

  /** How far the supervisor has come and what it knows of the workers. */
  ghost predicate Progress(s: State) {
    && (s.stop <==> Winding(s.sup))
    && (s.sup.Start? ==> s.sup.next <= 3 && StartedExactly(s, s.sup.next) && !s.own.treeTerminated)
    && (!s.sup.Start? && !s.sup.Stop? && !Winding(s.sup) ==> StartedExactly(s, 3))
    && (s.sup.Check? || s.sup.DoneTest? || s.sup.Recheck? ==> s.sup.at <= 3)
    && (s.own.returncode.Some? ==> s.child == s.own.returncode)
    && (s.sup.Kill? || s.sup.DoneTest? || s.sup.Recheck? || s.sup.Collect? ==> s.own.returncode.Some?)
    && (s.sup.DoneTest? ==> FirstDone(s, s.sup.at))
    && (s.sup.Recheck? || s.sup.Collect? ==> FirstDone(s, 3))
    && (s.sup.Recheck? ==> FirstClean(s, s.sup.at))
    && (s.sup.Collect? ==> FirstClean(s, 3))
    && (s.sup.Check? || s.sup.Poll? || s.sup.Kill? || s.sup.DoneTest? || s.sup.Recheck? || s.sup.Collect? ==> ReadInTime(s))
  }

  /** The process group is signalled once, in the loop or in the cleanup. */
  ghost predicate Kills(s: State) {
    && (s.sup.Kill? ==> !s.own.treeTerminated)
    && (s.sup.DoneTest? || s.sup.Recheck? || s.sup.Collect? ==> s.own.treeTerminated)
    && s.own.groupKills == (if s.own.treeTerminated || (Winding(s.sup) && !s.sup.CleanKill?) then 1 else 0)
  }

  /** What the cleanup phase and the final outcome may rely on. */
  ghost predicate Verdict(s: State) {
    && (s.own.closedByCleanup ==> s.sup.Finished?)
    && (s.own.closedByCleanup || (s.sup.Close? && !s.sup.alive) ==> !WorkersAlive(s))
    && (s.sup.Stop? || s.sup.CleanKill? || s.sup.Reap? || s.sup.Join? || s.sup.Close? ==>
          s.sup.primary != Failed(CleanupFailed) && Faithful(s, s.sup.primary) && Justified(s, s.sup.primary))
    && (s.sup.Finished? ==> Faithful(s, s.sup.outcome) && Justified(s, s.sup.outcome))
    && (s.sup.Join? || s.sup.Close? ==> s.sup.reaped == !s.own.reapFailed)
    && (s.sup.Join? || s.sup.Close? || s.sup.Finished? ==> s.own.reapFailed || s.child.Some?)
    && (s.sup.Finished? ==>
          (s.sup.outcome == Failed(CleanupFailed) <==> s.own.killFailed || s.own.reapFailed || !s.own.closedByCleanup))
  }

  ghost predicate Inv(s: State) {
    && ReaderInv(s.stdout, s.stop) && ReaderInv(s.stderr, s.stop)
    && WriterInv(s.writer, s.stop, s.clock, s.deadline)
    && Progress(s) && Kills(s) && Verdict(s)
  }

  // ----- every step keeps the invariant ---------------------------------------------------

  /** What a step of anyone but the supervisor can do to a reader. */
  ghost predicate ReaderEvolves(r: Reader, r': Reader) {
    && r'.limit == r.limit && r.buffer <= r'.buffer && r.pipe.sent <= r'.pipe.sent
    && (r.pc.Unborn? <==> r'.pc.Unborn?) && (!ReaderAlive(r) ==> !ReaderAlive(r'))
    && (r'.pipe.open ==> r.pipe.open) && (!r.pipe.open ==> r'.pipe.sent == r.pipe.sent)
    && (r.done ==> r'.done && r'.error == r.error && r'.buffer == r.buffer)
    && (r.error.Some? ==> r'.error == r.error)
  }

  ghost predicate WriterEvolves(w: Writer, w': Writer) {
    && (w.pc.WUnborn? <==> w'.pc.WUnborn?) && (!WriterAlive(w) ==> !WriterAlive(w'))
    && (w.done ==> w' == w) && (w.error.Some? ==> w'.error == w.error)
  }

  ghost predicate Evolves(s: State, s': State) {
    && ReaderEvolves(s.stdout, s'.stdout) && ReaderEvolves(s.stderr, s'.stderr)
    && WriterEvolves(s.writer, s'.writer)
    && (s.child.Some? ==> s'.child == s.child)
    && s.clock <= s'.clock
    && s'.deadline == s.deadline && s'.stop == s.stop && s'.sup == s.sup && s'.own == s.own
  }

  lemma ReadKeeps(r: Reader, stop: bool, e: ReaderEvent)
    requires ReaderInv(r, stop) && r.pc.Reading? && ReaderStep(r, stop, e).Some?
    ensures ReaderInv(ReaderStep(r, stop, e).value, stop) && ReaderEvolves(r, ReaderStep(r, stop, e).value)
  {
    if e.Chunk? {
      var sent, taken := r.pipe.sent, r.pipe.taken;
      assert sent[..taken + e.n] == sent[..taken] + sent[taken..taken + e.n];
    }
  }

  lemma StoreKeeps(r: Reader, stop: bool, e: ReaderEvent)
    requires ReaderInv(r, stop) && r.pc.Got?
    ensures ReaderInv(ReaderStep(r, stop, e).value, stop) && ReaderEvolves(r, ReaderStep(r, stop, e).value)
  {
    var r' := ReaderStep(r, stop, e).value;
    if |r.pc.chunk| > r.limit - |r.buffer| {
      assert r'.buffer == (r.buffer + r.pc.chunk)[..r.limit];
      assert r.pipe.sent[..r.pipe.taken][..r.limit] == r.pipe.sent[..r.limit];
    }
  }

  lemma OtherReaderStepKeeps(r: Reader, stop: bool, e: ReaderEvent)
    requires ReaderInv(r, stop) && !r.pc.Reading? && !r.pc.Got? && ReaderStep(r, stop, e).Some?
    ensures ReaderInv(ReaderStep(r, stop, e).value, stop) && ReaderEvolves(r, ReaderStep(r, stop, e).value)
  {
  }

  lemma ReaderStepKeeps(r: Reader, stop: bool, e: ReaderEvent)
    requires ReaderInv(r, stop) && ReaderStep(r, stop, e).Some?
    ensures ReaderInv(ReaderStep(r, stop, e).value, stop)
    ensures ReaderEvolves(r, ReaderStep(r, stop, e).value)
  {
    hide ReaderInv, ReaderStep, ReaderEvolves;
    if r.pc.Reading? {
      ReadKeeps(r, stop, e);
    } else if r.pc.Got? {
      StoreKeeps(r, stop, e);
    } else {
      OtherReaderStepKeeps(r, stop, e);
    }
  }

  /** The child writing or closing its end keeps a reader's invariant. */
  lemma FeedKeeps(r: Reader, stop: bool, d: seq<Byte>)
    requires ReaderInv(r, stop) && r.pipe.open
    ensures ReaderInv(Feed(r, d), stop) && ReaderEvolves(r, Feed(r, d))
  {
    var sent := r.pipe.sent;
    assert (sent + d)[..r.pipe.taken] == sent[..r.pipe.taken];
    if r.limit <= |sent| {
      assert (sent + d)[..r.limit] == sent[..r.limit];
    }
  }

  /** Workers, child and clock never disturb what the supervisor has established. */
  lemma EvolvingKeepsProgress(s: State, s': State)
    requires Progress(s) && Kills(s) && Evolves(s, s')
    ensures Progress(s') && Kills(s')
  {
  }

  lemma EvolvingKeepsVerdict(s: State, s': State)
    requires ReaderInv(s.stdout, s.stop) && ReaderInv(s.stderr, s.stop)
    requires ReaderInv(s'.stdout, s.stop) && ReaderInv(s'.stderr, s.stop)
    requires Verdict(s) && Evolves(s, s')
    ensures Verdict(s')
  {
    assert Overflowed(s.stdout) ==> Overflowed(s'.stdout);
    assert Overflowed(s.stderr) ==> Overflowed(s'.stderr);
    assert forall o | Faithful(s, o) :: Faithful(s', o);
    assert forall o | Justified(s, o) :: Justified(s', o);
  }

  lemma ReadersStepKeeps(s: State, step: Step, hasInput: bool)
    requires Inv(s) && (step.Out? || step.Err?) && Apply(s, step, hasInput).Some?
    ensures Inv(Apply(s, step, hasInput).value)
  {
    var s' := Apply(s, step, hasInput).value;
    match step {
      case Out(e) => ReaderStepKeeps(s.stdout, s.stop, e);
      case Err(e) => ReaderStepKeeps(s.stderr, s.stop, e);
    }
    assert Evolves(s, s');
    EvolvingKeepsProgress(s, s');
    EvolvingKeepsVerdict(s, s');
  }

  lemma WriterMoveKeeps(w: Writer, stop: bool, clock: int, deadline: int, e: WriterEvent)
    requires WriterInv(w, stop, clock, deadline) && WriterStep(w, stop, clock, deadline, e).Some?
    ensures WriterInv(WriterStep(w, stop, clock, deadline, e).value, stop, clock, deadline)
    ensures WriterEvolves(w, WriterStep(w, stop, clock, deadline, e).value)
  {
  }

  lemma WriterStepKeeps(s: State, e: WriterEvent, hasInput: bool)
    requires Inv(s) && Apply(s, In(e), hasInput).Some?
    ensures Inv(Apply(s, In(e), hasInput).value)
  {
    var s' := Apply(s, In(e), hasInput).value;
    WriterMoveKeeps(s.writer, s.stop, s.clock, s.deadline, e);
    assert Evolves(s, s');
    EvolvingKeepsProgress(s, s');
    EvolvingKeepsVerdict(s, s');
  }

  lemma ShutKeeps(r: Reader, stop: bool)
    requires ReaderInv(r, stop)
    ensures ReaderInv(Shut(r), stop) && ReaderEvolves(r, Shut(r))
  {
  }

  lemma Unmoved(s: State)
    ensures ReaderEvolves(s.stdout, s.stdout) && ReaderEvolves(s.stderr, s.stderr) && WriterEvolves(s.writer, s.writer)
  {
  }

  lemma ChildStepKeeps(s: State, e: ChildEvent)
    requires Inv(s) && ChildStep(s, e).Some?
    ensures Inv(ChildStep(s, e).value)
  {
    hide Progress, Kills, Verdict, ReaderInv, WriterInv, ReaderEvolves, WriterEvolves, Feed, Shut;
    var s' := ChildStep(s, e).value;
    Unmoved(s);
    match e {
      case WriteOut(d) => FeedKeeps(s.stdout, s.stop, d);
      case WriteErr(d) => FeedKeeps(s.stderr, s.stop, d);
      case ShutOut => ShutKeeps(s.stdout, s.stop);
      case ShutErr => ShutKeeps(s.stderr, s.stop);
      case Exit(_) =>
    }
    assert Evolves(s, s');
    EvolvingKeepsProgress(s, s');
    EvolvingKeepsVerdict(s, s');
  }

  lemma TickKeeps(s: State, d: nat)
    requires Inv(s)
    ensures Inv(s.(clock := s.clock + d))
  {
    hide Progress, Kills, Verdict;
    var s' := s.(clock := s.clock + d);
    assert Evolves(s, s');
    EvolvingKeepsProgress(s, s');
    EvolvingKeepsVerdict(s, s');
  }

  lemma StartKeeps(s: State, e: SupEvent, hasInput: bool)
    requires Inv(s) && (!hasInput ==> s.writer.input == []) && s.sup.Start?
    ensures Inv(SupStep(s, e, hasInput).value)
  {
    StartOutcome(s, e, hasInput);
    hide SupStep, ReaderInv, WriterInv, StartWorker;
    if s.sup.next < 3 && e == Go {
      NextWorkerKeeps(s, hasInput);
    }
  }

  lemma StartOutcome(s: State, e: SupEvent, hasInput: bool)
    requires s.sup.Start?
    ensures SupStep(s, e, hasInput) == Some(
      if s.sup.next >= 3 then s.(sup := Now)
      else if e == Trouble then s.(sup := Stop(Failed(StartFailed)))
      else StartWorker(s, s.sup.next, hasInput).(sup := Start(s.sup.next + 1)))
  {
  }

  lemma NextWorkerKeeps(s: State, hasInput: bool)
    requires Inv(s) && (!hasInput ==> s.writer.input == []) && s.sup.Start? && s.sup.next < 3
    ensures Inv(StartWorker(s, s.sup.next, hasInput).(sup := Start(s.sup.next + 1)))
  {
    StartedWorkersKeep(s, s.sup.next, hasInput);
    hide ReaderInv, WriterInv;
  }

  lemma StartedWorkersKeep(s: State, i: nat, hasInput: bool)
    requires Inv(s) && (!hasInput ==> s.writer.input == []) && s.sup.Start? && s.sup.next == i
    ensures i < 3 ==> var t := StartWorker(s, i, hasInput);
      && ReaderInv(t.stdout, s.stop) && ReaderInv(t.stderr, s.stop) && WriterInv(t.writer, s.stop, s.clock, s.deadline)
  {
    hide Kills, Verdict;
    assert StartedExactly(s, i);
  }

  lemma ErrorIsJustified(s: State, i: nat)
    requires ReaderInv(s.stdout, s.stop) && ReaderInv(s.stderr, s.stop) && i < 3 && ErrorOf(s, i).Some?
    requires WriterInv(s.writer, s.stop, s.clock, s.deadline)
    ensures Justified(s, Failed(ErrorOf(s, i).value)) && ErrorOf(s, i).value != CleanupFailed
  {
  }

  lemma NowKeeps(s: State, e: SupEvent, hasInput: bool)
    requires Inv(s) && s.sup.Now?
    ensures Inv(SupStep(s, e, hasInput).value)
  {
    var s' := SupStep(s, e, hasInput).value;
    assert s' == s.(sup := s'.sup, own := s'.own);
  }

  lemma CheckKeeps(s: State, e: SupEvent, hasInput: bool)
    requires Inv(s) && (s.sup.Check? || s.sup.Recheck?)
    ensures Inv(SupStep(s, e, hasInput).value)
  {
    hide ReaderInv, WriterInv;
    var s' := SupStep(s, e, hasInput).value;
    assert s' == s.(sup := s'.sup);
    if s'.sup.Stop? {
      ErrorIsJustified(s, s.sup.at);
      assert Justified(s', s'.sup.primary);
    }
  }

  lemma CollectKeeps(s: State, e: SupEvent, hasInput: bool)
    requires Inv(s) && s.sup.Collect?
    ensures SupStep(s, e, hasInput).Some? && Inv(SupStep(s, e, hasInput).value)
  {
    var s' := SupStep(s, e, hasInput).value;
    assert s.writer.left.value != Stopped && s.writer.left.value != Errored;
    match s.writer.left.value { case _ => }
    assert Faithful(s', s'.sup.primary);
  }

  lemma PollKeeps(s: State, e: SupEvent, hasInput: bool)
    requires Inv(s) && (s.sup.Poll? || s.sup.Kill? || s.sup.DoneTest? || s.sup.Wait?)
    ensures Inv(SupStep(s, e, hasInput).value)
  {
    var s' := SupStep(s, e, hasInput).value;
    assert s' == s.(sup := s'.sup, own := s'.own);
  }

  lemma StopKeeps(s: State, e: SupEvent, hasInput: bool)
    requires Inv(s) && (s.sup.Stop? || s.sup.CleanKill?)
    ensures Inv(SupStep(s, e, hasInput).value)
  {
    var s' := SupStep(s, e, hasInput).value;
    assert Faithful(s, s.sup.primary) ==> Faithful(s', s.sup.primary);
    assert Justified(s, s.sup.primary) ==> Justified(s', s.sup.primary);
  }

  lemma CleanupKeeps(s: State, e: SupEvent, hasInput: bool)
    requires Inv(s) && (s.sup.Reap? || s.sup.Join? || s.sup.Close?)
    requires SupStep(s, e, hasInput).Some?
    ensures Inv(SupStep(s, e, hasInput).value)
  {
    var s' := SupStep(s, e, hasInput).value;
    assert Faithful(s, s.sup.primary) ==> Faithful(s', s.sup.primary);
    assert Justified(s, s.sup.primary) ==> Justified(s', s.sup.primary);
  }

  lemma StepKeeps(s: State, step: Step, hasInput: bool)
    requires Inv(s) && (!hasInput ==> s.writer.input == []) && Apply(s, step, hasInput).Some?
    ensures Inv(Apply(s, step, hasInput).value)
  {
    hide Inv, ChildStep, ReaderStep, WriterStep;
    match step {
      case Sup(e) =>
        match s.sup {
          case Start(_) => StartKeeps(s, e, hasInput);
          case Now => NowKeeps(s, e, hasInput);
          case Check(_) | Recheck(_) => CheckKeeps(s, e, hasInput);
          case Collect => CollectKeeps(s, e, hasInput);
          case Poll | Kill | DoneTest(_) | Wait => PollKeeps(s, e, hasInput);
          case Stop(_) | CleanKill(_) => StopKeeps(s, e, hasInput);
          case _ => CleanupKeeps(s, e, hasInput);
        }
      case Out(_) | Err(_) => ReadersStepKeeps(s, step, hasInput);
      case In(e) => WriterStepKeeps(s, e, hasInput);
      case Child(e) => ChildStepKeeps(s, e);
      case Tick(d) => TickKeeps(s, d);
    }
  }

  // ----- what every run guarantees --------------------------------------------------------

  /** The limits, the input and the deadline are fixed when the child is spawned. */
  predicate SameSetup(s: State, t: State) {
    && t.stdout.limit == s.stdout.limit && t.stderr.limit == s.stderr.limit
    && t.writer.input == s.writer.input && t.deadline == s.deadline
  }

  lemma LoopStepKeepsSetup(s: State, e: SupEvent, hasInput: bool)
    requires LoopStep(s, e, hasInput).Some?
    ensures SameSetup(s, LoopStep(s, e, hasInput).value)
  {
  }

  lemma EndStepKeepsSetup(s: State, e: SupEvent)
    requires EndStep(s, e).Some?
    ensures SameSetup(s, EndStep(s, e).value)
  {
  }

  lemma StepKeepsSetup(s: State, step: Step, hasInput: bool)
    requires Apply(s, step, hasInput).Some?
    ensures SameSetup(s, Apply(s, step, hasInput).value)
  {
    hide LoopStep, EndStep;
    match step {
      case Sup(e) =>
        if InLoop(s.sup) { LoopStepKeepsSetup(s, e, hasInput); } else { EndStepKeepsSetup(s, e); }
      case Out(e) => assert ReaderStep(s.stdout, s.stop, e).value.limit == s.stdout.limit;
      case Err(e) => assert ReaderStep(s.stderr, s.stop, e).value.limit == s.stderr.limit;
      case _ =>
    }
  }

  lemma {:induction false} RunKeeps(s: State, steps: seq<Step>, hasInput: bool)
    requires Inv(s) && (!hasInput ==> s.writer.input == []) && Exec(s, steps, hasInput).Some?
    ensures Inv(Exec(s, steps, hasInput).value) && SameSetup(s, Exec(s, steps, hasInput).value)
    decreases |steps|
  {
    if steps != [] {
      StepKeeps(s, steps[0], hasInput);
      StepKeepsSetup(s, steps[0], hasInput);
      var t := Apply(s, steps[0], hasInput).value;
      assert Exec(s, steps, hasInput) == Exec(t, steps[1..], hasInput);
      RunKeeps(t, steps[1..], hasInput);
    }
  }

  /** In every interleaving, a normal return carries the whole of both streams within their limits,
      the child's exit status, and no error ever recorded by a worker; the last clock reading was
      before the deadline; the process group was
      signalled once and cleanup left no worker behind.  The input was delivered in full or refused by
      the child exactly if the writer did not find the deadline already passed; so a run that is still
      before its deadline at the end delivered the input or had it refused. */
  lemma SafeReturn(clock: int, deadline: int, outLimit: nat, errLimit: nat, input: seq<Byte>, hasInput: bool,
                   steps: seq<Step>, s: State)
    requires !hasInput ==> input == []
    requires Exec(Spawned(clock, deadline, outLimit, errLimit, input), steps, hasInput) == Some(s)
    requires s.sup.Finished? && s.sup.outcome.Returned?
    ensures s.sup.outcome.stdout == s.stdout.pipe.sent && s.sup.outcome.stderr == s.stderr.pipe.sent
    ensures s.child == Some(s.sup.outcome.code)
    ensures !s.stdout.pipe.open && !s.stderr.pipe.open
    ensures |s.sup.outcome.stdout| <= outLimit && |s.sup.outcome.stderr| <= errLimit
    ensures s.stdout.error.None? && s.stderr.error.None? && s.writer.error.None?
    ensures s.own.groupKills == 1 && !s.own.killFailed
    ensures s.stdout.pc.Ended? && s.stderr.pc.Ended? && s.writer.pc.WEnded?
    ensures s.own.now.Some? && s.own.now.value < deadline
    ensures (s.writer.offset == |input| || s.writer.left == Some(BrokenPipe)) <==> s.writer.left != Some(LateClock)
    ensures s.clock < deadline ==> s.writer.offset == |input| || s.writer.left == Some(BrokenPipe)
  {
    var s0 := Spawned(clock, deadline, outLimit, errLimit, input);
    RunKeeps(s0, steps, hasInput);
  }

  /** Every worker has ended or was never started. */
  predicate NoWorkerLeft(s: State) {
    && (s.stdout.pc == Ended || s.stdout.pc == Unborn) && (s.stderr.pc == Ended || s.stderr.pc == Unborn)
    && (s.writer.pc == WEnded || s.writer.pc == WUnborn)
  }

  /** At no point of any run has the group been signalled twice; at the end it has been signalled
      once, whatever the outcome.  Cleanup closes streams only when no worker is left; its own failure is
      reported exactly if a signal failed, the child was not reaped or a worker is left, so that any
      other outcome means a reaped child; and a failure is backed by what happened: the deadline passed,
      a stream really exceeded its limit, a worker recorded an I/O error, or one was never started. */
  lemma OneKillOnEveryPath(clock: int, deadline: int, outLimit: nat, errLimit: nat, input: seq<Byte>, hasInput: bool,
                           steps: seq<Step>, s: State)
    requires !hasInput ==> input == []
    requires Exec(Spawned(clock, deadline, outLimit, errLimit, input), steps, hasInput) == Some(s)
    ensures s.own.groupKills <= 1
    ensures s.sup.Finished? ==> s.own.groupKills == 1
    ensures s.own.closedByCleanup ==> NoWorkerLeft(s)
    ensures s.sup.Finished? ==> Justified(s, s.sup.outcome)
    ensures s.sup.Finished? ==>
              (s.sup.outcome == Failed(CleanupFailed) <==> s.own.killFailed || s.own.reapFailed || !s.own.closedByCleanup)
    ensures s.sup.Finished? && s.sup.outcome != Failed(CleanupFailed) ==> s.child.Some? && NoWorkerLeft(s)
    ensures s.sup.Finished? && s.sup.outcome == Failed(OutputLimit) ==>
              |s.stdout.pipe.sent| > outLimit || |s.stderr.pipe.sent| > errLimit
  {
    RunKeeps(Spawned(clock, deadline, outLimit, errLimit, input), steps, hasInput);
  }

  // ----- what decides the outcome ---------------------------------------------------------

  /** The outcome is `p`, unless the cleanup fails. */
  predicate Decided(s: State, p: Outcome) {
    match s.sup
    case Stop(q) => q == p
    case CleanKill(q) => q == p
    case Reap(q) => q == p
    case Join(q, _) => q == p
    case Close(q, _, _) => q == p
    case Finished(q) => q == p || q == Failed(CleanupFailed)
    case _ => false
  }

  /** A step of anyone but the supervisor leaves its place alone. */
  lemma OthersWait(s: State, step: Step, hasInput: bool)
    requires !step.Sup? && Apply(s, step, hasInput).Some?
    ensures var t := Apply(s, step, hasInput).value;
      t.sup == s.sup && t.clock >= s.clock && t.deadline == s.deadline && t.stop == s.stop
  {
  }

  lemma {:induction false} DecidedStays(s: State, p: Outcome, steps: seq<Step>, hasInput: bool, t: State)
    requires Decided(s, p) && Exec(s, steps, hasInput) == Some(t)
    ensures Decided(t, p)
    decreases |steps|
  {
    if steps != [] {
      var u := Apply(s, steps[0], hasInput).value;
      if !steps[0].Sup? {
        OthersWait(s, steps[0], hasInput);
      }
      DecidedStays(u, p, steps[1..], hasInput, t);
    }
  }

  /** Once the deadline has passed while the workers are started, the loop waits or the clock is about to
      be read, no run returns: every run that finishes reports the timeout or a failed cleanup, or that
      a worker could not be started. */
  lemma {:induction false} LateClockEndsTheRun(s: State, steps: seq<Step>, hasInput: bool, t: State)
    requires s.clock >= s.deadline && (s.sup.Start? || s.sup.Now? || s.sup.Wait?)
    requires Exec(s, steps, hasInput) == Some(t) && t.sup.Finished?
    ensures t.sup.outcome == Failed(TimedOut) || t.sup.outcome == Failed(CleanupFailed)
            || (s.sup.Start? && t.sup.outcome == Failed(StartFailed))
    decreases |steps|
  {
    var u := Apply(s, steps[0], hasInput).value;
    if !steps[0].Sup? {
      OthersWait(s, steps[0], hasInput);
      LateClockEndsTheRun(u, steps[1..], hasInput, t);
    } else if u.sup.Stop? {
      DecidedStays(u, u.sup.primary, steps[1..], hasInput, t);
    } else {
      LateClockEndsTheRun(u, steps[1..], hasInput, t);
    }
  }

  /** Which failure a check that starts at worker `i` will report: that of the first worker at or after
      `i`, up to `j`, that has one. */
  predicate FoundBetween(s: State, i: nat, j: nat, o: Outcome) {
    exists k :: i <= k <= j && ErrorOf(s, k).Some? && o == Failed(ErrorOf(s, k).value)
  }

  /** A failure that a check has not passed yet ends the run with it, or with that of a worker between:
      the run does not time out and does not return. */
  lemma {:induction false} RecordedFailureEndsTheRun(s: State, j: nat, steps: seq<Step>, hasInput: bool, t: State)
    requires Inv(s) && (!hasInput ==> s.writer.input == [])
    requires (s.sup.Check? || s.sup.Recheck?) && s.sup.at <= j < 3 && ErrorOf(s, j).Some?
    requires Exec(s, steps, hasInput) == Some(t) && t.sup.Finished?
    ensures FoundBetween(t, s.sup.at, j, t.sup.outcome) || t.sup.outcome == Failed(CleanupFailed)
    decreases |steps|
  {
    hide Inv;
    var u := Apply(s, steps[0], hasInput).value;
    StepKeeps(s, steps[0], hasInput);
    StepKeepsSetup(s, steps[0], hasInput);
    if !steps[0].Sup? {
      OthersWait(s, steps[0], hasInput);
      ErrorsStay(s, steps[0..1], hasInput, u, j);
      RecordedFailureEndsTheRun(u, j, steps[1..], hasInput, t);
    } else if u.sup.Stop? {
      ErrorsStay(s, steps, hasInput, t, s.sup.at);
      DecidedStays(u, u.sup.primary, steps[1..], hasInput, t);
    } else {
      RecordedFailureEndsTheRun(u, j, steps[1..], hasInput, t);
    }
  }

  /** A recorded error is never taken back or replaced. */
  lemma {:induction false} ErrorsStay(s: State, steps: seq<Step>, hasInput: bool, t: State, i: nat)
    requires Inv(s) && (!hasInput ==> s.writer.input == []) && i < 3 && ErrorOf(s, i).Some?
    requires Exec(s, steps, hasInput) == Some(t)
    ensures ErrorOf(t, i) == ErrorOf(s, i)
    decreases |steps|
  {
    hide Inv;
    if steps != [] {
      var u := Apply(s, steps[0], hasInput).value;
      ErrorStays(s, steps[0], hasInput, i);
      StepKeeps(s, steps[0], hasInput);
      StepKeepsSetup(s, steps[0], hasInput);
      ErrorsStay(u, steps[1..], hasInput, t, i);
    }
  }

  lemma ErrorStays(s: State, step: Step, hasInput: bool, i: nat)
    requires Inv(s) && i < 3 && ErrorOf(s, i).Some? && Apply(s, step, hasInput).Some?
    ensures ErrorOf(Apply(s, step, hasInput).value, i) == ErrorOf(s, i)
  {
    hide Progress, Kills, Verdict, ReaderInv, WriterInv, SupStep, ReaderStep, WriterStep, ChildStep;
    match step {
      case Sup(e) => SupKeepsErrors(s, e, hasInput);
      case Out(e) => ReaderStepKeeps(s.stdout, s.stop, e);
      case Err(e) => ReaderStepKeeps(s.stderr, s.stop, e);
      case In(e) => WriterMoveKeeps(s.writer, s.stop, s.clock, s.deadline, e);
      case Child(e) => ChildKeepsErrors(s, e);
      case Tick(_) =>
    }
  }

  lemma SupKeepsErrors(s: State, e: SupEvent, hasInput: bool)
    requires SupStep(s, e, hasInput).Some?
    ensures var t := SupStep(s, e, hasInput).value;
      t.stdout.error == s.stdout.error && t.stderr.error == s.stderr.error && t.writer.error == s.writer.error
  {
    if InLoop(s.sup) {
      hide EndStep;
    } else {
      hide LoopStep;
    }
  }

  lemma ChildKeepsErrors(s: State, e: ChildEvent)
    requires ChildStep(s, e).Some?
    ensures var t := ChildStep(s, e).value;
      t.stdout.error == s.stdout.error && t.stderr.error == s.stderr.error && t.writer.error == s.writer.error
  {
  }

  // ----- the workers come to an end -------------------------------------------------------

  function ReaderRank(pc: ReaderPc): nat {
    match pc
    case Unborn => 9
    case Got(_) => 8
    case Top => 7
    case Reading => 6
    case Over => 5
    case Raised => 5
    case Leaving => 4
    case Closing => 3
    case Ended => 2
  }

  /** Between two bytes taken a reader makes boundedly many steps, and after a stop request it takes
      at most one more chunk: then the rank with `Reading` above `Got` goes down in every step.  What it
      records after a stop is an overflow or nothing. */
  lemma ReaderWindsDown(r: Reader, stop: bool, e: ReaderEvent)
    requires ReaderStep(r, stop, e).Some?
    ensures var r' := ReaderStep(r, stop, e).value;
      && (r'.pipe.taken > r.pipe.taken || ReaderRank(r'.pc) < ReaderRank(r.pc))
      && (stop && !r.pc.Reading? ==> ReaderRank(r'.pc) < ReaderRank(r.pc) && !r'.pc.Reading?)
      && (stop ==> r'.error == r.error || r'.error == Some(OutputLimit))
  {
  }

  function WriterRank(pc: WriterPc): nat {
    match pc
    case WUnborn => 9
    case WTop => 8
    case WClock => 7
    case WWriting => 6
    case WRaised => 5
    case WLeaving => 4
    case WClosed => 3
    case WEnded => 2
  }

  /** Between two bytes written the writer makes boundedly many steps, and after a stop request at
      most one more write: the clock and the pipe are not tried again. */
  lemma WriterWindsDown(w: Writer, stop: bool, clock: int, deadline: int, e: WriterEvent)
    requires WriterStep(w, stop, clock, deadline, e).Some?
    ensures var w' := WriterStep(w, stop, clock, deadline, e).value;
      && (w'.offset > w.offset || WriterRank(w'.pc) < WriterRank(w.pc))
      && (stop && w.pc.WTop? ==> w'.pc.WLeaving?)
      && (stop ==> w'.error == w.error)
  {
  }

  // ----- concrete runs --------------------------------------------------------------------

  ghost predicate Reaches(s: State, t: State, hasInput: bool) {
    exists steps :: Exec(s, steps, hasInput) == Some(t)
  }

  lemma {:induction false} ExecSnoc(s: State, steps: seq<Step>, step: Step, hasInput: bool)
    requires Exec(s, steps, hasInput).Some?
    ensures Exec(s, steps + [step], hasInput) == Apply(Exec(s, steps, hasInput).value, step, hasInput)
    decreases |steps|
  {
    if steps == [] {
      assert [step][1..] == [];
    } else {
      assert (steps + [step])[1..] == steps[1..] + [step];
      ExecSnoc(Apply(s, steps[0], hasInput).value, steps[1..], step, hasInput);
    }
  }

  lemma Extend(s: State, t: State, step: Step, hasInput: bool) returns (t': State)
    requires Reaches(s, t, hasInput) && Apply(t, step, hasInput).Some?
    ensures t' == Apply(t, step, hasInput).value && Reaches(s, t', hasInput)
  {
    var steps :| Exec(s, steps, hasInput) == Some(t);
    ExecSnoc(s, steps, step, hasInput);
    t' := Apply(t, step, hasInput).value;
  }

  /** All three workers started and the first clock reading and failure check passed. */
  lemma UpToPoll(s0: State, hasInput: bool) returns (s: State)
    requires exists deadline, limit, input :: deadline > 0 && s0 == Spawned(0, deadline, limit, 0, input)
    ensures Reaches(s0, s, hasInput)
    ensures s == StartWorker(StartWorker(StartWorker(s0, 0, hasInput), 1, hasInput), 2, hasInput).(sup := Poll, own := s0.own.(now := Some(s0.clock)))
  {
    assert Exec(s0, [], hasInput) == Some(s0);
    s := Extend(s0, s0, Sup(Go), hasInput);
    s := Extend(s0, s, Sup(Go), hasInput);
    s := Extend(s0, s, Sup(Go), hasInput);
    s := Extend(s0, s, Sup(Go), hasInput);
    s := Extend(s0, s, Sup(Go), hasInput);
    s := Extend(s0, s, Sup(Go), hasInput);
    s := Extend(s0, s, Sup(Go), hasInput);
    s := Extend(s0, s, Sup(Go), hasInput);
    s := Extend(s0, s, Sup(Go), hasInput);
  }

  /** One reader sees end of file on an empty stream and ends; `t` waits in Poll. */
  lemma DrainEmpty(s0: State, t: State, onStdout: bool, hasInput: bool) returns (s: State)
    requires Reaches(s0, t, hasInput) && !t.stop
    requires var r := if onStdout then t.stdout else t.stderr;
             r.pc.Top? && r.pipe.open && r.pipe.sent == [] && r.pipe.taken == 0 && r.buffer == []
    ensures Reaches(s0, s, hasInput)
    ensures var r := if onStdout then t.stdout else t.stderr;
            var r' := r.(pc := Ended, done := true, pipe := Pipe([], false, 0));
            s == if onStdout then t.(stdout := r') else t.(stderr := r')
  {
    hide Exec, SupStep, WriterStep;
    s := Extend(s0, t, Child(if onStdout then ShutOut else ShutErr), hasInput);
    s := Extend(s0, s, if onStdout then Out(Proceed) else Err(Proceed), hasInput);
    s := Extend(s0, s, if onStdout then Out(Eof) else Err(Eof), hasInput);
    s := Extend(s0, s, if onStdout then Out(Proceed) else Err(Proceed), hasInput);
    s := Extend(s0, s, if onStdout then Out(Proceed) else Err(Proceed), hasInput);
  }

  /** A single byte overflows a stdout limit of zero; the error is recorded before `done`. */
  lemma Overflow(s0: State, t: State) returns (s: State)
    requires Reaches(s0, t, false) && !t.stop && t.stdout.pc.Top? && t.stdout.limit == 0 && t.stdout.buffer == []
    requires t.stdout.pipe == Pipe([], true, 0)
    ensures Reaches(s0, s, false)
    ensures s == t.(stdout := Reader(0, Pipe([7], true, 1), Closing, [], Some(OutputLimit), true))
  {
    hide Exec, SupStep, WriterStep;
    s := Extend(s0, t, Child(WriteOut([7])), false);
    s := Extend(s0, s, Out(Proceed), false);
    s := Extend(s0, s, Out(Chunk(1)), false);
    s := Extend(s0, s, Out(Proceed), false);
    s := Extend(s0, s, Out(Proceed), false);
    s := Extend(s0, s, Out(Proceed), false);
  }

  /** From Poll to the recheck once the child has exited and every worker is done. */
  lemma LoopExit(s0: State, t: State, hasInput: bool) returns (s: State)
    requires Reaches(s0, t, hasInput) && t.sup == Poll && t.child.Some? && !t.own.treeTerminated
    requires FirstDone(t, 3)
    ensures Reaches(s0, s, hasInput)
    ensures s == t.(sup := Recheck(0),
      own := t.own.(returncode := t.child, groupKills := t.own.groupKills + 1, treeTerminated := true))
  {
    hide ReaderStep, WriterStep, ChildStep, Exec;
    s := Extend(s0, t, Sup(Go), hasInput);
    s := Extend(s0, s, Sup(Go), hasInput);
    s := Extend(s0, s, Sup(Go), hasInput);
    s := Extend(s0, s, Sup(Go), hasInput);
    s := Extend(s0, s, Sup(Go), hasInput);
    s := Extend(s0, s, Sup(Go), hasInput);
  }

  /** From a clean recheck to the start of the cleanup phase. */
  lemma Settle(s0: State, t: State, hasInput: bool) returns (s: State)
    requires Reaches(s0, t, hasInput) && t.sup == Recheck(0) && FirstClean(t, 3) && t.own.returncode.Some?
    ensures Reaches(s0, s, hasInput)
    ensures s == t.(sup := Stop(Returned(t.own.returncode.value, t.stdout.buffer, t.stderr.buffer)))
  {
    hide ReaderStep, WriterStep, ChildStep, Exec;
    s := Extend(s0, t, Sup(Go), hasInput);
    s := Extend(s0, s, Sup(Go), hasInput);
    s := Extend(s0, s, Sup(Go), hasInput);
    s := Extend(s0, s, Sup(Go), hasInput);
    s := Extend(s0, s, Sup(Go), hasInput);
  }

  lemma Wind(s0: State, t: State, hasInput: bool) returns (s: State)
    requires Reaches(s0, t, hasInput) && t.sup.Stop?
    requires t.own.treeTerminated && !t.own.killFailed && !t.own.reapFailed && t.child.Some? && !WorkersAlive(t)
    ensures Reaches(s0, s, hasInput)
    ensures s == t.(stop := true, own := t.own.(closedByCleanup := true), sup := Finished(t.sup.primary))
  {
    hide ReaderStep, WriterStep, ChildStep, Exec;
    s := Extend(s0, t, Sup(Go), hasInput);
    s := Extend(s0, s, Sup(Go), hasInput);
    s := Extend(s0, s, Sup(Go), hasInput);
    s := Extend(s0, s, Sup(Go), hasInput);
    s := Extend(s0, s, Sup(Go), hasInput);
  }

  /** The recheck after the loop is needed: with a limit of zero bytes a run comes to the recheck with an
      overflow recorded that the loop's own failure check did not see, and if that same state went on
      from the point after the recheck, the run would return normally with the overflow lost. */
  lemma RecheckIsNeeded()
    ensures exists s, f ::
      && Reaches(Spawned(0, 1, 0, 0, []), s, false)
      && s.sup == Recheck(0) && s.stdout.error == Some(OutputLimit)
      && Reaches(s.(sup := Collect), f, false)
      && f.sup == Finished(Returned(0, [], [])) && f.stdout.error == Some(OutputLimit) && f.stdout.pipe.sent == [7]
  {
    var s := OverflowAfterTheCheck(Spawned(0, 1, 0, 0, []));
    hide Exec, SupStep, ReaderStep, WriterStep, ChildStep;
    var f := ReturnUnchecked(s.(sup := Collect));
  }

  lemma OverflowAfterTheCheck(s0: State) returns (s: State)
    requires s0 == Spawned(0, 1, 0, 0, [])
    ensures Reaches(s0, s, false)
    ensures s.sup == Recheck(0) && s.own.returncode == Some(0) && s.child == Some(0) && s.own.treeTerminated && !s.own.killFailed && !s.own.reapFailed
    ensures s.stdout == Reader(0, Pipe([7], true, 1), Closing, [], Some(OutputLimit), true)
    ensures s.stderr.pc.Ended? && s.stderr.buffer == [] && s.writer.pc.WEnded? && !s.stop
  {
    hide Exec, SupStep, ReaderStep, WriterStep;
    s := UpToPoll(s0, false);
    s := DrainEmpty(s0, s, false, false);
    s := Overflow(s0, s);
    s := Extend(s0, s, Child(Exit(0)), false);
    s := LoopExit(s0, s, false);
  }

  /** From the point after the recheck to a normal return, the stdout reader ending meanwhile. */
  lemma ReturnUnchecked(t: State) returns (f: State)
    requires t.sup == Collect && t.own.returncode.Some? && t.child.Some? && t.own.treeTerminated && !t.own.killFailed && !t.own.reapFailed
    requires t.stdout.pc.Closing? && t.stderr.pc.Ended? && t.writer.pc.WEnded? && !t.stop
    ensures Reaches(t, f, false)
    ensures f.sup == Finished(Returned(t.own.returncode.value, t.stdout.buffer, t.stderr.buffer))
    ensures f.stdout == t.stdout.(pc := Ended)
  {
    assert Exec(t, [], false) == Some(t);
    hide Exec, WriterStep, ChildStep;
    f := Extend(t, t, Sup(Go), false);
    f := Extend(t, f, Out(Proceed), false);
    f := Wind(t, f, false);
  }

  /** The child writes its output in one piece and ends it, and the reader takes all of it. */
  lemma ReadAll(s0: State, t: State, out: seq<Byte>, hasInput: bool) returns (s: State)
    requires Reaches(s0, t, hasInput) && !t.stop && t.stdout.pc.Top? && t.stdout.buffer == []
    requires t.stdout.pipe == Pipe([], true, 0) && 0 < |out| <= READ_CHUNK && |out| <= t.stdout.limit
    ensures Reaches(s0, s, hasInput)
    ensures s == t.(stdout := t.stdout.(pc := Ended, done := true, buffer := out, pipe := Pipe(out, false, |out|)))
  {
    hide Exec, SupStep, WriterStep;
    assert [] + out == out && out[0..|out|] == out;
    s := Extend(s0, t, Child(WriteOut(out)), hasInput);
    s := Extend(s0, s, Out(Proceed), hasInput);
    s := Extend(s0, s, Out(Chunk(|out|)), hasInput);
    s := Extend(s0, s, Out(Proceed), hasInput);
    s := Finish(s0, s, hasInput);
  }

  lemma Finish(s0: State, t: State, hasInput: bool) returns (s: State)
    requires Reaches(s0, t, hasInput) && !t.stop && t.stdout.pc.Top? && t.stdout.pipe.taken == |t.stdout.pipe.sent|
    ensures Reaches(s0, s, hasInput)
    ensures s == t.(stdout := t.stdout.(pc := Ended, done := true, pipe := t.stdout.pipe.(open := false)))
  {
    hide Exec, SupStep, WriterStep;
    s := Extend(s0, t, Child(ShutOut), hasInput);
    s := Extend(s0, s, Out(Proceed), hasInput);
    s := Extend(s0, s, Out(Eof), hasInput);
    s := Extend(s0, s, Out(Proceed), hasInput);
    s := Extend(s0, s, Out(Proceed), hasInput);
  }

  /** The writer gets rid of its input in one write, or finds the pipe closed by the child. */
  lemma WriteAll(s0: State, t: State, refused: bool) returns (s: State)
    requires Reaches(s0, t, true) && !t.stop && t.writer.pc == WTop && t.writer.offset == 0
    requires 0 < |t.writer.input| <= READ_CHUNK && t.clock < t.deadline
    ensures Reaches(s0, s, true)
    ensures s == t.(writer := t.writer.(pc := WEnded, done := true, offset := if refused then 0 else |t.writer.input|,
                                        left := Some(if refused then BrokenPipe else Delivered)))
  {
    hide Exec, SupStep, ReaderStep, ChildStep;
    s := Extend(s0, t, In(WProceed), true);
    s := Extend(s0, s, In(WProceed), true);
    s := Extend(s0, s, In(if refused then Breaks else Accepts(|t.writer.input|)), true);
    if !refused {
      s := Extend(s0, s, In(WProceed), true);
    }
    s := Extend(s0, s, In(WProceed), true);
    s := Extend(s0, s, In(WProceed), true);
  }

  /** What a run is for: output up to exactly its limit and any exit status are returned, after the input
      was delivered or the child refused it. */
  lemma RunsReturn(out: seq<Byte>, input: seq<Byte>, code: int, refused: bool)
    requires 0 < |out| <= READ_CHUNK && 0 < |input| <= READ_CHUNK
    ensures exists s ::
      && Reaches(Spawned(0, 1, |out|, 0, input), s, true)
      && s.sup == Finished(Returned(code, out, []))
      && s.writer.left == Some(if refused then BrokenPipe else Delivered)
      && s.writer.offset == (if refused then 0 else |input|)
  {
    var s0 := Spawned(0, 1, |out|, 0, input);
    hide Exec, SupStep, ReaderStep, WriterStep;
    var s := UpToPoll(s0, true);
    s := ReadAll(s0, s, out, true);
    s := WriteAll(s0, s, refused);
    s := Extend(s0, s, Child(Exit(code)), true);
    s := DrainEmpty(s0, s, false, true);
    s := LoopExit(s0, s, true);
    s := Settle(s0, s, true);
    s := Wind(s0, s, true);
  }

  /** The deadline passes just before the writer reads the clock. */
  lemma WriterComesLate(s0: State, t: State) returns (s: State)
    requires Reaches(s0, t, true) && !t.stop && t.writer.pc == WTop && t.writer.offset < |t.writer.input|
    requires t.clock + 1 == t.deadline
    ensures Reaches(s0, s, true)
    ensures s == t.(clock := t.deadline, writer := t.writer.(pc := WEnded, done := true, left := Some(LateClock)))
  {
    hide ReaderStep, SupStep, ChildStep, Exec;
    s := Extend(s0, t, Tick(1), true);
    s := Extend(s0, s, In(WProceed), true);
    s := Extend(s0, s, In(WProceed), true);
    s := Extend(s0, s, In(WProceed), true);
    s := Extend(s0, s, In(WProceed), true);
  }

  /** The input comes late, the child exits, and both readers end on empty streams. */
  lemma LateInput() returns (s: State)
    ensures var s0 := Spawned(0, 1, 0, 0, [7]); Reaches(s0, s, true)
    ensures s.sup == Poll && s.child == Some(0) && !s.own.treeTerminated && !s.own.killFailed && !s.own.reapFailed
    ensures s.own.groupKills == 0 && FirstDone(s, 3)
    ensures FirstClean(s, 3) && s.stdout.buffer == [] && s.stderr.buffer == [] && !WorkersAlive(s)
    ensures s.writer.offset == 0 && s.writer.left == Some(LateClock) && s.clock == s.deadline && !s.stop
  {
    var s0 := Spawned(0, 1, 0, 0, [7]);
    hide Exec, SupStep, ReaderStep, WriterStep;
    s := UpToPoll(s0, true);
    s := WriterComesLate(s0, s);
    s := Extend(s0, s, Child(Exit(0)), true);
    s := DrainEmpty(s0, s, true, true);
    s := DrainEmpty(s0, s, false, true);
  }

  /** One deadline is said to cover input delivery too.  It does not quite: when the writer finds
      the deadline passed after the supervisor's own clock reading, it leaves without an error and a
      run can return normally, past the deadline, with input bytes never written although the child
      never closed its end. */
  lemma TruncatedInputCanReturn()
    ensures exists steps, s ::
      && Exec(Spawned(0, 1, 0, 0, [7]), steps, true) == Some(s)
      && s.sup == Finished(Returned(0, [], []))
      && s.writer.offset == 0 && s.writer.left == Some(LateClock) && s.clock >= s.deadline
  {
    var s0 := Spawned(0, 1, 0, 0, [7]);
    hide Exec, SupStep, ReaderStep, WriterStep, ChildStep;
    var s := LateInput();
    s := LoopExit(s0, s, true);
    s := Settle(s0, s, true);
    s := Wind(s0, s, true);
  }
}
