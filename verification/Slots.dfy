/**
 The two one-permit slots of the supplier-offer transport and the socket they protect.

 Any number of transactions run at once.  Each has a calling thread, a connect worker and a request
 worker; the request slot passes from the caller to its request worker, the connect slot from the
 caller to its connect worker.  A step of a transaction may take or give back a permit; the shared
 semaphores are bounded, so giving back one permit too many raises.
 */
module Slots {
  import opened Common

  datatype CallerPc =
    | WaitRequest                 // acquiring the request slot
    | Resolving                   // name resolution and socket factory
    | WaitConnect                 // acquiring the connect slot
    | StartConnect | AwaitConnect
    | Cancel | CloseCancelled     // cancelled.set(), then connection.close()
    | Handoff                     // request_slot_held = False
    | Prepare | StartRequest | AwaitReply | AbortReply
    | Unwind(held: bool) | CloseLast | Over

  datatype ConnectPc = NoConnect | Connecting | TestCancelled(ok: bool) | CloseIt(ok: bool) | PutOutcome(ok: bool)
                     | GiveConnect | ConnectOver

  datatype RequestPc = NoRequest | Requesting | CloseResponse | CloseConnection | PutReply | GiveRequest | RequestOver

  /** What one transaction has done to the two slots so far. */
  datatype Tally = Tally(requestTaken: nat, requestGiven: nat, connectTaken: nat, connectGiven: nat)

  /** One transaction.  `socket` is the open connection socket, `response` an open response that owns
      the socket; `timedOut` and `aborted` say that the caller gave up waiting for the connect worker or
      for the request worker. */
  datatype Transaction = Transaction(
    pc: CallerPc, connect: ConnectPc, request: RequestPc,
    said: Said, socket: bool, response: bool, tally: Tally)

  /** What the threads of a transaction have told each other. */
  datatype Said = Said(cancelled: bool, outcome: Option<bool>, replied: bool, timedOut: bool, aborted: bool)

  datatype Op = Nothing | TakeRequest | GiveBackRequest | TakeConnect | GiveBackConnect

  /** Which thread moves, and how nondeterministic calls turn out: `good` or not. */
  datatype Move = Caller(good: bool) | Connector(good: bool) | Requester(good: bool)

  const FRESH: Transaction :=
    Transaction(WaitRequest, NoConnect, NoRequest, Said(false, None, false, false, false), false, false, Tally(0, 0, 0, 0))

  function CallerMove(t: Transaction, good: bool): Option<(Transaction, Op)> {
    match t.pc
    case WaitRequest =>
      if good then Some((t.(pc := Resolving), TakeRequest))
      else Some((t.(pc := Unwind(false)), Nothing))
    case Resolving => Some((t.(pc := if good then WaitConnect else Unwind(true)), Nothing))
    case WaitConnect =>
      if good then Some((t.(pc := StartConnect), TakeConnect))
      else Some((t.(pc := Unwind(true)), Nothing))
    case StartConnect =>
      if good then Some((t.(pc := AwaitConnect, connect := Connecting), Nothing))
      else Some((t.(pc := Unwind(true)), GiveBackConnect))
    case AwaitConnect =>
      if !good then Some((t.(pc := Cancel, said := t.said.(timedOut := true)), Nothing))
      else if t.said.outcome.None? then None
      else Some((t.(pc := if t.said.outcome.value then Handoff else Unwind(true)), Nothing))
    case Cancel => Some((t.(pc := CloseCancelled, said := t.said.(cancelled := true)), Nothing))
    case CloseCancelled => Some((t.(pc := Unwind(true), socket := false), Nothing))
    case Handoff => Some((t.(pc := Prepare), Nothing))
    case Prepare =>
      if good then Some((t.(pc := StartRequest), Nothing))
      else Some((t.(pc := Unwind(false)), GiveBackRequest))
    case StartRequest =>
      if good then Some((t.(pc := AwaitReply, request := Requesting), Nothing))
      else Some((t.(pc := Unwind(false)), GiveBackRequest))
    case AwaitReply =>
      if !good then Some((t.(pc := AbortReply, said := t.said.(aborted := true)), Nothing))
      else if t.said.replied then Some((t.(pc := Unwind(false)), Nothing))
      else None
    case AbortReply => Some((t.(pc := Unwind(false), socket := false), Nothing))
    case Unwind(held) =>
      if held then Some((t.(pc := CloseLast), GiveBackRequest))
      else Some((t.(pc := CloseLast), Nothing))
    case CloseLast => Some((t.(pc := Over, socket := false), Nothing))
    case Over => None
  }

  /** `connect` in the worker: the socket attribute may be set while connecting, also when the call
      fails in the end, and is set when it succeeds; the cancellation flag is read only afterwards. */
  function ConnectorMove(t: Transaction, good: bool, opens: bool): Option<(Transaction, Op)> {
    match t.connect
    case NoConnect => None
    case Connecting =>
      if opens then Some((t.(socket := true), Nothing))
      else Some((t.(connect := TestCancelled(good && t.socket)), Nothing))
    case TestCancelled(ok) => Some((t.(connect := if t.said.cancelled then CloseIt(ok) else PutOutcome(ok)), Nothing))
    case CloseIt(ok) => Some((t.(connect := PutOutcome(ok), socket := false), Nothing))
    case PutOutcome(ok) => Some((t.(connect := GiveConnect, said := t.said.(outcome := Some(ok))), Nothing))
    case GiveConnect => Some((t.(connect := ConnectOver), GiveBackConnect))
    case ConnectOver => None
  }

  /** The request worker; a response that will close takes the socket over from the connection. */
  function RequesterMove(t: Transaction, good: bool, opens: bool): Option<(Transaction, Op)> {
    match t.request
    case NoRequest => None
    case Requesting =>
      if opens then Some((t.(response := true, socket := t.socket && good), Nothing))
      else Some((t.(request := CloseResponse), Nothing))
    case CloseResponse => Some((t.(request := CloseConnection, response := false), Nothing))
    case CloseConnection => Some((t.(request := PutReply, socket := false), Nothing))
    case PutReply => Some((t.(request := GiveRequest, said := t.said.(replied := true)), Nothing))
    case GiveRequest => Some((t.(request := RequestOver), GiveBackRequest))
    case RequestOver => None
  }

  // ----- the shared system ----------------------------------------------------------------

  datatype System = System(transactions: map<nat, Transaction>, requestPermits: nat, connectPermits: nat, raised: bool)

  datatype Step = Begin(id: nat) | Run(id: nat, move: Move, opens: bool)

  const START: System := System(map[], 1, 1, false)

  function Count(c: Tally, op: Op): Tally {
    match op
    case Nothing => c
    case TakeRequest => c.(requestTaken := c.requestTaken + 1)
    case GiveBackRequest => c.(requestGiven := c.requestGiven + 1)
    case TakeConnect => c.(connectTaken := c.connectTaken + 1)
    case GiveBackConnect => c.(connectGiven := c.connectGiven + 1)
  }

  function LocalMove(t: Transaction, move: Move, opens: bool): Option<(Transaction, Op)> {
    match ThreadMove(t, move, opens)
    case None => None
    case Some((t', op)) => Some((t'.(tally := Count(t.tally, op)), op))
  }

  function ThreadMove(t: Transaction, move: Move, opens: bool): Option<(Transaction, Op)> {
    match move
    case Caller(g) => CallerMove(t, g)
    case Connector(g) => ConnectorMove(t, g, opens)
    case Requester(g) => RequesterMove(t, g, opens)
  }

  /** The effect of an operation on the semaphores; a bounded semaphore refuses to go over one. */
  function Operate(s: System, op: Op): Option<System> {
    match op
    case Nothing => Some(s)
    case TakeRequest => if s.requestPermits == 0 then None else Some(s.(requestPermits := s.requestPermits - 1))
    case TakeConnect => if s.connectPermits == 0 then None else Some(s.(connectPermits := s.connectPermits - 1))
    case GiveBackRequest =>
      if s.requestPermits >= 1 then Some(s.(raised := true)) else Some(s.(requestPermits := s.requestPermits + 1))
    case GiveBackConnect =>
      if s.connectPermits >= 1 then Some(s.(raised := true)) else Some(s.(connectPermits := s.connectPermits + 1))
  }

  function Apply(s: System, step: Step): Option<System> {
    match step
    case Begin(id) => if id in s.transactions then None else Some(s.(transactions := s.transactions[id := FRESH]))
    case Run(id, move, opens) =>
      if id !in s.transactions then None else
        match LocalMove(s.transactions[id], move, opens)
        case None => None
        case Some((t, op)) => Operate(s.(transactions := s.transactions[id := t]), op)
  }

  function Exec(s: System, steps: seq<Step>): Option<System>
    decreases |steps|
  {
    if steps == [] then Some(s) else
      match Apply(s, steps[0])
      case None => None
      case Some(t) => Exec(t, steps[1..])
  }

  // ----- who holds a slot -----------------------------------------------------------------

  predicate CallerHoldsRequest(t: Transaction) {
    match t.pc
    case Resolving | WaitConnect | StartConnect | AwaitConnect | Cancel | CloseCancelled => true
    case Handoff | Prepare | StartRequest => true
    case Unwind(held) => held
    case _ => false
  }

  predicate WorkerHoldsRequest(t: Transaction) { t.request != NoRequest && t.request != RequestOver }
  predicate CallerHoldsConnect(t: Transaction) { t.pc == StartConnect }
  predicate WorkerHoldsConnect(t: Transaction) { t.connect != NoConnect && t.connect != ConnectOver }

  predicate HoldsRequest(t: Transaction) { CallerHoldsRequest(t) || WorkerHoldsRequest(t) }
  predicate HoldsConnect(t: Transaction) { CallerHoldsConnect(t) || WorkerHoldsConnect(t) }

  ghost function RequestHolders(s: System): set<nat> { set i | i in s.transactions && HoldsRequest(s.transactions[i]) }
  ghost function ConnectHolders(s: System): set<nat> { set i | i in s.transactions && HoldsConnect(s.transactions[i]) }

  predicate BeforeConnect(pc: CallerPc) { pc.WaitRequest? || pc.Resolving? || pc.WaitConnect? || pc.StartConnect? }
  predicate AfterHandoff(pc: CallerPc) { pc.Handoff? || pc.Prepare? || pc.StartRequest? || pc.AwaitReply? || pc.AbortReply? }
  predicate Ending(pc: CallerPc) { pc.Unwind? || pc.CloseLast? || pc.Over? }
  predicate ConnectorPassed(c: ConnectPc) { c.PutOutcome? || c.GiveConnect? || c.ConnectOver? }

  /** How far the three threads of one transaction can be from each other. */
  ghost predicate Order(t: Transaction) {
    && (BeforeConnect(t.pc) ==> t.connect == NoConnect)
    && (t.pc == AwaitConnect || t.pc == Cancel || t.pc == CloseCancelled ==> t.connect != NoConnect)
    && (t.request != NoRequest ==> t.pc == AwaitReply || t.pc == AbortReply || t.pc == Unwind(false) || t.pc == CloseLast || t.pc == Over)
    && (t.pc == AwaitReply || t.pc == AbortReply ==> t.request != NoRequest)
    && (AfterHandoff(t.pc) || t.request != NoRequest ==> (t.connect == GiveConnect || t.connect == ConnectOver) && !t.said.timedOut)
    && (t.said.outcome.Some? <==> t.connect == GiveConnect || t.connect == ConnectOver)
    && (t.said.timedOut ==> t.pc == Cancel || t.pc == CloseCancelled || Ending(t.pc))
    && (t.pc == Cancel || t.pc == CloseCancelled ==> t.said.timedOut)
    && (t.said.cancelled <==> t.said.timedOut && t.pc != Cancel)
    && (Ending(t.pc) && !t.said.timedOut ==> t.connect == GiveConnect || t.connect == ConnectOver || t.connect == NoConnect)
  }

  /** When the sockets of one transaction are certainly closed. */
  ghost predicate Sockets(t: Transaction) {
    && (t.connect == NoConnect ==> !t.socket)
    && (t.response ==> t.request == Requesting || t.request == CloseResponse)
    && (t.request.PutReply? || t.request.GiveRequest? || t.request.RequestOver? ==> !t.socket)
    && (t.said.timedOut && Ending(t.pc) && ConnectorPassed(t.connect) ==> !t.socket)
    && (t.pc == Over && ConnectorPassed(t.connect) ==> !t.socket)
  }

  /** The connect worker has reported success, or is about to. */
  predicate Connected(t: Transaction) {
    match t.connect
    case TestCancelled(ok) => ok
    case CloseIt(ok) => ok
    case PutOutcome(ok) => ok
    case _ => t.said.outcome == Some(true)
  }

  /** What the caller does follows what the workers report: a request needs a timely successful connect
      and starts on an open connection; the slot stays with the caller's cleanup only if there was no
      such connect; and the caller stops waiting for a reply only once there is one, or it gave up. */
  ghost predicate Reports(t: Transaction) {
    && (AfterHandoff(t.pc) || t.request != NoRequest ==> t.said.outcome == Some(true))
    && (t.pc == Unwind(true) && t.said.outcome == Some(true) ==> t.said.timedOut)
    && (Connected(t) && (t.pc.AwaitConnect? || t.pc.Handoff? || t.pc.Prepare? || t.pc.StartRequest?) ==> t.socket)
    && (t.said.replied <==> t.request == GiveRequest || t.request == RequestOver)
    && (t.said.aborted ==> t.request != NoRequest) && (t.said.aborted && t.pc != AbortReply ==> !t.socket)
    && (t.pc == AbortReply ==> t.said.aborted) && (t.connect.CloseIt? ==> t.said.cancelled)
    && (t.request != NoRequest && Ending(t.pc) ==> t.said.replied || t.said.aborted)
  }

  /** What one transaction took it still holds or has given back, once. */
  ghost predicate Counts(t: Transaction) {
    && t.tally.requestTaken <= 1 && (t.pc == WaitRequest ==> t.tally.requestTaken == 0)
    && t.tally.requestTaken == t.tally.requestGiven + (if HoldsRequest(t) then 1 else 0)
    && t.tally.connectTaken <= 1 && (BeforeConnect(t.pc) && t.pc != StartConnect ==> t.tally.connectTaken == 0)
    && t.tally.connectTaken == t.tally.connectGiven + (if HoldsConnect(t) then 1 else 0)
  }

  ghost predicate LocalInv(t: Transaction) { Order(t) && Sockets(t) && Reports(t) && Counts(t) }

  ghost predicate Conserved(s: System) {
    && s.requestPermits + |RequestHolders(s)| == 1
    && s.connectPermits + |ConnectHolders(s)| == 1
    && !s.raised
  }

  ghost predicate Inv(s: System) {
    (forall i <- s.transactions :: LocalInv(s.transactions[i])) && Conserved(s)
  }

  /** An operation on a semaphore is exactly a change in who holds the slot. */
  ghost predicate OpMatches(t: Transaction, t': Transaction, op: Op) {
    && (HoldsRequest(t') <==> op == TakeRequest || (HoldsRequest(t) && op != GiveBackRequest))
    && (op == TakeRequest ==> !HoldsRequest(t) && t.pc == WaitRequest)
    && (op == GiveBackRequest ==> HoldsRequest(t))
    && (HoldsConnect(t') <==> op == TakeConnect || (HoldsConnect(t) && op != GiveBackConnect))
    && (op == TakeConnect ==> !HoldsConnect(t) && t.pc == WaitConnect)
    && (op == GiveBackConnect ==> HoldsConnect(t))
    && (t'.pc == WaitRequest ==> t.pc == WaitRequest && op == Nothing)
    && (BeforeConnect(t'.pc) && t'.pc != StartConnect ==> BeforeConnect(t.pc) && t.pc != StartConnect && op != TakeConnect)
    && t'.tally == t.tally
  }

  lemma CountingKeeps(t: Transaction, t': Transaction, op: Op)
    requires Counts(t) && OpMatches(t, t', op) && Order(t') && Sockets(t') && Reports(t')
    ensures LocalInv(t'.(tally := Count(t.tally, op)))
  {
    var u := t'.(tally := Count(t.tally, op));
    assert HoldsRequest(u) == HoldsRequest(t') && HoldsConnect(u) == HoldsConnect(t');
  }

  predicate Early(pc: CallerPc) { BeforeConnect(pc) || pc.AwaitConnect? || pc.Cancel? || pc.CloseCancelled? }

  lemma CallerMatchesEarly(t: Transaction, good: bool)
    requires Order(t) && Early(t.pc) && CallerMove(t, good).Some?
    ensures OpMatches(t, CallerMove(t, good).value.0, CallerMove(t, good).value.1)
  {
  }

  lemma CallerMatchesHandoff(t: Transaction, good: bool)
    requires Order(t) && AfterHandoff(t.pc) && CallerMove(t, good).Some?
    ensures OpMatches(t, CallerMove(t, good).value.0, CallerMove(t, good).value.1)
  {
  }

  lemma CallerMatchesEnding(t: Transaction, good: bool)
    requires Order(t) && Ending(t.pc) && CallerMove(t, good).Some?
    ensures OpMatches(t, CallerMove(t, good).value.0, CallerMove(t, good).value.1)
  {
  }

  lemma CallerKeepsEarly(t: Transaction, good: bool)
    requires Order(t) && Sockets(t) && Early(t.pc) && CallerMove(t, good).Some?
    ensures Order(CallerMove(t, good).value.0) && Sockets(CallerMove(t, good).value.0)
  {
  }

  lemma CallerKeepsOrderHandoff(t: Transaction, good: bool)
    requires Order(t) && AfterHandoff(t.pc) && CallerMove(t, good).Some?
    ensures Order(CallerMove(t, good).value.0)
  {
  }

  lemma CallerKeepsOrderEnding(t: Transaction, good: bool)
    requires Order(t) && Ending(t.pc) && CallerMove(t, good).Some?
    ensures Order(CallerMove(t, good).value.0)
  {
  }

  lemma CallerKeepsSocketsLate(t: Transaction, good: bool)
    requires Order(t) && Sockets(t) && !Early(t.pc) && CallerMove(t, good).Some?
    ensures Sockets(CallerMove(t, good).value.0)
  {
  }

  lemma ConnectorKeeps(t: Transaction, good: bool, opens: bool)
    requires Order(t) && Sockets(t) && ConnectorMove(t, good, opens).Some?
    ensures var t' := ConnectorMove(t, good, opens).value.0; Order(t') && Sockets(t')
  {
  }

  lemma ConnectorMatches(t: Transaction, good: bool, opens: bool)
    requires Order(t) && ConnectorMove(t, good, opens).Some?
    ensures var (t', op) := ConnectorMove(t, good, opens).value; OpMatches(t, t', op)
  {
  }

  lemma RequesterKeeps(t: Transaction, good: bool, opens: bool)
    requires Order(t) && Sockets(t) && RequesterMove(t, good, opens).Some?
    ensures var (t', op) := RequesterMove(t, good, opens).value; Order(t') && Sockets(t') && OpMatches(t, t', op)
  {
  }

  lemma CallerKeepsReports(t: Transaction, good: bool)
    requires Order(t) && Sockets(t) && Reports(t) && CallerMove(t, good).Some?
    ensures Reports(CallerMove(t, good).value.0)
  {
  }

  lemma WorkersKeepReports(t: Transaction, move: Move, opens: bool)
    requires Order(t) && Sockets(t) && Reports(t) && !move.Caller? && ThreadMove(t, move, opens).Some?
    ensures Reports(ThreadMove(t, move, opens).value.0)
  {
  }

  lemma ThreadMoveKeeps(t: Transaction, move: Move, opens: bool)
    requires Order(t) && Sockets(t) && ThreadMove(t, move, opens).Some?
    ensures var (t', op) := ThreadMove(t, move, opens).value; Order(t') && Sockets(t') && OpMatches(t, t', op)
  {
    hide Order, Sockets, OpMatches, CallerMove, ConnectorMove, RequesterMove;
    match move {
      case Caller(g) =>
        if Early(t.pc) {
          CallerKeepsEarly(t, g);
          CallerMatchesEarly(t, g);
        } else {
          CallerKeepsSocketsLate(t, g);
          if AfterHandoff(t.pc) {
            CallerKeepsOrderHandoff(t, g);
            CallerMatchesHandoff(t, g);
          } else {
            CallerKeepsOrderEnding(t, g);
            CallerMatchesEnding(t, g);
          }
        }
      case Connector(g) =>
        ConnectorKeeps(t, g, opens);
        ConnectorMatches(t, g, opens);
      case Requester(g) => RequesterKeeps(t, g, opens);
    }
  }

  lemma ThreadMoveReports(t: Transaction, move: Move, opens: bool)
    requires Order(t) && Sockets(t) && Reports(t) && ThreadMove(t, move, opens).Some?
    ensures Reports(ThreadMove(t, move, opens).value.0)
  {
    if move.Caller? {
      hide Order, Sockets, Reports, CallerMove;
      CallerKeepsReports(t, move.good);
    } else {
      hide Order, Sockets, Reports, ThreadMove;
      WorkersKeepReports(t, move, opens);
    }
  }

  lemma LocalMoveKeeps(t: Transaction, move: Move, opens: bool)
    requires LocalInv(t) && LocalMove(t, move, opens).Some?
    ensures LocalInv(LocalMove(t, move, opens).value.0)
    ensures HeldChange(t, LocalMove(t, move, opens).value.0, LocalMove(t, move, opens).value.1)
  {
    hide Order, Sockets, Reports, Counts, ThreadMove;
    ThreadMoveKeeps(t, move, opens);
    ThreadMoveReports(t, move, opens);
    var (t', op) := ThreadMove(t, move, opens).value;
    CountingKeeps(t, t', op);
  }

  ghost predicate HeldChange(t: Transaction, t': Transaction, op: Op) {
    && (HoldsRequest(t') <==> op == TakeRequest || (HoldsRequest(t) && op != GiveBackRequest))
    && (op == TakeRequest ==> !HoldsRequest(t)) && (op == GiveBackRequest ==> HoldsRequest(t))
    && (HoldsConnect(t') <==> op == TakeConnect || (HoldsConnect(t) && op != GiveBackConnect))
    && (op == TakeConnect ==> !HoldsConnect(t)) && (op == GiveBackConnect ==> HoldsConnect(t))
  }

  // ----- every run ------------------------------------------------------------------------

  /** Replacing one transaction adds or removes at most that transaction among the holders. */
  lemma HoldersAfter(s: System, id: nat, t: Transaction)
    ensures var s' := s.(transactions := s.transactions[id := t]);
      && RequestHolders(s') == (if HoldsRequest(t) then RequestHolders(s) + {id} else RequestHolders(s) - {id})
      && ConnectHolders(s') == (if HoldsConnect(t) then ConnectHolders(s) + {id} else ConnectHolders(s) - {id})
  {
  }

  /** Semaphore operations and changes of holders cancel out. */
  lemma OperateConserves(s: System, id: nat, t: Transaction, op: Op)
    requires Conserved(s) && id in s.transactions && HeldChange(s.transactions[id], t, op)
    requires Operate(s.(transactions := s.transactions[id := t]), op).Some?
    ensures Conserved(Operate(s.(transactions := s.transactions[id := t]), op).value)
  {
    var m := s.(transactions := s.transactions[id := t]);
    var s' := Operate(m, op).value;
    HoldersAfter(s, id, t);
    assert HoldsRequest(s.transactions[id]) <==> id in RequestHolders(s);
    assert HoldsConnect(s.transactions[id]) <==> id in ConnectHolders(s);
    assert RequestHolders(s') == RequestHolders(m) && ConnectHolders(s') == ConnectHolders(m);
  }

  lemma FreshHolds()
    ensures LocalInv(FRESH) && !HoldsRequest(FRESH) && !HoldsConnect(FRESH)
  {
  }

  lemma StepKeeps(s: System, step: Step)
    requires Inv(s) && Apply(s, step).Some?
    ensures Inv(Apply(s, step).value)
  {
    hide LocalMove, LocalInv, HeldChange, HoldsRequest, HoldsConnect;
    match step {
      case Begin(id) =>
        FreshHolds();
        HoldersAfter(s, id, FRESH);
      case Run(id, move, opens) =>
        LocalMoveKeeps(s.transactions[id], move, opens);
        var (t', op) := LocalMove(s.transactions[id], move, opens).value;
        OperateConserves(s, id, t', op);
        assert Apply(s, step).value.transactions == s.transactions[id := t'];
    }
  }

  lemma {:induction false} RunKeeps(s: System, steps: seq<Step>)
    requires Inv(s) && Exec(s, steps).Some?
    ensures Inv(Exec(s, steps).value)
    decreases |steps|
  {
    if steps != [] {
      StepKeeps(s, steps[0]);
      RunKeeps(Apply(s, steps[0]).value, steps[1..]);
    }
  }

  lemma StartHolds()
    ensures Inv(START)
  {
    assert RequestHolders(START) == {} && ConnectHolders(START) == {};
  }

  /** For any number of concurrent transactions and any interleaving: free permits plus holders is
      one for each slot, so no two threads ever hold the same slot, and no release ever overflows a
      bounded semaphore. */
  lemma PermitsConserved(steps: seq<Step>, s: System)
    requires Exec(START, steps) == Some(s)
    ensures s.requestPermits + |RequestHolders(s)| == 1
    ensures s.connectPermits + |ConnectHolders(s)| == 1
    ensures !s.raised
    ensures forall i <- s.transactions :: !(CallerHoldsRequest(s.transactions[i]) && WorkerHoldsRequest(s.transactions[i]))
    ensures forall i <- s.transactions :: !(CallerHoldsConnect(s.transactions[i]) && WorkerHoldsConnect(s.transactions[i]))
  {
    StartHolds();
    RunKeeps(START, steps);
  }

  predicate WorkersOver(t: Transaction) {
    (t.connect == NoConnect || t.connect == ConnectOver) && (t.request == NoRequest || t.request == RequestOver)
  }

  lemma OverIsClean(t: Transaction)
    requires LocalInv(t) && t.pc == Over && WorkersOver(t)
    ensures t.tally.requestGiven == t.tally.requestTaken <= 1 && t.tally.connectGiven == t.tally.connectTaken <= 1
    ensures !t.socket && !t.response
  {
  }

  /** A transaction whose threads are all over has given back what it took, exactly once, and left
      no socket and no response open. */
  lemma NothingLeftBehind(steps: seq<Step>, s: System, id: nat)
    requires Exec(START, steps) == Some(s) && id in s.transactions
    requires s.transactions[id].pc == Over && WorkersOver(s.transactions[id])
    ensures s.transactions[id].tally.requestGiven == s.transactions[id].tally.requestTaken <= 1
    ensures s.transactions[id].tally.connectGiven == s.transactions[id].tally.connectTaken <= 1
    ensures !s.transactions[id].socket && !s.transactions[id].response
  {
    hide LocalInv, Conserved;
    StartHolds();
    RunKeeps(START, steps);
    OverIsClean(s.transactions[id]);
  }

  lemma CancelledIsClosed(t: Transaction)
    requires LocalInv(t) && t.said.timedOut && Ending(t.pc) && ConnectorPassed(t.connect)
    ensures !t.socket && !t.response
  {
  }

  /** In every reachable state: a request is under way only after the connect worker reported success
      in time; while it is being prepared the connection is open; after a timely success the caller's
      cleanup does not give the request slot back; and a finished request worker has replied. */
  lemma RequestNeedsConnection(steps: seq<Step>, s: System, id: nat)
    requires Exec(START, steps) == Some(s) && id in s.transactions
    ensures var t := s.transactions[id];
      && (AfterHandoff(t.pc) || t.request != NoRequest ==> t.said.outcome == Some(true) && !t.said.timedOut)
      && (t.pc.Handoff? || t.pc.Prepare? || t.pc.StartRequest? ==> t.socket)
      && (t.said.outcome == Some(true) && !t.said.timedOut ==> t.pc != Unwind(true))
      && (t.said.outcome == Some(false) ==> t.request == NoRequest && !AfterHandoff(t.pc))
      && (t.request == RequestOver ==> t.said.replied)
      && (t.request != NoRequest && Ending(t.pc) ==> t.said.replied || t.said.aborted)
  {
    hide Order, Sockets, Counts, Conserved;
    StartHolds();
    RunKeeps(START, steps);
    assert Order(s.transactions[id]) && Reports(s.transactions[id]);
    OutcomesFollow(s.transactions[id]);
  }

  lemma OutcomesFollow(t: Transaction)
    requires Order(t) && Reports(t)
    ensures AfterHandoff(t.pc) || t.request != NoRequest ==> !t.said.timedOut
    ensures t.pc.Handoff? || t.pc.Prepare? || t.pc.StartRequest? ==> t.socket
  {
  }

  // ----- a concrete run -------------------------------------------------------------------

  ghost predicate Reaches(s: System, t: System) { exists steps :: Exec(s, steps) == Some(t) }

  lemma {:induction false} ExecSnoc(s: System, steps: seq<Step>, step: Step)
    requires Exec(s, steps).Some?
    ensures Exec(s, steps + [step]) == Apply(Exec(s, steps).value, step)
    decreases |steps|
  {
    if steps == [] {
      assert [step][1..] == [];
    } else {
      assert (steps + [step])[1..] == steps[1..] + [step];
      ExecSnoc(Apply(s, steps[0]).value, steps[1..], step);
    }
  }

  /** The state with this one transaction and these free permits. */
  function Alone(t: Transaction, requestPermits: nat, connectPermits: nat): System {
    System(map[0 := t], requestPermits, connectPermits, false)
  }

  lemma Extend(t: Transaction, r: nat, c: nat, move: Move, opens: bool) returns (t': Transaction, r': nat, c': nat)
    requires Reaches(START, Alone(t, r, c)) && LocalMove(t, move, opens).Some?
    requires var op := LocalMove(t, move, opens).value.1;
             (op == TakeRequest ==> r == 1) && (op == TakeConnect ==> c == 1)
             && (op == GiveBackRequest ==> r == 0) && (op == GiveBackConnect ==> c == 0)
    ensures Reaches(START, Alone(t', r', c')) && t' == LocalMove(t, move, opens).value.0
    ensures var op := LocalMove(t, move, opens).value.1;
      && r' == (if op == TakeRequest then 0 else if op == GiveBackRequest then 1 else r)
      && c' == (if op == TakeConnect then 0 else if op == GiveBackConnect then 1 else c)
  {
    hide LocalMove;
    var s := Alone(t, r, c);
    var steps :| Exec(START, steps) == Some(s);
    ExecSnoc(START, steps, Run(0, move, opens));
    t' := LocalMove(t, move, opens).value.0;
    assert map[0 := t][0 := t'] == map[0 := t'];
    var u := Apply(s, Run(0, move, opens)).value;
    r', c' := u.requestPermits, u.connectPermits;
  }

  lemma FirstBegins()
    ensures Reaches(START, Alone(FRESH, 1, 1))
  {
    assert [Begin(0)][1..] == [];
    assert Exec(START, [Begin(0)]) == Some(Alone(FRESH, 1, 1));
  }

  /** Both slots are taken and the connect worker runs. */
  lemma UpToConnect() returns (t: Transaction)
    ensures Reaches(START, Alone(t, 0, 0))
    ensures t == FRESH.(pc := AwaitConnect, connect := Connecting, tally := Tally(1, 0, 1, 0))
  {
    FirstBegins();
    hide Exec, ConnectorMove, RequesterMove;
    var r, c;
    t, r, c := Extend(FRESH, 1, 1, Caller(true), false);
    t, r, c := Extend(t, r, c, Caller(true), false);
    t, r, c := Extend(t, r, c, Caller(true), false);
    t, r, c := Extend(t, r, c, Caller(true), false);
  }

  /** The connection opens, and the caller starts the request. */
  lemma UpToRequest() returns (t: Transaction)
    ensures Reaches(START, Alone(t, 0, 1))
    ensures t == FRESH.(pc := AwaitReply, connect := ConnectOver, request := Requesting,
                        said := FRESH.said.(outcome := Some(true)), socket := true, tally := Tally(1, 0, 1, 1))
  {
    t := UpToConnect();
    hide Exec, CallerMove, RequesterMove;
    var r, c;
    t, r, c := Extend(t, 0, 0, Connector(true), true);
    t, r, c := Extend(t, r, c, Connector(true), false);
    t, r, c := Extend(t, r, c, Connector(true), false);
    t, r, c := Extend(t, r, c, Connector(true), false);
    t, r, c := Extend(t, r, c, Connector(true), false);
    t := HandOver(t);
  }

  lemma HandOver(t0: Transaction) returns (t: Transaction)
    requires Reaches(START, Alone(t0, 0, 1)) && t0.pc == AwaitConnect && t0.said.outcome == Some(true)
    ensures Reaches(START, Alone(t, 0, 1)) && t == t0.(pc := AwaitReply, request := Requesting)
  {
    hide Exec, ConnectorMove, RequesterMove;
    var r, c;
    t, r, c := Extend(t0, 0, 1, Caller(true), false);
    t, r, c := Extend(t, r, c, Caller(true), false);
    t, r, c := Extend(t, r, c, Caller(true), false);
    t, r, c := Extend(t, r, c, Caller(true), false);
  }

  /** A transaction can succeed: the response is open on the way, and in the end the reply is there,
      both slots are free, each was taken and given back once, and everything is closed. */
  lemma TransactionsSucceed()
    ensures exists t, u ::
      && Reaches(START, Alone(t, 0, 1)) && t.response && t.socket
      && Reaches(START, Alone(u, 1, 1)) && u.pc == Over && u.said == Said(false, Some(true), true, false, false)
      && u.tally == Tally(1, 1, 1, 1) && !u.socket && !u.response
  {
    var t := UpToRequest();
    hide Exec;
    var r, c;
    t, r, c := Extend(t, 0, 1, Requester(true), true);
    var u := Complete(t);
  }

  lemma Complete(t: Transaction) returns (u: Transaction)
    requires Reaches(START, Alone(t, 0, 1)) && t.pc == AwaitReply && t.request == Requesting && !t.said.replied
    ensures Reaches(START, Alone(u, 1, 1))
    ensures u == t.(pc := Over, request := RequestOver, said := t.said.(replied := true), socket := false, response := false,
                    tally := t.tally.(requestGiven := t.tally.requestGiven + 1))
  {
    u := WorkerEnds(t);
    hide Exec, RequesterMove, ConnectorMove;
    var r, c;
    u, r, c := Extend(u, 1, 1, Caller(true), false);
    u, r, c := Extend(u, r, c, Caller(true), false);
    u, r, c := Extend(u, r, c, Caller(true), false);
  }

  lemma WorkerEnds(t: Transaction) returns (u: Transaction)
    requires Reaches(START, Alone(t, 0, 1)) && t.request == Requesting
    ensures Reaches(START, Alone(u, 1, 1))
    ensures u == t.(request := RequestOver, said := t.said.(replied := true), socket := false, response := false,
                    tally := t.tally.(requestGiven := t.tally.requestGiven + 1))
  {
    hide Exec, CallerMove, ConnectorMove;
    var r, c;
    u, r, c := Extend(t, 0, 1, Requester(true), false);
    u, r, c := Extend(u, r, c, Requester(true), false);
    u, r, c := Extend(u, r, c, Requester(true), false);
    u, r, c := Extend(u, r, c, Requester(true), false);
    u, r, c := Extend(u, r, c, Requester(true), false);
  }

  /** Closing the connection is up to both sides of a timed-out connect: the caller can be over, having
      closed it, while it is open again because the worker opened it later. */
  lemma WorkerMustClose()
    ensures exists t :: Reaches(START, Alone(t, 1, 0)) && t.pc == Over && t.said.timedOut && t.socket
  {
    var t := UpToConnect();
    hide Exec;
    var r, c;
    t, r, c := Extend(t, 0, 0, Caller(false), false);
    t, r, c := Extend(t, r, c, Caller(true), false);
    t, r, c := Extend(t, r, c, Caller(true), false);
    t, r, c := Extend(t, r, c, Caller(true), false);
    t, r, c := Extend(t, r, c, Caller(true), false);
    t, r, c := Extend(t, r, c, Connector(true), true);
  }

  /** A timed-out connect ends closed whichever side runs last: once the caller has left the
      cancellation and the connect worker has left its own, the socket is closed and stays closed. */
  lemma CancelledConnectIsClosed(steps: seq<Step>, s: System, id: nat)
    requires Exec(START, steps) == Some(s) && id in s.transactions
    requires s.transactions[id].said.timedOut && Ending(s.transactions[id].pc)
    requires ConnectorPassed(s.transactions[id].connect)
    ensures !s.transactions[id].socket && !s.transactions[id].response
  {
    hide LocalInv, Conserved;
    StartHolds();
    RunKeeps(START, steps);
    CancelledIsClosed(s.transactions[id]);
  }

  lemma SoleMember(holders: set<nat>, i: nat, j: nat)
    requires i in holders && j in holders && |holders| <= 1
    ensures i == j
  {
    assert |holders - {i}| == |holders| - 1;
    assert j !in holders - {i};
  }

  /** At most one response is open at any time, its transaction holds the request slot, and a
      request worker gives the slot back only after its socket is closed. */
  lemma ResponsesAreExclusive(steps: seq<Step>, s: System, i: nat, j: nat)
    requires Exec(START, steps) == Some(s) && i in s.transactions && j in s.transactions
    ensures s.transactions[i].response ==> i in RequestHolders(s) && s.requestPermits == 0
    ensures s.transactions[i].response && s.transactions[j].response ==> i == j
    ensures s.transactions[i].request == RequestOver ==> !s.transactions[i].socket && !s.transactions[i].response
  {
    StartHolds();
    RunKeeps(START, steps);
    assert LocalInv(s.transactions[i]) && LocalInv(s.transactions[j]);
    if s.transactions[i].response && s.transactions[j].response {
      SoleMember(RequestHolders(s), i, j);
    }
  }
}
