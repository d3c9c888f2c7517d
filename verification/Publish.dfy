/**
 Atomic publication of a file next to foreign actors.

 `Publication` is one call of `_publish` together with the part of the operating system it talks to:
 names, inodes and the descriptors it opens.  Before every system call foreign actors may change
 anything except the private staging name and inode, and they can give the staged inode another name
 only once it has a public one.  Every foreign and every own step is recorded in `log`, and every
 system call may fail.
 */
module Publish {
  import opened Common
  import opened Files

  /** A descriptor, how often it was passed to close and whether a close failed. */
  datatype Fd = Fd(ino: Ino, closes: nat, failed: bool)

  /** The steps that are recorded; `Look` stands for every other system call that changes no name and no
      file, and `Fault` for any call that fails.  `Sync` is the sync of the parent directory. */
  datatype Call = Foreign | Look | Fault | Create | Write | Publish | Unlink | Sync | Rollback

  datatype Event = Event(call: Call, before: World, after: World)

  /** The last four can only happen once the destination has been published. */
  datatype Error =
    | TooLarge | ParentInvalid | CannotInspect | NotRegular | AlreadyExists | CannotOpen | Changed
    | StagingFailed | CloseFailed | PublishFailed
    | PublishedChanged | UnlinkFailed | SyncFailed | RollbackFailed

  datatype Outcome = Published | Failed(error: Error)

  predicate Late(e: Error) { e in {PublishedChanged, UnlinkFailed, SyncFailed, RollbackFailed} }

  /** What one publication writes, and the private name and inode mkstemp will pick for it. */
  datatype Job = Job(dest: Name, data: seq<Byte>, noClobber: bool, tmp: Name, ino: Ino)

  // ----- worlds and steps -----------------------------------------------------------------

  /** The staged inode holds all the data, synced. */
  predicate HasData(job: Job, w: World) { job.ino in w.nodes && w.nodes[job.ino] == Node(Regular, job.data, true) }

  predicate Written(job: Job, w: World) {
    job.ino in w.nodes && w.nodes[job.ino].kind == Regular && w.nodes[job.ino].data == job.data
  }

  /** The staged inode has a public name. */
  predicate Exposed(job: Job, w: World) { exists n :: n in w.names && n != job.tmp && w.names[n] == job.ino }

  /** Only the contents of the staged inode differ. */
  predicate SameButStaged(job: Job, w: World, v: World) {
    v.names == w.names && job.ino in v.nodes && v.nodes == w.nodes[job.ino := v.nodes[job.ino]]
  }

  /** The destination names the staged inode. */
  predicate Staged(job: Job, w: World) { job.dest in w.names && w.names[job.dest] == job.ino }

  /** The staging name is there. */
  predicate HasTmp(job: Job, w: World) { job.tmp in w.names && w.names[job.tmp] == job.ino }

  /** No public name is bound to a partly written file. */
  predicate Complete(job: Job, w: World) { Exposed(job, w) ==> HasData(job, w) }

  /** What foreign actors may do, in any number of steps. */
  predicate Rely(job: Job, w: World, v: World) {
    && (job.tmp in w.names <==> job.tmp in v.names)
    && (job.tmp in w.names ==> w.names[job.tmp] == v.names[job.tmp])
    && (job.ino in w.nodes <==> job.ino in v.nodes)
    && (job.ino in w.nodes ==> w.nodes[job.ino] == v.nodes[job.ino])
    && (Exposed(job, v) ==> Exposed(job, w))
  }

  /** What a recorded step did. */
  predicate StepOk(job: Job, e: Event) {
    match e.call
    case Foreign => Rely(job, e.before, e.after)
    case Look | Fault | Sync => e.after == e.before
    case Create =>
      job.tmp !in e.before.names
      && e.after == Created(job, e.before)
    case Write =>
      !Exposed(job, e.before) && e.after.names == e.before.names
      && job.ino in e.after.nodes && e.after.nodes == e.before.nodes[job.ino := e.after.nodes[job.ino]]
    case Publish =>
      HasData(job, e.before) && HasTmp(job, e.before) && e.after == e.before.(names := PublishedNames(job, e.before))
      && (job.noClobber ==> job.dest !in e.before.names)
    case Unlink => e.after == e.before.(names := e.before.names - {job.tmp})
    case Rollback => job.noClobber && e.after == e.before.(names := e.before.names - {job.dest})
  }

  /** The destination names the staged inode and the staging name is gone. */
  function Renamed(job: Job, w: World): World { w.(names := (w.names - {job.tmp})[job.dest := job.ino]) }

  lemma PublishedThenUnlinked(job: Job, w: World)
    requires job.tmp != job.dest
    ensures var v := w.(names := PublishedNames(job, w));
      && v.(names := v.names - {job.tmp}) == Renamed(job, w) && (!job.noClobber ==> v == Renamed(job, w))
  {
    var v := w.(names := PublishedNames(job, w));
    assert v.names - {job.tmp} == Renamed(job, w).names;
  }

  /** The staged inode has received all the data. */
  function Filled(job: Job, w: World): World { w.(nodes := w.nodes[job.ino := Node(Regular, job.data, true)]) }

  /** The destination is a complete file of its own, and nothing else has changed. */
  function PublishedWorld(job: Job, w: World): World {
    World(w.names[job.dest := job.ino], w.nodes[job.ino := Node(Regular, job.data, true)])
  }

  lemma LookUnaffected(job: Job, w: World, v: World)
    requires SameButStaged(job, w, v) && !Exposed(job, w) && job.tmp != job.dest
    ensures LookAt(v, job.dest) == LookAt(w, job.dest)
  {
  }

  lemma LookBesideStaging(job: Job, w: World)
    requires !Exposed(job, w) && job.tmp != job.dest
    ensures LookAt(Created(job, w), job.dest) == LookAt(w, job.dest)
  {
  }

  lemma AllSteps(job: Job, w: World)
    requires job.tmp != job.dest && job.tmp !in w.names
    ensures var v := Renamed(job, Filled(job, Created(job, w)));
      v == PublishedWorld(job, w) && v.(names := v.names - {job.tmp}) == v
  {
    var c := Created(job, w);
    assert c.names - {job.tmp} == w.names;
    assert c.nodes[job.ino := Node(Regular, job.data, true)] == w.nodes[job.ino := Node(Regular, job.data, true)];
    var v := PublishedWorld(job, w);
    assert v.names - {job.tmp} == v.names;
  }

  /** An empty staged file under its private name. */
  function Created(job: Job, w: World): World {
    World(w.names[job.tmp := job.ino], w.nodes[job.ino := Node(Regular, [], false)])
  }

  /** The names after link or replace. */
  function PublishedNames(job: Job, w: World): map<Name, Ino> {
    (if job.noClobber then w.names else w.names - {job.tmp})[job.dest := job.ino]
  }

  /** Giving the staged file its public name. */
  lemma PublishStep(job: Job, w: World)
    requires job.tmp != job.dest && HasData(job, w) && HasTmp(job, w) && (job.noClobber ==> job.dest !in w.names)
    ensures var v := w.(names := PublishedNames(job, w));
      && StepOk(job, Event(Call.Publish, w, v)) && Staged(job, v) && HasData(job, v)
      && (HasTmp(job, v) <==> job.noClobber) && (!job.noClobber ==> job.tmp !in v.names)
  {
  }

  /** Foreign steps stay foreign steps when taken one after the other. */
  lemma RelyComposes(job: Job, u: World, v: World, w: World)
    requires Rely(job, u, v) && Rely(job, v, w)
    ensures Rely(job, u, w)
  {
  }

  /** A step of the publication itself touches the staging name, the destination and the staged inode,
      nothing else; in no-clobber mode it never replaces what the destination is bound to, and in
      overwrite mode it never leaves a bound destination unbound. */
  lemma OwnStepIsHarmless(job: Job, e: Event)
    requires job.tmp != job.dest && StepOk(job, e) && e.call != Foreign
    ensures forall n :: n != job.tmp && n != job.dest ==>
              (n in e.after.names <==> n in e.before.names) && (n in e.before.names ==> e.after.names[n] == e.before.names[n])
    ensures forall i :: i != job.ino ==>
              (i in e.after.nodes <==> i in e.before.nodes) && (i in e.before.nodes ==> e.after.nodes[i] == e.before.nodes[i])
    ensures job.noClobber && e.call != Rollback && job.dest in e.before.names ==>
              job.dest in e.after.names && e.after.names[job.dest] == e.before.names[job.dest]
    ensures !job.noClobber && job.dest in e.before.names ==>
              job.dest in e.after.names && (e.after.names[job.dest] == e.before.names[job.dest] || HasData(job, e.after))
  {
  }

  // ----- the record of a run --------------------------------------------------------------

  /** The step that compared the destination before a rollback, and whether it named the staged inode. */
  datatype Comparison = Comparison(step: nat, same: bool)

  /** The first look at the destination and what it found. */
  datatype Inspection = Inspection(step: nat, look: Look)

  /** The step that a failure is due to. */
  datatype Cause = Cause(step: nat, error: Error)

  /** The first look, the last look before publication, the check after it, the end of the parent sync
      and whether it succeeded, the comparison before a rollback, and what the failure is due to. */
  datatype Marks = Marks(first: Option<Inspection>, checked: Option<nat>, seen: Option<nat>,
                         synced: Option<nat>, unsynced: Option<nat>, compared: Option<Comparison>, cause: Option<Cause>)

  const NO_MARKS := Marks(None, None, None, None, None, None, None)

  datatype Trace = Trace(log: seq<Event>, marks: Marks)

  predicate BoundTo(job: Job, w: World, x: Ino) { job.dest in w.names && w.names[job.dest] == x }

  /** The destination is as `look` found it: the same file with the same size or, where that matters, nothing. */
  predicate AsFound(job: Job, look: Look, w: World) {
    && (look.Found? ==> BoundTo(job, w, look.stat.ino) && look.stat.ino in w.nodes
                        && |w.nodes[look.stat.ino].data| == look.stat.size)
    && (look == Missing && job.noClobber ==> job.dest !in w.names)
  }

  ghost function Count(log: seq<Event>, call: Call): nat {
    if log == [] then 0 else Count(log[..|log| - 1], call) + (if log[|log| - 1].call == call then 1 else 0)
  }

  /** Every step is a legal one, no state exposes a partly written file, and the steps follow each other. */
  ghost predicate StepsOk(job: Job, log: seq<Event>, last: World) {
    && (forall i :: 0 <= i < |log| ==> StepOk(job, log[i]) && Complete(job, log[i].after))
    && (forall i :: 0 < i < |log| ==> log[i - 1].after == log[i].before)
    && (log != [] ==> log[|log| - 1].after == last)
  }

  ghost predicate SawStaged(job: Job, log: seq<Event>, i: nat) {
    i < |log| && log[i].call == Look && Staged(job, log[i].after)
  }

  ghost predicate MarksOk(job: Job, t: Trace) {
    && (t.marks.first.Some? ==> var f := t.marks.first.value;
          f.step < |t.log| && t.log[f.step].call == Look && AsFound(job, f.look, t.log[f.step].after))
    && (t.marks.checked.Some? ==> t.marks.first.Some? && var c := t.marks.checked.value;
          t.marks.first.value.step < c < |t.log| && t.log[c].call == Look
          && AsFound(job, t.marks.first.value.look, t.log[c].after))
    && (t.marks.seen.Some? ==> SawStaged(job, t.log, t.marks.seen.value) && HasData(job, t.log[t.marks.seen.value].after))
    && (t.marks.compared.Some? ==> var c := t.marks.compared.value;
          c.step < |t.log| && t.log[c.step].call == Look && (c.same <==> SawStaged(job, t.log, c.step)))
    && (t.marks.synced.Some? ==> t.marks.synced.value < |t.log| && t.log[t.marks.synced.value].call == Sync)
    && (t.marks.unsynced.Some? ==> t.marks.unsynced.value < |t.log| && t.log[t.marks.unsynced.value].call == Fault)
    && (t.marks.cause.Some? ==> Justifies(job, t, t.marks.cause.value.step, t.marks.cause.value.error))
    && (Count(t.log, Rollback) > 0 ==> RolledBack(job, t))
    && InOrder(t)
  }

  /** The destination is not the file that was found: not bound to it, or the file is gone, resized or of
      another kind. */
  predicate Disturbed(job: Job, found: Stat, w: World) {
    !BoundTo(job, w, found.ino) || found.ino !in w.nodes || StatOf(w, found.ino) != found
  }

  /** Step `i` is a reason for this failure: a call that failed, or something in the way of the call. */
  ghost predicate Justifies(job: Job, t: Trace, i: nat, error: Error) {
    && i < |t.log|
    && var e := t.log[i];
       (e.call == Fault && error !in {TooLarge, NotRegular, AlreadyExists} && (error == RollbackFailed ==> AfterSync(t, i)))
       || match error
          case CannotInspect => e.call == Look && LookAt(e.after, job.dest) == Unreadable
          case NotRegular => e.call == Look && LookAt(e.after, job.dest).Found? && LookAt(e.after, job.dest).stat.kind != Regular
          case AlreadyExists => e.call == Look && LookAt(e.after, job.dest).Found? && job.noClobber
          case CannotOpen | Changed =>
            t.marks.first.Some? && t.marks.first.value.look.Found? && Disturbed(job, t.marks.first.value.look.stat, e.after)
          case PublishFailed => job.noClobber && job.dest in e.after.names
          case PublishedChanged => e.call == Look && !Staged(job, e.after)
          case RollbackFailed => AfterSync(t, i) && RollbackStopped(job, t, i)
          case _ => false
  }

  ghost predicate AfterSync(t: Trace, i: nat) { t.marks.unsynced.Some? && t.marks.unsynced.value < i }

  /** The rollback could not look, or the destination vanished right after the comparison. */
  ghost predicate RollbackStopped(job: Job, t: Trace, i: nat)
    requires i < |t.log|
  {
    || (t.log[i].call == Look && LookAt(t.log[i].after, job.dest) == Unreadable)
    || (t.marks.compared.Some? && t.marks.compared.value.same && i == t.marks.compared.value.step + 1
        && job.dest !in t.log[i].after.names)
  }

  /** Publication comes after the last look before it, and the looks after publication come after it. */
  ghost predicate InOrder(t: Trace) {
    forall j :: 0 <= j < |t.log| && t.log[j].call == Call.Publish ==>
      && t.marks.checked.Some? && t.marks.checked.value < j
      && (t.marks.seen.Some? ==> j < t.marks.seen.value)
      && (t.marks.synced.Some? ==> j < t.marks.synced.value)
      && (t.marks.unsynced.Some? ==> j < t.marks.unsynced.value)
      && (t.marks.compared.Some? ==> j < t.marks.compared.value.step && AfterSync(t, t.marks.compared.value.step))
  }

  /** The destination has been checked and nothing was published yet. */
  predicate Ready(m: Marks) {
    m.checked.Some? && m == NO_MARKS.(first := m.first, checked := m.checked)
  }

  /** The only rollback comes right after the comparison, which saw the staged inode. */
  ghost predicate RolledBack(job: Job, t: Trace) {
    && Count(t.log, Rollback) == 1 && t.marks.compared.Some? && t.marks.compared.value.same
    && t.marks.compared.value.step + 2 < |t.log| && t.log[t.marks.compared.value.step + 2].call == Rollback
  }

  ghost predicate TraceOk(job: Job, t: Trace, last: World) { StepsOk(job, t.log, last) && MarksOk(job, t) }

  ghost function Append(t: Trace, e: Event): Trace { t.(log := t.log + [e]) }

  lemma CountAppend(log: seq<Event>, e: Event, call: Call)
    ensures Count(log + [e], call) == Count(log, call) + (if e.call == call then 1 else 0)
  {
    assert (log + [e])[..|log|] == log;
  }

  lemma AppendToLog(job: Job, log: seq<Event>, e: Event)
    requires StepsOk(job, log, e.before) && StepOk(job, e) && Complete(job, e.after)
    ensures StepsOk(job, log + [e], e.after)
  {
    hide StepOk, Complete;
  }

  lemma CauseStays(job: Job, t: Trace, e: Event)
    requires t.marks.cause.Some? ==> Justifies(job, t, t.marks.cause.value.step, t.marks.cause.value.error)
    ensures t.marks.cause.Some? ==> Justifies(job, Append(t, e), t.marks.cause.value.step, t.marks.cause.value.error)
  {
  }

  lemma AppendStep(job: Job, t: Trace, e: Event)
    requires TraceOk(job, t, e.before) && StepOk(job, e) && Complete(job, e.after) && e.call != Rollback
    requires e.call == Call.Publish ==> Ready(t.marks)
    ensures TraceOk(job, Append(t, e), e.after)
  {
    hide StepOk, Complete, HasData, Staged, AsFound, StepsOk, Justifies, InOrder;
    AppendToLog(job, t.log, e);
    CountAppend(t.log, e, Rollback);
    CauseStays(job, t, e);
    OrderStays(t, e);
    assert forall i :: 0 <= i < |t.log| ==> (t.log + [e])[i] == t.log[i];
  }

  lemma OrderStays(t: Trace, e: Event)
    requires InOrder(t) && (t.marks.checked.Some? ==> t.marks.checked.value < |t.log|)
    requires e.call == Call.Publish ==> Ready(t.marks)
    ensures InOrder(Append(t, e))
  {
  }

  lemma AppendRollback(job: Job, t: Trace, e: Event)
    requires TraceOk(job, t, e.before) && StepOk(job, e) && Complete(job, e.after) && e.call == Rollback
    requires Count(t.log, Rollback) == 0 && |t.log| >= 2 && t.marks.compared == Some(Comparison(|t.log| - 2, true))
    ensures RolledBack(job, Append(t, e)) && TraceOk(job, Append(t, e), e.after)
  {
    hide StepOk, Complete, HasData, Staged, AsFound, StepsOk, Justifies, InOrder;
    AppendToLog(job, t.log, e);
    CountAppend(t.log, e, Rollback);
    CauseStays(job, t, e);
    OrderStays(t, e);
  }

  /** The marks that may be set at the last step, as long as nothing has failed. */
  ghost predicate MayMark(job: Job, t: Trace, last: World, m: Marks) {
    var n := |t.log| - 1;
    && n >= 0 && t.marks.cause.None?
    && match t.log[n].call
       case Look => MayMarkLook(job, t, last, m, n)
       case Sync => m == t.marks.(synced := Some(n))
       case Fault => m == t.marks.(unsynced := Some(n)) && t.marks.compared.None?
       case _ => false
  }

  ghost predicate MayMarkLook(job: Job, t: Trace, last: World, m: Marks, n: nat) {
    || (m == t.marks.(compared := Some(Comparison(n, Staged(job, last)))) && t.marks.compared.None? && AfterSync(t, n)
        && Count(t.log, Rollback) == 0)
    || (m == t.marks.(seen := Some(n)) && Staged(job, last) && HasData(job, last))
    || (m == t.marks.(checked := Some(n)) && t.marks.checked.None? && t.marks.first.Some? && t.marks.first.value.step < n
        && AsFound(job, t.marks.first.value.look, last))
    || (m.first.Some? && m == NO_MARKS.(first := Some(Inspection(n, m.first.value.look))) && t.marks == NO_MARKS
        && AsFound(job, m.first.value.look, last) && Count(t.log, Rollback) == 0)
  }

  lemma MarkLast(job: Job, t: Trace, last: World, m: Marks)
    requires TraceOk(job, t, last) && MayMark(job, t, last, m)
    ensures TraceOk(job, t.(marks := m), last)
  {
    hide StepOk, Complete, HasData, Staged, AsFound, Justifies, StepsOk, InOrder;
    LastStep(job, t, last);
    MarksStayInOrder(job, t, last, m);
  }

  lemma MarksStayInOrder(job: Job, t: Trace, last: World, m: Marks)
    requires InOrder(t) && MayMark(job, t, last, m)
    ensures InOrder(t.(marks := m))
  {
    hide HasData, Staged, AsFound, Justifies;
  }

  lemma LastStep(job: Job, t: Trace, last: World)
    requires TraceOk(job, t, last)
    ensures t.log != [] ==> t.log[|t.log| - 1].after == last
  {
  }

  lemma BlameStep(job: Job, t: Trace, last: World, cause: Cause)
    requires TraceOk(job, t, last) && t.marks.cause.None? && Justifies(job, t, cause.step, cause.error)
    ensures TraceOk(job, t.(marks := t.marks.(cause := Some(cause))), last)
  {
    hide StepOk, Complete, HasData, Staged, AsFound, StepsOk, Count;
  }

  lemma NextSlice(data: seq<Byte>, offset: nat, end: nat, count: nat)
    requires offset <= end <= |data| && count <= end - offset
    ensures data[..offset + count] == data[..offset] + data[offset..end][..count]
  {
  }

  // ----- what a sound record says about the run -------------------------------------------

  lemma {:induction false} CountZero(log: seq<Event>, call: Call, i: nat)
    requires Count(log, call) == 0 && i < |log|
    ensures log[i].call != call
  {
    if i < |log| - 1 {
      CountZero(log[..|log| - 1], call, i);
    }
  }

  lemma {:induction false} CountOne(log: seq<Event>, call: Call, i: nat, j: nat)
    requires Count(log, call) <= 1 && i < j < |log| && log[i].call == call
    ensures log[j].call != call
  {
    if j < |log| - 1 {
      CountOne(log[..|log| - 1], call, i, j);
    } else if log[j].call == call {
      CountZero(log[..|log| - 1], call, i);
    }
  }

  /** Without a publication step the staged inode never gets a public name and the run never changes
      what the destination is bound to. */
  lemma {:induction false} UnpublishedIsUntouched(job: Job, t: Trace, last: World, i: nat)
    requires TraceOk(job, t, last) && job.tmp != job.dest && i < |t.log|
    requires Count(t.log, Call.Publish) == 0 && Count(t.log, Rollback) == 0 && !Exposed(job, t.log[0].before)
    ensures !Exposed(job, t.log[i].after)
    ensures t.log[i].call != Foreign ==> SameDest(job, t.log[i].before, t.log[i].after)
  {
    CountZero(t.log, Call.Publish, i);
    CountZero(t.log, Rollback, i);
    if i > 0 {
      UnpublishedIsUntouched(job, t, last, i - 1);
    }
  }

  predicate SameDest(job: Job, w: World, v: World) {
    && (job.dest in w.names <==> job.dest in v.names)
    && (job.dest in w.names ==> w.names[job.dest] == v.names[job.dest])
  }

  /** In no-clobber mode a file that another actor put at the destination stays there as long as no
      other actor removes it, unless it got there between the comparison and the rollback. */
  lemma {:induction false} ForeignFileSurvives(job: Job, t: Trace, last: World, i: nat, j: nat, x: Ino)
    requires TraceOk(job, t, last) && job.noClobber && job.tmp != job.dest && x != job.ino
    requires i <= j < |t.log| && BoundTo(job, t.log[i].after, x)
    requires forall k :: i < k <= j && t.log[k].call == Foreign ==> SameDest(job, t.log[k].before, t.log[k].after)
    requires Count(t.log, Rollback) > 0 ==> i != t.marks.compared.value.step + 1
    ensures BoundTo(job, t.log[j].after, x)
  {
    hide Complete, HasData, Rely, HasTmp, Exposed;
    if i < j {
      ForeignFileSurvives(job, t, last, i, j - 1, x);
      if t.log[j].call == Rollback {
        RollbackIsMarked(job, t, last, j);
        if i <= j - 2 {
          ForeignFileSurvives(job, t, last, i, j - 2, x);
        }
      }
    }
  }

  lemma RollbackIsMarked(job: Job, t: Trace, last: World, j: nat)
    requires TraceOk(job, t, last) && j < |t.log| && t.log[j].call == Rollback
    ensures Count(t.log, Rollback) == 1 && j == t.marks.compared.value.step + 2
    ensures Staged(job, t.log[j - 2].after) && job.dest !in t.log[j].after.names
  {
    if Count(t.log, Rollback) == 0 {
      CountZero(t.log, Rollback, j);
    }
    var r := t.marks.compared.value.step + 2;
    if r < j {
      CountOne(t.log, Rollback, r, j);
    } else if j < r {
      CountOne(t.log, Rollback, j, r);
    }
  }

  // ----- one call -------------------------------------------------------------------------

  ghost predicate Booked(fds: seq<Fd>, held: set<nat>, spoiled: Option<nat>) {
    && (forall f :: f in held ==> f < |fds|)
    && (spoiled.Some? ==> spoiled.value < |fds| && fds[spoiled.value].failed)
    && forall f :: 0 <= f < |fds| ==>
         fds[f].closes == (if f in held then 0 else 1) + (if spoiled == Some(f) then 1 else 0)
  }

  /** A new descriptor is still to be closed. */
  lemma OneMoreOpen(fds: seq<Fd>, held: set<nat>, file: Ino)
    requires Booked(fds, held, None)
    ensures Booked(fds + [Fd(file, 0, false)], held + {|fds|}, None) && |fds| !in held
  {
  }

  function FdSet(fd: Option<nat>): set<nat> { if fd.Some? then {fd.value} else {} }

  class Publication {
    const job: Job
    const nt: bool
    const calm: bool             // nobody interferes and no system call fails
    var world: World
    var fds: seq<Fd>
    var stuck: bool              // unlinking the staging name failed in the end
    ghost var trace: Trace

    constructor (world: World, job: Job, nt: bool, calm: bool)
      requires job.tmp != job.dest && job.tmp !in world.names && job.ino !in world.nodes && !Exposed(job, world)
      ensures this.world == world && this.job == job && this.nt == nt && this.calm == calm
      ensures Inv() && fds == [] && trace == Trace([], NO_MARKS) && !stuck
    {
      this.world, this.job, this.nt, this.calm := world, job, nt, calm;
      fds, stuck, trace := [], false, Trace([], NO_MARKS);
    }

    ghost predicate Inv() reads `world, `trace {
      && job.tmp != job.dest && Complete(job, world) && (job.tmp in world.names ==> HasTmp(job, world))
      && TraceOk(job, trace, world)
    }

    ghost function Publications(): nat reads `trace { Count(trace.log, Call.Publish) }
    ghost function Rollbacks(): nat reads `trace { Count(trace.log, Rollback) }

    /** What every ordinary step leaves alone. */
    twostate predicate Quiet() reads `world, `trace, `stuck {
      && trace.marks == old(trace.marks) && QuietButMarks()
    }

    twostate predicate QuietButMarks() reads `world, `trace, `stuck {
      && Publications() == old(Publications()) && Rollbacks() == old(Rollbacks()) && stuck == old(stuck)
      && (job.ino in world.nodes <==> old(job.ino in world.nodes))
      && (old(HasData(job, world)) ==> HasData(job, world)) && (HasTmp(job, world) <==> old(HasTmp(job, world)))
    }

    /** On a calm system nothing happens beside the calls. */
    twostate predicate Still() reads `world { calm ==> world == old(world) }

    // ----- recording ----------------------------------------------------------------------

    /** Appends an own or foreign step to the trace. */
    ghost method Record(call: Call, before: World)
      requires TraceOk(job, trace, before) && StepOk(job, Event(call, before, world)) && Complete(job, world)
      requires call != Rollback && (call == Call.Publish ==> Ready(trace.marks))
      modifies `trace
      ensures trace == Append(old(trace), Event(call, before, world)) && TraceOk(job, trace, world)
      ensures Publications() == old(Publications()) + (if call == Call.Publish then 1 else 0)
      ensures Rollbacks() == old(Rollbacks())
    {
      hide TraceOk, StepOk, Complete;
      ghost var e := Event(call, before, world);
      AppendStep(job, trace, e);
      CountAppend(trace.log, e, Call.Publish);
      CountAppend(trace.log, e, Rollback);
      trace := Append(trace, e);
    }

    /** Remembers the last step. */
    ghost method Mark(m: Marks)
      requires Inv() && MayMark(job, trace, world, m)
      modifies `trace
      ensures Inv() && trace == old(trace).(marks := m)
    {
      hide TraceOk, MayMark;
      MarkLast(job, trace, world, m);
      trace := trace.(marks := m);
    }

    /** Says which step the failure is due to. */
    ghost method Blame(step: nat, error: Error)
      requires Inv() && trace.marks.cause.None? && Justifies(job, trace, step, error)
      modifies `trace
      ensures Inv() && trace == old(trace).(marks := trace.marks) && Blamed(error)
      ensures trace.marks == old(trace.marks).(cause := trace.marks.cause)
    {
      hide TraceOk, Justifies;
      BlameStep(job, trace, world, Cause(step, error));
      trace := trace.(marks := trace.marks.(cause := Some(Cause(step, error))));
    }

    /** The last call failed. */
    ghost method BlameFault(error: Error)
      requires Inv() && trace.marks.cause.None? && LastIs(Fault)
      requires error !in {TooLarge, NotRegular, AlreadyExists, RollbackFailed}
      modifies `trace
      ensures Inv() && trace == old(trace).(marks := trace.marks) && Blamed(error)
      ensures trace.marks == old(trace.marks).(cause := trace.marks.cause)
    {
      hide Inv;
      Blame(|trace.log| - 1, error);
    }

    /** At step `i` the destination was no longer what the first look found. */
    ghost method BlameChange(i: nat, found: Stat, error: Error)
      requires Inv() && trace.marks.cause.None? && error in {CannotOpen, Changed}
      requires trace.marks.first.Some? && trace.marks.first.value.look == Found(found)
      requires i < |trace.log| && (trace.log[i].call == Fault || Disturbed(job, found, trace.log[i].after))
      modifies `trace
      ensures Inv() && trace == old(trace).(marks := trace.marks) && Blamed(error)
      ensures trace.marks == old(trace.marks).(cause := trace.marks.cause)
    {
      hide Inv, Disturbed;
      Blame(i, error);
    }

    ghost predicate Blamed(error: Error) reads `trace { trace.marks.cause.Some? && trace.marks.cause.value.error == error }

    /** The last recorded step. */
    ghost predicate LastIs(call: Call) reads `trace { trace.log != [] && trace.log[|trace.log| - 1].call == call }

    /** Appends a failed call to the trace. */
    ghost method Fail()
      requires Inv()
      modifies `trace
      ensures Inv() && trace == Append(old(trace), Event(Fault, world, world)) && LastIs(Fault)
      ensures Publications() == old(Publications()) && Rollbacks() == old(Rollbacks())
    {
      hide TraceOk, Complete;
      Record(Fault, world);
    }

    /** Foreign actors move. */
    method Interfere()
      requires Inv()
      modifies `world, `trace
      ensures Inv() && Quiet() && Rely(job, old(world), world) && Still()
      ensures trace == Append(old(trace), Event(Foreign, old(world), world))
    {
      hide TraceOk;
      ghost var before := world;
      var w: World := *;
      if !calm && Rely(job, world, w) { world := w; }
      Record(Foreign, before);
    }

    // ----- system calls -------------------------------------------------------------------

    /** Foreign actors move, and then a system call may fail. */
    method Try() returns (ok: bool)
      requires Inv()
      modifies `world, `trace
      ensures Inv() && Quiet() && Rely(job, old(world), world) && old(trace.log) < trace.log
      ensures trace.log[|trace.log| - 1] == if ok then Event(Foreign, old(world), world) else Event(Fault, world, world)
      ensures |trace.log| == |old(trace.log)| + if ok then 1 else 2
      ensures Still() && (calm ==> ok)
    {
      hide TraceOk, Rely, Complete, HasTmp, HasData;
      Interfere();
      ok := *;
      ok := ok || calm;
      if !ok { Fail(); }
    }

    /** A call that changes no name and no file: fchmod, or inspecting the parent directory. */
    method Other() returns (ok: bool)
      requires Inv()
      modifies `world, `trace
      ensures Inv() && Quiet() && Rely(job, old(world), world) && |trace.log| == |old(trace.log)| + 2 && old(trace.log) <= trace.log
      ensures trace.log[|trace.log| - 1] == Event(if ok then Look else Fault, world, world)
      ensures Still() && (calm ==> ok)
    {
      hide TraceOk, Rely, Complete, HasTmp, HasData;
      ok := Try();
      if ok { Record(Look, world); }
    }

    method Lstat(name: Name) returns (r: Look)
      requires Inv()
      modifies `world, `trace
      ensures Inv() && Quiet() && |trace.log| == |old(trace.log)| + 2 && old(trace.log) <= trace.log
      ensures || (r == LookAt(world, name) && trace.log[|trace.log| - 1] == Event(Look, world, world))
              || (r == Unreadable && !calm && LastIs(Fault))
      ensures Still()
    {
      hide Inv, Quiet;
      var ok := Other();
      if !ok { return Unreadable; }
      return LookAt(world, name);
    }

    /** `os.open`: a new descriptor, or None. */
    method Open(name: Name) returns (fd: Option<nat>)
      requires Inv()
      modifies `world, `trace, `fds
      ensures Inv() && Quiet() && trace.log != [] && (fd.None? ==> fds == old(fds))
      ensures fd.None? ==> LastIs(Fault) || (name !in world.names && trace.log[|trace.log| - 1] == Event(Look, world, world))
      ensures fd.Some? ==> trace.log[|trace.log| - 1] == Event(Look, world, world)
      ensures fd.Some? ==> fd.value == |old(fds)| && name in world.names && fds == old(fds) + [Fd(world.names[name], 0, false)]
      ensures Still() && (calm && name in world.names ==> fd.Some?)
    {
      hide Inv, Quiet;
      var ok := Other();
      if !ok || name !in world.names { return None; }
      fds := fds + [Fd(world.names[name], 0, false)];
      return Some(|fds| - 1);
    }

    method Fstat(fd: nat) returns (r: Option<Stat>)
      requires Inv() && fd < |fds|
      modifies `world, `trace
      ensures Inv() && Quiet() && old(trace.log) < trace.log && |trace.log| == |old(trace.log)| + 2
      ensures r.None? ==> LastIs(Fault) || fds[fd].ino !in world.nodes
      ensures LastIs(Fault) || trace.log[|trace.log| - 1] == Event(Look, world, world)
      ensures r.Some? ==> trace.log[|trace.log| - 1] == Event(Look, world, world)
      ensures r.Some? ==> fds[fd].ino in world.nodes && r.value == StatOf(world, fds[fd].ino)
      ensures Still() && (calm && fds[fd].ino in world.nodes ==> r.Some?)
    {
      hide Inv, Quiet;
      var ok := Other();
      if !ok || fds[fd].ino !in world.nodes { return None; }
      return Some(StatOf(world, fds[fd].ino));
    }

    method Close(fd: nat) returns (ok: bool)
      requires Inv() && fd < |fds|
      modifies `world, `trace, `fds
      ensures Inv() && Quiet() && fds == old(fds)[fd := Fd(old(fds)[fd].ino, old(fds)[fd].closes + 1, old(fds)[fd].failed || !ok)]
      ensures !ok ==> LastIs(Fault)
      ensures Still() && (calm ==> ok)
    {
      hide Inv, Quiet;
      ok := Other();
      fds := fds[fd := Fd(fds[fd].ino, fds[fd].closes + 1, fds[fd].failed || !ok)];
    }

    /** `tempfile.mkstemp`: the private name and inode appear. */
    method Create() returns (fd: Option<nat>)
      requires Inv() && !HasTmp(job, world) && job.ino !in world.nodes
      modifies `world, `trace, `fds
      ensures Inv() && stuck == old(stuck) && trace.marks == old(trace.marks)
      ensures Publications() == old(Publications()) && Rollbacks() == old(Rollbacks())
      ensures fds == if fd.None? then old(fds) else old(fds) + [Fd(job.ino, 0, false)]
      ensures fd.None? ==> !HasTmp(job, world) && LastIs(Fault)
      ensures fd.Some? ==> fd.value == |old(fds)| && HasTmp(job, world) && !Exposed(job, world)
      ensures fd.Some? ==> job.ino in world.nodes && world.nodes[job.ino] == Node(Regular, [], false)
      ensures calm ==> fd.Some? && world == Created(job, old(world))
    {
      hide TraceOk;
      var ok := Try();
      if !ok { return None; }
      ghost var before := world;
      assert !Exposed(job, world);
      world := Created(job, world);
      assert !Exposed(job, world);
      Record(Call.Create, before);
      fds := fds + [Fd(job.ino, 0, false)];
      return Some(|fds| - 1);
    }

    /** `os.write` of at most the given bytes to the staged file; a failure and no progress are the same. */
    method Write(bytes: seq<Byte>) returns (count: int)
      requires Inv() && HasTmp(job, world) && !Exposed(job, world)
      requires job.ino in world.nodes && world.nodes[job.ino].kind == Regular && bytes != []
      modifies `world, `trace
      ensures Inv() && HasTmp(job, world) && !Exposed(job, world) && stuck == old(stuck)
      ensures trace.marks == old(trace.marks)
      ensures Publications() == old(Publications()) && Rollbacks() == old(Rollbacks())
      ensures count <= |bytes| && job.ino in world.nodes && (count <= 0 ==> LastIs(Fault))
      ensures world.nodes[job.ino].kind == Regular
      ensures world.nodes[job.ino].data == old(world).nodes[job.ino].data + if count > 0 then bytes[..count] else []
      ensures calm ==> SameButStaged(job, old(world), world) && count > 0
    {
      hide TraceOk;
      var ok := Try();
      if !ok { return 0; }
      count := *;
      if count <= 0 || count > |bytes| { count := |bytes|; }
      ghost var before := world;
      world := world.(nodes := world.nodes[job.ino := Node(Regular, world.nodes[job.ino].data + bytes[..count], false)]);
      assert !Exposed(job, world);
      Record(Call.Write, before);
    }

    /** `_sync_file`: afterwards the contents are on disk. */
    method SyncFile() returns (ok: bool)
      requires Inv() && HasTmp(job, world) && !Exposed(job, world) && Written(job, world)
      modifies `world, `trace
      ensures Inv() && HasTmp(job, world) && stuck == old(stuck) && trace.marks == old(trace.marks)
      ensures Publications() == old(Publications()) && Rollbacks() == old(Rollbacks())
      ensures if ok then HasData(job, world) else LastIs(Fault)
      ensures calm ==> ok && SameButStaged(job, old(world), world)
    {
      hide TraceOk;
      var done := Try();
      if !done { return false; }
      ghost var before := world;
      world := world.(nodes := world.nodes[job.ino := world.nodes[job.ino].(synced := true)]);
      assert !Exposed(job, world);
      Record(Call.Write, before);
      return true;
    }

    /** `os.link` in no-clobber mode, `os.replace` otherwise. */
    method PublishName() returns (ok: bool)
      requires Inv() && HasTmp(job, world) && HasData(job, world) && Ready(trace.marks)
      modifies `world, `trace
      ensures Inv() && HasData(job, world) && stuck == old(stuck)
      ensures trace.marks == old(trace.marks)
      ensures Publications() == old(Publications()) + (if ok then 1 else 0) && Rollbacks() == old(Rollbacks())
      ensures ok ==> Staged(job, world) && (HasTmp(job, world) <==> job.noClobber)
      ensures !ok ==> HasTmp(job, world) && trace.log != []
      ensures !ok ==> Justifies(job, trace, |trace.log| - 1, PublishFailed)
      ensures calm ==> (ok <==> job.noClobber ==> job.dest !in old(world).names)
      ensures calm && ok ==> world == old(world).(names := PublishedNames(job, old(world)))
    {
      hide TraceOk, StepOk, PublishedNames, Exposed, Rely, HasData, HasTmp, Staged, Count;
      var done := Try();
      if !done { return false; }
      if job.noClobber && job.dest in world.names { return false; }
      ghost var before := world;
      PublishStep(job, world);
      world := world.(names := PublishedNames(job, world));
      Record(Call.Publish, before);
      return true;
    }

    /** `os.unlink` of the staging name; a missing name is no failure. */
    method UnlinkStaging() returns (ok: bool)
      requires Inv()
      modifies `world, `trace
      ensures Inv() && stuck == old(stuck) && trace.marks == old(trace.marks)
      ensures Publications() == old(Publications()) && Rollbacks() == old(Rollbacks())
      ensures (old(HasData(job, world)) ==> HasData(job, world)) && (if ok then !HasTmp(job, world) else LastIs(Fault))
      ensures calm ==> ok && world == old(world).(names := old(world).names - {job.tmp})
    {
      hide TraceOk;
      var done := Try();
      if job.tmp !in world.names {
        assert world.names == world.names - {job.tmp};
        return true;
      }
      if !done { return false; }
      ghost var before := world;
      world := world.(names := world.names - {job.tmp});
      Record(Unlink, before);
      return true;
    }
 
    // ----- the steps of `_publish` --------------------------------------------------------

    /** `_write_all`: short writes are repeated, no progress is an error. */
    method WriteAll() returns (ok: bool)
      requires Inv() && HasTmp(job, world) && !Exposed(job, world)
      requires job.ino in world.nodes && world.nodes[job.ino] == Node(Regular, [], false)
      modifies `world, `trace
      ensures Inv() && HasTmp(job, world) && !Exposed(job, world) && stuck == old(stuck)
      ensures trace.marks == old(trace.marks)
      ensures Publications() == old(Publications()) && Rollbacks() == old(Rollbacks())
      ensures if ok then Written(job, world) else LastIs(Fault)
      ensures calm ==> ok && SameButStaged(job, old(world), world)
    {
      hide Inv, HasTmp, Exposed;
      var offset := 0;
      assert job.data[..0] == [];
      while offset < |job.data|
        invariant Inv() && HasTmp(job, world) && !Exposed(job, world) && 0 <= offset <= |job.data|
        invariant trace.marks == old(trace.marks)
        invariant Publications() == old(Publications()) && Rollbacks() == old(Rollbacks())
        invariant job.ino in world.nodes && world.nodes[job.ino].kind == Regular && world.nodes[job.ino].data == job.data[..offset]
        invariant calm ==> SameButStaged(job, old(world), world)
      {
        var end := if offset + READ_CHUNK <= |job.data| then offset + READ_CHUNK else |job.data|;
        var count := Write(job.data[offset..end]);
        if count <= 0 { return false; }
        NextSlice(job.data, offset, end, count);
        offset := offset + count;
      }
      assert job.data[..offset] == job.data;
      return true;
    }

    /** After a failed parent sync: unlink the destination exactly when it still names the staged inode
        at the staged size.  This fails only if the look or the unlink fails, or the destination vanishes
        between the two. */
    method RollBack(staged: Stat) returns (ok: bool)
      requires Inv() && job.noClobber && staged.ino == job.ino && HasData(job, world)
      requires Rollbacks() == 0 && trace.marks.unsynced.Some? && trace.marks.compared.None? && trace.marks.cause.None?
      modifies `world, `trace
      ensures Inv() && stuck == old(stuck) && Publications() == old(Publications())
      ensures trace.marks == old(trace.marks).(compared := trace.marks.compared, cause := trace.marks.cause)
      ensures HasTmp(job, world) <==> old(HasTmp(job, world))
      ensures ok ==> trace.marks.compared.Some? && trace.marks.compared.value.step > |old(trace.log)| && trace.marks.cause.None?
      ensures !ok ==> Blamed(RollbackFailed)
      ensures Rollbacks() == if ok && trace.marks.compared.value.same then 1 else 0
      ensures ok && Rollbacks() == 1 ==> job.dest !in world.names
    {
      hide StepsOk;
      var current := Lstat(job.dest);
      if current == Unreadable {
        Blame(|trace.log| - 1, RollbackFailed);
        return false;
      }
      Mark(trace.marks.(compared := Some(Comparison(|trace.log| - 1, Staged(job, world)))));
      if current == Missing || current.stat.ino != staged.ino || current.stat.size != |job.data| { return true; }
      ok := UnlinkDestination();
    }

    /** The unlink of a rollback, right after the comparison. */
    method UnlinkDestination() returns (ok: bool)
      requires Inv() && job.noClobber && Rollbacks() == 0 && HasData(job, world)
      requires trace.marks.unsynced.Some? && trace.marks.cause.None?
      requires trace.marks.compared == Some(Comparison(|trace.log| - 1, true))
      modifies `world, `trace
      ensures Inv() && stuck == old(stuck) && Publications() == old(Publications())
      ensures trace.marks == old(trace.marks).(cause := trace.marks.cause)
      ensures HasTmp(job, world) <==> old(HasTmp(job, world))
      ensures Rollbacks() == if ok then 1 else 0
      ensures if ok then job.dest !in world.names && trace.marks.cause.None? else Blamed(RollbackFailed)
    {
      hide TraceOk, Rely, StepOk, HasData, Exposed, Complete;
      SyncIsPast();
      ok := Try();
      if !ok || job.dest !in world.names {
        UnlinkStopped(ok);
        Blame(|trace.log| - 1, RollbackFailed);
        return false;
      }
      RemoveDestination();
    }

    lemma SyncIsPast()
      requires Inv() && trace.marks.unsynced.Some?
      ensures trace.marks.unsynced.value < |trace.log|
    {
    }

    lemma UnlinkStopped(ok: bool)
      requires Inv() && trace.marks.unsynced.Some? && trace.marks.compared.Some? && trace.marks.compared.value.same
      requires |trace.log| >= 2 && trace.marks.unsynced.value < |trace.log| - 1
      requires if ok then trace.marks.compared.value.step == |trace.log| - 2 && job.dest !in world.names else LastIs(Fault)
      ensures Justifies(job, trace, |trace.log| - 1, RollbackFailed)
    {
      LastStep(job, trace, world);
    }

    method RemoveDestination()
      requires Inv() && job.noClobber && Rollbacks() == 0
      requires |trace.log| >= 2 && trace.marks.compared == Some(Comparison(|trace.log| - 2, true))
      modifies `world, `trace
      ensures Inv() && Publications() == old(Publications()) && Rollbacks() == 1 && trace.marks == old(trace.marks)
      ensures world == old(world).(names := old(world).names - {job.dest})
    {
      hide TraceOk;
      ghost var before := world;
      world := world.(names := world.names - {job.dest});
      ghost var e := Event(Rollback, before, world);
      AppendRollback(job, trace, e);
      CountAppend(trace.log, e, Call.Publish);
      CountAppend(trace.log, e, Rollback);
      trace := Append(trace, e);
    }

    /** Every descriptor is closed exactly once or, if it is in `held`, still to be closed; only the
        `spoiled` one, whose close failed, is or will be closed once more. */
    ghost predicate FdsOk(held: set<nat>, spoiled: Option<nat>) reads `fds { Booked(fds, held, spoiled) }

    /** Closing in a finally block: a failure is ignored. */
    method CloseQuietly(fd: nat, ghost held: set<nat>, ghost spoiled: Option<nat>)
      requires Inv() && FdsOk(held, spoiled) && fd in held
      modifies `world, `trace, `fds
      ensures Inv() && Quiet() && Still() && FdsOk(held - {fd}, spoiled) && |fds| == |old(fds)|
    {
      hide Inv, Quiet;
      var ok := Close(fd);
    }

    /** `fsync` of a directory; a file system that does not support it counts as done. */
    method SyncDirectory() returns (ok: bool)
      requires Inv()
      modifies `world, `trace
      ensures Inv() && Quiet() && Still() && LastIs(if ok then Sync else Fault) && (calm ==> ok)
    {
      hide TraceOk, Complete, Rely, HasTmp, HasData;
      ok := Try();
      if ok { Record(Sync, world); }
    }

    /** `_sync_parent`: the parent is synced, or the system cannot sync directories, or a call failed. */
    method SyncParent(ghost held: set<nat>) returns (ok: bool)
      requires Inv() && FdsOk(held, None) && trace.marks.cause.None? && trace.marks.compared.None?
      modifies `world, `trace, `fds
      ensures Inv() && QuietButMarks() && Still() && FdsOk(held, None) && |fds| >= |old(fds)|
      ensures trace.marks == old(trace.marks).(synced := trace.marks.synced, unsynced := trace.marks.unsynced)
      ensures ok ==> trace.marks.unsynced == old(trace.marks.unsynced) && (nt || trace.marks.synced.Some?)
      ensures !ok ==> trace.marks.unsynced.Some?
      ensures calm ==> ok
    {
      hide Inv, HasData, HasTmp, Count, Booked;
      if nt { return true; }
      ok := Other();
      if !ok {
        Mark(trace.marks.(unsynced := Some(|trace.log| - 1)));
        return;
      }
      var parent, directory: Ino := |fds|, *;
      OneMoreOpen(fds, held, directory);
      fds := fds + [Fd(directory, 0, false)];
      ok := SyncDirectory();
      if ok {
        Mark(trace.marks.(synced := Some(|trace.log| - 1)));
      } else {
        Mark(trace.marks.(unsynced := Some(|trace.log| - 1)));
      }
      CloseQuietly(parent, held + {parent}, None);
      assert held + {parent} - {parent} == held;
    }

    /** The descriptor just opened and the path must both still be the file that was inspected. */
    method IsExisting(fd: nat, existing: Stat) returns (same: bool, error: Error)
      requires Inv() && Inspected(Found(existing)) && existing.kind == Regular && fd < |fds|
      requires trace.log != [] && trace.log[|trace.log| - 1] == Event(Look, world, world)
      requires job.dest in world.names && world.names[job.dest] == fds[fd].ino
      modifies `world, `trace
      ensures Inv() && QuietButMarks() && Still() && error in {CannotOpen, Changed}
      ensures trace.marks == old(trace.marks).(cause := trace.marks.cause)
      ensures if same then trace.marks.cause.None? && fds[fd].ino == existing.ino else Blamed(error)
      ensures !same ==> (error == CannotOpen <==> |trace.log| == |old(trace.log)| + 2)
      ensures calm && LookAt(world, job.dest) == Found(existing) ==> same
    {
      hide Inv, HasData, HasTmp, Count, Justifies;
      error := CannotOpen;
      ghost var first := |trace.log| - 1;
      var info := Fstat(fd);
      ghost var second := |trace.log| - 1;
      if info.None? || info.value.kind != Regular {
        BlameChange(if fds[fd].ino != existing.ino then first else second, existing, error);
        return false, error;
      }
      error := Changed;
      var current := Lstat(job.dest);
      same := current.Found? && info.value.ino == existing.ino && info.value.size == existing.size
        && current.stat.ino == existing.ino && current.stat.size == existing.size;
      if !same {
        ghost var third := |trace.log| - 1;
        BlameChange(if info.value.ino != existing.ino then first else if info.value.size != existing.size then second else third,
          existing, error);
      }
    }

    /** `_open_existing_output`: only a descriptor for the very file that was inspected. */
    method OpenExisting(existing: Stat, ghost held: set<nat>) returns (fd: Option<nat>, error: Error)
      requires Inv() && FdsOk(held, None) && Inspected(Found(existing)) && existing.kind == Regular
      modifies `world, `trace, `fds
      ensures Inv() && QuietButMarks() && |fds| >= |old(fds)| && error in {CannotOpen, Changed}
      ensures trace.marks == old(trace.marks).(cause := trace.marks.cause)
      ensures if fd.None? then FdsOk(held, None) && Blamed(error) else trace.marks.cause.None?
      ensures Still() && (calm && LookAt(world, job.dest) == Found(existing) ==> fd.Some?)
      ensures fd.Some? ==> fd.value < |fds| && fd.value !in held && FdsOk(held + {fd.value}, None) && fds[fd.value] == Fd(existing.ino, 0, false)
    {
      hide Inv, HasData, HasTmp, Count, Booked, Justifies;
      error := CannotOpen;
      fd := Open(job.dest);
      var denied: bool := *;  // an access failure is retried with other flags where O_PATH is missing
      if fd.None? && denied { fd := Open(job.dest); }
      if fd.None? {
        BlameChange(|trace.log| - 1, existing, error);
        return;
      }
      OneMoreOpen(fds[..fd.value], held, fds[fd.value].ino);
      var same;
      same, error := IsExisting(fd.value, existing);
      if !same {
        CloseQuietly(fd.value, held + {fd.value}, None);
        assert held + {fd.value} - {fd.value} == held;
        fd := None;
      }
    }

    /** A calm system on which the destination still is what was found and opened. */
    predicate Recognised(existing: Look, existingFd: Option<nat>)
      requires existing.Found? ==> existingFd.Some? && existingFd.value < |fds|
      reads `world, `fds
    {
      && calm && LookAt(world, job.dest) == existing != Unreadable
      && (existing.Found? ==> fds[existingFd.value].ino == existing.stat.ino)
    }

    /** Nothing stands in the way of publication. */
    predicate Undisturbed(existing: Look, existingFd: Option<nat>)
      reads `world, `fds
    {
      && (existing.Found? ==> existingFd.Some? && existingFd.value < |fds|) && Recognised(existing, existingFd)
      && (job.noClobber ==> job.dest !in world.names)
    }

    /** The checks right before publication. */
    method CheckDestination(existing: Look, existingFd: Option<nat>) returns (error: Option<Error>)
      requires Inv() && (existing.Found? <==> existingFd.Some?) && (existing.Found? ==> !job.noClobber)
      requires existingFd.Some? ==> existingFd.value < |fds| && fds[existingFd.value].ino == existing.stat.ino
      requires Inspected(existing)
      modifies `world, `trace
      ensures Inv() && QuietButMarks() && (error.Some? ==> !Late(error.value) && error.value !in {TooLarge, CloseFailed})
      ensures trace.marks == old(trace.marks).(checked := trace.marks.checked, cause := trace.marks.cause)
      ensures if error.Some? then Blamed(error.value) else trace.marks.cause.None?
      ensures error.None? ==> trace.marks.checked.Some? && trace.marks.checked.value > |old(trace.log)|
      ensures Still() && (Recognised(existing, existingFd) ==> error.None?)
    {
      hide Inv, HasData, HasTmp, Count;
      FirstIsPast();
      error := CheckAgain(existing, existingFd);
      if error.Some? { Blame(|trace.log| - 1, error.value); }
    }

    /** The second look; a failure is due to the last step. */
    method CheckAgain(existing: Look, existingFd: Option<nat>) returns (error: Option<Error>)
      requires Inv() && (existing.Found? <==> existingFd.Some?) && (existing.Found? ==> !job.noClobber)
      requires existingFd.Some? ==> existingFd.value < |fds| && fds[existingFd.value].ino == existing.stat.ino
      requires Inspected(existing)
      modifies `world, `trace
      ensures Inv() && QuietButMarks() && (error.Some? ==> !Late(error.value) && error.value !in {TooLarge, CloseFailed})
      ensures trace.marks == old(trace.marks).(checked := trace.marks.checked) && trace.log != []
      ensures if error.Some? then Justifies(job, trace, |trace.log| - 1, error.value)
              else trace.marks.checked.Some? && trace.marks.checked.value > |old(trace.log)|
      ensures Still() && (Recognised(existing, existingFd) ==> error.None?)
    {
      hide Inv, HasData, HasTmp, Count, AsFound, Disturbed;
      FirstIsPast();
      var sameParent := Other();
      if !sameParent { return Some(Changed); }
      var current := Lstat(job.dest);
      if current == Unreadable { return Some(CannotInspect); }
      if existing.Found? {
        error := CheckExisting(current, existing.stat, existingFd.value);
      } else {
        error := CheckUnclaimed(existing, current);
      }
    }

    /** The last step looked at the destination, after the first look, and found `current`. */
    ghost predicate JustSaw(current: Look) reads `world, `trace {
      JustFound(current) && current != Unreadable && trace.marks.first.Some? && trace.marks.first.value.step < |trace.log| - 1
    }

    method CheckExisting(current: Look, was: Stat, fd: nat) returns (error: Option<Error>)
      requires Inv() && Inspected(Found(was)) && JustSaw(current) && !job.noClobber
      requires fd < |fds| && fds[fd].ino == was.ino
      modifies `world, `trace
      ensures Inv() && QuietButMarks() && Still() && error in {None, Some(Changed)}
      ensures trace.marks == old(trace.marks).(checked := trace.marks.checked) && trace.log != []
      ensures if error.Some? then Justifies(job, trace, |trace.log| - 1, Changed)
              else trace.marks.checked == Some(|old(trace.log)| - 1)
      ensures calm && LookAt(world, job.dest) == Found(was) ==> error.None?
    {
      hide Inv, HasData, HasTmp, Count;
      if current == Missing || current.stat.ino != was.ino || current.stat.size != was.size { return Some(Changed); }
      Mark(trace.marks.(checked := Some(|trace.log| - 1)));
      var now := Fstat(fd);
      if now.None? || now.value.ino != was.ino || now.value.size != was.size { return Some(Changed); }
      return None;
    }

    method CheckUnclaimed(existing: Look, current: Look) returns (error: Option<Error>)
      requires Inv() && Inspected(existing) && !existing.Found? && JustSaw(current)
      modifies `trace
      ensures Inv() && QuietButMarks() && Still() && error in {None, Some(NotRegular), Some(AlreadyExists)}
      ensures trace == old(trace).(marks := old(trace.marks).(checked := trace.marks.checked)) && trace.log != []
      ensures if error.Some? then Justifies(job, trace, |trace.log| - 1, error.value)
              else trace.marks.checked == Some(|trace.log| - 1)
      ensures LookAt(world, job.dest) == Missing ==> error.None?
    {
      hide Inv, HasData, HasTmp, Count;
      if current.Found? {
        if current.stat.kind != Regular { return Some(NotRegular); }
        if job.noClobber { return Some(AlreadyExists); }
      }
      Mark(trace.marks.(checked := Some(|trace.log| - 1)));
      return None;
    }

    /** The first look at the destination is on record, and nothing else yet. */
    ghost predicate Inspected(existing: Look) reads `trace {
      && trace.marks.first.Some? && trace.marks.first.value.look == existing
      && trace.marks == NO_MARKS.(first := trace.marks.first)
    }

    lemma FirstIsPast()
      requires Inv() && trace.marks.first.Some?
      ensures trace.marks.first.value.step < |trace.log|
    {
    }

    /** What the outcome says about the run. */
    ghost predicate Reported(r: Outcome) reads `trace {
      && Publications() == (if r.Published? || Late(r.error) then 1 else 0)
      && (if r.Published? then trace.marks.cause.None? && (nt || trace.marks.synced.Some?)
          else r.error == TooLarge || Blamed(r.error))
      && (r in {Failed(SyncFailed), Failed(RollbackFailed)} ==> trace.marks.unsynced.Some?)
      && (Publications() == 1 ==> trace.marks.checked.Some?)
      && (r.Published? || r == Failed(SyncFailed) ==> trace.marks.seen.Some?)
      && (if r == Failed(SyncFailed) && job.noClobber
          then trace.marks.compared.Some? && Rollbacks() == (if trace.marks.compared.value.same then 1 else 0)
          else Rollbacks() == 0)
    }

    lemma SyncFault()
      requires Inv() && trace.marks.unsynced.Some?
      ensures Justifies(job, trace, trace.marks.unsynced.value, SyncFailed)
    {
    }

    lemma NamesDiffer()
      requires Inv()
      ensures job.tmp != job.dest
    {
    }

    lemma FdInRange(held: set<nat>, fd: nat)
      requires FdsOk(held, None) && fd in held
      ensures fd < |fds|
    {
    }

    /** The published path must name exactly the staged file. */
    method Confirm(temporary: Option<nat>, staged: Stat, ghost held: set<nat>) returns (after: Option<Stat>)
      requires Inv() && FdsOk(held, None) && HasData(job, world) && staged == Stat(job.ino, Regular, |job.data|)
      requires temporary.Some? ==> temporary.value in held && fds[temporary.value].ino == job.ino
      requires trace.marks.cause.None?
      modifies `world, `trace
      ensures Inv() && QuietButMarks() && Still()
      ensures trace.marks == old(trace.marks).(seen := trace.marks.seen, cause := trace.marks.cause)
      ensures if after.Some? then after.value.ino == job.ino && trace.marks.seen.Some? && trace.marks.cause.None?
              else Blamed(PublishedChanged)
      ensures after.Some? ==> |trace.log| == |old(trace.log)| + (if temporary.Some? then 4 else 2)
      ensures calm && Staged(job, world) ==> after.Some?
    {
      hide Inv, HasTmp, Count, TraceOk, StepOk, Booked;
      var final := Lstat(job.dest);
      ghost var lookedAt := |trace.log| - 1;
      if !final.Found? {
        Blame(lookedAt, PublishedChanged);
        return None;
      }
      if final.stat.ino == staged.ino {
        Mark(trace.marks.(seen := Some(lookedAt)));
      }
      after := Some(staged);
      if temporary.Some? {
        FdInRange(held, temporary.value);
        after := Fstat(temporary.value);
        if after.None? {
          Blame(|trace.log| - 1, PublishedChanged);
          return;
        }
      }
      if final.stat.ino != after.value.ino || final.stat.size != |job.data| || after.value.size != |job.data| {
        Blame(lookedAt, PublishedChanged);
        return None;
      }
    }

    /** The parent sync and, in no-clobber mode, its rollback. */
    method SyncOrRollBack(staged: Stat, ghost held: set<nat>) returns (r: Outcome)
      requires Inv() && FdsOk(held, None) && HasData(job, world) && staged.ino == job.ino
      requires Publications() == 1 && Rollbacks() == 0 && trace.marks.checked.Some? && trace.marks.seen.Some?
      requires trace.marks.synced.None? && trace.marks.unsynced.None? && trace.marks.compared.None? && trace.marks.cause.None?
      modifies `world, `trace, `fds
      ensures Inv() && FdsOk(held, None) && stuck == old(stuck) && Reported(r) && |fds| >= |old(fds)|
      ensures r.Published? || Late(r.error)
      ensures calm ==> r == Published && world == old(world)
    {
      hide Inv, HasTmp, HasData, Count, Booked;
      var ok := SyncParent(held);
      if ok { return Published; }
      if job.noClobber {
        ok := RollBack(staged);
        if !ok { return Failed(RollbackFailed); }
      }
      SyncFault();
      Blame(trace.marks.unsynced.value, SyncFailed);
      return Failed(SyncFailed);
    }

    /** Publication, the check afterwards, the parent sync and its rollback. */
    method Commit(temporary: Option<nat>, staged: Stat, ghost held: set<nat>) returns (r: Outcome)
      requires Inv() && FdsOk(held, None) && HasTmp(job, world) && HasData(job, world)
      requires staged == Stat(job.ino, Regular, |job.data|)
      requires temporary.Some? ==> temporary.value in held && fds[temporary.value].ino == job.ino
      requires Publications() == 0 && Rollbacks() == 0 && Ready(trace.marks)
      modifies `world, `trace, `fds
      ensures Inv() && FdsOk(held, None) && stuck == old(stuck) && Reported(r) && |fds| >= |old(fds)|
      ensures r !in {Failed(TooLarge), Failed(CloseFailed)}
      ensures calm && (job.noClobber ==> job.dest !in old(world).names) ==>
                r == Published && world == Renamed(job, old(world))
    {
      hide Inv, HasTmp, HasData, Count, TraceOk, StepOk, Booked, PublishedNames, Renamed, Staged, Justifies;
      NamesDiffer();
      PublishedThenUnlinked(job, world);
      var ok := PublishName();
      if !ok {
        Blame(|trace.log| - 1, PublishFailed);
        return Failed(PublishFailed);
      }
      var after := Confirm(temporary, staged, held);
      if after.None? { return Failed(PublishedChanged); }
      if job.noClobber {
        ok := UnlinkStaging();
        if !ok {
          BlameFault(UnlinkFailed);
          return Failed(UnlinkFailed);
        }
      }
      r := SyncOrRollBack(after.value, held);
    }

    /** Fills, syncs and checks the staged file. */
    method Fill(temporary: nat) returns (staged: Option<Stat>)
      requires Inv() && temporary < |fds| && fds[temporary].ino == job.ino && HasTmp(job, world) && !Exposed(job, world)
      requires job.ino in world.nodes && world.nodes[job.ino] == Node(Regular, [], false)
      modifies `world, `trace
      ensures Inv() && HasTmp(job, world) && stuck == old(stuck) && trace.marks == old(trace.marks)
      ensures Publications() == old(Publications()) && Rollbacks() == old(Rollbacks())
      ensures if staged.Some? then HasData(job, world) && staged.value == Stat(job.ino, Regular, |job.data|) else LastIs(Fault)
      ensures calm ==> staged.Some? && SameButStaged(job, old(world), world)
    {
      hide Inv, HasTmp, Count;
      var ok := Other();
      if !ok { return None; }
      ok := WriteAll();
      if !ok { return None; }
      ok := SyncFile();
      if !ok { return None; }
      staged := Fstat(temporary);
      if staged.None? || staged.value.kind != Regular || staged.value.size != |job.data| { return None; }
    }

    /** The destination descriptor is closed before publication, and on Windows the staging one too. */
    method CloseEarly(existingFd: Option<nat>, temporary: nat)
        returns (ok: bool, openExisting: Option<nat>, openTemporary: Option<nat>, ghost spoiled: Option<nat>)
      requires Inv() && FdsOk(FdSet(existingFd) + {temporary}, None) && existingFd != Some(temporary)
      modifies `world, `trace, `fds
      ensures Inv() && Quiet() && |fds| == |old(fds)| && FdsOk(FdSet(openExisting) + FdSet(openTemporary), spoiled)
      ensures ok ==> openExisting == None && spoiled == None && FdsOk(FdSet(openTemporary), None)
      ensures ok ==> openTemporary == if nt then None else Some(temporary)
      ensures ok && openTemporary.Some? ==> fds[temporary] == old(fds[temporary])
      ensures !ok ==> spoiled.Some? && LastIs(Fault)
      ensures openExisting in {None, existingFd} && openTemporary in {None, Some(temporary)}
      ensures Still() && (calm ==> ok)
    {
      hide Inv, HasData, HasTmp, Count;
      openExisting, openTemporary, spoiled := existingFd, Some(temporary), None;
      if existingFd.Some? {
        ok := Close(existingFd.value);
        if !ok { spoiled := existingFd; return; }
        openExisting := None;
      }
      if nt {
        ok := Close(temporary);
        if !ok { spoiled := Some(temporary); return; }
        openTemporary := None;
      }
      assert FdSet(openExisting) + FdSet(openTemporary) == FdSet(openTemporary);
      ok := true;
    }

    /** Everything between creating the staging file and its removal. */
    method Attempt(existing: Look, existingFd: Option<nat>, temporary: nat)
        returns (r: Outcome, openExisting: Option<nat>, openTemporary: Option<nat>, ghost spoiled: Option<nat>)
      requires Inv() && FdsOk(FdSet(existingFd) + {temporary}, None) && existingFd != Some(temporary)
      requires fds[temporary].ino == job.ino
      requires existingFd.Some? && existing.Found? ==> fds[existingFd.value].ino == existing.stat.ino
      requires (existing.Found? <==> existingFd.Some?) && (existing.Found? ==> !job.noClobber)
      requires HasTmp(job, world) && !Exposed(job, world)
      requires job.ino in world.nodes && world.nodes[job.ino] == Node(Regular, [], false)
      requires Publications() == 0 && Rollbacks() == 0 && Inspected(existing)
      modifies `world, `trace, `fds
      ensures Inv() && stuck == old(stuck) && Reported(r) && r != Failed(TooLarge)
      ensures FdsOk(FdSet(openExisting) + FdSet(openTemporary), spoiled) && (spoiled.Some? <==> r == Failed(CloseFailed))
      ensures openExisting in {None, existingFd} && openTemporary in {None, Some(temporary)}
      ensures old(Undisturbed(existing, existingFd)) ==> r == Published && world == Renamed(job, Filled(job, old(world)))
    {
      hide Inv, HasTmp, Count, Exposed, Booked, Renamed, LookAt, Justifies;
      openExisting, openTemporary, spoiled := existingFd, Some(temporary), None;
      assert FdSet(openTemporary) == {temporary};
      FdInRange(FdSet(existingFd) + {temporary}, temporary);
      NamesDiffer();
      ghost var start := world;
      var staged := Fill(temporary);
      if staged.None? {
        BlameFault(StagingFailed);
        return Failed(StagingFailed), openExisting, openTemporary, spoiled;
      }
      if calm {
        LookUnaffected(job, start, world);
        assert world == Filled(job, start);
      }
      if existingFd.Some? { FdInRange(FdSet(existingFd) + {temporary}, existingFd.value); }
      var error := CheckDestination(existing, existingFd);
      if error.Some? { return Failed(error.value), openExisting, openTemporary, spoiled; }
      var ok;
      ok, openExisting, openTemporary, spoiled := CloseEarly(existingFd, temporary);
      if !ok {
        BlameFault(CloseFailed);
        return Failed(CloseFailed), openExisting, openTemporary, spoiled;
      }
      r := Commit(openTemporary, staged.value, FdSet(openTemporary));
      assert FdSet(openExisting) + FdSet(openTemporary) == FdSet(openTemporary);
    }
 
    lemma DestinationStays(start: World)
      ensures job.tmp != job.dest ==> (job.dest in Created(job, start).names <==> job.dest in start.names)
    {
    }

    lemma BeforeStaging()
      requires Inv() && !HasTmp(job, world) && job.ino !in world.nodes
      ensures job.tmp != job.dest && job.tmp !in world.names && !Exposed(job, world)
    {
    }

    /** Creates the staging file, and closes and unlinks it whatever happened. */
    method Stage(existing: Look, existingFd: Option<nat>)
        returns (r: Outcome, openExisting: Option<nat>, ghost spoiled: Option<nat>)
      requires Inv() && FdsOk(FdSet(existingFd), None) && !HasTmp(job, world) && job.ino !in world.nodes
      requires (existing.Found? <==> existingFd.Some?) && (existing.Found? ==> !job.noClobber)
      requires existingFd.Some? && existing.Found? ==> fds[existingFd.value].ino == existing.stat.ino
      requires Publications() == 0 && Rollbacks() == 0 && !stuck && Inspected(existing)
      modifies this
      ensures Inv() && Reported(r) && r != Failed(TooLarge) && (!stuck ==> !HasTmp(job, world))
      ensures FdsOk(FdSet(openExisting), spoiled) && (spoiled.Some? <==> r == Failed(CloseFailed))
      ensures old(Undisturbed(existing, existingFd)) ==>
                r == Published && world == PublishedWorld(job, old(world)) && !stuck
    {
      hide Booked, Inv, HasTmp, Count, HasData, Exposed, PublishedWorld, Renamed, Filled, Created, LookAt;
      openExisting, spoiled := existingFd, None;
      BeforeStaging();
      LookBesideStaging(job, world);
      AllSteps(job, world);
      ghost var start := world;
      var temporary := Create();
      if temporary.None? {
        BlameFault(StagingFailed);
        return Failed(StagingFailed), openExisting, spoiled;
      }
      OneMoreOpen(fds[..temporary.value], FdSet(existingFd), job.ino);
      DestinationStays(start);
      assert old(Undisturbed(existing, existingFd)) ==> Undisturbed(existing, existingFd);
      var openTemporary;
      r, openExisting, openTemporary, spoiled := Attempt(existing, existingFd, temporary.value);
      CloseStaging(openExisting, openTemporary, spoiled);
      var ok := UnlinkStaging();
      if !ok { stuck := true; }
    }

    method CloseStaging(openExisting: Option<nat>, openTemporary: Option<nat>, ghost spoiled: Option<nat>)
      requires Inv() && FdsOk(FdSet(openExisting) + FdSet(openTemporary), spoiled)
      requires openExisting.Some? ==> openExisting != openTemporary
      modifies `world, `trace, `fds
      ensures Inv() && Quiet() && Still() && FdsOk(FdSet(openExisting), spoiled)
    {
      hide Inv, Booked, HasTmp, HasData;
      if openTemporary.Some? {
        CloseQuietly(openTemporary.value, FdSet(openExisting) + FdSet(openTemporary), spoiled);
        assert FdSet(openExisting) + FdSet(openTemporary) - {openTemporary.value} == FdSet(openExisting);
      } else {
        assert FdSet(openExisting) + FdSet(openTemporary) == FdSet(openExisting);
      }
    }

    /** What is wrong with the destination, if anything: it must be missing, or a regular file that may be
        overwritten. */
    function Unwelcome(): Option<Error> reads `world {
      match LookAt(world, job.dest)
      case Missing => None
      case Unreadable => Some(CannotInspect)
      case Found(info) =>
        if info.kind != Regular then Some(NotRegular) else if job.noClobber then Some(AlreadyExists) else None
    }

    /** The parent directory, the first look at the destination, and its descriptor. */
    method Prepare() returns (existing: Look, existingFd: Option<nat>, error: Option<Error>)
      requires Inv() && FdsOk({}, None) && trace.marks == NO_MARKS && Publications() == 0 && Rollbacks() == 0
      modifies `world, `trace, `fds
      ensures Inv() && QuietButMarks() && FdsOk(FdSet(existingFd), None)
      ensures error.Some? ==> existingFd.None? && !Late(error.value) && error.value !in {TooLarge, CloseFailed}
      ensures if error.Some? then Blamed(error.value) else Inspected(existing) && existing != Unreadable
      ensures Still() && (calm ==> error == old(Unwelcome()) && (error.None? ==> Undisturbed(existing, existingFd)))
      ensures error.None? ==> (existing.Found? <==> existingFd.Some?)
      ensures error.None? && existing.Found? ==> !job.noClobber && existing.stat.kind == Regular
      ensures error.None? && existing.Found? ==> existingFd.value < |fds| && fds[existingFd.value].ino == existing.stat.ino
    {
      hide Inv, HasTmp, HasData, Booked, Count;
      existing, existingFd := Unreadable, None;
      var ok := Other();
      if !ok {
        BlameFault(ParentInvalid);
        return existing, None, Some(ParentInvalid);
      }
      existing := Lstat(job.dest);
      if existing == Unreadable {
        Blame(|trace.log| - 1, CannotInspect);
        return existing, None, Some(CannotInspect);
      }
      Mark(NO_MARKS.(first := Some(Inspection(|trace.log| - 1, existing))));
      if existing.Found? {
        existingFd, error := Admit(existing.stat);
      } else {
        error := None;
      }
    }

    /** An existing destination must be a regular file and may be overwritten only on request. */
    method Admit(existing: Stat) returns (fd: Option<nat>, error: Option<Error>)
      requires Inv() && FdsOk({}, None) && Inspected(Found(existing)) && JustFound(Found(existing))
      modifies `world, `trace, `fds
      ensures Inv() && QuietButMarks() && FdsOk(FdSet(fd), None)
      ensures trace.marks == old(trace.marks).(cause := trace.marks.cause)
      ensures if error.Some? then fd.None? && Blamed(error.value) && error.value in {NotRegular, AlreadyExists, CannotOpen, Changed}
              else trace.marks.cause.None? && !job.noClobber && existing.kind == Regular
                   && fd.Some? && fd.value < |fds| && fds[fd.value].ino == existing.ino
      ensures Still() && (calm ==> error == old(Unwelcome()))
    {
      hide Inv, HasTmp, HasData, Booked, Count, Justifies;
      if existing.kind != Regular {
        BlameLook(existing, NotRegular);
        return None, Some(NotRegular);
      }
      if job.noClobber {
        BlameLook(existing, AlreadyExists);
        return None, Some(AlreadyExists);
      }
      var e;
      fd, e := OpenExisting(existing, {});
      if fd.None? { return None, Some(e); }
      assert {} + FdSet(fd) == FdSet(fd);
      error := None;
    }

    /** The last step looked at the destination and found this. */
    ghost predicate JustFound(look: Look) reads `world, `trace {
      trace.log != [] && trace.log[|trace.log| - 1] == Event(Look, world, world) && look == LookAt(world, job.dest)
    }

    /** What the last look found is in the way. */
    ghost method BlameLook(found: Stat, error: Error)
      requires Inv() && trace.marks.cause.None? && JustFound(Found(found))
      requires (error == NotRegular && found.kind != Regular) || (error == AlreadyExists && job.noClobber)
      modifies `trace
      ensures Inv() && trace == old(trace).(marks := trace.marks) && Blamed(error)
      ensures trace.marks == old(trace.marks).(cause := trace.marks.cause)
    {
      hide Inv;
      Blame(|trace.log| - 1, error);
    }

    /** The staging with the descriptor of the existing destination closed after it. */
    method StageAndClose(existing: Look, existingFd: Option<nat>) returns (r: Outcome, ghost spoiled: Option<nat>)
      requires Inv() && FdsOk(FdSet(existingFd), None) && !HasTmp(job, world) && job.ino !in world.nodes
      requires (existing.Found? <==> existingFd.Some?) && (existing.Found? ==> !job.noClobber)
      requires existingFd.Some? && existing.Found? ==> fds[existingFd.value].ino == existing.stat.ino
      requires Publications() == 0 && Rollbacks() == 0 && !stuck && Inspected(existing)
      modifies this
      ensures Inv() && Reported(r) && r != Failed(TooLarge) && (!stuck ==> !HasTmp(job, world))
      ensures FdsOk({}, spoiled) && (spoiled.Some? <==> r == Failed(CloseFailed))
      ensures old(Undisturbed(existing, existingFd)) ==>
                r == Published && world == PublishedWorld(job, old(world)) && !stuck
    {
      hide Inv, HasTmp, HasData, Booked, Count, PublishedWorld, LookAt;
      var openExisting;
      r, openExisting, spoiled := Stage(existing, existingFd);
      if openExisting.Some? {
        CloseQuietly(openExisting.value, {openExisting.value}, spoiled);
        assert {openExisting.value} - {openExisting.value} == {};
      }
    }

    /** `_publish`, on every exit. */
    method Publish(maxBytes: int) returns (r: Outcome, ghost spoiled: Option<nat>)
      requires Inv() && fds == [] && trace == Trace([], NO_MARKS) && !stuck
      requires !HasTmp(job, world) && job.ino !in world.nodes
      modifies this
      ensures Inv() && Reported(r)
      ensures FdsOk({}, spoiled) && (spoiled.Some? <==> r == Failed(CloseFailed))
      ensures !stuck ==> !HasTmp(job, world)
      ensures (r == Failed(TooLarge) <==> |job.data| > maxBytes) && (r == Failed(TooLarge) ==> trace.log == [])
      ensures calm && |job.data| <= maxBytes ==>
                && !stuck
                && (if old(Unwelcome()).Some? then r == Failed(old(Unwelcome()).value) && world == old(world)
                    else r == Published && world == PublishedWorld(job, old(world)))
    {
      assert FdsOk({}, None) && Count([], Call.Publish) == 0 && Count([], Rollback) == 0;
      hide Inv, HasTmp, HasData, Booked, Count, PublishedWorld, LookAt;
      spoiled := None;
      if |job.data| > maxBytes { return Failed(TooLarge), spoiled; }
      var existing, existingFd, error := Prepare();
      if error.Some? { return Failed(error.value), spoiled; }
      r, spoiled := StageAndClose(existing, existingFd);
    }
  }
}
