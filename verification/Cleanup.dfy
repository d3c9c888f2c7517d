/**
 The kill/reap/join phase of the bounded process runner, with its waiting times.

 Time is an integer number of nanoseconds.  A wait ends when what it waits for happens or after its
 timeout; everything else takes no time.  Between the runner's own steps the child may exit, the
 process group may disappear and pipe workers may end; none of these is ever undone.
 */
module Cleanup {
  import opened Common

  const SECOND: int := 1_000_000_000
  const CLEANUP_WAIT: int := 5 * SECOND
  const THREAD_JOIN: int := SECOND
  const DARWIN_EXIT_RACE: int := SECOND
  const DARWIN_EXIT_RACE_POLL: int := SECOND / 100

  /** What a system call on a process or a group reports. */
  datatype Signal = Delivered | NoSuchProcess | NotPermitted | OtherError

  datatype WaitResult = Exited | TimedOut | WaitError

  /** Why cleanup failed; the source joins texts. */
  datatype CleanupError = TerminationFailed | NotReaped | WorkerAlive

  /** A signal that could not be sent; a process that is gone is no failure. */
  predicate Failed(s: Signal) { s == NotPermitted || s == OtherError }

  /** What one look of the Darwin check saw: `poll` failed, the child is still there, or the answer of
      the group to signal zero. */
  datatype Sight = PollFailed | Running | Probed(s: Signal)

  predicate Ambiguous(v: Sight) { v == Running || v == Probed(NotPermitted) }

  /** The looks of a whole check: the first that is not ambiguous is the last. */
  predicate FirstClear(sights: seq<Sight>) {
    sights != [] && forall i :: 0 <= i < |sights| - 1 ==> Ambiguous(sights[i])
  }

  class Runner {
    const darwin: bool
    const honest: bool           // no system call fails or gives an ambiguous answer
    var clock: int
    var exited: bool             // the direct child is gone
    var groupGone: bool          // no process is left in the group
    var polled: bool             // poll or wait has reaped the direct child
    var alive: seq<bool>         // one flag for each pipe worker started
    var stopSet: bool
    var groupKills: nat
    var directKills: nat
    var streamsClosed: bool
    ghost var aliveAtClose: bool

    constructor (darwin: bool, honest: bool, clock: int, workers: seq<bool>)
      ensures this.darwin == darwin && this.honest == honest && this.clock == clock && alive == workers
      ensures !exited && !polled && !groupGone && !stopSet && groupKills == directKills == 0 && !streamsClosed && !aliveAtClose
    {
      this.darwin, this.honest, this.clock, alive := darwin, honest, clock, workers;
      exited, groupGone, polled, stopSet, groupKills, directKills, streamsClosed, aliveAtClose :=
        false, false, false, false, 0, 0, false, false;
    }

    ghost predicate AnyAlive() reads this { exists i :: 0 <= i < |alive| && alive[i] }

    /** The child, the group and the workers can only go away. */
    twostate predicate OnlyEnds() reads this {
      && |alive| == |old(alive)| && (forall i :: 0 <= i < |alive| && alive[i] ==> old(alive)[i])
      && (old(exited) ==> exited) && (old(groupGone) ==> groupGone) && (old(polled) ==> polled)
      && old(clock) <= clock
    }

    /** Time passes and the environment moves on. */
    method Pass(atMost: int) returns (d: int)
      requires atMost >= 0
      modifies `clock, `exited, `groupGone, `alive
      ensures 0 <= d <= atMost && clock == old(clock) + d && OnlyEnds()
    {
      d :| 0 <= d <= atMost;
      clock := clock + d;
      if * { exited := true; }
      if * { groupGone := true; }
      var i := 0;
      while i < |alive|
        modifies `alive
        invariant 0 <= i <= |alive| == |old(alive)|
        invariant forall j :: 0 <= j < |alive| && alive[j] ==> old(alive)[j]
      {
        if * { alive := alive[i := false]; }
        i := i + 1;
      }
    }

    /** `process.poll() is not None`. */
    method Poll() returns (gone: bool)
      modifies `polled
      ensures gone == exited && polled == (old(polled) || exited)
    {
      gone := exited;
      polled := polled || exited;
    }

    /** `process.wait(timeout)`. */
    method Wait(timeout: int) returns (r: WaitResult)
      requires timeout >= 0
      modifies `clock, `exited, `groupGone, `alive, `polled
      ensures clock <= old(clock) + timeout && OnlyEnds()
      ensures r == Exited ==> polled && exited
      ensures r == TimedOut ==> !exited && clock == old(clock) + timeout
      ensures honest ==> r != WaitError && (old(exited) ==> r == Exited)
    {
      var d := Pass(timeout);
      var fails: bool := *;
      if fails && !honest {
        r := WaitError;
      } else if exited {
        polled := true;
        r := Exited;
      } else {
        clock := clock + (timeout - d);
        r := TimedOut;
      }
    }

    /** Signal zero to the group: it exists, it is gone, or the answer is ambiguous. */
    method ProbeGroup() returns (s: Signal)
      ensures s == NoSuchProcess ==> groupGone
      ensures honest ==> (s == NoSuchProcess <==> groupGone)
    {
      s := if groupGone then NoSuchProcess else Delivered;
      var other: Signal := *;
      if !honest && other != NoSuchProcess { s := other; }
    }

    /** `poll`, and signal zero to the group of a child that is gone. */
    method LookOnce() returns (v: Sight)
      modifies `polled
      ensures polled == (old(polled) || (v != PollFailed && exited))
      ensures v == Running ==> !exited
      ensures v.Probed? ==> exited && (v.s == NoSuchProcess ==> groupGone)
      ensures honest && exited && groupGone ==> v == Probed(NoSuchProcess)
    {
      var fails: bool := *;
      if fails && !honest { return PollFailed; }    // poll raised OSError
      var isGone := Poll();
      if !isGone { return Running; }
      var s := ProbeGroup();
      return Probed(s);
    }

    /** Looks until an answer is clear or the deadline is reached. */
    method LookUntil(deadline: int) returns (gone: bool, ghost sights: seq<Sight>)
      modifies `clock, `exited, `groupGone, `alive, `polled
      ensures (gone <==> FirstClear(sights) && sights[|sights| - 1] == Probed(NoSuchProcess)) && FirstClear(sights)
      ensures gone ==> polled && groupGone
      ensures Ambiguous(sights[|sights| - 1]) ==> clock >= deadline
      ensures honest && old(exited && groupGone) ==> gone
      ensures clock <= Max(old(clock), deadline) && clock - old(clock) <= |sights| * 10_000_000 && OnlyEnds()
    {
      sights := [];
      while true
        invariant OnlyEnds() && clock <= Max(old(clock), deadline)
        invariant forall i :: 0 <= i < |sights| ==> Ambiguous(sights[i])
        invariant honest && old(exited && groupGone) ==> sights == []
        invariant clock - old(clock) <= |sights| * 10_000_000
        decreases deadline - clock
      {
        var v := LookOnce();
        sights := sights + [v];
        if v == PollFailed { return false, sights; }
        if v == Probed(NoSuchProcess) { return true, sights; }
        if v.Probed? && v.s != NotPermitted { return false, sights; }
        var now := clock;
        if now >= deadline { return false, sights; }
        var pause := Min(DARWIN_EXIT_RACE_POLL, deadline - now);
        var _ := Pass(0);
        clock := now + pause;
      }
    }

    /** Whether a Darwin EPERM from the group kill was only the exit race: yes exactly if the first look
        that is not ambiguous found the child reaped and the group gone.  It looks at least every ten
        milliseconds, gives up on ambiguous looks exactly at its deadline, and takes at most one second
        and no time past the proof deadline. */
    method DarwinExitedGroupIsGone(error: Signal, deadline: Option<int>) returns (gone: bool, ghost sights: seq<Sight>)
      modifies `clock, `exited, `groupGone, `alive, `polled
      ensures gone ==> darwin && error == NotPermitted && polled && groupGone
      ensures gone <==> sights != [] && sights[|sights| - 1] == Probed(NoSuchProcess)
      ensures if darwin && error == NotPermitted then FirstClear(sights) else sights == []
      ensures sights != [] && Ambiguous(sights[|sights| - 1]) ==>
                clock >= Min(old(clock) + DARWIN_EXIT_RACE, match deadline case None => old(clock) + DARWIN_EXIT_RACE case Some(d) => d)
      ensures honest && darwin && error == NotPermitted && old(exited && groupGone) ==> gone
      ensures clock <= old(clock) + DARWIN_EXIT_RACE && OnlyEnds()
      ensures clock - old(clock) <= |sights| * 10_000_000
      ensures deadline.Some? ==> clock <= Max(old(clock), deadline.value)
    {
      if !darwin || error != NotPermitted {
        return false, [];
      }
      var raceDeadline := clock + DARWIN_EXIT_RACE;
      gone, sights := LookUntil(match deadline case None => raceDeadline case Some(d) => Min(d, raceDeadline));
    }

    /** Signals the group and the direct child; reports a failure exactly when a signal failed for
        another reason than a process that is gone, the proven Darwin exit race excepted. */
    method KillProcessTree(deadline: Option<int>)
      returns (failed: bool, ghost group: Signal, ghost direct: Signal, ghost sights: seq<Sight>)
      modifies `clock, `exited, `groupGone, `alive, `polled, `groupKills, `directKills
      ensures groupKills == old(groupKills) + 1 && directKills == old(directKills) + 1
      ensures failed <==>
                || (group in {NotPermitted, OtherError} && !(sights != [] && sights[|sights| - 1] == Probed(NoSuchProcess)))
                || direct in {NotPermitted, OtherError}
      ensures if darwin && group == NotPermitted then FirstClear(sights) else sights == []
      ensures honest && darwin && group == NotPermitted && old(exited && groupGone) ==>
                (failed <==> direct in {NotPermitted, OtherError})
      ensures clock <= old(clock) + DARWIN_EXIT_RACE && OnlyEnds()
      ensures deadline.Some? ==> clock <= Max(old(clock), deadline.value)
    {
      var groupSignal: Signal, directSignal: Signal := *, *;
      groupKills, directKills := groupKills + 1, directKills + 1;
      failed := false;
      group, direct, sights := groupSignal, directSignal, [];
      if Failed(groupSignal) {
        var gone;
        gone, sights := DarwinExitedGroupIsGone(groupSignal, deadline);
        failed := !gone;
      }
      if Failed(directSignal) {
        failed := true;
      }
    }

    function WaitBudget(maximum: int, deadline: Option<int>): (r: int)
      requires maximum >= 0
      reads `clock
      ensures 0 <= r <= maximum
      ensures deadline.Some? ==> clock + r <= Max(clock, deadline.value)
    {
      match deadline
      case None => maximum
      case Some(d) => Min(maximum, Max(0, d - clock))
    }

    /** One bounded attempt to reap the child, which runs out only after all its time. */
    method Reap(deadline: Option<int>) returns (r: WaitResult)
      requires stopSet
      modifies `clock, `exited, `groupGone, `alive, `polled
      ensures clock <= old(clock) + CLEANUP_WAIT && OnlyEnds()
      ensures deadline.Some? ==> clock <= Max(old(clock), deadline.value)
      ensures r == Exited ==> polled && exited
      ensures r == TimedOut ==> !exited && clock == old(clock) + old(WaitBudget(CLEANUP_WAIT, deadline))
      ensures honest ==> r != WaitError && (old(exited) ==> r == Exited)
    {
      var budget := WaitBudget(CLEANUP_WAIT, deadline);
      if budget <= 0 {
        var gone := Poll();
        if !gone { return TimedOut; }
      }
      r := Wait(budget);
    }

    /** `Thread.join`: until the worker ends or the time is over. */
    method Join(i: nat, timeout: int)
      requires i < |alive| && timeout >= 0
      modifies `clock, `exited, `groupGone, `alive
      ensures clock <= old(clock) + timeout && OnlyEnds()
      ensures alive[i] ==> clock == old(clock) + timeout
    {
      var d := Pass(timeout);
      if alive[i] { clock := clock + (timeout - d); }
    }

    method JoinWorkers(deadline: Option<int>) returns (workersAlive: bool)
      requires stopSet
      modifies `clock, `exited, `groupGone, `alive
      ensures clock <= old(clock) + |old(alive)| * THREAD_JOIN && OnlyEnds()
      ensures deadline.Some? ==> clock <= Max(old(clock), deadline.value)
      ensures workersAlive == AnyAlive()
      ensures workersAlive ==> clock >= (match deadline case None => old(clock) + THREAD_JOIN case Some(d) => Min(d, old(clock) + THREAD_JOIN))
    {
      ghost var waited := match deadline case None => clock + THREAD_JOIN case Some(d) => Min(d, clock + THREAD_JOIN);
      var i := 0;
      while i < |alive|
        invariant 0 <= i <= |alive| && OnlyEnds() && clock <= old(clock) + i * THREAD_JOIN
        invariant deadline.Some? ==> clock <= Max(old(clock), deadline.value)
        invariant clock < waited ==> forall j :: 0 <= j < i ==> !alive[j]
      {
        var budget := WaitBudget(THREAD_JOIN, deadline);
        Join(i, budget);
        i := i + 1;
      }
      workersAlive := false;
      i := 0;
      while i < |alive|
        invariant 0 <= i <= |alive|
        invariant workersAlive == exists j :: 0 <= j < i && alive[j]
      {
        workersAlive := workersAlive || alive[i];
        i := i + 1;
      }
    }

    /** What the attempts to reap the child were: a second one exactly if the first ran out of time. */
    ghost predicate Attempts(attempts: seq<WaitResult>) {
      && 1 <= |attempts| <= 2 && (|attempts| == 2 <==> attempts[0] == TimedOut)
    }

    /** The time two attempts have together. */
    static function BothWaits(start: int, deadline: Option<int>): int {
      match deadline case None => 2 * CLEANUP_WAIT case Some(d) => Min(2 * CLEANUP_WAIT, Max(0, d - start))
    }

    /** Reaps the child, after killing it once more if the first attempt ran out of time. */
    method ReapChild(deadline: Option<int>) returns (reaped: bool, ghost attempts: seq<WaitResult>)
      requires stopSet
      modifies `clock, `exited, `groupGone, `alive, `polled, `directKills
      ensures clock <= old(clock) + 2 * CLEANUP_WAIT && OnlyEnds()
      ensures deadline.Some? ==> clock <= Max(old(clock), deadline.value)
      ensures Attempts(attempts) && directKills == old(directKills) + |attempts| - 1
      ensures (reaped <==> attempts[|attempts| - 1] == Exited) && (reaped ==> polled && exited)
      ensures attempts == [TimedOut, TimedOut] ==> !exited && clock == old(clock) + BothWaits(old(clock), deadline)
      ensures honest && old(exited) ==> attempts == [Exited]
    {
      var r := Reap(deadline);
      attempts := [r];
      if r == TimedOut {
        directKills := directKills + 1;
        r := Reap(deadline);
        attempts := attempts + [r];
      }
      reaped := r == Exited;
    }

    /** The whole phase.  It waits no longer than its deadline when it has one, and never more than
        14 seconds with the three pipe workers; it signals the group once if that was still to do, and
        the child once more before a second attempt to reap it; it closes streams exactly when no
        worker is left; and it reports the first reason that applies: the child was not reaped, a
        signal failed, a worker is alive. */
    method CleanupProcess(terminateTree: bool, priorFailures: bool, deadline: Option<int>)
      returns (error: Option<CleanupError>, ghost killFailed: bool, ghost attempts: seq<WaitResult>)
      requires |alive| <= 3 && !streamsClosed
      modifies this
      ensures stopSet && OnlyEnds()
      ensures deadline.Some? ==> clock <= Max(old(clock), deadline.value)
      ensures clock <= old(clock) + 14 * SECOND
      ensures groupKills == old(groupKills) + (if terminateTree then 1 else 0)
      ensures directKills == old(directKills) + (if terminateTree then 1 else 0) + |attempts| - 1
      ensures streamsClosed == !AnyAlive() && (streamsClosed ==> !aliveAtClose)
      ensures Attempts(attempts)
      ensures error == if attempts[|attempts| - 1] != Exited then Some(NotReaped)
                       else if priorFailures || killFailed then Some(TerminationFailed)
                       else if AnyAlive() then Some(WorkerAlive)
                       else None
      ensures (attempts[|attempts| - 1] == Exited ==> polled && exited) && (killFailed ==> terminateTree)
      ensures honest && old(exited) ==> attempts == [Exited]
      ensures attempts == [TimedOut, TimedOut] ==>
                clock >= (match deadline case None => old(clock) + 10 * SECOND case Some(d) => Min(d, old(clock) + 10 * SECOND))
    {
      stopSet, killFailed := true, false;
      var terminationFailed := priorFailures;
      if terminateTree {
        var failed, _, _, _ := KillProcessTree(deadline);
        killFailed := failed;
        terminationFailed := terminationFailed || failed;
      }
      error := if terminationFailed then Some(TerminationFailed) else None;
      var reaped;
      reaped, attempts := ReapChild(deadline);
      if !reaped { error := Some(NotReaped); }
      var workersAlive := JoinWorkers(deadline);
      if error == None && workersAlive {
        error := Some(WorkerAlive);
      }
      if !workersAlive {
        aliveAtClose := AnyAlive();
        streamsClosed := true;
      }
    }
  }
}
