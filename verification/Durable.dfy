/** Durable runs: a checkpoint per finished step, written before the next step begins. The class is the API an agent
    calls; the machine below it lets the process die anywhere and start again. */
module Durable {
  import opened Common

  datatype ThreadStatus = Running | Paused | Completed | Failed

  type Blob = map<string, string>

  datatype Thread = Thread(firm: string, employee: Option<string>, workflow: string, status: ThreadStatus, state: Blob)

  datatype DurableError = ThreadExists | UnknownThread | WrongFirm(firm: string) | NotStarted

  class CheckpointStore {
    var threads: map<string, Thread>
    var checkpoints: map<(string, string), Blob>

    /** The foreign key: no checkpoint without its thread. */
    ghost predicate Valid()
      reads this
    {
      forall t, s :: (t, s) in checkpoints ==> t in threads
    }

    /** `completed_step_names`. */
    function Steps(thread: string): set<string>
      reads this
    {
      OwnSteps(checkpoints, thread)
    }

    constructor ()
      ensures Valid() && threads == map[] && checkpoints == map[]
    {
      threads, checkpoints := map[], map[];
    }

    method CreateThread(id: string, firm: string, employee: Option<string>, workflow: string, state: Blob)
      returns (r: Result<Thread, DurableError>)
      modifies `threads
      ensures r == if id in old(threads) then Err(ThreadExists)
              else Ok(Thread(firm, employee, workflow, Running, state))
      ensures threads == if r.Ok? then old(threads)[id := r.value] else old(threads)
    {
      if id in threads {
        return Err(ThreadExists);
      }
      var thread := Thread(firm, employee, workflow, Running, state);
      threads := threads[id := thread];
      return Ok(thread);
    }

    method UpdateStatus(id: string, status: ThreadStatus)
      modifies `threads
      ensures threads == if id in old(threads) then old(threads)[id := old(threads)[id].(status := status)]
              else old(threads)
    {
      if id in threads {
        threads := threads[id := threads[id].(status := status)];
      }
    }

    method UpdateState(id: string, state: Blob)
      modifies `threads
      ensures threads == if id in old(threads) then old(threads)[id := old(threads)[id].(state := state)]
              else old(threads)
    {
      if id in threads {
        threads := threads[id := threads[id].(state := state)];
      }
    }

    method WriteCheckpoint(id: string, step: string, state: Blob) returns (r: Result<(), DurableError>)
      modifies `checkpoints
      ensures r == if id in threads then Ok(()) else Err(UnknownThread)
      ensures checkpoints == if r.Ok? then old(checkpoints)[(id, step) := state] else old(checkpoints)
    {
      if id !in threads {
        return Err(UnknownThread);
      }
      checkpoints := checkpoints[(id, step) := state];
      return Ok(());
    }
  }

  /** What step bodies do to the outside world, reduced to which of them ran. */
  class Outside {
    var ran: seq<string>

    constructor ()
      ensures ran == []
    {
      ran := [];
    }

    method Body(step: string)
      modifies this
      ensures ran == old(ran) + [step]
    {
      ran := ran + [step];
    }
  }

  datatype StepOutcome = Skipped | Ran | Raised

  class DurableRun {
    const store: CheckpointStore
    const threadId: string
    const firm: string
    const employee: Option<string>
    const workflow: string
    var started: bool
    var completedSteps: set<string>
    var state: Blob

    constructor (store: CheckpointStore, threadId: string, firm: string, employee: Option<string>, workflow: string)
      ensures this.store == store && this.threadId == threadId && this.firm == firm
      ensures this.employee == employee && this.workflow == workflow
      ensures !started && completedSteps == {} && state == map[]
    {
      this.store, this.threadId, this.firm, this.employee, this.workflow := store, threadId, firm, employee, workflow;
      started, completedSteps, state := false, {}, map[];
    }

    /** A started run's memory agrees with the store. */
    ghost predicate InStep()
      reads this, store
    {
      store.Valid() && started && threadId in store.threads && completedSteps == store.Steps(threadId)
    }

    method Start(initial: Blob) returns (r: Result<(), DurableError>)
      requires store.Valid()
      modifies this, store`threads
      ensures r.Err? <==> threadId in old(store.threads) && old(store.threads)[threadId].firm != firm
      ensures r.Err? ==> unchanged(this) && unchanged(store)
      ensures r.Ok? ==> InStep()
      ensures store.checkpoints == old(store.checkpoints)
      ensures r.Ok? ==> forall s :: s in completedSteps <==> (threadId, s) in store.checkpoints
      ensures r.Ok? && threadId !in old(store.threads) ==> completedSteps == {}
      ensures r.Ok? ==> state == if threadId in old(store.threads) then old(store.threads)[threadId].state else initial
      ensures r.Ok? ==>
                var found := if threadId in old(store.threads) then old(store.threads)[threadId]
                             else Thread(firm, employee, workflow, Running, initial);
                store.threads == old(store.threads)[threadId :=
                  found.(status := if found.status == Completed then Completed else Running)]
    {
      if threadId !in store.threads {
        var created := store.CreateThread(threadId, firm, employee, workflow, initial);
        started, completedSteps, state := true, {}, initial;
        assert completedSteps == store.Steps(threadId);
      } else {
        var existing := store.threads[threadId];
        if existing.firm != firm {
          return Err(WrongFirm(existing.firm));
        }
        started, completedSteps, state := true, store.Steps(threadId), existing.state;
        if existing.status != Completed && existing.status != Running {
          store.UpdateStatus(threadId, Running);
        }
      }
      return Ok(());
    }

    method IsDone(step: string) returns (r: Result<bool, DurableError>)
      ensures r == if started then Ok(step in completedSteps) else Err(NotStarted)
    {
      return if started then Ok(step in completedSteps) else Err(NotStarted);
    }

    method MarkDone(step: string, blob: Blob) returns (r: Result<(), DurableError>)
      requires store.Valid()
      modifies `completedSteps, store`checkpoints
      ensures r.Ok? <==> started && threadId in store.threads
      ensures r.Ok? ==> completedSteps == old(completedSteps) + {step}
      ensures r.Ok? ==> store.checkpoints == old(store.checkpoints)[(threadId, step) := blob]
      ensures r.Err? ==> unchanged(this) && unchanged(store)
      ensures OtherThreadsKeep(old(store.checkpoints), store.checkpoints, threadId)
      ensures old(InStep()) ==> r.Ok? && InStep()
    {
      if !started {
        return Err(NotStarted);
      }
      ghost var before := store.checkpoints;
      var written := store.WriteCheckpoint(threadId, step, blob);
      if written.Err? {
        return Err(written.error);
      }
      completedSteps := completedSteps + {step};
      assert (threadId, step) in store.checkpoints;
      assert forall key :: key in store.checkpoints <==> key in before || key == (threadId, step);
      assert store.Steps(threadId) == old(store.Steps(threadId)) + {step};
      return Ok(());
    }

    /** Skip if done, else run the body and write its checkpoint, which a body that raises does not get. */
    method RunStep(step: string, raises: bool, outside: Outside) returns (r: Result<StepOutcome, DurableError>)
      requires store.Valid() && (started ==> InStep())
      modifies `completedSteps, store`checkpoints, outside
      ensures store.Valid() && (started ==> InStep())
      ensures r == if !started then Err(NotStarted)
                   else if step in old(completedSteps) then Ok(Skipped)
                   else if raises then Ok(Raised)
                   else Ok(Ran)
      ensures completedSteps == old(completedSteps) + if r == Ok(Ran) then {step} else {}
      ensures outside.ran == old(outside.ran) + if r == Ok(Ran) || r == Ok(Raised) then [step] else []
      ensures r != Ok(Ran) ==> store.checkpoints == old(store.checkpoints)
      ensures r == Ok(Ran) ==> store.checkpoints == old(store.checkpoints)[(threadId, step) := map[]]
      ensures OtherThreadsKeep(old(store.checkpoints), store.checkpoints, threadId)
    {
      var done := IsDone(step);
      if done.Err? {
        return Err(done.error);
      }
      if done.value {
        return Ok(Skipped);
      }
      outside.Body(step);
      if raises {
        return Ok(Raised);
      }
      var marked := MarkDone(step, map[]);
      return Ok(Ran);
    }

    /** A workflow's step list, run until it ends or a body raises; `done` is how many steps were got through. */
    method Pass(steps: seq<string>, raising: set<string>, outside: Outside) returns (done: nat)
      requires InStep()
      modifies `completedSteps, store`checkpoints, outside
      ensures InStep() && done <= |steps|
      ensures completedSteps == old(completedSteps) + Mentioned(steps[..done])
      ensures outside.ran == old(outside.ran) + Undone(steps[..done], old(completedSteps)) +
                             if done < |steps| then [steps[done]] else []
      ensures done < |steps| ==> steps[done] in raising && steps[done] !in completedSteps
      ensures RaisersDone(steps[..done], raising, old(completedSteps))
      ensures done == Reached(steps, raising, old(completedSteps))
      ensures OtherThreadsKeep(old(store.checkpoints), store.checkpoints, threadId)
      ensures forall s :: (threadId, s) in store.checkpoints <==>
                (threadId, s) in old(store.checkpoints) || s in steps[..done]
    {
      ghost var start, log := completedSteps, outside.ran;
      OwnStepsAre(store.checkpoints, threadId);
      for i := 0 to |steps|
        invariant InStep() && completedSteps == start + Mentioned(steps[..i])
        invariant outside.ran == log + Undone(steps[..i], start)
        invariant RaisersDone(steps[..i], raising, start)
        invariant OtherThreadsKeep(old(store.checkpoints), store.checkpoints, threadId)
      {
        NextUndone(steps, i, start);
        RaisersStay(steps, i, raising, start);
        var r := RunStep(steps[i], steps[i] in raising, outside);
        if r == Ok(Raised) {
          ReachedIs(steps, raising, start, i);
          OwnStepsAre(store.checkpoints, threadId);
          return i;
        }
      }
      assert steps[..|steps|] == steps;
      ReachedIs(steps, raising, start, |steps|);
      OwnStepsAre(store.checkpoints, threadId);
      return |steps|;
    }

    method Finish(status: ThreadStatus) returns (r: Result<(), DurableError>)
      modifies store`threads
      ensures r == if started then Ok(()) else Err(NotStarted)
      ensures store.threads == if r.Ok? && threadId in old(store.threads)
                               then old(store.threads)[threadId :=
                                                       old(store.threads)[threadId].(state := state, status := status)]
                               else old(store.threads)
    {
      if !started {
        return Err(NotStarted);
      }
      store.UpdateState(threadId, state);
      store.UpdateStatus(threadId, status);
      return Ok(());
    }
  }

  /** The steps a pass still has to run, each once, in the order of their first mention. */
  function Undone(steps: seq<string>, done: set<string>): seq<string> {
    if steps == [] then []
    else
      var front := steps[..|steps| - 1];
      var last := steps[|steps| - 1];
      Undone(front, done) + if last in done || last in front then [] else [last]
  }

  function Mentioned(steps: seq<string>): set<string> {
    set s | s in steps
  }

  /** The steps that raise were all done before, so that none of them was run. */
  predicate RaisersDone(steps: seq<string>, raising: set<string>, done: set<string>) {
    forall i :: 0 <= i < |steps| && steps[i] in raising ==> steps[i] in done
  }

  /** How many steps a pass gets through: up to the first that raises and was not done before. */
  function Reached(steps: seq<string>, raising: set<string>, done: set<string>): (k: nat)
    ensures k <= |steps|
  {
    if steps == [] then 0
    else
      var n := |steps| - 1;
      var before := Reached(steps[..n], raising, done);
      if before < n || (steps[n] in raising && steps[n] !in done) then before else n + 1
  }

  lemma {:induction false} ReachedIs(steps: seq<string>, raising: set<string>, done: set<string>, k: nat)
    requires k <= |steps| && RaisersDone(steps[..k], raising, done)
    requires k < |steps| ==> steps[k] in raising && steps[k] !in done
    ensures Reached(steps, raising, done) == k
  {
    if steps != [] {
      var n := |steps| - 1;
      if k <= n {
        assert steps[..n][..k] == steps[..k];
        ReachedIs(steps[..n], raising, done, k);
      } else {
        assert steps[..k] == steps;
        assert forall i :: 0 <= i < n ==> steps[..n][i] == steps[i];
        assert steps[..n][..n] == steps[..n];
        ReachedIs(steps[..n], raising, done, n);
      }
    }
  }

  /** No checkpoint of another thread is added, lost or changed. */
  ghost predicate OtherThreadsKeep(before: map<(string, string), Blob>, after: map<(string, string), Blob>,
                                   thread: string)
  {
    forall key: (string, string) :: key.0 != thread ==>
      (key in before <==> key in after) && (key in before ==> after[key] == before[key])
  }

  /** A thread's own steps in a store. */
  function OwnSteps(checkpoints: map<(string, string), Blob>, thread: string): set<string> {
    set key | key in checkpoints && key.0 == thread :: key.1
  }

  lemma OwnStepsAre(checkpoints: map<(string, string), Blob>, thread: string)
    ensures forall s :: s in OwnSteps(checkpoints, thread) <==> (thread, s) in checkpoints
  {
    forall s | (thread, s) in checkpoints
      ensures s in OwnSteps(checkpoints, thread)
    {
      assert (thread, s).1 in OwnSteps(checkpoints, thread);
    }
  }

  /** Stores that agree on which steps of the thread are checkpointed, however they differ on other threads and in what
      the checkpoints hold, give a run of that thread the same memory, and its pass the same log and the same end. */
  lemma OtherThreadsDoNotMatter(a: map<(string, string), Blob>, b: map<(string, string), Blob>, thread: string,
                                steps: seq<string>, raising: set<string>)
    requires forall s :: (thread, s) in a <==> (thread, s) in b
    ensures OwnSteps(a, thread) == OwnSteps(b, thread)
    ensures forall s :: s in OwnSteps(a, thread) <==> (thread, s) in a
    ensures var done := Reached(steps, raising, OwnSteps(a, thread));
            && done == Reached(steps, raising, OwnSteps(b, thread))
            && Undone(steps[..done], OwnSteps(a, thread)) == Undone(steps[..done], OwnSteps(b, thread))
  {
    OwnStepsAre(a, thread);
    OwnStepsAre(b, thread);
  }

  /** The same of the methods: two runs of one thread, each started on its own store, answer their passes alike and
      begin the same bodies, whatever the stores hold of other threads. */
  method LikeStoresLikeRuns(a: DurableRun, b: DurableRun, initial: Blob, steps: seq<string>, raising: set<string>,
                            outsideA: Outside, outsideB: Outside)
    returns (doneA: Option<nat>, doneB: Option<nat>)
    requires a != b && a.store != b.store && outsideA != outsideB && a.store.Valid() && b.store.Valid()
    requires a.threadId == b.threadId && a.firm == b.firm && outsideA.ran == outsideB.ran == []
    requires forall s :: (a.threadId, s) in a.store.checkpoints <==> (a.threadId, s) in b.store.checkpoints
    requires a.threadId in a.store.threads <==> a.threadId in b.store.threads
    requires a.threadId in a.store.threads ==>
               a.store.threads[a.threadId].firm == b.store.threads[a.threadId].firm
    modifies a, b, a.store, b.store, outsideA, outsideB
    ensures doneA == doneB && outsideA.ran == outsideB.ran
  {
    OtherThreadsDoNotMatter(a.store.checkpoints, b.store.checkpoints, a.threadId, steps, raising);
    var startedA := a.Start(initial);
    var startedB := b.Start(initial);
    if startedA.Err? || startedB.Err? {
      return None, None;
    }
    var reachedA := a.Pass(steps, raising, outsideA);
    var reachedB := b.Pass(steps, raising, outsideB);
    return Some(reachedA), Some(reachedB);
  }

  lemma RaisersStay(steps: seq<string>, i: nat, raising: set<string>, done: set<string>)
    requires i < |steps| && RaisersDone(steps[..i], raising, done)
    ensures RaisersDone(steps[..i + 1], raising, done) <==>
            (steps[i] in raising ==> steps[i] in done + Mentioned(steps[..i]))
  {
    assert steps[..i + 1] == steps[..i] + [steps[i]];
    if steps[i] in Mentioned(steps[..i]) {
      var j :| 0 <= j < i && steps[..i][j] == steps[i];
    }
  }

  lemma NextUndone(steps: seq<string>, i: nat, done: set<string>)
    requires i < |steps|
    ensures Mentioned(steps[..i + 1]) == Mentioned(steps[..i]) + {steps[i]}
    ensures Undone(steps[..i + 1], done) ==
            Undone(steps[..i], done) + if steps[i] in done + Mentioned(steps[..i]) then [] else [steps[i]]
  {
    assert steps[..i + 1] == steps[..i] + [steps[i]];
    assert steps[..i + 1][..i] == steps[..i];
  }

  // ----- Crashes -----

  /** Where the process stands with the current step: before its check, in or after its body, or past the checkpoint
      but not yet past the in-memory note. */
  datatype Phase = AtCheck | InBody | Written

  /** One thread: its stored checkpoints, and the process working on it. `ran` logs the bodies begun, `lost` those whose
      process died before the checkpoint. */
  datatype Machine = Machine(stored: set<string>, memory: set<string>, steps: seq<string>, pos: nat, phase: Phase,
                             ran: seq<string>, lost: seq<string>)
  {
    predicate AtEnd() {
      pos == |steps|
    }
  }

  /** The process takes its next small step, or dies; the next process calls `start` and gets a step list of its own. */
  datatype Event = Go | Crash(nextSteps: seq<string>)

  function Begin(stored: set<string>, steps: seq<string>, ran: seq<string>, lost: seq<string>): Machine {
    Machine(stored, stored, steps, 0, AtCheck, ran, lost)
  }

  function Next(m: Machine, e: Event): Machine
    requires m.pos <= |m.steps| && (m.phase != AtCheck ==> m.pos < |m.steps|)
  {
    match e
    case Crash(nextSteps) =>
      Begin(m.stored, nextSteps, m.ran, m.lost + if m.phase == InBody then [m.steps[m.pos]] else [])
    case Go =>
      if m.AtEnd() then m
      else
        var step := m.steps[m.pos];
        match m.phase
        case AtCheck => if step in m.memory then m.(pos := m.pos + 1) else m.(phase := InBody, ran := m.ran + [step])
        case InBody => m.(stored := m.stored + {step}, phase := Written)
        case Written => m.(memory := m.memory + {step}, pos := m.pos + 1, phase := AtCheck)
  }

  predicate Positioned(m: Machine) {
    m.pos <= |m.steps| && (m.phase != AtCheck ==> m.pos < |m.steps|)
  }

  function Count(log: seq<string>, step: string): nat {
    if log == [] then 0 else Count(log[..|log| - 1], step) + if log[|log| - 1] == step then 1 else 0
  }

  lemma CountSnoc(log: seq<string>, last: string, step: string)
    ensures Count(log + [last], step) == Count(log, step) + if last == step then 1 else 0
  {
    assert (log + [last])[..|log|] == log;
  }

  predicate InFlight(m: Machine, step: string)
    requires Positioned(m)
  {
    m.phase == InBody && m.steps[m.pos] == step
  }

  ghost predicate Accounted(m: Machine, step: string)
    requires Positioned(m)
  {
    Count(m.ran, step) == (if step in m.stored then 1 else 0) + Count(m.lost, step) +
        (if InFlight(m, step) then 1 else 0)
  }

  ghost predicate Inv(m: Machine) {
    && Positioned(m)
    && (match m.phase
        case AtCheck => m.memory == m.stored
        case InBody => m.memory == m.stored && m.steps[m.pos] !in m.stored
        case Written => m.stored == m.memory + {m.steps[m.pos]})
    && (forall i :: 0 <= i < m.pos ==> m.steps[i] in m.stored)
    && (forall step :: Accounted(m, step))
  }

  lemma NextKeepsInv(m: Machine, e: Event)
    requires Inv(m)
    ensures Inv(Next(m, e))
    ensures m.stored <= Next(m, e).stored
    ensures forall step :: step in m.stored ==> Count(Next(m, e).ran, step) == Count(m.ran, step)
  {
    var m' := Next(m, e);
    forall step
      ensures Accounted(m', step)
      ensures step in m.stored ==> Count(m'.ran, step) == Count(m.ran, step)
    {
      assert Accounted(m, step);
      if m.pos < |m.steps| {
        CountSnoc(m.ran, m.steps[m.pos], step);
        CountSnoc(m.lost, m.steps[m.pos], step);
      }
      assert m.lost + [] == m.lost;
    }
  }

  /** One event never takes a checkpoint back, nor begins the body of a checkpointed step. */
  lemma CheckpointStays(m: Machine, e: Event, step: string)
    requires Inv(m) && step in m.stored
    ensures step in Next(m, e).stored && Count(Next(m, e).ran, step) == Count(m.ran, step)
  {
    NextKeepsInv(m, e);
  }

  lemma NextKeepsPosition(m: Machine, e: Event)
    requires Positioned(m)
    ensures Positioned(Next(m, e))
  {}

  /** The machine after a run of events. */
  function Driven(m: Machine, events: seq<Event>): (r: Machine)
    requires Positioned(m)
    ensures Positioned(r)
    decreases |events|
  {
    if events == [] then m
    else
      NextKeepsPosition(m, events[0]);
      Driven(Next(m, events[0]), events[1..])
  }

  lemma {:induction false} DrivenKeepsInv(m: Machine, events: seq<Event>)
    requires Inv(m)
    ensures Inv(Driven(m, events))
    decreases |events|
  {
    if events != [] {
      NextKeepsInv(m, events[0]);
      DrivenKeepsInv(Next(m, events[0]), events[1..]);
    }
  }

  ghost function After(steps: seq<string>, events: seq<Event>): (m: Machine)
    ensures Inv(m)
  {
    DrivenKeepsInv(Begin({}, steps, [], []), events);
    Driven(Begin({}, steps, [], []), events)
  }

  lemma {:induction false} DrivenAppend(m: Machine, events: seq<Event>, more: seq<Event>)
    requires Positioned(m)
    ensures Driven(m, events + more) == Driven(Driven(m, events), more)
    decreases |events|
  {
    if events == [] {
      assert events + more == more;
    } else {
      NextKeepsPosition(m, events[0]);
      assert (events + more)[1..] == events[1..] + more;
      DrivenAppend(Next(m, events[0]), events[1..], more);
    }
  }

  lemma {:induction false} CheckpointOutlives(m: Machine, events: seq<Event>, step: string)
    requires Inv(m) && step in m.stored
    ensures step in Driven(m, events).stored && Count(Driven(m, events).ran, step) == Count(m.ran, step)
    decreases |events|
  {
    if events != [] {
      NextKeepsInv(m, events[0]);
      CheckpointStays(m, events[0], step);
      CheckpointOutlives(Next(m, events[0]), events[1..], step);
    }
  }

  /** For any step lists and any placement of crashes: a step's body was begun once for its checkpoint, if it has one,
      and once more for each process that died between that body and its checkpoint, and for nothing else. */
  lemma BodiesAccountedFor(steps: seq<string>, events: seq<Event>, step: string)
    ensures var m := After(steps, events);
            && Count(m.ran, step) == (if step in m.stored then 1 else 0) + Count(m.lost, step) +
                (if InFlight(m, step) then 1 else 0)
            && Count(m.ran, step) <= 1 + Count(m.lost, step)
  {
    assert Accounted(After(steps, events), step);
  }

  /** Once a step's checkpoint is written, no later process ever begins its body again. */
  lemma NoBodyAfterCheckpoint(steps: seq<string>, events: seq<Event>, k: nat, step: string)
    requires k <= |events| && step in After(steps, events[..k]).stored
    ensures step in After(steps, events).stored
    ensures Count(After(steps, events).ran, step) == Count(After(steps, events[..k]).ran, step)
  {
    assert events == events[..k] + events[k..];
    DrivenAppend(Begin({}, steps, [], []), events[..k], events[k..]);
    CheckpointOutlives(After(steps, events[..k]), events[k..], step);
  }

  /** Whenever a process starts, or has marked a step, its memory is the stored set; and a process that gets to the end
      of its list has every step of it checkpointed. */
  lemma MemoryIsStore(steps: seq<string>, events: seq<Event>)
    ensures var m := After(steps, events);
            && (m.phase == AtCheck ==> m.memory == m.stored)
            && (m.AtEnd() ==> forall s :: s in m.steps ==> s in m.stored)
  {
    var m := After(steps, events);
    if m.AtEnd() {
      forall s | s in m.steps
        ensures s in m.stored
      {
        var i :| 0 <= i < |m.steps| && m.steps[i] == s;
      }
    }
  }

  // ----- The class runs as the machine does -----

  /** How many small steps a process takes for a step list: one to skip, three to run, note and move on. */
  function Cost(steps: seq<string>, done: set<string>): nat {
    if steps == [] then 0
    else
      var n := |steps| - 1;
      Cost(steps[..n], done) + if steps[n] in done + Mentioned(steps[..n]) then 1 else 3
  }

  function Going(n: nat): seq<Event> {
    seq(n, i => Go)
  }

  /** Where a process stands before its n-th step, if nothing went wrong. */
  function Underway(stored: set<string>, steps: seq<string>, ran: seq<string>, lost: seq<string>, n: nat): Machine
    requires n <= |steps|
  {
    var known := stored + Mentioned(steps[..n]);
    Machine(known, known, steps, n, AtCheck, ran + Undone(steps[..n], stored), lost)
  }

  lemma {:induction false} GoesUnderway(stored: set<string>, steps: seq<string>, ran: seq<string>, lost: seq<string>,
                                        n: nat)
    requires n <= |steps|
    ensures Driven(Begin(stored, steps, ran, lost), Going(Cost(steps[..n], stored))) ==
            Underway(stored, steps, ran, lost, n)
  {
    if n == 0 {
      BeginIsUnderway(stored, steps, ran, lost);
    } else {
      GoesUnderway(stored, steps, ran, lost, n - 1);
      GoesOn(stored, steps, ran, lost, n - 1);
    }
  }

  lemma BeginIsUnderway(stored: set<string>, steps: seq<string>, ran: seq<string>, lost: seq<string>)
    ensures Begin(stored, steps, ran, lost) == Underway(stored, steps, ran, lost, 0)
    ensures Going(Cost(steps[..0], stored)) == []
  {
    assert steps[..0] == [];
    assert ran + [] == ran && stored + Mentioned([]) == stored;
  }

  lemma GoesOn(stored: set<string>, steps: seq<string>, ran: seq<string>, lost: seq<string>, n: nat)
    requires n < |steps|
    requires Driven(Begin(stored, steps, ran, lost), Going(Cost(steps[..n], stored))) ==
             Underway(stored, steps, ran, lost, n)
    ensures Driven(Begin(stored, steps, ran, lost), Going(Cost(steps[..n + 1], stored))) ==
            Underway(stored, steps, ran, lost, n + 1)
  {
    CostNext(steps, n, stored);
    ThenGo(Begin(stored, steps, ran, lost), Cost(steps[..n], stored),
           if steps[n] in stored + Mentioned(steps[..n]) then 1 else 3);
    OneStepUnderway(stored, steps, ran, lost, n);
  }

  lemma CostNext(steps: seq<string>, n: nat, done: set<string>)
    requires n < |steps|
    ensures Cost(steps[..n + 1], done) ==
            Cost(steps[..n], done) + if steps[n] in done + Mentioned(steps[..n]) then 1 else 3
  {
    assert steps[..n + 1][..n] == steps[..n];
  }

  lemma ThenGo(m: Machine, a: nat, b: nat)
    requires Positioned(m)
    ensures Driven(m, Going(a + b)) == Driven(Driven(m, Going(a)), Going(b))
  {
    assert Going(a + b) == Going(a) + Going(b);
    DrivenAppend(m, Going(a), Going(b));
  }

  lemma DrivenThrice(m: Machine)
    requires Positioned(m)
    ensures Positioned(Next(m, Go)) && Positioned(Next(Next(m, Go), Go))
    ensures Driven(m, Going(1)) == Next(m, Go)
    ensures Driven(m, Going(3)) == Next(Next(Next(m, Go), Go), Go)
  {
    NextKeepsPosition(m, Go);
    NextKeepsPosition(Next(m, Go), Go);
    assert Going(1)[1..] == [] && Going(3)[1..] == Going(2) && Going(2)[1..] == Going(1);
  }

  lemma OneStepUnderway(stored: set<string>, steps: seq<string>, ran: seq<string>, lost: seq<string>, n: nat)
    requires n < |steps|
    ensures var skip := steps[n] in stored + Mentioned(steps[..n]);
            Driven(Underway(stored, steps, ran, lost, n), Going(if skip then 1 else 3)) ==
            Underway(stored, steps, ran, lost, n + 1)
  {
    var m := Underway(stored, steps, ran, lost, n);
    NextUndone(steps, n, stored);
    DrivenThrice(m);
    var known := stored + Mentioned(steps[..n]);
    assert stored + Mentioned(steps[..n + 1]) == known + {steps[n]};
    if steps[n] in known {
      assert known + {steps[n]} == known;
      assert Undone(steps[..n], stored) + [] == Undone(steps[..n], stored);
    } else {
      assert (ran + Undone(steps[..n], stored)) + [steps[n]] == ran + Undone(steps[..n + 1], stored);
    }
  }

  lemma {:induction false} StaysAtEnd(m: Machine, n: nat)
    requires Positioned(m) && m.AtEnd()
    ensures Driven(m, Going(n)) == m
  {
    if n > 0 {
      assert Going(n)[1..] == Going(n - 1);
      StaysAtEnd(m, n - 1);
    }
  }

  /** A pass that no body interrupts leaves the store and the log as the machine does that is given time enough; a pass
      in which a body raises, as the machine inside that body. */
  lemma PassIsMachine(stored: set<string>, steps: seq<string>, ran: seq<string>, lost: seq<string>, done: nat,
                      extra: nat)
    requires done <= |steps| && (done < |steps| ==> steps[done] !in stored + Mentioned(steps[..done]))
    ensures done == |steps| ==>
              var m := Driven(Begin(stored, steps, ran, lost), Going(Cost(steps, stored) + extra));
              m.AtEnd() && m.stored == stored + Mentioned(steps) && m.ran == ran + Undone(steps, stored)
                  && m.lost == lost
    ensures done < |steps| ==>
              var m := Driven(Begin(stored, steps, ran, lost), Going(Cost(steps[..done], stored) + 1));
              && InFlight(m, steps[done])
              && m.stored == stored + Mentioned(steps[..done])
              && m.ran == ran + Undone(steps[..done], stored) + [steps[done]]
  {
    var m := Begin(stored, steps, ran, lost);
    GoesUnderway(stored, steps, ran, lost, done);
    var cost := Cost(steps[..done], stored);
    var there := Underway(stored, steps, ran, lost, done);
    if done == |steps| {
      assert steps[..done] == steps;
      ThenGo(m, cost, extra);
      StaysAtEnd(there, extra);
    } else {
      ThenGo(m, cost, 1);
      DrivenThrice(there);
    }
  }
}
