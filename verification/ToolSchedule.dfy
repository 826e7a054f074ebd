/**
 The tasks of a batch as a transition system: a task waits for one of eight permits, runs,
 finishes, and is joined. Every interleaving of these steps is a schedule.
 */
module ToolSchedule {
  import opened Messages
  import opened Prelude
  import opened ToolExec

  datatype Phase = Waiting | Running | Finished | Joined
  datatype Step = Acquire(task: nat) | Finish(task: nat) | Take(task: nat)
  /** `permits`: what the semaphore has left. */
  datatype State = State(phases: seq<Phase>, slots: Slots, permits: nat)

  function RunningIn(phases: seq<Phase>): (n: nat)
    ensures n <= |phases|
  {
    if phases == [] then 0 else (if phases[0].Running? then 1 else 0) + RunningIn(phases[1..])
  }

  predicate Sized(b: Batch, st: State) {
    ValidBatch(b) && |st.phases| == |st.slots| == |b.calls|
  }

  predicate Enabled(st: State, step: Step) {
    && step.task < |st.phases|
    && match step
       case Acquire(i) => st.phases[i].Waiting? && st.permits > 0
       case Finish(i) => st.phases[i].Running?
       case Take(i) => st.phases[i].Finished?
  }

  function Perform(b: Batch, st: State, step: Step): (r: State)
    requires Sized(b, st) && Enabled(st, step)
    ensures Sized(b, r)
  {
    match step
    case Acquire(i) => st.(phases := st.phases[i := Running], permits := st.permits - 1)
    case Finish(i) => st.(phases := st.phases[i := Finished], permits := st.permits + 1)
    case Take(i) => st.(phases := st.phases[i := Joined], slots := Join(b, st.slots, i))
  }

  predicate Legal(b: Batch, st: State, steps: seq<Step>)
    requires Sized(b, st)
    decreases |steps|
  {
    steps == [] || (Enabled(st, steps[0]) && Legal(b, Perform(b, st, steps[0]), steps[1..]))
  }

  function Execute(b: Batch, st: State, steps: seq<Step>): (r: State)
    requires Sized(b, st) && Legal(b, st, steps)
    ensures Sized(b, r)
    decreases |steps|
  {
    if steps == [] then st else Execute(b, Perform(b, st, steps[0]), steps[1..])
  }

  function Spawned(b: Batch): (st: State)
    requires ValidBatch(b)
    ensures Sized(b, st)
  {
    State(seq(|b.calls|, _ => Waiting), EmptySlots(|b.calls|), MAX_TOOL_WORKERS)
  }

  predicate Complete(st: State) {
    forall i | 0 <= i < |st.phases| :: st.phases[i].Joined?
  }

  // ---------------------------------------------------------------- at most eight

  lemma {:induction false} RunningAfter(phases: seq<Phase>, i: nat, p: Phase)
    requires i < |phases|
    ensures RunningIn(phases[i := p]) ==
            RunningIn(phases) - (if phases[i].Running? then 1 else 0) + (if p.Running? then 1 else 0)
  {
    if i == 0 {
      assert phases[i := p][1..] == phases[1..];
    } else {
      RunningAfter(phases[1..], i - 1, p);
      assert phases[i := p][1..] == phases[1..][i - 1 := p];
    }
  }

  /** Permits are neither lost nor made: those left and the tasks that run always add up to the same. */
  lemma {:induction false} PermitsAreConserved(b: Batch, st: State, steps: seq<Step>)
    requires Sized(b, st) && Legal(b, st, steps)
    ensures var end := Execute(b, st, steps); end.permits + RunningIn(end.phases) == st.permits + RunningIn(st.phases)
    decreases |steps|
  {
    hide RunningIn, Join;
    if steps != [] {
      var next := Perform(b, st, steps[0]);
      RunningAfter(st.phases, steps[0].task, next.phases[steps[0].task]);
      PermitsAreConserved(b, next, steps[1..]);
    }
  }

  /** At no point of any schedule do more than eight tasks run. */
  lemma {:induction false} AtMostEightRun(b: Batch, steps: seq<Step>)
    requires ValidBatch(b) && Legal(b, Spawned(b), steps)
    ensures RunningIn(Execute(b, Spawned(b), steps).phases) <= MAX_TOOL_WORKERS
  {
    PermitsAreConserved(b, Spawned(b), steps);
    NoneRunning(Spawned(b).phases);
  }

  lemma {:induction false} NoneRunning(phases: seq<Phase>)
    requires forall i | 0 <= i < |phases| :: !phases[i].Running?
    ensures RunningIn(phases) == 0
  {
    if phases != [] { NoneRunning(phases[1..]); }
  }

  // ---------------------------------------------------------------- progress

  /** Steps the tasks still have to take. */
  function Work(phases: seq<Phase>): nat {
    if phases == [] then 0
    else
      (match phases[0] case Waiting => 3 case Running => 2 case Finished => 1 case Joined => 0) + Work(phases[1..])
  }

  lemma {:induction false} WorkAfter(phases: seq<Phase>, i: nat, p: Phase)
    requires i < |phases|
    requires (phases[i], p) in {(Waiting, Running), (Running, Finished), (Finished, Joined)}
    ensures Work(phases[i := p]) == Work(phases) - 1
  {
    if i == 0 {
      assert phases[i := p][1..] == phases[1..];
    } else {
      WorkAfter(phases[1..], i - 1, p);
      assert phases[i := p][1..] == phases[1..][i - 1 := p];
    }
  }

  /** A schedule never takes more than three steps a task: every schedule ends. */
  lemma {:induction false} SchedulesEnd(b: Batch, st: State, steps: seq<Step>)
    requires Sized(b, st) && Legal(b, st, steps)
    ensures |steps| + Work(Execute(b, st, steps).phases) == Work(st.phases)
    decreases |steps|
  {
    if steps != [] {
      var next := Perform(b, st, steps[0]);
      WorkAfter(st.phases, steps[0].task, next.phases[steps[0].task]);
      SchedulesEnd(b, next, steps[1..]);
    }
  }

  /** A batch that is not complete can always take a step: no permit is held for good. */
  lemma {:induction false} NeverStuck(b: Batch, steps: seq<Step>) returns (step: Step)
    requires ValidBatch(b) && Legal(b, Spawned(b), steps) && !Complete(Execute(b, Spawned(b), steps))
    ensures Enabled(Execute(b, Spawned(b), steps), step)
  {
    hide RunningIn;
    var st := Execute(b, Spawned(b), steps);
    var i :| 0 <= i < |st.phases| && !st.phases[i].Joined?;
    if exists r :: 0 <= r < |st.phases| && st.phases[r].Running? {
      var r :| 0 <= r < |st.phases| && st.phases[r].Running?;
      return Finish(r);
    }
    PermitsAreConserved(b, Spawned(b), steps);
    NoneRunning(Spawned(b).phases);
    NoneRunning(st.phases);
    return if st.phases[i].Finished? then Take(i) else Acquire(i);
  }

  // ---------------------------------------------------------------- results

  function TakeOrder(steps: seq<Step>): seq<nat> {
    if steps == [] then []
    else (if steps[0].Take? then [steps[0].task] else []) + TakeOrder(steps[1..])
  }

  lemma {:induction false} FirstStep(b: Batch, st: State, steps: seq<Step>)
    requires Sized(b, st) && Legal(b, st, steps) && steps != []
    ensures Enabled(st, steps[0]) && Legal(b, Perform(b, st, steps[0]), steps[1..])
    ensures Execute(b, st, steps) == Execute(b, Perform(b, st, steps[0]), steps[1..])
    ensures TakeOrder(steps) == (if steps[0].Take? then [steps[0].task] else []) + TakeOrder(steps[1..])
  {}

  /** The slots are filled in the order the tasks are taken. */
  lemma {:induction false} TakesFillSlots(b: Batch, st: State, steps: seq<Step>)
    requires Sized(b, st) && Legal(b, st, steps)
    ensures Within(TakeOrder(steps), |b.calls|)
    ensures Execute(b, st, steps).slots == JoinAll(b, st.slots, TakeOrder(steps))
    decreases |steps|
  {
    hide JoinAll, Join;
    if steps != [] {
      FirstStep(b, st, steps);
      hide Legal, Execute, TakeOrder;
      var next := Perform(b, st, steps[0]);
      var rest := TakeOrder(steps[1..]);
      TakesFillSlots(b, next, steps[1..]);
      if steps[0].Take? {
        assert TakeOrder(steps)[1..] == rest;
        JoinAllStep(b, st.slots, TakeOrder(steps));
      } else {
        assert TakeOrder(steps) == rest;
      }
    } else {
      JoinAllDone(b, st.slots);
    }
  }

  /** The tasks taken are those that become joined, each taken once. */
  lemma {:induction false} EachIsTakenOnce(b: Batch, st: State, steps: seq<Step>)
    requires Sized(b, st) && Legal(b, st, steps)
    ensures forall k: nat | k < |b.calls| ::
              Execute(b, st, steps).phases[k].Joined? <==> st.phases[k].Joined? || k in TakeOrder(steps)
    ensures forall k <- TakeOrder(steps) :: k < |b.calls| && !st.phases[k].Joined?
    ensures NoRepeats(TakeOrder(steps))
    decreases |steps|
  {
    if steps != [] {
      FirstStep(b, st, steps);
      hide Legal, Execute, TakeOrder, Join;
      var next := Perform(b, st, steps[0]);
      var task, rest := steps[0].task, TakeOrder(steps[1..]);
      EachIsTakenOnce(b, next, steps[1..]);
      if steps[0].Take? {
        assert next.phases[task].Joined? && task !in rest;
        assert TakeOrder(steps) == [task] + rest;
      } else {
        assert TakeOrder(steps) == rest;
      }
    }
  }

  lemma {:induction false} CompleteTakesAll(b: Batch, steps: seq<Step>)
    requires ValidBatch(b) && Legal(b, Spawned(b), steps) && Complete(Execute(b, Spawned(b), steps))
    ensures IsPermutation(TakeOrder(steps), |b.calls|)
    ensures Execute(b, Spawned(b), steps).slots == JoinAll(b, EmptySlots(|b.calls|), TakeOrder(steps))
  {
    hide JoinAll, Execute, Legal, TakeOrder;
    TakesFillSlots(b, Spawned(b), steps);
    EachIsTakenOnce(b, Spawned(b), steps);
    var order := TakeOrder(steps);
    DistinctLength(order, Below(|b.calls|));
  }

  lemma {:induction false} DistinctLength(order: seq<nat>, tasks: set<nat>)
    requires NoRepeats(order) && forall k :: k in order <==> k in tasks
    ensures |order| == |tasks|
    decreases |order|
  {
    if order == [] {
      assert tasks == {};
    } else {
      assert order == [order[0]] + order[1..] && order[0] in order;
      assert order[0] !in order[1..];
      DistinctLength(order[1..], tasks - {order[0]});
    }
  }

  /** Under every schedule, a completed batch holds each call's own result, in call order. */
  lemma {:induction false} ResultsDoNotDependOnSchedule(b: Batch, steps: seq<Step>)
    requires ValidBatch(b) && forall i | 0 <= i < |b.calls| :: !b.panics[i]
    requires Legal(b, Spawned(b), steps) && Complete(Execute(b, Spawned(b), steps))
    ensures |steps| == 3 * |b.calls|
    ensures forall k | 0 <= k < |b.calls| ::
              Execute(b, Spawned(b), steps).slots[k] == Some(ExpectedAll(b.calls, b.reg)[k])
  {
    CompleteTakesAll(b, steps);
    ResultsAreInCallOrder(b, TakeOrder(steps));
    SchedulesEnd(b, Spawned(b), steps);
    WorkOfSpawned(Spawned(b).phases);
    NoWork(Execute(b, Spawned(b), steps).phases);
  }

  lemma {:induction false} WorkOfSpawned(phases: seq<Phase>)
    requires forall i | 0 <= i < |phases| :: phases[i].Waiting?
    ensures Work(phases) == 3 * |phases|
  {
    if phases != [] { WorkOfSpawned(phases[1..]); }
  }

  lemma {:induction false} NoWork(phases: seq<Phase>)
    requires forall i | 0 <= i < |phases| :: phases[i].Joined?
    ensures Work(phases) == 0
  {
    if phases != [] { NoWork(phases[1..]); }
  }

  // ---------------------------------------------------------------- panics, over schedules

  function OneByOne(order: seq<nat>): seq<Step> {
    if order == [] then []
    else [Acquire(order[0]), Finish(order[0]), Take(order[0])] + OneByOne(order[1..])
  }

  lemma {:induction false} StepThen(b: Batch, st: State, step: Step, rest: seq<Step>)
    requires Sized(b, st) && Enabled(st, step) && Legal(b, Perform(b, st, step), rest)
    ensures Legal(b, st, [step] + rest)
    ensures Execute(b, st, [step] + rest) == Execute(b, Perform(b, st, step), rest)
  {
    hide Perform, Enabled;
    assert ([step] + rest)[1..] == rest;
  }

  lemma {:induction false} TakeOrderOf(i: nat, rest: seq<Step>)
    ensures TakeOrder([Acquire(i)] + ([Finish(i)] + ([Take(i)] + rest))) == [i] + TakeOrder(rest)
  {
    var s2 := [Take(i)] + rest;
    var s1 := [Finish(i)] + s2;
    assert s2[1..] == rest && s1[1..] == s2 && ([Acquire(i)] + s1)[1..] == s1;
    assert TakeOrder(s2) == [i] + TakeOrder(rest) && TakeOrder(s1) == TakeOrder(s2);
  }

  function Joining(b: Batch, st: State, i: nat): (r: State)
    requires Sized(b, st) && i < |b.calls|
    ensures Sized(b, r)
  {
    st.(phases := st.phases[i := Joined], slots := Join(b, st.slots, i))
  }

  /** Acquiring, finishing and taking one task. */
  lemma {:induction false} OneTask(b: Batch, st: State, i: nat, rest: seq<Step>)
    requires Sized(b, st) && i < |b.calls| && st.phases[i].Waiting? && st.permits > 0
    requires Legal(b, Joining(b, st, i), rest)
    ensures var steps := [Acquire(i), Finish(i), Take(i)] + rest;
            && Legal(b, st, steps)
            && Execute(b, st, steps) == Execute(b, Joining(b, st, i), rest)
            && TakeOrder(steps) == [i] + TakeOrder(rest)
  {
    hide Join, Legal, Execute, TakeOrder;
    var a := Perform(b, st, Acquire(i));
    var c := Perform(b, a, Finish(i));
    assert Perform(b, c, Take(i)).phases == st.phases[i := Joined];
    StepThen(b, c, Take(i), rest);
    StepThen(b, a, Finish(i), [Take(i)] + rest);
    StepThen(b, st, Acquire(i), [Finish(i)] + ([Take(i)] + rest));
    TakeOrderOf(i, rest);
    assert [Acquire(i), Finish(i), Take(i)] + rest == [Acquire(i)] + ([Finish(i)] + ([Take(i)] + rest));
  }

  lemma {:induction false} OneByOneIsLegal(b: Batch, st: State, order: seq<nat>)
    requires Sized(b, st) && Within(order, |b.calls|)
    requires NoRepeats(order) && st.permits > 0
    requires forall i | 0 <= i < |st.phases| :: if i in order then st.phases[i].Waiting? else st.phases[i].Joined?
    ensures Legal(b, st, OneByOne(order)) && Complete(Execute(b, st, OneByOne(order)))
    ensures TakeOrder(OneByOne(order)) == order
    decreases |order|
  {
    if order != [] {
      hide Join, Legal, Execute, TakeOrder;
      var i := order[0];
      assert order == [i] + order[1..];
      OneByOneIsLegal(b, Joining(b, st, i), order[1..]);
      OneTask(b, st, i, OneByOne(order[1..]));
    }
  }

  /**
   Every schedule gives each panicking call its error result and every other call its own result
   exactly when the panicking calls come before all others.
   */
  lemma {:induction false} SchedulesContainPanicsIffTheyLead(b: Batch)
    requires ValidBatch(b)
    ensures (forall steps | Legal(b, Spawned(b), steps) && Complete(Execute(b, Spawned(b), steps)) ::
               Contained(b, Execute(b, Spawned(b), steps).slots))
            <==> PanicsFirst(b.panics)
  {
    hide JoinAll, Owed;
    if PanicsFirst(b.panics) {
      forall steps | Legal(b, Spawned(b), steps) && Complete(Execute(b, Spawned(b), steps))
        ensures Contained(b, Execute(b, Spawned(b), steps).slots)
      {
        CompleteTakesAll(b, steps);
        LeadingPanicsAreContained(b, TakeOrder(steps));
      }
    } else {
      var order := PanicsThenRest(b.panics);
      TrailingPanicAborts(b);
      OneByOneIsLegal(b, Spawned(b), order);
      CompleteTakesAll(b, OneByOne(order));
      assert !Contained(b, Execute(b, Spawned(b), OneByOne(order)).slots);
    }
  }
}
