/** Execution of an accepted workflow: all-predecessor barriers, supersteps in
    which every triggered step runs on one snapshot, and merged outputs. */
module WorkflowRun {
  import opened Wrappers
  import opened Graphs
  import opened WorkflowDag
  import Templates

  type Outputs = map<Id, string>

  /** What an agent is given: the rendered task, the workflow input, and the
      outputs of the declared dependencies, nothing else. */
  datatype Payload = Payload(task: string, workflowInput: string, dependencyOutputs: Outputs)

  datatype Outcome = Completed(output: string) | Failed

  /** A workflow with its input and the outcome of each agent invocation. A step
      runs at most once (proved below), so fixing an outcome for each step and
      payload loses no behaviour. */
  datatype Job = Job(steps: seq<Step>, input: string, agent: (Id, Payload) -> Outcome)

  /** What the runs rely on; an accepted workflow has it. */
  ghost predicate Valid(job: Job) {
    && Distinct(Ids(job.steps))
    && Closed(Dep(job))
    && Acyclic(Dep(job))
  }

  lemma AcceptedIsValid(job: Job, output: Option<Id>)
    requires Accepted(job.steps, output)
    ensures Valid(job)
  {
    KnownIsClosed(job.steps);
  }

  // ----- one step

  function MergeOutputs(left: Outputs, right: Outputs): Outputs {
    left + right
  }

  function Restrict(available: Outputs, deps: seq<Id>): Outputs {
    map d | d in deps && d in available :: available[d]
  }

  predicate AllPresent(deps: seq<Id>, available: set<Id>) {
    deps == [] || (deps[0] in available && AllPresent(deps[1..], available))
  }

  lemma {:induction false} AllPresentIff(deps: seq<Id>, available: set<Id>)
    ensures AllPresent(deps, available) <==> Elems(deps) <= available
  {
    if deps != [] {
      AllPresentIff(deps[1..], available);
      assert Elems(deps) == {deps[0]} + Elems(deps[1..]);
    }
  }

  /** The step body up to the agent call; None is the missing-dependency guard. */
  function StepPayload(step: Step, input: string, available: Outputs): Option<Payload> {
    if !AllPresent(step.dependsOn, available.Keys) then None
    else
      var dependencies := Restrict(available, step.dependsOn);
      Some(Payload(Templates.Render(step.intent, dependencies["input" := input]), input, dependencies))
  }

  function RunStep(job: Job, step: Step, available: Outputs): Outcome {
    match StepPayload(step, job.input, available)
    case None => Failed
    case Some(payload) => job.agent(step.id, payload)
  }

  /** A step's outcome is a function of the input and its dependencies' outputs. */
  lemma StepLocality(job: Job, step: Step, a: Outputs, b: Outputs)
    requires Elems(step.dependsOn) <= a.Keys && Elems(step.dependsOn) <= b.Keys
    requires forall d :: d in Elems(step.dependsOn) ==> a[d] == b[d]
    ensures StepPayload(step, job.input, a) == StepPayload(step, job.input, b)
    ensures StepPayload(step, job.input, a).Some?
  {
    AllPresentIff(step.dependsOn, a.Keys);
    AllPresentIff(step.dependsOn, b.Keys);
    assert forall d :: d in step.dependsOn <==> d in Elems(step.dependsOn);
    assert Restrict(a, step.dependsOn) == Restrict(b, step.dependsOn);
  }

  // ----- the scheduler

  /** `seen` is each barrier's set of predecessors heard from since it last fired;
      `next` the steps triggered for the coming superstep; `started` the log of
      step invocations (one receipt each). */
  datatype Run = Run(outputs: Outputs, seen: map<Id, set<Id>>, next: set<Id>, started: seq<Id>, supersteps: nat,
                     failed: bool)

  ghost function Dep(job: Job): Graph {
    Dependencies(job.steps)
  }

  ghost function StepOf(job: Job, id: Id): Step
    requires id in StepIds(job.steps)
  {
    job.steps[IndexOf(job.steps, id)]
  }

  function Start(steps: seq<Step>): Run {
    Run(map[], map id | id in StepIds(steps) :: {}, set i | 0 <= i < |steps| && steps[i].dependsOn == [] :: steps[i].id,
        [], 0, false)
  }

  ghost function DepSet(job: Job, id: Id): set<Id> {
    if id in StepIds(job.steps) then Elems(Dep(job)[id]) else {}
  }

  ghost function OutcomeOf(job: Job, available: Outputs, id: Id): Outcome {
    if id in StepIds(job.steps) then RunStep(job, StepOf(job, id), available) else Failed
  }

  /** A barrier after the steps `ran` have reported; it fires when all have. */
  ghost function Heard(job: Job, seen: map<Id, set<Id>>, ran: set<Id>, id: Id): set<Id> {
    (if id in seen then seen[id] else {}) + ran * DepSet(job, id)
  }

  ghost predicate Fires(job: Job, seen: map<Id, set<Id>>, ran: set<Id>, id: Id) {
    DepSet(job, id) != {} && Heard(job, seen, ran, id) == DepSet(job, id)
  }

  ghost function TriggeredIn(job: Job, seen: map<Id, set<Id>>, ran: set<Id>, ids: set<Id>): set<Id> {
    set id | id in ids && Fires(job, seen, ran, id)
  }

  ghost function RearmIn(job: Job, seen: map<Id, set<Id>>, ran: set<Id>, ids: set<Id>): map<Id, set<Id>> {
    map id | id in ids :: if Fires(job, seen, ran, id) then {} else Heard(job, seen, ran, id)
  }

  ghost function Triggered(job: Job, seen: map<Id, set<Id>>, ran: set<Id>): set<Id> {
    TriggeredIn(job, seen, ran, StepIds(job.steps))
  }

  ghost function Rearm(job: Job, seen: map<Id, set<Id>>, ran: set<Id>): map<Id, set<Id>> {
    RearmIn(job, seen, ran, StepIds(job.steps))
  }

  ghost function Write(job: Job, available: Outputs, id: Id): Outputs {
    match OutcomeOf(job, available, id)
    case Completed(output) => map[id := output]
    case Failed => map[]
  }

  /** The writes of a superstep, merged one by one in the order they arrive. */
  ghost function MergeAll(job: Job, available: Outputs, outputs: Outputs, order: seq<Id>): Outputs
    decreases |order|
  {
    if order == [] then outputs
    else MergeAll(job, available, MergeOutputs(outputs, Write(job, available, order[0])), order[1..])
  }

  ghost predicate AllComplete(job: Job, available: Outputs, ran: set<Id>) {
    forall id {:trigger OutcomeOf(job, available, id)} :: id in ran ==> OutcomeOf(job, available, id).Completed?
  }

  /** Every triggered step completes; `order` is the order of their writes. */
  ghost predicate Commit(job: Job, r: Run, order: seq<Id>, r': Run) {
    && !r.failed && r.next != {} && Distinct(order) && Elems(order) == r.next
    && AllComplete(job, r.outputs, r.next)
    && r' == Run(MergeAll(job, r.outputs, r.outputs, order), Rearm(job, r.seen, r.next),
                 Triggered(job, r.seen, r.next), r.started + order, r.supersteps + 1, false)
  }

  /** Some triggered step fails: the steps begun are `begun`, and nothing is merged. */
  ghost predicate Abort(job: Job, r: Run, begun: seq<Id>, culprit: Id, r': Run) {
    && !r.failed && Distinct(begun) && Elems(begun) <= r.next && culprit in Elems(begun)
    && OutcomeOf(job, r.outputs, culprit).Failed?
    && r' == r.(started := r.started + begun, failed := true)
  }

  ghost predicate Superstep(job: Job, r: Run, r': Run) {
    || (exists order :: Commit(job, r, order, r'))
    || (exists begun, culprit :: Abort(job, r, begun, culprit, r'))
  }

  ghost predicate IsRun(job: Job, rs: seq<Run>) {
    && |rs| > 0
    && if |rs| == 1 then rs[0] == Start(job.steps)
       else IsRun(job, rs[..|rs| - 1]) && Superstep(job, rs[|rs| - 2], rs[|rs| - 1])
  }

  ghost predicate Reachable(job: Job, r: Run) {
    exists rs :: IsRun(job, rs) && rs[|rs| - 1] == r
  }

  // ----- meaning

  /** Each recorded output is what its step returns on the recorded dependencies. */
  ghost predicate Consistent(job: Job, m: Outputs) {
    forall id {:trigger ConsistentAt(job, m, id)} :: id in m ==> ConsistentAt(job, m, id)
  }

  ghost predicate ConsistentAt(job: Job, m: Outputs, id: Id) {
    && id in m && id in StepIds(job.steps)
    && DepSet(job, id) <= m.Keys
    && OutcomeOf(job, m, id) == Completed(m[id])
  }

  /** The meaning of a workflow: the output map that solves the steps' equations. */
  ghost predicate Denotes(job: Job, m: Outputs) {
    m.Keys == StepIds(job.steps) && Consistent(job, m)
  }

  lemma DifferenceHasCause(job: Job, m1: Outputs, m2: Outputs, id: Id)
    requires ConsistentAt(job, m1, id) && ConsistentAt(job, m2, id) && m1[id] != m2[id]
    ensures exists d :: Edge(Dep(job), id, d) && d in m1 && d in m2 && m1[d] != m2[d]
  {
    if forall d :: d in DepSet(job, id) ==> m1[d] == m2[d] {
      StepLocality(job, StepOf(job, id), m1, m2);
      assert false;
    }
    var d :| d in DepSet(job, id) && m1[d] != m2[d];
    assert Edge(Dep(job), id, d);
  }

  function Differing(m1: Outputs, m2: Outputs): set<Id> {
    set id | id in m1.Keys * m2.Keys && m1[id] != m2[id]
  }

  lemma DifferencesHaveCauses(job: Job, m1: Outputs, m2: Outputs)
    requires Consistent(job, m1) && Consistent(job, m2)
    ensures SinkFree(Dep(job), Differing(m1, m2))
  {
    forall id | id in Differing(m1, m2) ensures StaysIn(Dep(job), Differing(m1, m2), id) {
      assert ConsistentAt(job, m1, id) && ConsistentAt(job, m2, id);
      DifferenceHasCause(job, m1, m2, id);
    }
  }

  /** The equations have at most one solution. */
  lemma MeaningUnique(job: Job, m1: Outputs, m2: Outputs)
    requires Valid(job) && Denotes(job, m1) && Denotes(job, m2)
    ensures m1 == m2
  {
    DifferencesHaveCauses(job, m1, m2);
    if Differing(m1, m2) != {} {
      SinkFreeHasCycle(Dep(job), Differing(m1, m2));
    }
    forall id | id in m1 ensures m1[id] == m2[id] {
      assert id !in Differing(m1, m2);
    }
  }

  // ----- the invariant of every reachable state

  /** Where a step stands: finished, triggered, or waiting on an incomplete barrier
      that has heard from exactly its finished predecessors. */
  ghost predicate Standing(job: Job, finished: set<Id>, next: set<Id>, seen: map<Id, set<Id>>, id: Id) {
    && id in seen
    && if id in finished || id in next then DepSet(job, id) <= finished && seen[id] == {}
       else !(DepSet(job, id) <= finished) && seen[id] == DepSet(job, id) * finished
  }

  ghost predicate Scheduled(job: Job, finished: set<Id>, next: set<Id>, seen: map<Id, set<Id>>) {
    && next <= StepIds(job.steps)
    && next !! finished
    && (forall id {:trigger Standing(job, finished, next, seen, id)} ::
          id in StepIds(job.steps) ==> Standing(job, finished, next, seen, id))
  }

  ghost predicate Inv(job: Job, r: Run) {
    && Scheduled(job, r.outputs.Keys, r.next, r.seen)
    && Consistent(job, r.outputs)
    && r.supersteps <= |r.outputs|
    && Distinct(r.started)
    && (if r.failed then r.outputs.Keys < Elems(r.started) <= r.outputs.Keys + r.next
        else Elems(r.started) == r.outputs.Keys)
  }

  lemma StartStanding(job: Job, id: Id)
    requires Distinct(Ids(job.steps)) && id in StepIds(job.steps)
    ensures var r := Start(job.steps); Standing(job, {}, r.next, r.seen, id)
  {
    var r := Start(job.steps);
    var i := IndexOf(job.steps, id);
    var deps := Dep(job)[id];
    if deps == [] {
      assert id in r.next;
      assert Elems(deps) == {};
    } else {
      assert deps[0] in Elems(deps);
      if id in r.next {
        var j :| 0 <= j < |job.steps| && job.steps[j].dependsOn == [] && job.steps[j].id == id;
        DependenciesOf(job.steps, j);
        assert false;
      }
    }
  }

  lemma StartInv(job: Job)
    requires Distinct(Ids(job.steps))
    ensures Inv(job, Start(job.steps))
  {
    var r := Start(job.steps);
    forall id | id in StepIds(job.steps) ensures Standing(job, {}, r.next, r.seen, id) {
      StartStanding(job, id);
    }
    assert r.outputs.Keys == {} == Elems([]);
  }

  // ----- a committed superstep

  ghost function Results(job: Job, available: Outputs, ran: set<Id>): Outputs {
    map id | id in ran && OutcomeOf(job, available, id).Completed? :: OutcomeOf(job, available, id).output
  }

  lemma ResultsCons(job: Job, available: Outputs, x: Id, s: set<Id>)
    requires x !in s
    ensures Results(job, available, {x} + s) == Write(job, available, x) + Results(job, available, s)
  {
  }

  lemma UnionAssoc(a: Outputs, b: Outputs, c: Outputs)
    ensures (a + b) + c == a + (b + c)
  {
  }

  /** Merging in any order gives the union: outputs of one superstep never collide. */
  lemma {:induction false} MergeIsUnion(job: Job, available: Outputs, base: Outputs, order: seq<Id>)
    requires Distinct(order)
    ensures MergeAll(job, available, base, order) == base + Results(job, available, Elems(order))
    decreases |order|
  {
    if order == [] {
      assert Results(job, available, Elems(order)) == map[];
    } else {
      var x, rest := order[0], order[1..];
      assert Elems(order) == {x} + Elems(rest);
      var w := Write(job, available, x);
      ResultsCons(job, available, x, Elems(rest));
      UnionAssoc(base, w, Results(job, available, Elems(rest)));
      MergeIsUnion(job, available, base + w, rest);
    }
  }

  lemma StandingAfter(job: Job, finished: set<Id>, next: set<Id>, seen: map<Id, set<Id>>, id: Id)
    requires next !! finished && id in StepIds(job.steps) && Standing(job, finished, next, seen, id)
    ensures Standing(job, finished + next, Triggered(job, seen, next), Rearm(job, seen, next), id)
    ensures id in Triggered(job, seen, next) ==> id !in finished + next
  {
    var deps := DepSet(job, id);
    var heard := Heard(job, seen, next, id);
    if id in finished || id in next {
      assert next * deps == {};
      assert heard == {};
    } else {
      assert heard == deps * (finished + next);
      assert heard == deps <==> deps <= finished + next;
    }
  }

  lemma ScheduledAfter(job: Job, finished: set<Id>, next: set<Id>, seen: map<Id, set<Id>>)
    requires Scheduled(job, finished, next, seen)
    ensures Scheduled(job, finished + next, Triggered(job, seen, next), Rearm(job, seen, next))
  {
    var finished', next', seen' := finished + next, Triggered(job, seen, next), Rearm(job, seen, next);
    forall id | id in StepIds(job.steps)
      ensures Standing(job, finished', next', seen', id) && (id in next' ==> id !in finished')
    {
      assert Standing(job, finished, next, seen, id);
      StandingAfter(job, finished, next, seen, id);
    }
  }

  lemma ConsistentGrows(job: Job, m: Outputs, ran: set<Id>)
    requires Consistent(job, m) && ran <= StepIds(job.steps) && ran !! m.Keys && AllComplete(job, m, ran)
    requires forall id {:trigger DepSet(job, id)} :: id in ran ==> DepSet(job, id) <= m.Keys
    ensures Consistent(job, m + Results(job, m, ran))
  {
    var m' := m + Results(job, m, ran);
    forall id | id in m' ensures ConsistentAt(job, m', id) {
      if id in m {
        assert ConsistentAt(job, m, id);
      } else {
        assert OutcomeOf(job, m, id).Completed? && DepSet(job, id) <= m.Keys;
      }
      assert DepSet(job, id) == Elems(StepOf(job, id).dependsOn);
      StepLocality(job, StepOf(job, id), m, m');
    }
  }

  lemma CommitOutputs(job: Job, m: Outputs, next: set<Id>, order: seq<Id>)
    requires AllComplete(job, m, next) && Distinct(order) && Elems(order) == next && next !! m.Keys
    ensures MergeAll(job, m, m, order) == m + Results(job, m, next)
    ensures (m + Results(job, m, next)).Keys == m.Keys + next
    ensures |m + Results(job, m, next)| == |m| + |next|
  {
    MergeIsUnion(job, m, m, order);
    ResultsKeys(job, m, next);
    UnionSize(m, Results(job, m, next));
  }

  lemma ResultsKeys(job: Job, m: Outputs, next: set<Id>)
    requires AllComplete(job, m, next)
    ensures Results(job, m, next).Keys == next
  {
    forall id | id in next ensures id in Results(job, m, next) {
      assert OutcomeOf(job, m, id).Completed?;
    }
  }

  lemma UnionSize(a: Outputs, b: Outputs)
    requires a.Keys !! b.Keys
    ensures (a + b).Keys == a.Keys + b.Keys && |a + b| == |a| + |b|
  {
    assert |a + b| == |(a + b).Keys| && |a| == |a.Keys| && |b| == |b.Keys|;
  }

  lemma ScheduledReady(job: Job, finished: set<Id>, next: set<Id>, seen: map<Id, set<Id>>, id: Id)
    requires Scheduled(job, finished, next, seen) && id in next
    ensures DepSet(job, id) <= finished
  {
    assert Standing(job, finished, next, seen, id);
  }

  lemma CommitInv(job: Job, r: Run, order: seq<Id>, r': Run)
    requires Inv(job, r) && Commit(job, r, order, r')
    ensures Inv(job, r') && |r'.outputs| > |r.outputs|
    ensures r'.outputs == r.outputs + Results(job, r.outputs, r.next)
    ensures r'.outputs.Keys == r.outputs.Keys + r.next
  {
    CommitOutputs(job, r.outputs, r.next, order);
    ScheduledAfter(job, r.outputs.Keys, r.next, r.seen);
    forall id | id in r.next ensures DepSet(job, id) <= r.outputs.Keys {
      ScheduledReady(job, r.outputs.Keys, r.next, r.seen, id);
    }
    ConsistentGrows(job, r.outputs, r.next);
    StartedGrows(r.started, order);
  }

  lemma StartedGrows(started: seq<Id>, order: seq<Id>)
    requires Distinct(started) && Distinct(order) && Elems(started) !! Elems(order)
    ensures Distinct(started + order) && Elems(started + order) == Elems(started) + Elems(order)
  {
    var s := started + order;
    forall i, j | 0 <= i < j < |s| ensures s[i] != s[j] {
      if i < |started| <= j {
        assert s[i] in Elems(started) && s[j] in Elems(order);
      }
    }
  }

  lemma AbortInv(job: Job, r: Run, begun: seq<Id>, culprit: Id, r': Run)
    requires Inv(job, r) && Abort(job, r, begun, culprit, r')
    ensures Inv(job, r')
  {
    StartedGrows(r.started, begun);
    assert culprit in Elems(r'.started) && culprit !in r.outputs.Keys;
  }

  lemma {:induction false} RunInv(job: Job, rs: seq<Run>)
    requires Valid(job) && IsRun(job, rs)
    ensures Inv(job, rs[|rs| - 1])
    decreases |rs|
  {
    if |rs| == 1 {
      StartInv(job);
    } else {
      var before := rs[..|rs| - 1];
      var r := before[|before| - 1];
      assert r == rs[|rs| - 2];
      RunInv(job, before);
      StepInv(job, r, rs[|rs| - 1]);
    }
  }

  lemma StepInv(job: Job, r: Run, r': Run)
    requires Inv(job, r) && Superstep(job, r, r')
    ensures Inv(job, r')
  {
    if order :| Commit(job, r, order, r') {
      CommitInv(job, r, order, r');
    } else {
      var begun, culprit :| Abort(job, r, begun, culprit, r');
      AbortInv(job, r, begun, culprit, r');
    }
  }

  lemma ReachableInv(job: Job, r: Run)
    requires Valid(job) && Reachable(job, r)
    ensures Inv(job, r)
  {
    var rs :| IsRun(job, rs) && rs[|rs| - 1] == r;
    RunInv(job, rs);
  }

  // ----- what holds of every run

  /** No step starts without all dependency results: the guard never fires. */
  lemma GuardNeverFires(job: Job, r: Run, id: Id)
    requires Valid(job) && Reachable(job, r) && id in r.next
    ensures id in StepIds(job.steps) && StepPayload(StepOf(job, id), job.input, r.outputs).Some?
  {
    ReachableInv(job, r);
    ScheduledReady(job, r.outputs.Keys, r.next, r.seen, id);
    AllPresentIff(StepOf(job, id).dependsOn, r.outputs.Keys);
  }

  /** Every step starts at most once, and in a finished run exactly once. */
  lemma ExactlyOnce(job: Job, r: Run)
    requires Valid(job) && Reachable(job, r)
    ensures Distinct(r.started) && Elems(r.started) <= StepIds(job.steps)
    ensures !r.failed && r.next == {} ==> Elems(r.started) == r.outputs.Keys == StepIds(job.steps)
  {
    ReachableInv(job, r);
    OutputsAreSteps(job, r.outputs);
    if !r.failed && r.next == {} {
      Progress(job, r);
    }
  }

  lemma OutputsAreSteps(job: Job, m: Outputs)
    requires Consistent(job, m)
    ensures m.Keys <= StepIds(job.steps)
  {
    forall id | id in m.Keys ensures id in StepIds(job.steps) {
      assert ConsistentAt(job, m, id);
    }
  }

  lemma WaitingHasCause(job: Job, finished: set<Id>, seen: map<Id, set<Id>>)
    requires Scheduled(job, finished, {}, seen) && Closed(Dep(job))
    ensures SinkFree(Dep(job), StepIds(job.steps) - finished)
  {
    var left := StepIds(job.steps) - finished;
    forall id | id in left ensures StaysIn(Dep(job), left, id) {
      assert Standing(job, finished, {}, seen, id);
      var d :| d in DepSet(job, id) && d !in finished;
      assert Edge(Dep(job), id, d);
    }
  }

  /** Until every step has finished, something is triggered. */
  lemma Progress(job: Job, r: Run)
    requires Valid(job) && Reachable(job, r)
    ensures r.next == {} ==> StepIds(job.steps) <= r.outputs.Keys
  {
    ReachableInv(job, r);
    if r.next == {} {
      WaitingHasCause(job, r.outputs.Keys, r.seen);
      if StepIds(job.steps) - r.outputs.Keys != {} {
        SinkFreeHasCycle(Dep(job), StepIds(job.steps) - r.outputs.Keys);
      }
      forall id | id in StepIds(job.steps) ensures id in r.outputs.Keys {
        assert id !in StepIds(job.steps) - r.outputs.Keys;
      }
    }
  }

  /** The scheduler's limit of |steps| + 2 supersteps is never reached. */
  lemma SuperstepBound(job: Job, r: Run)
    requires Valid(job) && Reachable(job, r)
    ensures r.supersteps <= |job.steps|
  {
    ReachableInv(job, r);
    OutputsAreSteps(job, r.outputs);
    SubsetSize(r.outputs.Keys, StepIds(job.steps));
    IdsAreStepIds(job.steps);
    DistinctSize(Ids(job.steps));
    assert |r.outputs| == |r.outputs.Keys|;
  }

  /** Any two finished runs, under any interleaving, end with the same outputs. */
  lemma Confluence(job: Job, r1: Run, r2: Run)
    requires Valid(job) && Reachable(job, r1) && Reachable(job, r2)
    requires !r1.failed && r1.next == {} && !r2.failed && r2.next == {}
    ensures Denotes(job, r1.outputs) && r1.outputs == r2.outputs
  {
    ReachableInv(job, r1);
    ReachableInv(job, r2);
    ExactlyOnce(job, r1);
    ExactlyOnce(job, r2);
    MeaningUnique(job, r1.outputs, r2.outputs);
  }

  /** What a run has recorded is part of the meaning, when there is one. */
  lemma OutputsWithinMeaning(job: Job, r: Run, m: Outputs)
    requires Valid(job) && Inv(job, r) && Denotes(job, m)
    ensures forall id :: id in r.outputs ==> id in m && r.outputs[id] == m[id]
  {
    OutputsAreSteps(job, r.outputs);
    DifferencesHaveCauses(job, r.outputs, m);
    if Differing(r.outputs, m) != {} {
      SinkFreeHasCycle(Dep(job), Differing(r.outputs, m));
    }
    forall id | id in r.outputs ensures id in m && r.outputs[id] == m[id] {
      assert id !in Differing(r.outputs, m);
    }
  }

  /** With that, a triggered step does what it does in the meaning: it completes. */
  lemma TriggeredCompletes(job: Job, r: Run, m: Outputs, id: Id)
    requires Valid(job) && Inv(job, r) && Denotes(job, m) && id in r.next
    ensures OutcomeOf(job, r.outputs, id).Completed?
  {
    OutputsWithinMeaning(job, r, m);
    assert ConsistentAt(job, m, id);
    ScheduledReady(job, r.outputs.Keys, r.next, r.seen, id);
    StepLocality(job, StepOf(job, id), r.outputs, m);
  }

  lemma {:induction false} MeaningNeverFails(job: Job, rs: seq<Run>, m: Outputs)
    requires Valid(job) && IsRun(job, rs) && Denotes(job, m)
    ensures !rs[|rs| - 1].failed
    decreases |rs|
  {
    if |rs| > 1 {
      var before := rs[..|rs| - 1];
      var r, r' := rs[|rs| - 2], rs[|rs| - 1];
      assert before[|before| - 1] == r;
      RunInv(job, before);
      if begun, culprit :| Abort(job, r, begun, culprit, r') {
        assert culprit in r.next;
        TriggeredCompletes(job, r, m, culprit);
        assert false;
      }
    }
  }

  /** A workflow with a meaning succeeds under every schedule: no reachable state has
      failed, and whatever is recorded is part of the meaning. */
  lemma NoScheduleFails(job: Job, r: Run, m: Outputs)
    requires Valid(job) && Reachable(job, r) && Denotes(job, m)
    ensures !r.failed && forall id :: id in r.outputs ==> id in m && r.outputs[id] == m[id]
  {
    ReachableInv(job, r);
    OutputsWithinMeaning(job, r, m);
    var rs :| IsRun(job, rs) && rs[|rs| - 1] == r;
    MeaningNeverFails(job, rs, m);
  }

  /** What has been recorded is dependency-closed. */
  lemma {:induction false} OutputsClosed(job: Job, m: Outputs, p: seq<Id>)
    requires Consistent(job, m) && IsPath(Dep(job), p) && p[0] in m
    ensures p[|p| - 1] in m
    decreases |p|
  {
    if |p| > 1 {
      assert Edge(Dep(job), p[0], p[1]);
      assert ConsistentAt(job, m, p[0]);
      assert p[1] in DepSet(job, p[0]);
      PathSlice(Dep(job), p, 1, |p|);
      OutputsClosed(job, m, p[1..]);
    }
  }

  /** A started step's dependencies have all been recorded. */
  lemma StartedReady(job: Job, r: Run, id: Id)
    requires Inv(job, r) && id in r.started
    ensures DepSet(job, id) <= r.outputs.Keys
  {
    assert id in Elems(r.started);
    if id in r.outputs {
      assert ConsistentAt(job, r.outputs, id);
    } else {
      ScheduledReady(job, r.outputs.Keys, r.next, r.seen, id);
    }
  }

  lemma StartedAbove(job: Job, r: Run, dependent: Id, culprit: Id)
    requires Inv(job, r) && dependent in r.started && dependent != culprit && Reach(Dep(job), dependent, culprit)
    ensures culprit in r.outputs
  {
    var p :| PathFrom(Dep(job), dependent, p) && p[|p| - 1] == culprit;
    StartedReady(job, r, dependent);
    assert Edge(Dep(job), p[0], p[1]) && p[1] in DepSet(job, dependent);
    PathSlice(Dep(job), p, 1, |p|);
    OutputsClosed(job, r.outputs, p[1..]);
  }

  /** When a step fails, none of its transitive dependents has been started, and the run is over. */
  lemma FailureContained(job: Job, r: Run, begun: seq<Id>, culprit: Id, r': Run, dependent: Id)
    requires Valid(job) && Reachable(job, r) && Abort(job, r, begun, culprit, r')
    requires dependent != culprit && Reach(Dep(job), dependent, culprit)
    ensures dependent !in r'.started && forall r'' :: !Superstep(job, r', r'')
  {
    ReachableInv(job, r);
    AbortInv(job, r, begun, culprit, r');
    if dependent in r'.started {
      StartedAbove(job, r', dependent, culprit);
      assert false;
    }
  }

  // ----- what agents are given, and what the equations say

  /** The payload of a step, in the workflow's own terms: all its dependencies have been
      recorded, and it gets exactly those, the input, and its text with the placeholders
      filled from both. */
  ghost predicate Gives(step: Step, input: string, m: Outputs, p: Payload) {
    && (forall d :: d in step.dependsOn ==> d in m)
    && p.workflowInput == input
    && (forall d :: d in p.dependencyOutputs <==> d in step.dependsOn)
    && (forall d :: d in step.dependsOn ==> p.dependencyOutputs[d] == m[d])
    && Fills(step.intent, p.dependencyOutputs["input" := input], p.task)
  }

  /** The text with the placeholders of its only maximal reading filled. */
  ghost predicate Fills(intent: string, values: Outputs, task: string) {
    exists ts :: Templates.Unparse(ts) == intent && Templates.Maximal(ts) && task == Templates.Fill(ts, values)
  }

  lemma RenderIff(intent: string, values: Outputs, task: string)
    ensures Fills(intent, values, task) <==> task == Templates.Render(intent, values)
  {
    var ts := Templates.RenderFillsHoles(intent, values);
    if us :| Templates.Unparse(us) == intent && Templates.Maximal(us) && task == Templates.Fill(us, values) {
      Templates.MaximalUnique(ts, us);
    }
  }

  /** A step's payload is what the workflow says it is, and there is none exactly when a
      dependency is missing. */
  lemma PayloadIff(step: Step, input: string, m: Outputs, p: Payload)
    ensures StepPayload(step, input, m) == Some(p) <==> Gives(step, input, m, p)
    ensures StepPayload(step, input, m).None? <==> exists d :: d in step.dependsOn && d !in m
  {
    AllPresentIff(step.dependsOn, m.Keys);
    assert forall d :: d in Elems(step.dependsOn) <==> d in step.dependsOn;
    RenderIff(step.intent, p.dependencyOutputs["input" := input], p.task);
    if Gives(step, input, m, p) {
      assert p.dependencyOutputs == Restrict(m, step.dependsOn);
    }
  }

  /** The agent of a step, given its payload over `m`, ends with the outcome. */
  ghost predicate Ends(job: Job, step: Step, m: Outputs, outcome: Outcome) {
    exists p :: Gives(step, job.input, m, p) && job.agent(step.id, p) == outcome
  }

  /** Every recorded output is what the step's agent returns over the recorded outputs. */
  ghost predicate Explained(job: Job, m: Outputs) {
    && m.Keys <= StepIds(job.steps)
    && forall i :: 0 <= i < |job.steps| && job.steps[i].id in m ==>
         Ends(job, job.steps[i], m, Completed(m[job.steps[i].id]))
  }

  lemma EndsIff(job: Job, i: nat, m: Outputs, output: string)
    requires Distinct(Ids(job.steps)) && i < |job.steps|
    ensures Ends(job, job.steps[i], m, Completed(output)) <==>
            OutcomeOf(job, m, job.steps[i].id) == Completed(output)
  {
    var step := job.steps[i];
    DependenciesOf(job.steps, i);
    if p :| Gives(step, job.input, m, p) && job.agent(step.id, p) == Completed(output) {
      PayloadIff(step, job.input, m, p);
    }
    if StepPayload(step, job.input, m).Some? {
      PayloadIff(step, job.input, m, StepPayload(step, job.input, m).value);
    }
  }

  /** One step: the model's equation is the explicit one. */
  lemma StepExplained(job: Job, m: Outputs, i: nat)
    requires Valid(job) && i < |job.steps| && job.steps[i].id in m
    ensures ConsistentAt(job, m, job.steps[i].id) <==> Ends(job, job.steps[i], m, Completed(m[job.steps[i].id]))
  {
    hide Gives, OutcomeOf;
    var step := job.steps[i];
    EndsIff(job, i, m, m[step.id]);
    DependenciesOf(job.steps, i);
    assert DepSet(job, step.id) == Elems(step.dependsOn);
    if Ends(job, step, m, Completed(m[step.id])) {
      var p :| Gives(step, job.input, m, p);
      GivesAll(step, job.input, m, p);
    }
  }

  lemma GivesAll(step: Step, input: string, m: Outputs, p: Payload)
    requires Gives(step, input, m, p)
    ensures Elems(step.dependsOn) <= m.Keys
  {
  }

  lemma ConsistentIsExplained(job: Job, m: Outputs)
    requires Valid(job)
    ensures Consistent(job, m) <==> Explained(job, m)
  {
    hide Ends, Valid;
    if Consistent(job, m) {
      forall id | id in m ensures id in StepIds(job.steps) {
        assert ConsistentAt(job, m, id);
      }
      forall i | 0 <= i < |job.steps| && job.steps[i].id in m
        ensures Ends(job, job.steps[i], m, Completed(m[job.steps[i].id]))
      {
        assert ConsistentAt(job, m, job.steps[i].id);
        StepExplained(job, m, i);
      }
    }
    if Explained(job, m) {
      forall id | id in m ensures ConsistentAt(job, m, id) {
        StepExplained(job, m, IndexOf(job.steps, id));
      }
    }
  }

  /** The meaning of a workflow, in its own terms: one output for every step, each the
      result of the step's agent on its input, its text and its dependencies' outputs. */
  lemma DenotesIff(job: Job, m: Outputs)
    requires Valid(job)
    ensures Denotes(job, m) <==> m.Keys == StepIds(job.steps) && Explained(job, m)
  {
    ConsistentIsExplained(job, m);
  }

  /** The answer: the output of the named step, or everything. */
  predicate Answers(output: Option<Id>, m: Outputs, answer: Answer) {
    match output
    case None => answer == All(m)
    case Some(id) => id in m && answer == One(m[id])
  }

  // ----- the run loop

  datatype RunError = StepFailed(step: Id) | SuperstepLimit

  datatype Answer = One(output: string) | All(outputs: Outputs)

  function Select(output: Option<Id>, outputs: Outputs): Answer {
    if output.Some? && output.value in outputs then One(outputs[output.value]) else All(outputs)
  }

  lemma StartReachable(job: Job)
    ensures Reachable(job, Start(job.steps))
  {
    assert IsRun(job, [Start(job.steps)]);
  }

  lemma StepReachable(job: Job, r: Run, r': Run)
    requires Reachable(job, r) && Superstep(job, r, r')
    ensures Reachable(job, r')
  {
    var rs :| IsRun(job, rs) && rs[|rs| - 1] == r;
    assert (rs + [r'])[..|rs|] == rs;
    assert IsRun(job, rs + [r']);
  }

  method FindStep(job: Job, id: Id) returns (step: Step)
    requires Distinct(Ids(job.steps)) && id in StepIds(job.steps)
    ensures step == StepOf(job, id)
  {
    var n := 0;
    while job.steps[n].id != id
      invariant n <= IndexOf(job.steps, id)
      decreases |job.steps| - n
    {
      n := n + 1;
    }
    DependenciesOf(job.steps, n);
    step := job.steps[n];
  }

  /** The barriers after a superstep: which fire, and what the others have heard. */
  method Deliver(job: Job, seen: map<Id, set<Id>>, ran: set<Id>) returns (next: set<Id>, seen': map<Id, set<Id>>)
    requires Distinct(Ids(job.steps))
    ensures next == Triggered(job, seen, ran) && seen' == Rearm(job, seen, ran)
  {
    next, seen' := {}, map[];
    var n := 0;
    ghost var ids: set<Id> := {};
    while n < |job.steps|
      invariant n <= |job.steps| && ids == Elems(Ids(job.steps)[..n])
      invariant next == TriggeredIn(job, seen, ran, ids)
      invariant seen' == RearmIn(job, seen, ran, ids)
    {
      var step := job.steps[n];
      NextId(job, n);
      DeliverOne(job, seen, ran, ids, step.id);
      var heard := (if step.id in seen then seen[step.id] else {}) + ran * Elems(step.dependsOn);
      if Elems(step.dependsOn) != {} && heard == Elems(step.dependsOn) {
        next, seen' := next + {step.id}, seen'[step.id := {}];
      } else {
        seen' := seen'[step.id := heard];
      }
      n, ids := n + 1, ids + {step.id};
    }
    IdsAreStepIds(job.steps);
    assert Ids(job.steps)[..n] == Ids(job.steps);
  }

  lemma NextId(job: Job, n: nat)
    requires Distinct(Ids(job.steps)) && n < |job.steps|
    ensures var id := job.steps[n].id;
            && Elems(Ids(job.steps)[..n + 1]) == Elems(Ids(job.steps)[..n]) + {id}
            && id !in Elems(Ids(job.steps)[..n])
            && DepSet(job, id) == Elems(job.steps[n].dependsOn)
  {
    DependenciesOf(job.steps, n);
    assert Ids(job.steps)[..n + 1] == Ids(job.steps)[..n] + [job.steps[n].id];
    assert Ids(job.steps)[n] == job.steps[n].id;
  }

  lemma DeliverOne(job: Job, seen: map<Id, set<Id>>, ran: set<Id>, ids: set<Id>, id: Id)
    requires id !in ids
    ensures TriggeredIn(job, seen, ran, ids + {id}) ==
            TriggeredIn(job, seen, ran, ids) + if Fires(job, seen, ran, id) then {id} else {}
    ensures RearmIn(job, seen, ran, ids + {id}) ==
            RearmIn(job, seen, ran, ids)[id := if Fires(job, seen, ran, id) then {} else Heard(job, seen, ran, id)]
  {
  }

  /** One superstep: every triggered step runs on the same snapshot, in any order. */
  method RunTriggered(job: Job, next: set<Id>, available: Outputs)
    returns (failed: Option<Id>, order: seq<Id>, merged: Outputs)
    requires Distinct(Ids(job.steps)) && next <= StepIds(job.steps)
    ensures Distinct(order) && Elems(order) <= next
    ensures failed.None? ==> Elems(order) == next && AllComplete(job, available, next)
    ensures failed.None? ==> merged == available + Results(job, available, next)
    ensures failed.Some? ==> failed.value in Elems(order) && OutcomeOf(job, available, failed.value).Failed?
    ensures failed.None? ==> Written(job, available, next, merged)
    ensures failed.Some? ==> FailedOn(job, available, failed.value)
  {
    var todo := next;
    order, merged := [], available;
    while todo != {}
      invariant Distinct(order) && todo <= next && Elems(order) == next - todo
      invariant AllComplete(job, available, Elems(order))
      invariant merged == available + Results(job, available, Elems(order))
    {
      var id :| id in todo;
      todo := todo - {id};
      var step := FindStep(job, id);
      var outcome := RunStep(job, step, available);
      assert outcome == OutcomeOf(job, available, id);
      assert Elems(order + [id]) == {id} + Elems(order);
      order := order + [id];
      match outcome {
        case Failed =>
          FailureMeans(job, available, id);
          return Some(id), order, merged;
        case Completed(output) =>
          ResultsSnoc(job, available, id, next - todo - {id});
          merged := MergeOutputs(merged, map[id := output]);
      }
    }
    failed := None;
    SuperstepMeans(job, available, next);
  }

  /** The outputs so far, and for each triggered step what its agent returned over them. */
  ghost predicate Written(job: Job, available: Outputs, next: set<Id>, merged: Outputs) {
    && merged.Keys == available.Keys + next
    && (forall id :: id in available && id !in next ==> merged[id] == available[id])
    && forall i :: 0 <= i < |job.steps| && job.steps[i].id in next ==>
         Ends(job, job.steps[i], available, Completed(merged[job.steps[i].id]))
  }

  /** The step's agent failed, or one of its dependencies is not there. */
  ghost predicate FailedOn(job: Job, available: Outputs, id: Id) {
    exists i ::
      && 0 <= i < |job.steps| && job.steps[i].id == id
      && (Ends(job, job.steps[i], available, Failed) || exists d :: d in job.steps[i].dependsOn && d !in available)
  }

  lemma SuperstepMeans(job: Job, available: Outputs, next: set<Id>)
    requires Distinct(Ids(job.steps)) && next <= StepIds(job.steps) && AllComplete(job, available, next)
    ensures Written(job, available, next, available + Results(job, available, next))
  {
    hide OutcomeOf, Ends;
    var merged := available + Results(job, available, next);
    forall i | 0 <= i < |job.steps| && job.steps[i].id in next
      ensures Ends(job, job.steps[i], available, Completed(merged[job.steps[i].id]))
    {
      var id := job.steps[i].id;
      assert OutcomeOf(job, available, id).Completed?;
      EndsIff(job, i, available, merged[id]);
    }
  }

  lemma FailureMeans(job: Job, available: Outputs, id: Id)
    requires Distinct(Ids(job.steps)) && id in StepIds(job.steps) && OutcomeOf(job, available, id).Failed?
    ensures FailedOn(job, available, id)
  {
    var i := IndexOf(job.steps, id);
    var step := job.steps[i];
    DependenciesOf(job.steps, i);
    if StepPayload(step, job.input, available).Some? {
      PayloadIff(step, job.input, available, StepPayload(step, job.input, available).value);
    } else {
      PayloadIff(step, job.input, available, Payload("", "", map[]));
    }
  }

  lemma ResultsSnoc(job: Job, available: Outputs, x: Id, s: set<Id>)
    requires x !in s
    ensures (available + Results(job, available, s)) + Write(job, available, x)
         == available + Results(job, available, {x} + s)
  {
    ResultsCons(job, available, x, s);
  }

  /** An agent reported failure on its payload over outputs that are explained. */
  ghost predicate FailsIn(job: Job, id: Id, receipts: seq<Id>) {
    exists m, i :: FailsAt(job, id, receipts, m, i)
  }

  ghost predicate FailsAt(job: Job, id: Id, receipts: seq<Id>, m: Outputs, i: nat) {
    && i < |job.steps| && job.steps[i].id == id && id in receipts && id !in m
    && Explained(job, m) && Ends(job, job.steps[i], m, Failed)
  }

  lemma AfterFailure(job: Job, r: Run, order: seq<Id>, culprit: Id)
    requires Valid(job) && Reachable(job, r) && !r.failed && Distinct(order) && Elems(order) <= r.next
    requires culprit in Elems(order) && OutcomeOf(job, r.outputs, culprit).Failed?
    ensures Distinct(r.started + order) && Elems(r.started + order) <= StepIds(job.steps)
    ensures FailsIn(job, culprit, r.started + order)
  {
    var r' := r.(started := r.started + order, failed := true);
    assert Abort(job, r, order, culprit, r');
    StepReachable(job, r, r');
    ExactlyOnce(job, r');
    GuardNeverFires(job, r, culprit);
    ReachableInv(job, r);
    ConsistentIsExplained(job, r.outputs);
    var i := IndexOf(job.steps, culprit);
    var payload := StepPayload(StepOf(job, culprit), job.input, r.outputs).value;
    PayloadIff(job.steps[i], job.input, r.outputs, payload);
    assert job.agent(culprit, payload).Failed?;
    assert culprit in r'.started && culprit !in r.outputs;
    assert Ends(job, job.steps[i], r.outputs, Failed);
    assert FailsAt(job, culprit, r.started + order, r.outputs, i);
  }

  lemma AfterCommit(job: Job, r: Run, order: seq<Id>, r': Run)
    requires Valid(job) && Reachable(job, r) && !r.failed && r.next != {} && Distinct(order) && Elems(order) == r.next
    requires AllComplete(job, r.outputs, r.next)
    requires r' == Run(r.outputs + Results(job, r.outputs, r.next), Rearm(job, r.seen, r.next),
                       Triggered(job, r.seen, r.next), r.started + order, r.supersteps + 1, false)
    ensures Reachable(job, r')
  {
    MergeIsUnion(job, r.outputs, r.outputs, order);
    assert Commit(job, r, order, r');
    StepReachable(job, r, r');
  }

  lemma WhileRunning(job: Job, r: Run)
    requires Valid(job) && Reachable(job, r)
    ensures r.next <= StepIds(job.steps) && r.supersteps <= |job.steps|
  {
    ReachableInv(job, r);
    SuperstepBound(job, r);
  }

  lemma AtTheEnd(job: Job, r: Run)
    requires Valid(job) && Reachable(job, r) && !r.failed && r.next == {}
    ensures Denotes(job, r.outputs)
    ensures Distinct(r.started) && Elems(r.started) == StepIds(job.steps)
  {
    ExactlyOnce(job, r);
    ReachableInv(job, r);
  }

  method RunLoop(job: Job) returns (result: Result<Outputs, RunError>, receipts: seq<Id>)
    requires Valid(job)
    ensures Distinct(receipts) && Elems(receipts) <= StepIds(job.steps)
    ensures result.Ok? ==>
              Elems(receipts) == StepIds(job.steps) == result.value.Keys && Explained(job, result.value)
    ensures result.Err? ==> result.error.StepFailed? && FailsIn(job, result.error.step, receipts)
  {
    hide Explained, FailsIn, Written, FailedOn, Reachable, OutcomeOf, Results, AllComplete, Triggered, Rearm, Denotes;
    StartReachable(job);
    var start := Start(job.steps);
    ghost var r := start;
    var outputs, seen, next, supersteps := start.outputs, start.seen, start.next, 0;
    receipts := [];
    while next != {}
      invariant r == Run(outputs, seen, next, receipts, supersteps, false)
      invariant Reachable(job, r) && supersteps <= |job.steps|
      decreases |job.steps| - supersteps
    {
      WhileRunning(job, r);
      if supersteps >= |job.steps| + 2 {
        return Err(SuperstepLimit), receipts;
      }
      var failed, order, merged := RunTriggered(job, next, outputs);
      if failed.Some? {
        AfterFailure(job, r, order, failed.value);
        return Err(StepFailed(failed.value)), receipts + order;
      }
      var next', seen' := Deliver(job, seen, next);
      ghost var r' := Run(merged, seen', next', receipts + order, supersteps + 1, false);
      AfterCommit(job, r, order, r');
      WhileRunning(job, r');
      outputs, seen, next, receipts, supersteps := merged, seen', next', receipts + order, supersteps + 1;
      r := r';
    }
    AtTheEnd(job, r);
    DenotesIff(job, outputs);
    return Ok(outputs), receipts;
  }

  /** The whole execution: it ends with the workflow's meaning, or because an agent
      itself reported failure; never on the guard and never on the superstep limit. */
  method Execute(job: Job, output: Option<Id>) returns (result: Result<Answer, RunError>, receipts: seq<Id>)
    requires Accepted(job.steps, output)
    ensures Distinct(receipts) && Elems(receipts) <= StepIds(job.steps)
    ensures result.Ok? ==> Elems(receipts) == StepIds(job.steps)
    ensures result.Ok? ==>
              exists m: Outputs ::
                m.Keys == StepIds(job.steps) && Explained(job, m) && Answers(output, m, result.value)
    ensures result.Err? ==> result.error.StepFailed? && FailsIn(job, result.error.step, receipts)
  {
    AcceptedIsValid(job, output);
    var run;
    run, receipts := RunLoop(job);
    match run {
      case Ok(outputs) =>
        DenotesIff(job, outputs);
        assert Answers(output, outputs, Select(output, outputs));
        return Ok(Select(output, outputs)), receipts;
      case Err(e) => return Err(e), receipts;
    }
  }
}
