/** The workflow dependency check: distinct ids, known dependencies, and Kahn's
    queue loop as the cycle test. */
module WorkflowDag {
  import opened Wrappers
  import opened Graphs

  type Digest = string

  datatype Step = Step(id: Id, agentId: Id, intent: string, dependsOn: seq<Id>, pin: Option<Digest>)

  datatype DagError =
    | ReservedInputId
    | DuplicateIds
    | UnknownDependency(step: Id, dependency: Id)
    | DependencyCycle
    | UnknownOutput(output: Id)

  // ----- what the check decides

  function Ids(steps: seq<Step>): (r: seq<Id>) {
    seq(|steps|, i requires 0 <= i < |steps| => steps[i].id)
  }

  function StepIds(steps: seq<Step>): set<Id> {
    set i | 0 <= i < |steps| :: steps[i].id
  }

  ghost function IndexOf(steps: seq<Step>, id: Id): (i: nat)
    requires id in StepIds(steps)
    ensures i < |steps| && steps[i].id == id
  {
    var i :| 0 <= i < |steps| && steps[i].id == id;
    i
  }

  /** The graph step -> dependencies. */
  ghost function Dependencies(steps: seq<Step>): Graph {
    map id | id in StepIds(steps) :: steps[IndexOf(steps, id)].dependsOn
  }

  lemma DependenciesOf(steps: seq<Step>, i: nat)
    requires Distinct(Ids(steps)) && i < |steps|
    ensures steps[i].id in Dependencies(steps)
    ensures Dependencies(steps)[steps[i].id] == steps[i].dependsOn
    ensures IndexOf(steps, steps[i].id) == i
  {
    var id := steps[i].id;
    assert id in StepIds(steps);
    var j := IndexOf(steps, id);
    assert Ids(steps)[i] == Ids(steps)[j];
  }

  function FirstUnknownIn(step: Id, deps: seq<Id>, ids: set<Id>): Option<DagError> {
    if deps == [] then None
    else if deps[0] !in ids then Some(UnknownDependency(step, deps[0]))
    else FirstUnknownIn(step, deps[1..], ids)
  }

  function FirstUnknown(steps: seq<Step>, ids: set<Id>): Option<DagError> {
    if steps == [] then None
    else
      var e := FirstUnknownIn(steps[0].id, steps[0].dependsOn, ids);
      if e.Some? then e else FirstUnknown(steps[1..], ids)
  }

  ghost predicate KnownDependencies(steps: seq<Step>) {
    forall i, d :: 0 <= i < |steps| && d in steps[i].dependsOn ==> d in StepIds(steps)
  }

  lemma {:induction false} FirstUnknownInNone(step: Id, deps: seq<Id>, ids: set<Id>)
    ensures FirstUnknownIn(step, deps, ids).None? <==> forall d :: d in deps ==> d in ids
  {
    if deps != [] {
      FirstUnknownInNone(step, deps[1..], ids);
      assert forall d :: d in deps <==> d == deps[0] || d in deps[1..];
    }
  }

  /** The dependency `j` of step `i` is unknown, and every one before it is known. */
  ghost predicate FirstBad(steps: seq<Step>, ids: set<Id>, i: nat, j: nat) {
    && i < |steps| && j < |steps[i].dependsOn|
    && steps[i].dependsOn[j] !in ids
    && (forall d :: d in steps[i].dependsOn[..j] ==> d in ids)
    && forall k, d :: 0 <= k < i && d in steps[k].dependsOn ==> d in ids
  }

  /** An unknown dependency is reported with its step, and it is the first one. */
  lemma {:induction false} FirstUnknownIs(steps: seq<Step>, ids: set<Id>, i: nat, j: nat)
    requires FirstBad(steps, ids, i, j)
    ensures FirstUnknown(steps, ids) == Some(UnknownDependency(steps[i].id, steps[i].dependsOn[j]))
  {
    FirstUnknownInNone(steps[0].id, steps[0].dependsOn, ids);
    if i > 0 {
      assert forall k :: 0 <= k < i ==> steps[1..][k] == steps[k + 1];
      FirstUnknownIs(steps[1..], ids, i - 1, j);
    } else {
      FirstUnknownInIs(steps[0].id, steps[0].dependsOn, ids, j);
    }
  }

  lemma {:induction false} FirstUnknownInIs(step: Id, deps: seq<Id>, ids: set<Id>, j: nat)
    requires j < |deps| && deps[j] !in ids && forall d :: d in deps[..j] ==> d in ids
    ensures FirstUnknownIn(step, deps, ids) == Some(UnknownDependency(step, deps[j]))
  {
    if j > 0 {
      assert deps[0] == deps[..j][0];
      assert forall d :: d in deps[1..][..j - 1] ==> d in deps[..j] by {
        assert deps[1..][..j - 1] == deps[..j][1..];
      }
      FirstUnknownInIs(step, deps[1..], ids, j - 1);
    }
  }

  lemma FirstUnknownAt(steps: seq<Step>, n: nat, ids: set<Id>)
    requires n < |steps|
    ensures var e := FirstUnknownIn(steps[n].id, steps[n].dependsOn, ids);
            FirstUnknown(steps[n..], ids) == if e.Some? then e else FirstUnknown(steps[n + 1..], ids)
  {
    assert steps[n..][0] == steps[n] && steps[n..][1..] == steps[n + 1..];
  }

  lemma {:induction false} FirstUnknownNone(steps: seq<Step>, ids: set<Id>)
    ensures FirstUnknown(steps, ids).None? <==>
            forall i, d :: 0 <= i < |steps| && d in steps[i].dependsOn ==> d in ids
  {
    if steps != [] {
      FirstUnknownInNone(steps[0].id, steps[0].dependsOn, ids);
      FirstUnknownNone(steps[1..], ids);
      assert forall i :: 1 <= i < |steps| ==> steps[i] == steps[1..][i - 1];
    }
  }

  /** The declarative verdict: the cycle test is acyclicity itself. */
  ghost function Verdict(steps: seq<Step>, output: Option<Id>): Option<DagError> {
    var ids := StepIds(steps);
    if "input" in ids then Some(ReservedInputId)
    else if !Distinct(Ids(steps)) then Some(DuplicateIds)
    else if FirstUnknown(steps, ids).Some? then FirstUnknown(steps, ids)
    else if !Acyclic(Dependencies(steps)) then Some(DependencyCycle)
    else if output.Some? && output.value !in ids then Some(UnknownOutput(output.value))
    else None
  }

  /** What the rest of the system may rely on once a workflow was accepted. */
  ghost predicate Accepted(steps: seq<Step>, output: Option<Id>) {
    && "input" !in StepIds(steps)
    && Distinct(Ids(steps))
    && KnownDependencies(steps)
    && Acyclic(Dependencies(steps))
    && (output.Some? ==> output.value in StepIds(steps))
  }

  lemma VerdictIsAccepted(steps: seq<Step>, output: Option<Id>)
    ensures Verdict(steps, output).None? <==> Accepted(steps, output)
  {
    FirstUnknownNone(steps, StepIds(steps));
  }

  // ----- Kahn's tables

  /** Dependencies (with multiplicity) not among `done`. */
  ghost function Remaining(deps: seq<Id>, done: set<Id>): nat {
    if deps == [] then 0
    else (if deps[0] in done then 0 else 1) + Remaining(deps[1..], done)
  }

  lemma {:induction false} RemainingMark(deps: seq<Id>, done: set<Id>, x: Id)
    requires x !in done
    ensures Remaining(deps, done + {x}) + multiset(deps)[x] == Remaining(deps, done)
  {
    if deps != [] {
      RemainingMark(deps[1..], done, x);
      assert deps == [deps[0]] + deps[1..];
      assert multiset(deps) == multiset{deps[0]} + multiset(deps[1..]);
    }
  }

  lemma {:induction false} RemainingZero(deps: seq<Id>, done: set<Id>)
    ensures Remaining(deps, done) == 0 <==> forall d :: d in deps ==> d in done
  {
    if deps != [] {
      RemainingZero(deps[1..], done);
      assert forall d :: d in deps <==> d == deps[0] || d in deps[1..];
    }
  }

  lemma {:induction false} RemainingEmpty(deps: seq<Id>)
    ensures Remaining(deps, {}) == |deps|
  {
    if deps != [] {
      RemainingEmpty(deps[1..]);
    }
  }

  /** `dependents` inverts the dependency lists, multiplicities included. */
  ghost predicate Inverts(g: Graph, dependents: Graph) {
    && dependents.Keys == g.Keys
    && (forall a, b :: a in g && b in g ==> multiset(dependents[a])[b] == multiset(g[b])[a])
    && (forall a, b :: a in dependents && b in dependents[a] ==> b in g)
  }

  ghost predicate Tables(g: Graph, dependents: Graph, indegree: map<Id, nat>) {
    && Inverts(g, dependents)
    && indegree.Keys == g.Keys
    && (forall b :: b in g ==> indegree[b] == |g[b]|)
  }

  lemma EnterDependency(g: Graph, dependents: Graph, indegree: map<Id, nat>, dep: Id, id: Id)
    requires Tables(g, dependents, indegree) && dep in g && id in g
    ensures Tables(g[id := g[id] + [dep]], dependents[dep := dependents[dep] + [id]], indegree[id := indegree[id] + 1])
  {
    var g', dependents' := g[id := g[id] + [dep]], dependents[dep := dependents[dep] + [id]];
    forall a, b | a in g' && b in g'
      ensures multiset(dependents'[a])[b] == multiset(g'[b])[a]
    {
      assert multiset(dependents[a])[b] == multiset(g[b])[a];
      assert multiset(dependents[a] + [id])[b] == multiset(dependents[a])[b] + if b == id then 1 else 0;
      assert multiset(g[b] + [dep])[a] == multiset(g[b])[a] + if a == dep then 1 else 0;
    }
  }

  /** The inner loop: enter one step's dependencies. */
  method EnterStep(step: Step, dependents: Graph, indegree: map<Id, nat>, ghost g: Graph)
    returns (bad: Option<DagError>, dependents': Graph, indegree': map<Id, nat>)
    requires Tables(g, dependents, indegree) && step.id in g && g[step.id] == []
    ensures bad == FirstUnknownIn(step.id, step.dependsOn, g.Keys)
    ensures bad.None? ==> Tables(g[step.id := step.dependsOn], dependents', indegree')
  {
    hide Tables;
    dependents', indegree' := dependents, indegree;
    var k := 0;
    assert g == g[step.id := step.dependsOn[..0]];
    while k < |step.dependsOn|
      invariant k <= |step.dependsOn|
      invariant Tables(g[step.id := step.dependsOn[..k]], dependents', indegree')
      invariant FirstUnknownIn(step.id, step.dependsOn, g.Keys) == FirstUnknownIn(step.id, step.dependsOn[k..], g.Keys)
    {
      var dep := step.dependsOn[k];
      TablesKeys(g[step.id := step.dependsOn[..k]], dependents', indegree');
      assert step.dependsOn[k..][0] == dep && step.dependsOn[k..][1..] == step.dependsOn[k + 1..];
      if dep !in dependents' {
        return Some(UnknownDependency(step.id, dep)), dependents', indegree';
      }
      EnterAt(g, step, k, dependents', indegree');
      dependents' := dependents'[dep := dependents'[dep] + [step.id]];
      indegree' := indegree'[step.id := indegree'[step.id] + 1];
      k := k + 1;
    }
    assert step.dependsOn[..k] == step.dependsOn;
    bad := None;
  }

  lemma OneMoreDependency(g: Graph, step: Step, k: nat)
    requires k < |step.dependsOn|
    ensures var g' := g[step.id := step.dependsOn[..k]];
            g'[step.id := g'[step.id] + [step.dependsOn[k]]] == g[step.id := step.dependsOn[..k + 1]]
  {
    assert step.dependsOn[..k + 1] == step.dependsOn[..k] + [step.dependsOn[k]];
  }

  lemma TablesKeys(g: Graph, dependents: Graph, indegree: map<Id, nat>)
    requires Tables(g, dependents, indegree)
    ensures dependents.Keys == g.Keys == indegree.Keys
  {
  }

  lemma EnterAt(g: Graph, step: Step, k: nat, dependents: Graph, indegree: map<Id, nat>)
    requires step.id in g && k < |step.dependsOn| && step.dependsOn[k] in g
    requires Tables(g[step.id := step.dependsOn[..k]], dependents, indegree)
    ensures step.dependsOn[k] in dependents && step.id in indegree
    ensures Tables(g[step.id := step.dependsOn[..k + 1]],
                   dependents[step.dependsOn[k] := dependents[step.dependsOn[k]] + [step.id]],
                   indegree[step.id := indegree[step.id] + 1])
  {
    var dep, g' := step.dependsOn[k], g[step.id := step.dependsOn[..k]];
    hide Tables;
    TablesKeys(g', dependents, indegree);
    EnterDependency(g', dependents, indegree, dep, step.id);
    OneMoreDependency(g, step, k);
  }

  /** The dependencies of the first `n` steps. */
  ghost function Entered(steps: seq<Step>, n: nat): Graph
    requires n <= |steps|
  {
    if n == 0 then map id | id in StepIds(steps) :: []
    else Entered(steps, n - 1)[steps[n - 1].id := steps[n - 1].dependsOn]
  }

  lemma {:induction false} EnteredAt(steps: seq<Step>, n: nat)
    requires Distinct(Ids(steps)) && n <= |steps|
    ensures Entered(steps, n).Keys == StepIds(steps)
    ensures forall i :: 0 <= i < |steps| ==>
              Entered(steps, n)[steps[i].id] == if i < n then steps[i].dependsOn else []
  {
    if n > 0 {
      EnteredAt(steps, n - 1);
      forall i | 0 <= i < |steps| && i != n - 1 ensures steps[i].id != steps[n - 1].id {
        assert Ids(steps)[i] != Ids(steps)[n - 1];
      }
    }
  }

  lemma EnterNext(steps: seq<Step>, n: nat)
    requires Distinct(Ids(steps)) && n < |steps|
    ensures steps[n].id in Entered(steps, n) && Entered(steps, n)[steps[n].id] == []
    ensures Entered(steps, n).Keys == StepIds(steps)
    ensures Entered(steps, n + 1) == Entered(steps, n)[steps[n].id := steps[n].dependsOn]
  {
    EnteredAt(steps, n);
  }

  lemma EnteredAll(steps: seq<Step>)
    requires Distinct(Ids(steps))
    ensures Entered(steps, |steps|) == Dependencies(steps)
  {
    hide Entered;
    EnteredAt(steps, |steps|);
    var g := Entered(steps, |steps|);
    forall id | id in g ensures g[id] == Dependencies(steps)[id] {
      assert steps[IndexOf(steps, id)].id == id;
    }
  }

  lemma TablesStart(steps: seq<Step>, g: Graph, indegree: map<Id, nat>)
    requires g.Keys == indegree.Keys == StepIds(steps)
    requires forall id :: id in g ==> g[id] == [] && indegree[id] == 0
    ensures g == Entered(steps, 0) && Tables(g, g, indegree)
  {
  }

  /** Kahn's two tables, or the first dependency on an unknown step. */
  method BuildTables(steps: seq<Step>) returns (bad: Option<DagError>, dependents: Graph, indegree: map<Id, nat>)
    requires Distinct(Ids(steps))
    ensures bad == FirstUnknown(steps, StepIds(steps))
    ensures bad.None? ==> Tables(Dependencies(steps), dependents, indegree)
  {
    hide Tables, Entered, Dependencies, FirstUnknownIn;
    var ids := StepIds(steps);
    dependents := map id | id in ids :: [];
    indegree := map id | id in ids :: 0;
    TablesStart(steps, dependents, indegree);
    var n := 0;
    assert steps[0..] == steps;
    while n < |steps|
      invariant n <= |steps|
      invariant Tables(Entered(steps, n), dependents, indegree)
      invariant FirstUnknown(steps, ids) == FirstUnknown(steps[n..], ids)
    {
      EnterNext(steps, n);
      FirstUnknownAt(steps, n, ids);
      bad, dependents, indegree := EnterStep(steps[n], dependents, indegree, Entered(steps, n));
      if bad.Some? {
        return;
      }
      n := n + 1;
    }
    bad := None;
    EnteredAll(steps);
  }

  // ----- the queue loop

  ghost predicate Closed(g: Graph) {
    forall a, b :: Edge(g, a, b) ==> b in g
  }

  ghost predicate Counts(g: Graph, indegree: map<Id, nat>, done: set<Id>, ahead: multiset<Id>) {
    && indegree.Keys == g.Keys
    && (forall v :: v in g ==> indegree[v] == Remaining(g[v], done) + ahead[v])
  }

  ghost predicate Queued(g: Graph, indegree: map<Id, nat>, done: seq<Id>, queue: seq<Id>) {
    && indegree.Keys == g.Keys
    && Distinct(done + queue)
    && (forall v :: v in queue ==> v in g)
    && (forall v :: v in g ==> (v in done || v in queue <==> indegree[v] == 0))
  }

  /** `done` was popped in this order, `queue` is waiting, and the in-degrees are
      still to be lowered by `ahead` for the step popped last. */
  ghost predicate KahnInv(g: Graph, indegree: map<Id, nat>, done: seq<Id>, queue: seq<Id>, ahead: multiset<Id>) {
    Topo(g, done) && Queued(g, indegree, done, queue) && Counts(g, indegree, Elems(done), ahead)
  }

  lemma CountsPop(g: Graph, dependents: Graph, indegree: map<Id, nat>, done: set<Id>, sid: Id)
    requires Counts(g, indegree, done, multiset{}) && Inverts(g, dependents)
    requires sid in g && sid !in done
    ensures Counts(g, indegree, done + {sid}, multiset(dependents[sid]))
  {
    forall v | v in g
      ensures indegree[v] == Remaining(g[v], done + {sid}) + multiset(dependents[sid])[v]
    {
      RemainingMark(g[v], done, sid);
    }
  }

  lemma QueuedPop(g: Graph, indegree: map<Id, nat>, done: seq<Id>, queue: seq<Id>)
    requires Queued(g, indegree, done, queue) && queue != []
    ensures Queued(g, indegree, done + [queue[0]], queue[1..])
    ensures queue[0] !in done && queue[0] in g && indegree[queue[0]] == 0
  {
    var sid := queue[0];
    assert sid in queue;
    assert (done + queue)[|done|] == sid;
    assert done + queue == (done + [sid]) + queue[1..];
    forall i | 0 <= i < |done| ensures done[i] != sid {
      assert (done + queue)[i] == done[i];
    }
    assert forall v :: v in queue <==> v == sid || v in queue[1..];
  }

  lemma KahnPop(g: Graph, dependents: Graph, indegree: map<Id, nat>, done: seq<Id>, queue: seq<Id>)
    requires KahnInv(g, indegree, done, queue, multiset{}) && queue != [] && Inverts(g, dependents)
    ensures KahnInv(g, indegree, done + [queue[0]], queue[1..], multiset(dependents[queue[0]]))
  {
    var sid := queue[0];
    QueuedPop(g, indegree, done, queue);
    CountsPop(g, dependents, indegree, Elems(done), sid);
    assert Elems(done + [sid]) == Elems(done) + {sid};
    RemainingZero(g[sid], Elems(done));
    forall b | b in g[sid] ensures b in done {
      assert b in Elems(done);
    }
    TopoSnoc(g, done, sid);
  }

  lemma KahnLower(g: Graph, indegree: map<Id, nat>, done: seq<Id>, queue: seq<Id>, ahead: multiset<Id>, v: Id)
    requires KahnInv(g, indegree, done, queue, ahead) && v in ahead && v in g
    ensures indegree[v] > 0
    ensures var d := indegree[v] - 1;
            KahnInv(g, indegree[v := d], done, if d == 0 then queue + [v] else queue, ahead - multiset{v})
  {
    assert v !in done && v !in queue;
    assert done + (queue + [v]) == (done + queue) + [v];
    assert v !in done + queue;
  }

  lemma KahnBound(g: Graph, indegree: map<Id, nat>, done: seq<Id>, queue: seq<Id>)
    requires KahnInv(g, indegree, done, queue, multiset{})
    ensures |done| <= |g|
    ensures Elems(done) <= g.Keys
    ensures queue != [] ==> |done| < |g|
  {
    forall i, j | 0 <= i < j < |done| ensures done[i] != done[j] {
      assert (done + queue)[i] == done[i];
    }
    DistinctSize(done);
    SubsetSize(Elems(done), g.Keys);
    if queue != [] {
      var x := queue[0];
      forall i | 0 <= i < |done| ensures done[i] != x {
        assert (done + queue)[i] == done[i] && (done + queue)[|done|] == x;
      }
      assert x in queue;
      SubsetSize(Elems(done) + {x}, g.Keys);
    }
  }

  /** The popped steps are all steps exactly when there is no cycle. */
  lemma KahnEnd(g: Graph, indegree: map<Id, nat>, done: seq<Id>)
    requires KahnInv(g, indegree, done, [], multiset{})
    requires Closed(g)
    ensures |done| == |g| <==> Acyclic(g)
  {
    KahnBound(g, indegree, done, []);
    DistinctSize(done);
    if |done| == |g| {
      KahnAll(g, done);
    } else {
      LeftStays(g, indegree, done);
      if g.Keys - Elems(done) == {} {
        forall v | v in g.Keys ensures v in Elems(done) {
          assert v !in g.Keys - Elems(done);
        }
        SubsetSize(g.Keys, Elems(done));
        assert false;
      }
      SinkFreeHasCycle(g, g.Keys - Elems(done));
    }
  }

  lemma KahnAll(g: Graph, done: seq<Id>)
    requires Topo(g, done) && |done| == |g| && Elems(done) <= g.Keys
    ensures Acyclic(g)
  {
      DistinctSize(done);
      SubsetSize(Elems(done), g.Keys);
      forall v | v in g ensures v in done {
        assert v in Elems(done);
      }
      TopoAcyclic(g, done);
  }

  lemma LeftStays(g: Graph, indegree: map<Id, nat>, done: seq<Id>)
    requires Queued(g, indegree, done, []) && Counts(g, indegree, Elems(done), multiset{})
    requires Closed(g)
    ensures SinkFree(g, g.Keys - Elems(done))
  {
      var left := g.Keys - Elems(done);
      forall v | v in left ensures StaysIn(g, left, v) {
        assert indegree[v] != 0;
        RemainingZero(g[v], Elems(done));
        var d :| d in g[v] && d !in Elems(done);
        assert Edge(g, v, d);
      }
  }

  method InitialQueue(steps: seq<Step>, indegree: map<Id, nat>) returns (queue: seq<Id>)
    requires Distinct(Ids(steps)) && indegree.Keys == StepIds(steps)
    ensures Distinct(queue)
    ensures forall v :: v in queue <==> v in indegree && indegree[v] == 0
  {
    queue := [];
    var n := 0;
    IdsAreStepIds(steps);
    assert forall v :: v in Ids(steps) <==> v in Elems(Ids(steps));
    while n < |steps|
      invariant n <= |steps|
      invariant forall v :: v in Ids(steps) ==> v in indegree
      invariant Distinct(queue)
      invariant forall v :: v in queue <==> v in Ids(steps)[..n] && indegree[v] == 0
    {
      var id := steps[n].id;
      assert Ids(steps)[n] == id && Ids(steps)[..n + 1] == Ids(steps)[..n] + [id];
      assert id !in Ids(steps)[..n];
      if indegree[id] == 0 {
        queue := queue + [id];
      }
      n := n + 1;
    }
    assert Ids(steps)[..n] == Ids(steps);
    IdsAreStepIds(steps);
  }

  method RunQueue(steps: seq<Step>, dependents: Graph, indegree0: map<Id, nat>) returns (seen: nat)
    requires Distinct(Ids(steps)) && Closed(Dependencies(steps))
    requires Tables(Dependencies(steps), dependents, indegree0)
    ensures seen == |steps| <==> Acyclic(Dependencies(steps))
  {
    ghost var g := Dependencies(steps);
    var indegree := indegree0;
    var queue := InitialQueue(steps, indegree);
    ghost var done: seq<Id> := [];
    KahnStart(steps, indegree, queue);
    seen := 0;
    while queue != []
      invariant seen == |done|
      invariant KahnInv(g, indegree, done, queue, multiset{})
      decreases |g| - |done|
    {
      KahnBound(g, indegree, done, queue);
      var sid := queue[0];
      KahnPop(g, dependents, indegree, done, queue);
      queue := queue[1..];
      done := done + [sid];
      seen := seen + 1;
      indegree, queue := LowerDependents(g, dependents[sid], indegree, done, queue);
      KahnBound(g, indegree, done, queue);
    }
    KahnEnd(g, indegree, done);
    DistinctSize(Ids(steps));
    IdsAreStepIds(steps);
  }

  /** The inner loop over the dependents of the popped step. */
  method LowerDependents(ghost g: Graph, dependents: seq<Id>, indegree0: map<Id, nat>, ghost done: seq<Id>,
                         queue0: seq<Id>)
    returns (indegree: map<Id, nat>, queue: seq<Id>)
    requires KahnInv(g, indegree0, done, queue0, multiset(dependents))
    requires forall v :: v in dependents ==> v in g
    ensures KahnInv(g, indegree, done, queue, multiset{})
  {
    indegree, queue := indegree0, queue0;
    var k := 0;
    assert dependents[0..] == dependents;
    while k < |dependents|
      invariant k <= |dependents|
      invariant KahnInv(g, indegree, done, queue, multiset(dependents[k..]))
    {
      var nxt := dependents[k];
      assert dependents[k..] == [nxt] + dependents[k + 1..];
      assert multiset(dependents[k..]) - multiset{nxt} == multiset(dependents[k + 1..]);
      KahnLower(g, indegree, done, queue, multiset(dependents[k..]), nxt);
      indegree := indegree[nxt := indegree[nxt] - 1];
      if indegree[nxt] == 0 {
        queue := queue + [nxt];
      }
      k := k + 1;
    }
  }

  lemma IdsAreStepIds(steps: seq<Step>)
    ensures Elems(Ids(steps)) == StepIds(steps) && |Ids(steps)| == |steps|
  {
    forall i | 0 <= i < |steps| ensures steps[i].id in Elems(Ids(steps)) {
      assert Ids(steps)[i] == steps[i].id;
    }
  }

  lemma KahnStart(steps: seq<Step>, indegree: map<Id, nat>, queue: seq<Id>)
    requires Distinct(queue)
    requires forall v :: v in queue <==> v in indegree && indegree[v] == 0
    requires indegree.Keys == Dependencies(steps).Keys
    requires forall v :: v in indegree ==> indegree[v] == |Dependencies(steps)[v]|
    ensures KahnInv(Dependencies(steps), indegree, [], queue, multiset{})
  {
    var g := Dependencies(steps);
    assert [] + queue == queue;
    assert Elems([]) == {};
    forall v | v in g ensures indegree[v] == Remaining(g[v], {}) {
      RemainingEmpty(g[v]);
    }
  }

  lemma KnownIsClosed(steps: seq<Step>)
    requires Distinct(Ids(steps))
    ensures FirstUnknown(steps, StepIds(steps)).None? ==> KnownDependencies(steps)
    ensures KnownDependencies(steps) ==> Closed(Dependencies(steps))
  {
    FirstUnknownNone(steps, StepIds(steps));
    if KnownDependencies(steps) {
      forall a, b | Edge(Dependencies(steps), a, b) ensures b in Dependencies(steps) {
        assert b in steps[IndexOf(steps, a)].dependsOn;
      }
    }
  }

  /** Kahn's loop accepts exactly the acyclic workflows (repeated dependencies
      included), and every rejection names the first check that fails. */
  method ValidateDag(steps: seq<Step>, output: Option<Id>) returns (r: Option<DagError>)
    ensures r == Verdict(steps, output)
  {
    var ids := StepIds(steps);
    if "input" in ids {
      return Some(ReservedInputId);
    }
    IdsAreStepIds(steps);
    DistinctSize(Ids(steps));
    if |ids| != |steps| {
      return Some(DuplicateIds);
    }
    var bad, dependents, indegree := BuildTables(steps);
    if bad.Some? {
      return bad;
    }
    KnownIsClosed(steps);
    var seen := RunQueue(steps, dependents, indegree);
    if seen != |steps| {
      return Some(DependencyCycle);
    }
    if output.Some? && output.value !in ids {
      return Some(UnknownOutput(output.value));
    }
    return None;
  }
}
