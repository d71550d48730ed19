/** Runs and resumes of any number of processes on one registry, interleaved at every
    transaction, with processes stopping anywhere and snapshots being tampered with. */
module SessionRuns {
  import opened Wrappers
  import opened Sessions

  type Pid = nat

  /** `Stopped` is a process that was killed, or whose transaction raised. */
  datatype Phase =
    | Fresh
    | Checked
    | Ready
    | Locked
    | Begun(exec: ExecId)
    | Ended(exec: ExecId, error: Option<Failure>)
    | Closed(exec: ExecId, error: Option<Failure>)
    | Reported(exec: ExecId, error: Option<Failure>)
    | Done(exec: ExecId, error: Option<Failure>)
    | Stopped(last: Option<ExecId>)

  datatype Process = Process(session: SessionId, manifest: Manifest, pins: Pins, phase: Phase)

  /** `owner` says which process drew an execution id, `workflows` which sessions are
      those of workflow runs; they share the registry and take no lock. */
  datatype System = System(reg: Registry, locks: map<SessionId, Pid>, procs: map<Pid, Process>, owner: map<ExecId, Pid>,
                           workflows: set<SessionId>)

  datatype Action =
    | StartRun(pid: Pid, manifest: Manifest, path: string, development: bool, release: Option<Digest>, resumable: bool)
    | Create(pid: Pid, session: SessionId)
    | StartResume(pid: Pid, session: SessionId, development: bool, source: Manifest)
    | ReadSnapshot(pid: Pid)
    | Acquire(pid: Pid)
    | Begin(pid: Pid, exec: ExecId)
    | End(pid: Pid, body: Body)
    | Close(pid: Pid)
    | Report(pid: Pid)
    | Unlock(pid: Pid)
    | Stop(pid: Pid)
    | Tamper(digest: Digest, manifest: Manifest)
    | StartWorkflow(session: SessionId, agent: string, manifest: Manifest, development: bool)
    | StepReceipt(receipt: Receipt)
    | CloseWorkflow(session: SessionId, agent: string, error: Option<Failure>)
    | ReportWorkflow(session: SessionId, release: Option<Digest>, error: Option<Failure>)

  const START := System(EMPTY, map[], map[], map[], {})

  /** A step of no agent execution: of a workflow run, or tampering. */
  predicate External(a: Action) {
    a.Tamper? || a.StartWorkflow? || a.StepReceipt? || a.CloseWorkflow? || a.ReportWorkflow?
  }

  predicate Holding(phase: Phase) {
    phase.Locked? || phase.Begun? || phase.Ended? || phase.Closed? || phase.Reported?
  }

  function ExecOf(phase: Phase): Option<ExecId> {
    match phase
    case Begun(e) => Some(e)
    case Ended(e, _) => Some(e)
    case Closed(e, _) => Some(e)
    case Reported(e, _) => Some(e)
    case Done(e, _) => Some(e)
    case Stopped(last) => last
    case _ => None
  }

  /** It belongs to its session: it created or resumed it, and was not stopped before
      it executed. */
  predicate Attached(phase: Phase) {
    !phase.Fresh? && (phase.Stopped? ==> phase.last.Some?)
  }

  predicate Starts(a: Action) {
    a.StartRun? || a.StartResume?
  }

  // ----- the steps

  /** A resume goes on when the session is resumable, in the same mode, and its source
      still has the digest it was created with. */
  predicate MayResume(c: Content, reg: Registry, session: SessionId, development: bool, source: Manifest) {
    && session in reg.sessions && reg.sessions[session].pins.Some?
    && var pins := reg.sessions[session].pins.value;
       pins.resumable && pins.development == development && c.hash(source) == pins.digest
  }

  /** Workflow runs draw fresh ids; their step receipts carry the mode of the run, and the
      digest and release of the step's agent. */
  predicate ExternalEnabled(m: System, a: Action)
    requires External(a)
  {
    match a
    case Tamper(_, _) => true
    case StartWorkflow(session, _, _, _) => session !in m.reg.sessions
    case StepReceipt(r) =>
      && r.session in m.workflows && r.session in m.reg.sessions && m.reg.sessions[r.session].pins.Some?
      && r.development == m.reg.sessions[r.session].pins.value.development
      && r.execution !in m.owner && r.execution !in m.reg.receipts && r.execution != r.session
    case CloseWorkflow(session, _, _) => session in m.workflows
    case ReportWorkflow(session, _, _) =>
      && session in m.workflows && session in m.reg.sessions && m.reg.sessions[session].pins.Some?
      && session !in m.owner && session !in m.reg.receipts
  }

  predicate Enabled(c: Content, m: System, a: Action) {
    if External(a) then ExternalEnabled(m, a)
    else if a.StartRun? then a.pid !in m.procs
    else if a.StartResume? then a.pid !in m.procs && MayResume(c, m.reg, a.session, a.development, a.source)
    else
      && a.pid in m.procs
      && var p := m.procs[a.pid];
         match a
         case Create(_, session) => p.phase.Fresh? && session !in m.reg.sessions
         case ReadSnapshot(_) => p.phase.Checked? && SnapshotOf(c, m.reg, p.pins.digest).Some?
         case Acquire(_) => p.phase.Ready? && p.session !in m.locks
         case Begin(_, exec) => p.phase.Locked? && exec !in m.owner && exec !in m.reg.receipts
         case End(_, _) => p.phase.Begun?
         case Close(_) => p.phase.Ended?
         case Report(_) => p.phase.Closed?
         case Unlock(_) => p.phase.Reported?
         case Stop(_) => !p.phase.Done? && !p.phase.Stopped?
  }

  function NextReg(c: Content, m: System, a: Action): Registry
    requires Enabled(c, m, a)
  {
    match a
    case StartRun(_, manifest, _, _, _, _) => Stored(c, m.reg, manifest)
    case Tamper(digest, manifest) => m.reg.(snapshots := m.reg.snapshots[digest := manifest])
    case StartWorkflow(session, agent, manifest, development) =>
      var pins := Pins("", c.hash(manifest), development, None, false);
      Recorded(Stored(c, m.reg, manifest), session, Fields(agent, Some(pins), Running, None, None))
    case StepReceipt(receipt) => m.reg.(receipts := m.reg.receipts[receipt.execution := receipt])
    case CloseWorkflow(session, agent, error) =>
      Recorded(m.reg, session, Fields(agent, None, EndStatus(error), None, None))
    case ReportWorkflow(session, release, error) =>
      var receipt := ReceiptFor(session, session, m.reg.sessions[session].pins.value.(release := release), error);
      m.reg.(receipts := m.reg.receipts[session := receipt])
    case Create(pid, session) => Recorded(m.reg, session, AsPrepared(c, m.procs[pid].manifest, m.procs[pid].pins))
    case Begin(pid, exec) => Recorded(m.reg, m.procs[pid].session, AsRunning(c, m.procs[pid].manifest, exec))
    case Close(pid) => Recorded(m.reg, m.procs[pid].session,
                                AsEnded(c, m.procs[pid].manifest, m.procs[pid].phase.error))
    case Report(pid) =>
      var issued := Issued(m.reg, ReceiptOf(m.procs[pid]));
      if issued.Some? then issued.value else m.reg
    case _ => m.reg
  }

  function ReceiptOf(p: Process): Receipt
    requires p.phase.Closed?
  {
    ReceiptFor(p.phase.exec, p.session, p.pins, p.phase.error)
  }

  function NextProc(c: Content, m: System, a: Action): Process
    requires Enabled(c, m, a) && !External(a)
  {
    if a.StartRun? then
      Process("", a.manifest, Pins(a.path, c.hash(a.manifest), a.development, a.release, a.resumable), Fresh)
    else if a.StartResume? then Process(a.session, a.source, m.reg.sessions[a.session].pins.value, Checked)
    else
      var p := m.procs[a.pid];
      match a
      case Create(_, session) => p.(session := session, phase := Ready)
      case ReadSnapshot(_) => p.(manifest := SnapshotOf(c, m.reg, p.pins.digest).value, phase := Ready)
      case Acquire(_) => p.(phase := Locked)
      case Begin(_, exec) => p.(phase := Begun(exec))
      case End(_, body) => p.(phase := Ended(p.phase.exec, ErrorOf(body)))
      case Close(_) => p.(phase := Closed(p.phase.exec, p.phase.error))
      case Report(_) =>
        if Issued(m.reg, ReceiptOf(p)).None? then p.(phase := Stopped(Some(p.phase.exec)))
        else p.(phase := Reported(p.phase.exec, p.phase.error))
      case Unlock(_) => p.(phase := Done(p.phase.exec, p.phase.error))
      case Stop(_) => p.(phase := Stopped(ExecOf(p.phase)))
  }

  /** A lock is held while its process is in a locked phase; the operating system
      releases it when the process is gone. */
  function NextLocks(c: Content, m: System, a: Action): map<SessionId, Pid>
    requires Enabled(c, m, a) && !External(a)
  {
    var next := NextProc(c, m, a);
    if a.Acquire? then m.locks[next.session := a.pid]
    else if a.pid in m.procs && Holding(m.procs[a.pid].phase) && !Holding(next.phase) then m.locks - {next.session}
    else m.locks
  }

  function NextOwner(m: System, a: Action): map<ExecId, Pid> {
    if a.Begin? then m.owner[a.exec := a.pid] else m.owner
  }

  function NextWorkflows(m: System, a: Action): set<SessionId> {
    if a.StartWorkflow? then m.workflows + {a.session} else m.workflows
  }

  function Apply(c: Content, m: System, a: Action): System
    requires Enabled(c, m, a)
  {
    if External(a) then m.(reg := NextReg(c, m, a), workflows := NextWorkflows(m, a))
    else
      System(NextReg(c, m, a), NextLocks(c, m, a), m.procs[a.pid := NextProc(c, m, a)], NextOwner(m, a),
             NextWorkflows(m, a))
  }

  // ----- the invariant

  predicate SamePins(m: System, p: Process) {
    p.session in m.reg.sessions && m.reg.sessions[p.session].pins == Some(p.pins)
  }

  predicate EntryIs(m: System, p: Process, exec: ExecId, status: Status) {
    && p.session in m.reg.sessions
    && m.reg.sessions[p.session].execution == Some(exec) && m.reg.sessions[p.session].status == status
  }

  predicate ReceiptIs(m: System, p: Process, exec: ExecId, error: Option<Failure>) {
    exec in m.reg.receipts && m.reg.receipts[exec] == ReceiptFor(exec, p.session, p.pins, error)
  }

  predicate PhaseOk(m: System, p: Process) {
    match p.phase
    case Begun(e) => e !in m.reg.receipts && EntryIs(m, p, e, Running)
    case Ended(e, _) => e !in m.reg.receipts && EntryIs(m, p, e, Running)
    case Closed(e, error) => e !in m.reg.receipts && EntryIs(m, p, e, EndStatus(error))
      && m.reg.sessions[p.session].errorCode == CodeOf(error)
    case Reported(e, error) => ReceiptIs(m, p, e, error) && EntryIs(m, p, e, EndStatus(error))
      && m.reg.sessions[p.session].errorCode == CodeOf(error)
    case Done(e, error) => ReceiptIs(m, p, e, error)
    case _ => true
  }

  predicate ProcOk(c: Content, m: System, pid: Pid)
    requires pid in m.procs
  {
    var p := m.procs[pid];
    && c.hash(p.manifest) == p.pins.digest
    && (Attached(p.phase) ==> SamePins(m, p) && p.session !in m.workflows)
    && (Holding(p.phase) ==> p.session in m.locks && m.locks[p.session] == pid)
    && (ExecOf(p.phase).Some? ==> ExecOf(p.phase).value in m.owner && m.owner[ExecOf(p.phase).value] == pid)
    && PhaseOk(m, p)
  }

  predicate LockOk(m: System, s: SessionId)
    requires s in m.locks
  {
    m.locks[s] in m.procs && m.procs[m.locks[s]].session == s && Holding(m.procs[m.locks[s]].phase)
  }

  predicate OwnerOk(m: System, e: ExecId)
    requires e in m.owner
  {
    m.owner[e] in m.procs && ExecOf(m.procs[m.owner[e]].phase) == Some(e)
  }

  predicate ReceiptOk(m: System, e: ExecId)
    requires e in m.reg.receipts
  {
    var r := m.reg.receipts[e];
    && r.execution == e && r.session in m.reg.sessions && m.reg.sessions[r.session].pins.Some?
    && var pins := m.reg.sessions[r.session].pins.value;
       && r.development == pins.development
       && (if r.session in m.workflows then e == r.session ==> r.digest == pins.digest
           else e in m.owner && r.digest == pins.digest && r.release == pins.release)
  }

  /** Workflow sessions are never resumed. */
  predicate WorkflowOk(m: System, s: SessionId) {
    s in m.reg.sessions && m.reg.sessions[s].pins.Some? && !m.reg.sessions[s].pins.value.resumable
  }

  ghost predicate Inv(c: Content, m: System) {
    && (forall pid :: pid in m.procs ==> ProcOk(c, m, pid))
    && (forall s :: s in m.locks ==> LockOk(m, s))
    && (forall e :: e in m.owner ==> OwnerOk(m, e))
    && (forall e :: e in m.reg.receipts ==> ReceiptOk(m, e))
    && (forall s :: s in m.workflows ==> WorkflowOk(m, s))
  }

  /** What a process relies on, left alone by a step of another. */
  ghost predicate Undisturbed(m: System, next: System, pid: Pid)
    requires pid in m.procs
  {
    && pid in next.procs && next.procs[pid] == m.procs[pid]
    && SessionKept(m, next.reg, m.procs[pid]) && ReceiptsKept(m, next.reg, pid)
    && (Attached(m.procs[pid].phase) ==> m.procs[pid].session !in next.workflows)
    && (Holding(m.procs[pid].phase) ==> m.procs[pid].session in next.locks && next.locks[m.procs[pid].session] == pid)
    && forall e :: e in m.owner ==> e in next.owner && next.owner[e] == m.owner[e]
  }

  predicate SessionKept(m: System, next: Registry, p: Process) {
    p.session in m.reg.sessions ==>
      && p.session in next.sessions
      && next.sessions[p.session].pins == m.reg.sessions[p.session].pins
      && (Holding(p.phase) ==> next.sessions[p.session] == m.reg.sessions[p.session])
  }

  predicate ReceiptsKept(m: System, next: Registry, pid: Pid) {
    && (forall e :: e in m.reg.receipts ==> e in next.receipts && next.receipts[e] == m.reg.receipts[e])
    && (forall e :: e in next.receipts && e !in m.reg.receipts && e in m.owner ==> m.owner[e] != pid)
  }

  lemma UndisturbedOk(c: Content, m: System, next: System, pid: Pid)
    requires pid in m.procs && ProcOk(c, m, pid) && Undisturbed(m, next, pid)
    ensures ProcOk(c, next, pid)
  {
  }

  lemma SessionStays(c: Content, m: System, a: Action, q: Pid)
    requires Inv(c, m) && Enabled(c, m, a) && q in m.procs && (External(a) || a.pid != q)
    ensures SessionKept(m, NextReg(c, m, a), m.procs[q])
  {
    hide Inv;
    if Holding(m.procs[q].phase) {
      HoldersLock(c, m, q);
    }
    if a.Begin? || a.Close? {
      HoldersLock(c, m, a.pid);
    }
  }

  lemma ReceiptsStayOthers(c: Content, m: System, a: Action, q: Pid)
    requires Inv(c, m) && Enabled(c, m, a) && q in m.procs && (External(a) || a.pid != q)
    ensures ReceiptsKept(m, NextReg(c, m, a), q)
  {
    hide Inv;
    if a.Report? {
      OwnExec(c, m, a.pid);
    }
  }

  /** An execution id belongs to the process that drew it. */
  lemma OwnExec(c: Content, m: System, pid: Pid)
    requires Inv(c, m) && pid in m.procs && ExecOf(m.procs[pid].phase).Some?
    ensures ExecOf(m.procs[pid].phase).value in m.owner && m.owner[ExecOf(m.procs[pid].phase).value] == pid
  {
    assert ProcOk(c, m, pid);
  }

  lemma LockStays(c: Content, m: System, a: Action, q: Pid)
    requires Inv(c, m) && Enabled(c, m, a) && q in m.procs && !External(a) && a.pid != q && Holding(m.procs[q].phase)
    ensures m.procs[q].session in NextLocks(c, m, a) && NextLocks(c, m, a)[m.procs[q].session] == q
  {
    hide Enabled, Inv, NextProc, ProcOk, Holding;
    HoldersLock(c, m, q);
    SameSession(c, m, a);
    if a.pid in m.procs {
      if Holding(m.procs[a.pid].phase) {
        HoldersLock(c, m, a.pid);
      }
    }
  }

  lemma HoldersLock(c: Content, m: System, q: Pid)
    requires Inv(c, m) && q in m.procs && Holding(m.procs[q].phase)
    ensures m.procs[q].session in m.locks && m.locks[m.procs[q].session] == q
    ensures m.procs[q].session !in m.workflows
  {
    assert ProcOk(c, m, q);
  }

  lemma SameSession(c: Content, m: System, a: Action)
    requires Enabled(c, m, a) && !External(a)
    ensures a.pid in m.procs && !a.Create? ==> NextProc(c, m, a).session == m.procs[a.pid].session
    ensures a.pid in m.procs && a.Create? ==> !Holding(m.procs[a.pid].phase)
    ensures a.Acquire? ==> a.pid in m.procs && m.procs[a.pid].session !in m.locks
  {
  }

  /** No step disturbs another process. */
  lemma StepLeavesOthers(c: Content, m: System, a: Action, q: Pid)
    requires Inv(c, m) && Enabled(c, m, a) && q in m.procs && (External(a) || a.pid != q)
    ensures Undisturbed(m, Apply(c, m, a), q)
  {
    hide Enabled, SessionKept, ReceiptsKept, NextReg, NextProc, NextLocks;
    SessionStays(c, m, a, q);
    ReceiptsStayOthers(c, m, a, q);
    OwnersStay(c, m, a);
    assert ProcOk(c, m, q);
    StaysAgents(c, m, a, q);
    if !External(a) && Holding(m.procs[q].phase) {
      LockStays(c, m, a, q);
    }
  }

  /** No session of an agent execution becomes one of a workflow run. */
  lemma StaysAgents(c: Content, m: System, a: Action, q: Pid)
    requires Enabled(c, m, a) && q in m.procs && ProcOk(c, m, q)
    ensures Attached(m.procs[q].phase) ==> m.procs[q].session !in NextWorkflows(m, a)
  {
  }

  lemma OwnersStay(c: Content, m: System, a: Action)
    requires Enabled(c, m, a)
    ensures forall e :: e in m.owner ==> e in NextOwner(m, a) && NextOwner(m, a)[e] == m.owner[e]
  {
  }

  lemma BeginOk(c: Content, m: System, a: Action)
    requires Inv(c, m) && Enabled(c, m, a) && a.Begin?
    ensures ProcOk(c, Apply(c, m, a), a.pid)
  {
    assert ProcOk(c, m, a.pid);
  }

  lemma EndOk(c: Content, m: System, a: Action)
    requires Inv(c, m) && Enabled(c, m, a) && a.End?
    ensures ProcOk(c, Apply(c, m, a), a.pid)
  {
    assert ProcOk(c, m, a.pid);
  }

  lemma AcquireOk(c: Content, m: System, a: Action)
    requires Inv(c, m) && Enabled(c, m, a) && a.Acquire?
    ensures ProcOk(c, Apply(c, m, a), a.pid)
  {
    assert ProcOk(c, m, a.pid);
  }

  lemma UnlockOk(c: Content, m: System, a: Action)
    requires Inv(c, m) && Enabled(c, m, a) && a.Unlock?
    ensures ProcOk(c, Apply(c, m, a), a.pid)
  {
    assert ProcOk(c, m, a.pid);
  }

  lemma StopOk(c: Content, m: System, a: Action)
    requires Inv(c, m) && Enabled(c, m, a) && a.Stop?
    ensures ProcOk(c, Apply(c, m, a), a.pid)
  {
    assert ProcOk(c, m, a.pid);
  }

  lemma CloseOk(c: Content, m: System, a: Action)
    requires Inv(c, m) && Enabled(c, m, a) && a.Close?
    ensures ProcOk(c, Apply(c, m, a), a.pid)
  {
    assert ProcOk(c, m, a.pid);
  }

  lemma ReportOk(c: Content, m: System, a: Action)
    requires Inv(c, m) && Enabled(c, m, a) && a.Report?
    ensures ProcOk(c, Apply(c, m, a), a.pid)
  {
    assert ProcOk(c, m, a.pid);
  }

  lemma WorkflowsAre(c: Content, m: System)
    requires Inv(c, m)
    ensures forall s :: s in m.workflows ==>
              s in m.reg.sessions && m.reg.sessions[s].pins.Some? && !m.reg.sessions[s].pins.value.resumable
  {
    forall s | s in m.workflows ensures WorkflowOk(m, s) {
    }
  }

  lemma StartOk(c: Content, m: System, a: Action)
    requires Inv(c, m) && Enabled(c, m, a) && Starts(a)
    ensures ProcOk(c, Apply(c, m, a), a.pid)
  {
    WorkflowsAre(c, m);
  }

  lemma CreateOk(c: Content, m: System, a: Action)
    requires Inv(c, m) && Enabled(c, m, a) && (a.Create? || a.ReadSnapshot?)
    ensures ProcOk(c, Apply(c, m, a), a.pid)
  {
    assert ProcOk(c, m, a.pid);
    WorkflowsAre(c, m);
  }

  lemma StepKeepsActor(c: Content, m: System, a: Action)
    requires Inv(c, m) && Enabled(c, m, a) && !External(a)
    ensures ProcOk(c, Apply(c, m, a), a.pid)
  {
    hide Inv, Enabled, Apply, ProcOk;
    if a.Begin? {
      BeginOk(c, m, a);
    } else if a.Close? {
      CloseOk(c, m, a);
    } else if a.Report? {
      ReportOk(c, m, a);
    } else if Starts(a) {
      StartOk(c, m, a);
    } else if a.Create? || a.ReadSnapshot? {
      CreateOk(c, m, a);
    } else if a.Unlock? {
      UnlockOk(c, m, a);
    } else if a.Stop? {
      StopOk(c, m, a);
    } else if a.Acquire? {
      AcquireOk(c, m, a);
    } else {
      EndOk(c, m, a);
    }
  }

  /** A step keeps every session with the pins it was created with. */
  lemma StepKeepsPins(c: Content, m: System, a: Action, s: SessionId)
    requires Enabled(c, m, a) && s in m.reg.sessions && m.reg.sessions[s].pins.Some?
    ensures s in Apply(c, m, a).reg.sessions && Apply(c, m, a).reg.sessions[s].pins == m.reg.sessions[s].pins
  {
  }

  lemma HeldBy(c: Content, m: System, s: SessionId)
    requires Inv(c, m) && s in m.locks
    ensures LockOk(m, s)
  {
  }

  lemma HoldsAfter(c: Content, m: System, a: Action)
    requires Enabled(c, m, a) && !External(a)
    ensures a.Acquire? ==> Holding(NextProc(c, m, a).phase)
  {
  }

  lemma StepKeepsLocks(c: Content, m: System, a: Action, s: SessionId)
    requires Inv(c, m) && Enabled(c, m, a) && s in Apply(c, m, a).locks
    ensures LockOk(Apply(c, m, a), s)
  {
    hide Enabled, Inv, NextProc, NextReg, Holding, ProcOk;
    if !External(a) {
      SameSession(c, m, a);
      HoldsAfter(c, m, a);
    }
    if s in m.locks {
      HeldBy(c, m, s);
    }
  }

  /** A process keeps the execution id it drew. */
  lemma ExecKept(c: Content, m: System, a: Action)
    requires Enabled(c, m, a) && !External(a)
    ensures a.Begin? ==> ExecOf(NextProc(c, m, a).phase) == Some(a.exec)
    ensures a.pid in m.procs && ExecOf(m.procs[a.pid].phase).Some? ==>
            ExecOf(NextProc(c, m, a).phase) == ExecOf(m.procs[a.pid].phase)
  {
  }

  lemma OwnerOf(c: Content, m: System, e: ExecId)
    requires Inv(c, m) && e in m.owner
    ensures OwnerOk(m, e)
  {
  }

  lemma StepKeepsOwners(c: Content, m: System, a: Action, e: ExecId)
    requires Inv(c, m) && Enabled(c, m, a) && e in Apply(c, m, a).owner
    ensures OwnerOk(Apply(c, m, a), e)
  {
    hide Inv, Enabled, NextProc, NextReg, NextLocks, ExecOf;
    if !External(a) {
      ExecKept(c, m, a);
    }
    if e in m.owner {
      OwnerOf(c, m, e);
    }
  }

  lemma OldReceiptOk(c: Content, m: System, a: Action, e: ExecId)
    requires Inv(c, m) && Enabled(c, m, a) && e in m.reg.receipts
    ensures e in Apply(c, m, a).reg.receipts && Apply(c, m, a).reg.receipts[e] == m.reg.receipts[e]
    ensures ReceiptOk(Apply(c, m, a), e)
  {
    assert ReceiptOk(m, e);
    StepKeepsPins(c, m, a, m.reg.receipts[e].session);
    ReceiptStays(c, m, a, e);
    hide Apply, Enabled, Inv;
  }

  lemma ReceiptStays(c: Content, m: System, a: Action, e: ExecId)
    requires Enabled(c, m, a)
    ensures e in m.reg.receipts ==>
              && e in Apply(c, m, a).reg.receipts
              && Apply(c, m, a).reg.receipts[e] == m.reg.receipts[e]
    ensures e in m.owner ==> e in Apply(c, m, a).owner
    ensures e in Apply(c, m, a).reg.receipts && e !in m.reg.receipts ==>
              || (a.Report? && m.procs[a.pid].phase.exec == e)
              || (a.StepReceipt? && a.receipt.execution == e)
              || (a.ReportWorkflow? && a.session == e)
  {
  }

  lemma NewReceiptOk(c: Content, m: System, a: Action)
    requires Inv(c, m) && Enabled(c, m, a) && a.Report?
    ensures m.procs[a.pid].phase.exec in Apply(c, m, a).reg.receipts
            && ReceiptOk(Apply(c, m, a), m.procs[a.pid].phase.exec)
  {
    assert ProcOk(c, m, a.pid);
  }

  lemma WorkflowReceiptOk(c: Content, m: System, a: Action, e: ExecId)
    requires Inv(c, m) && Enabled(c, m, a) && (a.StepReceipt? || a.ReportWorkflow?)
    requires e == if a.StepReceipt? then a.receipt.execution else a.session
    ensures e in Apply(c, m, a).reg.receipts && ReceiptOk(Apply(c, m, a), e)
  {
  }

  lemma StepKeepsReceipts(c: Content, m: System, a: Action, e: ExecId)
    requires Inv(c, m) && Enabled(c, m, a) && e in Apply(c, m, a).reg.receipts
    ensures ReceiptOk(Apply(c, m, a), e)
  {
    hide Inv, Enabled, Apply, ReceiptOk;
    if e in m.reg.receipts {
      OldReceiptOk(c, m, a, e);
    } else {
      ReceiptStays(c, m, a, e);
      if a.Report? {
        NewReceiptOk(c, m, a);
      } else {
        WorkflowReceiptOk(c, m, a, e);
      }
    }
  }

  lemma StepKeepsWorkflows(c: Content, m: System, a: Action, s: SessionId)
    requires Inv(c, m) && Enabled(c, m, a) && s in Apply(c, m, a).workflows
    ensures WorkflowOk(Apply(c, m, a), s)
  {
    if s in m.workflows {
      assert WorkflowOk(m, s);
      StepKeepsPins(c, m, a, s);
      hide Inv, Enabled, NextReg, NextProc, NextLocks, NextOwner;
    }
  }

  lemma StepKeepsInv(c: Content, m: System, a: Action)
    requires Inv(c, m) && Enabled(c, m, a)
    ensures Inv(c, Apply(c, m, a))
  {
    hide Enabled, Apply, ProcOk, LockOk, OwnerOk, ReceiptOk, WorkflowOk, Undisturbed;
    var next := Apply(c, m, a);
    ProcsAfter(c, m, a);
    forall pid | pid in next.procs ensures ProcOk(c, next, pid) {
      if !External(a) && pid == a.pid {
        StepKeepsActor(c, m, a);
      } else {
        StepLeavesOthers(c, m, a, pid);
        UndisturbedOk(c, m, next, pid);
      }
    }
    forall s | s in next.locks ensures LockOk(next, s) {
      StepKeepsLocks(c, m, a, s);
    }
    forall e | e in next.owner ensures OwnerOk(next, e) {
      StepKeepsOwners(c, m, a, e);
    }
    forall e | e in next.reg.receipts ensures ReceiptOk(next, e) {
      StepKeepsReceipts(c, m, a, e);
    }
    forall s | s in next.workflows ensures WorkflowOk(next, s) {
      StepKeepsWorkflows(c, m, a, s);
    }
  }

  lemma ProcsAfter(c: Content, m: System, a: Action)
    requires Enabled(c, m, a)
    ensures Apply(c, m, a).procs.Keys == m.procs.Keys + if External(a) then {} else {a.pid}
  {
  }

  // ----- every run

  ghost predicate Legal(c: Content, h: seq<Action>)
    decreases |h|, 0
  {
    h == [] || (Legal(c, h[..|h| - 1]) && Enabled(c, After(c, h[..|h| - 1]), h[|h| - 1]))
  }

  ghost function After(c: Content, h: seq<Action>): System
    requires Legal(c, h)
    decreases |h|, 1
  {
    if h == [] then START else Apply(c, After(c, h[..|h| - 1]), h[|h| - 1])
  }

  lemma {:induction false} AlwaysInv(c: Content, h: seq<Action>)
    requires Legal(c, h)
    ensures Inv(c, After(c, h))
    decreases |h|
  {
    hide Inv, Apply, Enabled;
    if h == [] {
      StartInv(c);
    } else {
      AlwaysInv(c, h[..|h| - 1]);
      StepKeepsInv(c, After(c, h[..|h| - 1]), h[|h| - 1]);
    }
  }

  lemma StartInv(c: Content)
    ensures Inv(c, START)
  {
  }

  /** At most one process executes a session, and it holds the session's lock. */
  lemma OneHolder(c: Content, h: seq<Action>, p: Pid, q: Pid)
    requires Legal(c, h) && p in After(c, h).procs && q in After(c, h).procs
    requires var procs := After(c, h).procs;
             Holding(procs[p].phase) && Holding(procs[q].phase) && procs[p].session == procs[q].session
    ensures p == q
    ensures var m := After(c, h); m.procs[p].session in m.locks && m.locks[m.procs[p].session] == p
  {
    AlwaysInv(c, h);
    assert ProcOk(c, After(c, h), p) && ProcOk(c, After(c, h), q);
  }

  lemma {:induction false} LegalPrefix(c: Content, h: seq<Action>, k: nat)
    requires Legal(c, h) && k <= |h|
    ensures Legal(c, h[..k])
    decreases |h|
  {
    if k == |h| {
      assert h[..k] == h;
    } else {
      LegalPrefix(c, h[..|h| - 1], k);
      assert h[..|h| - 1][..k] == h[..k];
    }
  }

  lemma PinsPresent(c: Content, m: System, a: Action, s: SessionId)
    requires Enabled(c, m, a) && (s in m.reg.sessions ==> m.reg.sessions[s].pins.Some?)
    requires Inv(c, m)
    ensures s in Apply(c, m, a).reg.sessions ==> Apply(c, m, a).reg.sessions[s].pins.Some?
  {
    hide NextProc, NextLocks, NextOwner;
    if !External(a) && a.pid in m.procs {
      assert ProcOk(c, m, a.pid);
    }
  }

  lemma {:induction false} AlwaysPinned(c: Content, h: seq<Action>, s: SessionId)
    requires Legal(c, h)
    ensures s in After(c, h).reg.sessions ==> After(c, h).reg.sessions[s].pins.Some?
    decreases |h|
  {
    hide Inv, Apply, Enabled;
    if h != [] {
      AlwaysPinned(c, h[..|h| - 1], s);
      AlwaysInv(c, h[..|h| - 1]);
      PinsPresent(c, After(c, h[..|h| - 1]), h[|h| - 1], s);
    }
  }

  /** A session's digest, mode, release and source path never change after it is created. */
  lemma {:induction false} PinsNeverChange(c: Content, h: seq<Action>, k: nat, s: SessionId)
    requires Legal(c, h) && k <= |h| && Legal(c, h[..k]) && s in After(c, h[..k]).reg.sessions
    ensures s in After(c, h).reg.sessions && After(c, h).reg.sessions[s].pins == After(c, h[..k]).reg.sessions[s].pins
    ensures After(c, h).reg.sessions[s].pins.Some?
    decreases |h|
  {
    hide Inv, Apply, Enabled;
    AlwaysPinned(c, h[..k], s);
    if k == |h| {
      assert h[..k] == h;
    } else {
      var before := h[..|h| - 1];
      assert before[..k] == h[..k];
      PinsNeverChange(c, before, k, s);
      StepKeepsPins(c, After(c, before), h[|h| - 1], s);
    }
  }

  /** Every receipt carries its session's mode; the receipts of an agent session also its
      digest and release, and a workflow run's own receipt its digest. Step receipts of a
      workflow run carry the digests of their agents. */
  lemma ReceiptsMatchSessions(c: Content, h: seq<Action>, e: ExecId)
    requires Legal(c, h) && e in After(c, h).reg.receipts
    ensures var m := After(c, h);
            var r := m.reg.receipts[e];
            && r.execution == e && r.session in m.reg.sessions && m.reg.sessions[r.session].pins.Some?
            && var pins := m.reg.sessions[r.session].pins.value;
               && r.development == pins.development
               && (r.session !in m.workflows ==> r.digest == pins.digest && r.release == pins.release && e in m.owner)
               && (r.session in m.workflows && e == r.session ==> r.digest == pins.digest)
  {
    AlwaysInv(c, h);
    assert ReceiptOk(After(c, h), e);
  }

  /** What a process executes has the digest its session is pinned to, also after a
      resume and whatever happened to the stored snapshot. */
  lemma ExecutesPinnedContent(c: Content, h: seq<Action>, pid: Pid)
    requires Legal(c, h) && pid in After(c, h).procs && Holding(After(c, h).procs[pid].phase)
    ensures var m := After(c, h); var p := m.procs[pid];
            p.session in m.reg.sessions && m.reg.sessions[p.session].pins == Some(p.pins)
                && c.hash(p.manifest) == p.pins.digest
  {
    AlwaysInv(c, h);
    assert ProcOk(c, After(c, h), pid);
  }

  /** The number of its own steps that separate a lock holder from its end. */
  function Remaining(phase: Phase): nat {
    match phase
    case Locked => 5
    case Begun(_) => 4
    case Ended(_, _) => 3
    case Closed(_, _) => 2
    case Reported(_, _) => 1
    case _ => 0
  }

  /** The next step of a lock holder that neither is killed nor loses a transaction. */
  function NextStep(pid: Pid, phase: Phase, exec: ExecId, body: Body): Action
    requires Holding(phase)
  {
    match phase
    case Locked => Begin(pid, exec)
    case Begun(_) => End(pid, body)
    case Ended(_, _) => Close(pid)
    case Closed(_, _) => Report(pid)
    case Reported(_, _) => Unlock(pid)
  }

  lemma HolderStep(c: Content, m: System, pid: Pid, exec: ExecId, body: Body)
    requires pid in m.procs && ProcOk(c, m, pid) && Holding(m.procs[pid].phase)
    requires m.procs[pid].phase.Locked? ==> exec !in m.owner && exec !in m.reg.receipts
    ensures var a := NextStep(pid, m.procs[pid].phase, exec, body);
            && a.pid == pid && !External(a) && Enabled(c, m, a)
            && var next := NextProc(c, m, a).phase;
               !next.Locked? && Remaining(next) == Remaining(m.procs[pid].phase) - 1 && (Holding(next) || next.Done?)
  {
  }

  /** A lock holder's next step is always possible and brings it nearer its end. */
  lemma HolderAdvances(c: Content, h: seq<Action>, pid: Pid, exec: ExecId, body: Body)
    requires Legal(c, h) && pid in After(c, h).procs && Holding(After(c, h).procs[pid].phase)
    requires After(c, h).procs[pid].phase.Locked? ==> exec !in After(c, h).owner && exec !in After(c, h).reg.receipts
    ensures var m := After(c, h); var p := m.procs[pid];
            var a := NextStep(pid, p.phase, exec, body);
            && a.pid == pid && !External(a) && Enabled(c, m, a)
            && var next := Apply(c, m, a).procs[pid].phase;
               !next.Locked? && Remaining(next) == Remaining(p.phase) - 1 && (Holding(next) || next.Done?)
  {
    hide Legal, After, ProcOk, Enabled, NextStep, NextProc, NextReg, NextLocks, Remaining;
    AlwaysInv(c, h);
    assert ProcOk(c, After(c, h), pid);
    HolderStep(c, After(c, h), pid, exec, body);
  }

  /** Its own steps alone bring every lock holder to its end. */
  lemma {:induction false} HolderFinishes(c: Content, h: seq<Action>, pid: Pid, exec: ExecId, body: Body)
      returns (more: seq<Action>)
    requires Legal(c, h) && pid in After(c, h).procs && Holding(After(c, h).procs[pid].phase)
    requires After(c, h).procs[pid].phase.Locked? ==> exec !in After(c, h).owner && exec !in After(c, h).reg.receipts
    ensures |more| == Remaining(After(c, h).procs[pid].phase) && forall a :: a in more ==> !External(a) && a.pid == pid
    ensures Legal(c, h + more) && pid in After(c, h + more).procs && After(c, h + more).procs[pid].phase.Done?
    decreases Remaining(After(c, h).procs[pid].phase)
  {
    hide Enabled, NextReg, NextProc, NextLocks, NextStep;
    HolderAdvances(c, h, pid, exec, body);
    var a := NextStep(pid, After(c, h).procs[pid].phase, exec, body);
    var next := h + [a];
    assert next[..|next| - 1] == h;
    assert After(c, next) == Apply(c, After(c, h), a);
    if Holding(After(c, next).procs[pid].phase) {
      var rest := HolderFinishes(c, next, pid, exec, body);
      more := [a] + rest;
      assert h + more == next + rest;
    } else {
      more := [a];
    }
  }

  /** No step of another process moves it, takes its lock or touches its session. */
  lemma OthersDoNotInterfere(c: Content, h: seq<Action>, a: Action, pid: Pid)
    requires Legal(c, h) && Enabled(c, After(c, h), a) && pid in After(c, h).procs && (External(a) || a.pid != pid)
    ensures Undisturbed(After(c, h), Apply(c, After(c, h), a), pid)
  {
    hide Inv, Apply, Enabled, Undisturbed;
    AlwaysInv(c, h);
    StepLeavesOthers(c, After(c, h), a, pid);
  }

  /** An execution that ended has exactly one receipt, now and from then on: its own
      process drew no other, and the receipt tells how the execution ended. */
  lemma EndedHasOneReceipt(c: Content, h: seq<Action>, pid: Pid, e: ExecId)
    requires Legal(c, h) && pid in After(c, h).procs && After(c, h).procs[pid].phase.Done?
    ensures var m := After(c, h); var p := m.procs[pid];
            && (e in m.reg.receipts && e in m.owner && m.owner[e] == pid <==> e == p.phase.exec)
            && (p.phase.exec in m.reg.receipts
                && m.reg.receipts[p.phase.exec] == ReceiptFor(p.phase.exec, p.session, p.pins, p.phase.error))
  {
    AlwaysInv(c, h);
    assert ProcOk(c, After(c, h), pid);
    if e in After(c, h).owner {
      assert OwnerOk(After(c, h), e);
    }
  }

  /** When a lock is given up after a receipt, the session records the receipt's
      status, error code and execution. */
  lemma ReceiptMatchesStatus(c: Content, h: seq<Action>, pid: Pid)
    requires Legal(c, h) && pid in After(c, h).procs && After(c, h).procs[pid].phase.Reported?
    ensures var m := After(c, h); var p := m.procs[pid];
            && p.session in m.reg.sessions && p.phase.exec in m.reg.receipts
            && var entry, r := m.reg.sessions[p.session], m.reg.receipts[p.phase.exec];
               entry.status == r.status && entry.errorCode == r.errorCode && entry.execution == Some(p.phase.exec)
                   && r.session == p.session
  {
    AlwaysInv(c, h);
    assert ProcOk(c, After(c, h), pid);
  }

  /** A receipt is never altered or withdrawn. */
  lemma {:induction false} ReceiptsStay(c: Content, h: seq<Action>, k: nat, e: ExecId)
    requires Legal(c, h) && k <= |h| && Legal(c, h[..k]) && e in After(c, h[..k]).reg.receipts
    ensures e in After(c, h).reg.receipts && After(c, h).reg.receipts[e] == After(c, h[..k]).reg.receipts[e]
    decreases |h|
  {
    hide Apply, Enabled;
    if k == |h| {
      assert h[..k] == h;
    } else {
      var before := h[..|h| - 1];
      assert before[..k] == h[..k];
      ReceiptsStay(c, before, k, e);
      ReceiptStays(c, After(c, before), h[|h| - 1], e);
    }
  }

  /** The locked steps of one process, taken together, are the execution method. */
  lemma StepsAreExecution(c: Content, m: System, pid: Pid, exec: ExecId, body: Body)
      returns (begun: System, ended: System, closed: System, reported: System)
    requires pid in m.procs && m.procs[pid].phase.Locked? && exec !in m.owner && exec !in m.reg.receipts
    ensures Enabled(c, m, Begin(pid, exec)) && begun == Apply(c, m, Begin(pid, exec))
    ensures Enabled(c, begun, End(pid, body)) && ended == Apply(c, begun, End(pid, body))
    ensures Enabled(c, ended, Close(pid)) && closed == Apply(c, ended, Close(pid))
    ensures Enabled(c, closed, Report(pid)) && reported == Apply(c, closed, Report(pid))
    ensures reported.procs[pid].phase == Reported(exec, ErrorOf(body))
    ensures var p := m.procs[pid];
            && begun.reg == Executed(c, m.reg, p.session, p.manifest, p.pins, exec, body, 1).0
            && closed.reg == Executed(c, m.reg, p.session, p.manifest, p.pins, exec, body, 2).0
            && reported.reg == Executed(c, m.reg, p.session, p.manifest, p.pins, exec, body, 3).0
  {
    begun := Apply(c, m, Begin(pid, exec));
    ended := Apply(c, begun, End(pid, body));
    closed := Apply(c, ended, Close(pid));
    reported := Apply(c, closed, Report(pid));
  }

  // ----- resuming

  /** Processes that share a session resumed it: its pins allow that. */
  ghost predicate Shared(m: System, p: Pid, q: Pid) {
    p in m.procs && q in m.procs && p != q && Attached(m.procs[p].phase) && Attached(m.procs[q].phase)
    && m.procs[p].session == m.procs[q].session
  }

  /** A process is attached by creating a fresh session, by resuming one, or already was. */
  lemma AttachedBefore(c: Content, m: System, a: Action, p: Pid)
    requires Inv(c, m) && Enabled(c, m, a) && p in Apply(c, m, a).procs && Attached(Apply(c, m, a).procs[p].phase)
    requires !(a.StartResume? && a.pid == p)
    ensures || (p in m.procs && Attached(m.procs[p].phase) && m.procs[p].session == Apply(c, m, a).procs[p].session)
            || (a.Create? && a.pid == p && Apply(c, m, a).procs[p].session !in m.reg.sessions)
  {
    hide NextReg, NextLocks, NextOwner, Inv;
  }

  lemma AttachedSession(c: Content, m: System, p: Pid)
    requires Inv(c, m) && p in m.procs && Attached(m.procs[p].phase)
    ensures m.procs[p].session in m.reg.sessions
  {
    assert ProcOk(c, m, p);
  }

  /** Sharing begins only with a resume. */
  lemma SharingStarts(c: Content, m: System, a: Action, p: Pid, q: Pid)
    requires Inv(c, m) && Enabled(c, m, a) && Shared(Apply(c, m, a), p, q) && !Shared(m, p, q)
    ensures a.StartResume? && (a.pid == p || a.pid == q)
  {
    hide Apply, Inv, Enabled, Attached;
    if !(a.StartResume? && (a.pid == p || a.pid == q)) {
      AttachedBefore(c, m, a, p);
      AttachedBefore(c, m, a, q);
      if p in m.procs && Attached(m.procs[p].phase) {
        AttachedSession(c, m, p);
      }
      if q in m.procs && Attached(m.procs[q].phase) {
        AttachedSession(c, m, q);
      }
    }
  }

  lemma ResumedIsResumable(c: Content, m: System, a: Action)
    requires Enabled(c, m, a) && a.StartResume?
    ensures Apply(c, m, a).procs[a.pid].pins.resumable && Apply(c, m, a).procs[a.pid].session == a.session
  {
  }

  /** A session that is not resumable is never executed by two processes, in any run. */
  lemma {:induction false} OnlyResumableIsShared(c: Content, h: seq<Action>, p: Pid, q: Pid)
    requires Legal(c, h) && Shared(After(c, h), p, q)
    ensures After(c, h).procs[p].pins == After(c, h).procs[q].pins && After(c, h).procs[p].pins.resumable
    decreases |h|
  {
    hide Enabled, Apply, Inv, Attached;
    SharedPins(c, h, p, q);
    var before, a := h[..|h| - 1], h[|h| - 1];
    AlwaysInv(c, before);
    if Shared(After(c, before), p, q) {
      OnlyResumableIsShared(c, before, p, q);
      PinsStay(c, After(c, before), a, p);
    } else {
      SharingStarts(c, After(c, before), a, p, q);
      ResumedIsResumable(c, After(c, before), a);
    }
  }

  lemma SharedPins(c: Content, h: seq<Action>, p: Pid, q: Pid)
    requires Legal(c, h) && Shared(After(c, h), p, q)
    ensures After(c, h).procs[p].pins == After(c, h).procs[q].pins && h != []
  {
    AlwaysInv(c, h);
    assert ProcOk(c, After(c, h), p) && ProcOk(c, After(c, h), q);
  }

  lemma PinsStay(c: Content, m: System, a: Action, p: Pid)
    requires Enabled(c, m, a) && p in m.procs
    ensures p in Apply(c, m, a).procs && Apply(c, m, a).procs[p].pins == m.procs[p].pins
  {
  }
}
