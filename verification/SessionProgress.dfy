/** What processes get done: sessions are started, resumed and reported, in every
    interleaving that leaves them the chance. */
module SessionProgress {
  import opened Wrappers
  import opened Sessions
  import opened SessionRuns

  /** A resume runs a session in the mode, and from a source with the digest, that the
      session was created with, and only a resumable one. */
  lemma ResumedAsCreated(c: Content, h: seq<Action>, k: nat)
    requires Legal(c, h) && k < |h| && h[k].StartResume?
    ensures var m := After(c, h);
            && h[k].session in m.reg.sessions && m.reg.sessions[h[k].session].pins.Some?
            && var pins := m.reg.sessions[h[k].session].pins.value;
               pins.resumable && pins.development == h[k].development && pins.digest == c.hash(h[k].source)
  {
    hide Apply, Inv;
    LegalPrefix(c, h, k + 1);
    LegalPrefix(c, h, k);
    assert h[..k + 1][..k] == h[..k] && h[..k + 1][k] == h[k];
    PinsNeverChange(c, h, k, h[k].session);
  }

  lemma Next(c: Content, h: seq<Action>, a: Action)
    requires Legal(c, h) && Enabled(c, After(c, h), a)
    ensures Legal(c, h + [a]) && After(c, h + [a]) == Apply(c, After(c, h), a)
  {
    assert (h + [a])[..|h|] == h;
  }

  /** A new session can always be started: from every reachable state a free process draws a
      fresh session id, and three steps take it to the lock, with the pins it was started with
      recorded and its manifest stored. */
  lemma NewSessionGetsLock(c: Content, h: seq<Action>, start: Action, session: SessionId)
    requires Legal(c, h) && start.StartRun? && start.pid !in After(c, h).procs
    requires session !in After(c, h).reg.sessions && session !in After(c, h).locks
    ensures var pins := Pins(start.path, c.hash(start.manifest), start.development, start.release, start.resumable);
            var more := h + [start] + [Create(start.pid, session)] + [Acquire(start.pid)];
            && Legal(c, more)
            && After(c, more).procs == After(c, h).procs[start.pid := Process(session, start.manifest, pins, Locked)]
            && After(c, more).locks == After(c, h).locks[session := start.pid]
            && session in After(c, more).reg.sessions
            && After(c, more).reg.sessions[session] == Entry(c.agent(start.manifest), Some(pins), Prepared, None, None)
            && c.hash(start.manifest) in After(c, more).reg.snapshots
  {
    hide Legal, After, Apply, Enabled, Stored, Recorded;
    var m := After(c, h);
    StartDoes(c, m, start);
    Next(c, h, start);
    var m1 := Apply(c, m, start);
    CreateDoes(c, m1, start.pid, session);
    Next(c, h + [start], Create(start.pid, session));
    var m2 := Apply(c, m1, Create(start.pid, session));
    AcquireDoes(c, m2, start.pid);
    Next(c, h + [start] + [Create(start.pid, session)], Acquire(start.pid));
  }

  lemma StartDoes(c: Content, m: System, a: Action)
    requires a.StartRun? && a.pid !in m.procs
    ensures Enabled(c, m, a)
    ensures var pins := Pins(a.path, c.hash(a.manifest), a.development, a.release, a.resumable);
            Apply(c, m, a) ==
            m.(reg := Stored(c, m.reg, a.manifest), procs := m.procs[a.pid := Process("", a.manifest, pins, Fresh)])
    ensures c.hash(a.manifest) in Stored(c, m.reg, a.manifest).snapshots
    ensures Stored(c, m.reg, a.manifest).sessions == m.reg.sessions
  {
  }

  lemma CreateDoes(c: Content, m: System, pid: Pid, session: SessionId)
    requires pid in m.procs && m.procs[pid].phase.Fresh? && session !in m.reg.sessions
    ensures Enabled(c, m, Create(pid, session))
    ensures var p := m.procs[pid];
            var next := Apply(c, m, Create(pid, session));
            && next.procs == m.procs[pid := p.(session := session, phase := Ready)]
            && next.locks == m.locks && next.reg.snapshots == m.reg.snapshots
            && var entry := Entry(c.agent(p.manifest), Some(p.pins), Prepared, None, None);
               next.reg.sessions == m.reg.sessions[session := entry]
  {
  }

  lemma AcquireDoes(c: Content, m: System, pid: Pid)
    requires pid in m.procs && m.procs[pid].phase.Ready? && m.procs[pid].session !in m.locks
    ensures Enabled(c, m, Acquire(pid))
    ensures Apply(c, m, Acquire(pid)) ==
            m.(locks := m.locks[m.procs[pid].session := pid], procs := m.procs[pid := m.procs[pid].(phase := Locked)])
  {
  }

  /** A session can be resumed from every state in which it may be, its snapshot is intact and
      nobody executes it; what is then executed has its digest. */
  lemma ResumeGetsLock(c: Content, h: seq<Action>, start: Action)
    requires Legal(c, h) && start.StartResume? && start.pid !in After(c, h).procs
    requires var reg := After(c, h).reg;
             && start.session in reg.sessions && reg.sessions[start.session].pins.Some?
             && var pins := reg.sessions[start.session].pins.value;
                pins.resumable && pins.development == start.development && c.hash(start.source) == pins.digest
                && pins.digest in reg.snapshots && c.hash(reg.snapshots[pins.digest]) == pins.digest
    requires start.session !in After(c, h).locks
    ensures var reg := After(c, h).reg;
            var pins := reg.sessions[start.session].pins.value;
            var more := h + [start] + [ReadSnapshot(start.pid)] + [Acquire(start.pid)];
            && Legal(c, more) && After(c, more).reg == reg
            && After(c, more).procs
               == After(c, h).procs[start.pid := Process(start.session, reg.snapshots[pins.digest], pins, Locked)]
            && After(c, more).locks == After(c, h).locks[start.session := start.pid]
  {
    hide Legal, After, Apply, Enabled;
    var m := After(c, h);
    ResumeDoes(c, m, start);
    Next(c, h, start);
    var m1 := Apply(c, m, start);
    ReadDoes(c, m1, start.pid);
    Next(c, h + [start], ReadSnapshot(start.pid));
    var m2 := Apply(c, m1, ReadSnapshot(start.pid));
    AcquireDoes(c, m2, start.pid);
    Next(c, h + [start] + [ReadSnapshot(start.pid)], Acquire(start.pid));
  }

  lemma ResumeDoes(c: Content, m: System, a: Action)
    requires a.StartResume? && a.pid !in m.procs
    requires a.session in m.reg.sessions && m.reg.sessions[a.session].pins.Some?
    requires var pins := m.reg.sessions[a.session].pins.value;
             pins.resumable && pins.development == a.development && c.hash(a.source) == pins.digest
    ensures Enabled(c, m, a)
    ensures var pins := m.reg.sessions[a.session].pins.value;
            Apply(c, m, a) == m.(procs := m.procs[a.pid := Process(a.session, a.source, pins, Checked)])
  {
  }

  lemma ReadDoes(c: Content, m: System, pid: Pid)
    requires pid in m.procs && m.procs[pid].phase.Checked?
    requires var digest := m.procs[pid].pins.digest;
             digest in m.reg.snapshots && c.hash(m.reg.snapshots[digest]) == digest
    ensures Enabled(c, m, ReadSnapshot(pid))
    ensures var p := m.procs[pid];
            Apply(c, m, ReadSnapshot(pid)) ==
            m.(procs := m.procs[pid := p.(manifest := m.reg.snapshots[p.pins.digest], phase := Ready)])
  {
  }

  /** When a stored snapshot is replaced by content of another digest, nothing reads it. */
  lemma TamperedIsNotRead(c: Content, h: seq<Action>, digest: Digest, manifest: Manifest, pid: Pid)
    requires Legal(c, h) && c.hash(manifest) != digest && pid in After(c, h).procs
    requires After(c, h).procs[pid].pins.digest == digest
    ensures var more := h + [Tamper(digest, manifest)];
            Legal(c, more) && After(c, more).procs == After(c, h).procs
            && !Enabled(c, After(c, more), ReadSnapshot(pid))
  {
    hide Legal, After, Inv;
    Next(c, h, Tamper(digest, manifest));
  }

  /** A workflow run beside them opens a session, issues a receipt for a step, closes and
      issues its own receipt, which has the digest of the workflow and the outcome. */
  lemma WorkflowRunReports(c: Content, h: seq<Action>, start: Action, step: Receipt, error: Option<Failure>,
                           release: Option<Digest>)
    requires Legal(c, h) && start.StartWorkflow? && start.session !in After(c, h).reg.sessions
    requires step.session == start.session && step.development == start.development && step.execution != start.session
    requires var m := After(c, h);
             && step.execution !in m.owner && step.execution !in m.reg.receipts
             && start.session !in m.owner && start.session !in m.reg.receipts
    ensures var more := h + [start] + [StepReceipt(step)] + [CloseWorkflow(start.session, start.agent, error)]
                        + [ReportWorkflow(start.session, release, error)];
            var own := Receipt(start.session, start.session, c.hash(start.manifest),
                               if error.Some? then Failed else Completed, start.development, release,
                               if error.Some? then error.value.code else None);
            && Legal(c, more) && start.session in After(c, more).reg.sessions
            && After(c, more).reg.receipts == After(c, h).reg.receipts[step.execution := step][start.session := own]
            && After(c, more).reg.sessions[start.session].status == own.status
            && start.session in After(c, more).workflows
  {
    hide Legal, After, Apply, Enabled;
    var h1 := h + [start];
    var h2 := h1 + [StepReceipt(step)];
    var h3 := h2 + [CloseWorkflow(start.session, start.agent, error)];
    var m := After(c, h);
    WorkflowOpens(c, m, start);
    Next(c, h, start);
    var m1 := Apply(c, m, start);
    StepReports(c, m1, step);
    Next(c, h1, StepReceipt(step));
    var m2 := Apply(c, m1, StepReceipt(step));
    WorkflowCloses(c, m2, start.session, start.agent, error);
    Next(c, h2, CloseWorkflow(start.session, start.agent, error));
    var m3 := Apply(c, m2, CloseWorkflow(start.session, start.agent, error));
    WorkflowReports(c, m3, start.session, release, error);
    Next(c, h3, ReportWorkflow(start.session, release, error));
  }

  lemma WorkflowOpens(c: Content, m: System, a: Action)
    requires a.StartWorkflow? && a.session !in m.reg.sessions
    ensures Enabled(c, m, a)
    ensures var next := Apply(c, m, a);
            && next.reg.receipts == m.reg.receipts && next.owner == m.owner
            && next.workflows == m.workflows + {a.session}
            && a.session in next.reg.sessions
            && next.reg.sessions[a.session].pins == Some(Pins("", c.hash(a.manifest), a.development, None, false))
  {
  }

  lemma StepReports(c: Content, m: System, r: Receipt)
    requires r.session in m.workflows && r.session in m.reg.sessions && m.reg.sessions[r.session].pins.Some?
    requires r.development == m.reg.sessions[r.session].pins.value.development
    requires r.execution !in m.owner && r.execution !in m.reg.receipts && r.execution != r.session
    ensures Enabled(c, m, StepReceipt(r))
    ensures Apply(c, m, StepReceipt(r)) == m.(reg := m.reg.(receipts := m.reg.receipts[r.execution := r]))
  {
  }

  lemma WorkflowCloses(c: Content, m: System, session: SessionId, agent: string, error: Option<Failure>)
    requires session in m.workflows && session in m.reg.sessions
    ensures Enabled(c, m, CloseWorkflow(session, agent, error))
    ensures var next := Apply(c, m, CloseWorkflow(session, agent, error));
            && next.reg.receipts == m.reg.receipts && next.owner == m.owner && next.workflows == m.workflows
            && session in next.reg.sessions
            && next.reg.sessions[session].pins == m.reg.sessions[session].pins
            && next.reg.sessions[session].status == if error.Some? then Failed else Completed
  {
  }

  lemma WorkflowReports(c: Content, m: System, session: SessionId, release: Option<Digest>, error: Option<Failure>)
    requires session in m.workflows && session in m.reg.sessions && m.reg.sessions[session].pins.Some?
    requires session !in m.owner && session !in m.reg.receipts
    ensures Enabled(c, m, ReportWorkflow(session, release, error))
    ensures var pins := m.reg.sessions[session].pins.value;
            var own := Receipt(session, session, pins.digest, if error.Some? then Failed else Completed,
                               pins.development, release, if error.Some? then error.value.code else None);
            Apply(c, m, ReportWorkflow(session, release, error)) ==
            m.(reg := m.reg.(receipts := m.reg.receipts[session := own]))
  {
  }
}
