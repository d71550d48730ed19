/** The session registry, and one execution of a session under its lock. */
module Sessions {
  import opened Wrappers

  type SessionId = string
  type ExecId = string
  type Digest = string
  type Manifest = string

  datatype Status = Prepared | Running | Completed | Failed

  /** An exception, with its error code when it carries one. */
  datatype Failure = Failure(code: Option<string>)

  /** What a session is bound to when it is created. */
  datatype Pins = Pins(path: string, digest: Digest, development: bool, release: Option<Digest>, resumable: bool)

  datatype Entry = Entry(agent: string, pins: Option<Pins>, status: Status, execution: Option<ExecId>,
                         errorCode: Option<string>)

  datatype Receipt = Receipt(execution: ExecId, session: SessionId, digest: Digest, status: Status,
                             development: bool, release: Option<Digest>, errorCode: Option<string>)

  datatype Registry = Registry(sessions: map<SessionId, Entry>, snapshots: map<Digest, Manifest>,
                               receipts: map<ExecId, Receipt>)

  /** The fields one call records; a field that is not given keeps its value. */
  datatype Fields = Fields(agent: string, pins: Option<Pins>, status: Status, execution: Option<ExecId>,
                           errorCode: Option<Option<string>>)

  /** The canonical content hash, and the identity a manifest declares. */
  datatype Content = Content(hash: Manifest -> Digest, agent: Manifest -> string)

  const EMPTY := Registry(map[], map[], map[])

  // ----- transactions

  function Updated(entry: Option<Entry>, given: Fields): Entry {
    Entry(given.agent,
          if given.pins.Some? then given.pins else if entry.Some? then entry.value.pins else None,
          given.status,
          if given.execution.Some? then given.execution else if entry.Some? then entry.value.execution else None,
          if given.errorCode.Some? then given.errorCode.value else if entry.Some? then entry.value.errorCode else None)
  }

  function Recorded(reg: Registry, id: SessionId, given: Fields): Registry {
    reg.(sessions := reg.sessions[id := Updated(if id in reg.sessions then Some(reg.sessions[id]) else None, given)])
  }

  function Stored(c: Content, reg: Registry, m: Manifest): Registry {
    if c.hash(m) in reg.snapshots then reg else reg.(snapshots := reg.snapshots[c.hash(m) := m])
  }

  /** Receipts are inserted, never updated: a second one under an id fails. */
  function Issued(reg: Registry, receipt: Receipt): Option<Registry> {
    if receipt.execution in reg.receipts then None
    else Some(reg.(receipts := reg.receipts[receipt.execution := receipt]))
  }

  /** The snapshot, if it is there and still has its digest. */
  function SnapshotOf(c: Content, reg: Registry, digest: Digest): Option<Manifest> {
    if digest in reg.snapshots && c.hash(reg.snapshots[digest]) == digest then Some(reg.snapshots[digest]) else None
  }

  function AsPrepared(c: Content, m: Manifest, pins: Pins): Fields {
    Fields(c.agent(m), Some(pins), Prepared, None, None)
  }

  function AsRunning(c: Content, m: Manifest, exec: ExecId): Fields {
    Fields(c.agent(m), None, Running, Some(exec), None)
  }

  function AsEnded(c: Content, m: Manifest, error: Option<Failure>): Fields {
    Fields(c.agent(m), None, EndStatus(error), None, Some(CodeOf(error)))
  }

  function EndStatus(error: Option<Failure>): Status {
    if error.Some? then Failed else Completed
  }

  function CodeOf(error: Option<Failure>): Option<string> {
    if error.Some? then error.value.code else None
  }

  function ReceiptFor(exec: ExecId, id: SessionId, pins: Pins, error: Option<Failure>): Receipt {
    Receipt(exec, id, pins.digest, EndStatus(error), pins.development, pins.release, CodeOf(error))
  }

  // ----- one execution

  /** What the guarded block does: the error it raises, if any, whether it had opened the
      driver, and the error closing the driver raises, if any. */
  datatype Body = Body(error: Option<Failure>, driverMade: bool, cleanup: Option<Failure>)

  /** The error an execution ends with: the block's own, else the cleanup's. */
  function ErrorOf(b: Body): Option<Failure> {
    if b.error.Some? then b.error else if b.driverMade then b.cleanup else None
  }

  /** `failing` is the number of store transactions that succeed before one raises. */
  datatype Ending = Returned(receipt: Receipt) | Raised(error: Failure) | StoreFailed

  function Executed(c: Content, reg: Registry, id: SessionId, m: Manifest, pins: Pins, exec: ExecId, b: Body,
                    failing: nat): (Registry, Ending) {
    if failing == 0 then (reg, StoreFailed)
    else
      var running := Recorded(reg, id, AsRunning(c, m, exec));
      if failing == 1 then (running, StoreFailed)
      else
        var error := ErrorOf(b);
        var ended := Recorded(running, id, AsEnded(c, m, error));
        var issued := Issued(ended, ReceiptFor(exec, id, pins, error));
        if failing == 2 || issued.None? then (ended, StoreFailed)
        else (issued.value, if error.Some? then Raised(error.value) else Returned(ReceiptFor(exec, id, pins, error)))
  }

  class SessionRegistry {
    const content: Content
    var sessions: map<SessionId, Entry>
    var snapshots: map<Digest, Manifest>
    var receipts: map<ExecId, Receipt>

    constructor (content: Content)
      ensures this.content == content && Contents() == EMPTY
    {
      this.content := content;
      sessions, snapshots, receipts := map[], map[], map[];
    }

    function Contents(): Registry
      reads this
    {
      Registry(sessions, snapshots, receipts)
    }

    method Snapshot(m: Manifest) returns (digest: Digest)
      modifies this`snapshots
      ensures Contents() == Stored(content, old(Contents()), m) && digest == content.hash(m)
    {
      digest := content.hash(m);
      if digest !in snapshots {
        snapshots := snapshots[digest := m];
      }
    }

    method GetSnapshot(digest: Digest) returns (m: Option<Manifest>)
      ensures m == SnapshotOf(content, Contents(), digest)
      ensures m.Some? ==> content.hash(m.value) == digest
    {
      if digest !in snapshots || content.hash(snapshots[digest]) != digest {
        return None;
      }
      return Some(snapshots[digest]);
    }

    method RecordSession(id: SessionId, given: Fields)
      modifies this`sessions
      ensures Contents() == Recorded(old(Contents()), id, given)
    {
      var entry := if id in sessions then sessions[id] else Entry("", None, Prepared, None, None);
      entry := entry.(agent := given.agent, status := given.status);
      if given.pins.Some? {
        entry := entry.(pins := given.pins);
      }
      if given.execution.Some? {
        entry := entry.(execution := given.execution);
      }
      if given.errorCode.Some? {
        entry := entry.(errorCode := given.errorCode.value);
      }
      sessions := sessions[id := entry];
    }

    method WriteReceipt(receipt: Receipt) returns (ok: bool)
      modifies this`receipts
      ensures ok <==> Issued(old(Contents()), receipt).Some?
      ensures Contents() == if ok then Issued(old(Contents()), receipt).value else old(Contents())
    {
      ok := receipt.execution !in receipts;
      if ok {
        receipts := receipts[receipt.execution := receipt];
      }
    }

    /** An execution of the session whose lock the caller holds. */
    method ExecuteLocked(id: SessionId, m: Manifest, pins: Pins, exec: ExecId, b: Body, failing: nat)
        returns (ending: Ending)
      modifies this`sessions, this`receipts
      ensures (Contents(), ending) == Executed(content, old(Contents()), id, m, pins, exec, b, failing)
    {
      var error: Option<Failure> := None;
      if failing == 0 {
        return StoreFailed;
      }
      RecordSession(id, AsRunning(content, m, exec));
      if b.error.Some? {
        error := b.error;
      }
      if b.driverMade && b.cleanup.Some? && error.None? {
        error := b.cleanup;
      }
      if failing == 1 {
        return StoreFailed;
      }
      RecordSession(id, AsEnded(content, m, error));
      if failing == 2 {
        return StoreFailed;
      }
      var receipt := ReceiptFor(exec, id, pins, error);
      var ok := WriteReceipt(receipt);
      if !ok {
        return StoreFailed;
      }
      return if error.Some? then Raised(error.value) else Returned(receipt);
    }
  }

  /** What was stored is what is read back under its digest, unless another content was there
      before; everything stored before is kept. A changed snapshot is not returned. */
  lemma StoredIsRead(c: Content, reg: Registry, m: Manifest, digest: Digest)
    ensures c.hash(m) !in reg.snapshots || reg.snapshots[c.hash(m)] == m ==>
              SnapshotOf(c, Stored(c, reg, m), c.hash(m)) == Some(m)
    ensures digest in reg.snapshots ==> SnapshotOf(c, Stored(c, reg, m), digest) == SnapshotOf(c, reg, digest)
    ensures SnapshotOf(c, reg, digest) == Some(m) <==>
            digest in reg.snapshots && reg.snapshots[digest] == m && c.hash(m) == digest
    ensures Stored(c, reg, m).sessions == reg.sessions && Stored(c, reg, m).receipts == reg.receipts
  {
  }

  /** On every success, error and cleanup-failure path: when no transaction fails there is
      exactly one new receipt, its status and error code are the session's, it is completed
      exactly when neither the block nor the cleanup raised, and the caller sees the first
      error, whose code is the receipt's. The session's pins are untouched and the receipt's. */
  lemma ExecutionEndsWithReceipt(c: Content, reg: Registry, id: SessionId, m: Manifest, pins: Pins, exec: ExecId,
                                 b: Body, failing: nat)
    requires failing >= 3 && exec !in reg.receipts && id in reg.sessions
    ensures var (next, ending) := Executed(c, reg, id, m, pins, exec, b, failing);
            && next.receipts.Keys == reg.receipts.Keys + {exec}
            && (forall e :: e in reg.receipts ==> next.receipts[e] == reg.receipts[e])
            && next.receipts[exec].status == next.sessions[id].status
            && next.receipts[exec].errorCode == next.sessions[id].errorCode
            && next.sessions[id].execution == Some(exec) && next.sessions[id].pins == reg.sessions[id].pins
            && (next.receipts[exec].status == Completed <==> b.error.None? && (b.driverMade ==> b.cleanup.None?))
            && (ending.Raised? <==> next.receipts[exec].status == Failed)
            && (b.error.Some? ==> ending == Raised(b.error.value))
            && (b.error.None? && b.driverMade && b.cleanup.Some? ==> ending == Raised(b.cleanup.value))
            && (ending.Raised? ==> next.receipts[exec].errorCode == ending.error.code)
            && (!ending.Raised? ==> ending == Returned(next.receipts[exec]) && next.receipts[exec].errorCode == None)
            && next.receipts[exec].execution == exec && next.receipts[exec].session == id
            && next.receipts[exec].digest == pins.digest && next.receipts[exec].release == pins.release
            && next.receipts[exec].development == pins.development
  {
  }

  /** A store failure is what can leave an execution without a receipt; no execution
      touches another session or an earlier receipt. */
  lemma ExecutionTouchesOne(c: Content, reg: Registry, id: SessionId, m: Manifest, pins: Pins, exec: ExecId, b: Body,
                            failing: nat)
    ensures var (next, ending) := Executed(c, reg, id, m, pins, exec, b, failing);
            && (ending.StoreFailed? <==> failing < 3 || exec in reg.receipts)
            && (ending.StoreFailed? <==> next.receipts == reg.receipts)
            && next.snapshots == reg.snapshots
            && (forall other :: other in reg.sessions && other != id ==>
                 && other in next.sessions
                 && next.sessions[other] == reg.sessions[other])
            && (forall e :: e in reg.receipts ==> e in next.receipts && next.receipts[e] == reg.receipts[e])
  {
  }
}
