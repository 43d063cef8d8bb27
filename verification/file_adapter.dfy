/**
 The file-backed adapter: it replaces a configuration file, reads it back, and persists its own
 generation and history beside it. Every step that the operating system can fail has a fault.
 */
module FileAdapter {
  import opened Common
  import opened Json
  import opened Gates
  import opened Adapters

  /** File contents: a JSON document in one of its spellings, or bytes that are no JSON. */
  datatype Content = Document(value: Value, spelling: nat) | Raw(bytes: string)

  /** The spelling the adapter itself writes. */
  const COMPACT := 0

  datatype Entry = Entry(binding: Digest<AdapterOperation>, prior: Content, receipt: AdapterReceipt)

  datatype Stored = Stored(generation: nat, history: map<string, Entry>, rollbacks: map<string, Undone>)

  /** The target file (none when missing or unreadable), the adapter's memory, and its state file. */
  datatype FileTarget = FileTarget(file: Option<Content>, memory: Stored, disk: Stored)

  /** What goes wrong during one call. `intrusion` is what another writer leaves in the file before it is read back. */
  datatype Faults = Faults(
    stageFails: bool,
    interruptBeforeReplace: bool,
    replaceFails: bool,
    unknownAfterReplace: bool,
    intrusion: Option<Option<Content>>,
    readbackMismatch: bool,
    rollbackFailure: bool,
    restoreFails: bool,
    persistFails: bool)

  const NO_FAULTS := Faults(false, false, false, false, None, false, false, false, false)

  /** What the external configuration schema accepts. */
  type Schema = Value -> bool

  predicate SecretName(key: string) {
    key == "secret" || key == "password" || key == "token" || key == "private_key"
  }

  predicate ContainsSecret(v: Value)
    decreases v, 1
  {
    match v
    case Arr(items) => AnySecret(items)
    case Obj(keys, values) => (exists k :: k in keys && SecretName(k)) || AnySecret(values)
    case _ => false
  }

  predicate AnySecret(vs: seq<Value>)
    decreases vs, 0
  {
    vs != [] && (ContainsSecret(vs[0]) || AnySecret(vs[1..]))
  }

  predicate Acceptable(schema: Schema, v: Value) {
    !ContainsSecret(v) && schema(v)
  }

  function ReadFile(file: Option<Content>): Result<Value, AdapterError> {
    match file
    case None => Err(Io)
    case Some(Raw(_)) => Err(InvalidConfig)
    case Some(Document(v, _)) => Ok(v)
  }

  /** The digest a receipt carries for what the file holds now. */
  function ReadDigest(file: Option<Content>): Digest<Value> {
    match ReadFile(file)
    case Ok(v) => Sha(v)
    case Err(_) => Sha(Null)
  }

  function Intruded(file: Option<Content>, f: Faults): Option<Content> {
    if f.intrusion.Some? then f.intrusion.value else file
  }

  // ---------------------------------------------------------------- apply

  /** How an apply ends before it touches the file, if it does. */
  function Early(schema: Schema, t: FileTarget, o: AdapterOperation, now: nat): Option<Outcome> {
    if !ValidOperation(o, now) || !Acceptable(schema, o.desired) || o.desiredDigest != Sha(o.desired)
    then Some(Err(InvalidConfig))
    else if o.operationId in t.memory.history then
      var entry := t.memory.history[o.operationId];
      Some(if entry.binding == Sha(o) then Ok(entry.receipt) else Err(ReplayConflict))
    else if o.expectedGeneration != t.memory.generation then Some(Err(GenerationConflict))
    else
      match t.file
      case Some(Document(v, _)) => if Acceptable(schema, v) then None else Some(Err(InvalidConfig))
      case _ => Some(Err(InvalidConfig))
  }

  function Written(o: AdapterOperation): Content {
    Document(o.desired, COMPACT)
  }

  function AppliedReceipt(t: FileTarget, o: AdapterOperation): AdapterReceipt {
    AdapterReceipt(o.operationId, Converged, t.memory.generation + 1, o.desiredDigest, AdapterReason.Applied)
  }

  function Remembered(t: FileTarget, o: AdapterOperation, prior: Content): Stored {
    Stored(t.memory.generation + 1,
           t.memory.history[o.operationId := Entry(Sha(o), prior, AppliedReceipt(t, o))],
           t.memory.rollbacks)
  }

  /** From the staged write on; `prior` is what the file held. */
  function Install(t: FileTarget, o: AdapterOperation, prior: Content, f: Faults): (FileTarget, Outcome) {
    if f.stageFails || f.interruptBeforeReplace || f.replaceFails then (t, Err(Io))
    else if f.unknownAfterReplace then (t.(file := Some(Written(o))), Err(OutcomeUnknown))
    else
      var seen := Intruded(Some(Written(o)), f);
      if f.readbackMismatch || ReadFile(seen) != Ok(o.desired) then
        if f.rollbackFailure || f.restoreFails then
          (t.(file := seen),
           Ok(AdapterReceipt(o.operationId, PartiallyConverged, t.memory.generation, ReadDigest(seen),
                             ReadbackRollbackFailed)))
        else
          (t.(file := Some(prior)),
           Ok(AdapterReceipt(o.operationId, Failed, t.memory.generation, ReadDigest(Some(prior)), ReadbackRolledBack)))
      else if f.persistFails then (t.(file := if f.restoreFails then seen else Some(prior)), Err(Io))
      else
        var next := Remembered(t, o, prior);
        (FileTarget(seen, next, next), Ok(AppliedReceipt(t, o)))
  }

  function ApplyFile(schema: Schema, t: FileTarget, o: AdapterOperation, now: nat, f: Faults): (FileTarget, Outcome) {
    match Early(schema, t, o, now)
    case Some(r) => (t, r)
    case None => Install(t, o, t.file.value, f)
  }

  // ---------------------------------------------------------------- rollback

  function EarlyRollback(t: FileTarget, o: AdapterOperation): Option<Outcome> {
    if o.operationId in t.memory.rollbacks then
      var undone := t.memory.rollbacks[o.operationId];
      Some(if undone.binding == Sha(o) then Ok(undone.receipt) else Err(ReplayConflict))
    else if o.expectedGeneration != t.memory.generation then Some(Err(GenerationConflict))
    else if o.related.None? then Some(Err(InvalidConfig))
    else if o.related.value !in t.memory.history then Some(Err(Unsupported))
    else if t.file.None? then Some(Err(Io))
    else None
  }

  /** From the restore on; `prior` is what the undone apply replaced. */
  function Uninstall(t: FileTarget, o: AdapterOperation, prior: Content, f: Faults,
        restoreAgainFails: bool): (FileTarget, Outcome)
  {
    if f.restoreFails then (t, Err(Io))
    else
      var seen := Intruded(Some(prior), f);
      match ReadFile(seen)
      case Err(e) => (t.(file := seen, memory := t.memory.(generation := t.memory.generation + 1)), Err(e))
      case Ok(v) =>
        var receipt := AdapterReceipt(o.operationId, Converged, t.memory.generation + 1, Sha(v), RolledBack);
        if f.persistFails then (t.(file := if restoreAgainFails then seen else t.file), Err(Io))
        else
          var rollbacks := t.memory.rollbacks[o.operationId := Undone(Sha(o), receipt)];
          var next := Stored(t.memory.generation + 1, t.memory.history, rollbacks);
          (FileTarget(seen, next, next), Ok(receipt))
  }

  function RollbackFile(t: FileTarget, o: AdapterOperation, f: Faults, restoreAgainFails: bool): (FileTarget, Outcome) {
    match EarlyRollback(t, o)
    case Some(r) => (t, r)
    case None => Uninstall(t, o, t.memory.history[o.related.value].prior, f, restoreAgainFails)
  }

  // ---------------------------------------------------------------- the adapter

  class RuntimeConfigAdapter {
    const schema: Schema
    var file: Option<Content>
    var disk: Stored
    var generation: nat
    var history: map<string, Entry>
    var rollbacks: map<string, Undone>

    ghost function View(): FileTarget
      reads this
    {
      FileTarget(file, Stored(generation, history, rollbacks), disk)
    }

    /** Opening loads what the state file holds. */
    constructor (schema: Schema, file: Option<Content>, disk: Stored)
      ensures this.schema == schema && View() == FileTarget(file, disk, disk)
    {
      this.schema, this.file, this.disk := schema, file, disk;
      generation, history, rollbacks := disk.generation, disk.history, disk.rollbacks;
    }

    method Restore(content: Content, fails: bool) returns (ok: bool)
      modifies `file
      ensures ok == !fails && file == (if fails then old(file) else Some(content))
    {
      if !fails {
        file := Some(content);
      }
      return !fails;
    }

    method PersistState(fails: bool) returns (ok: bool)
      modifies `disk
      ensures ok == !fails && disk == (if fails then old(disk) else Stored(generation, history, rollbacks))
    {
      if !fails {
        disk := Stored(generation, history, rollbacks);
      }
      return !fails;
    }

    method Replace(o: AdapterOperation, prior: Content, f: Faults) returns (r: Outcome)
      requires o.operationId !in history
      modifies this
      ensures (View(), r) == Install(old(View()), o, prior, f)
    {
      if f.stageFails || f.interruptBeforeReplace || f.replaceFails {
        return Err(Io);
      }
      file := Some(Written(o));
      if f.unknownAfterReplace {
        return Err(OutcomeUnknown);
      }
      file := Intruded(file, f);
      if f.readbackMismatch || ReadFile(file) != Ok(o.desired) {
        var restored := Restore(prior, f.rollbackFailure || f.restoreFails);
        if !restored {
          return Ok(AdapterReceipt(o.operationId, PartiallyConverged, generation, ReadDigest(file),
                                   ReadbackRollbackFailed));
        }
        return Ok(AdapterReceipt(o.operationId, Failed, generation, ReadDigest(file), ReadbackRolledBack));
      }
      generation := generation + 1;
      var receipt := AdapterReceipt(o.operationId, Converged, generation, o.desiredDigest, AdapterReason.Applied);
      ghost var earlier := history;
      history := history[o.operationId := Entry(Sha(o), prior, receipt)];
      var persisted := PersistState(f.persistFails);
      if !persisted {
        history := history - {o.operationId};
        assert history == earlier;
        generation := generation - 1;
        var restored := Restore(prior, f.restoreFails);
        return Err(Io);
      }
      return Ok(receipt);
    }

    method Apply(o: AdapterOperation, now: nat, f: Faults) returns (r: Outcome)
      modifies this
      ensures (View(), r) == ApplyFile(schema, old(View()), o, now, f)
    {
      if !ValidOperation(o, now) || !Acceptable(schema, o.desired) || o.desiredDigest != Sha(o.desired) {
        return Err(InvalidConfig);
      }
      if o.operationId in history {
        return if history[o.operationId].binding == Sha(o) then Ok(history[o.operationId].receipt)
          else Err(ReplayConflict);
      }
      if o.expectedGeneration != generation {
        return Err(GenerationConflict);
      }
      if file.None? || file.value.Raw? || !Acceptable(schema, file.value.value) {
        return Err(InvalidConfig);
      }
      r := Replace(o, file.value, f);
    }

    method Rollback(o: AdapterOperation, f: Faults, restoreAgainFails: bool) returns (r: Outcome)
      modifies this
      ensures (View(), r) == RollbackFile(old(View()), o, f, restoreAgainFails)
    {
      if o.operationId in rollbacks {
        return if rollbacks[o.operationId].binding == Sha(o) then Ok(rollbacks[o.operationId].receipt)
          else Err(ReplayConflict);
      }
      if o.expectedGeneration != generation {
        return Err(GenerationConflict);
      }
      if o.related.None? {
        return Err(InvalidConfig);
      }
      if o.related.value !in history {
        return Err(Unsupported);
      }
      if file.None? {
        return Err(Io);
      }
      var current := file.value;
      var restored := Restore(history[o.related.value].prior, f.restoreFails);
      if !restored {
        return Err(Io);
      }
      generation := generation + 1;
      file := Intruded(file, f);
      var observed := ReadFile(file);
      if observed.Err? {
        return Err(observed.error);
      }
      var receipt := AdapterReceipt(o.operationId, Converged, generation, Sha(observed.value), RolledBack);
      ghost var earlier := rollbacks;
      rollbacks := rollbacks[o.operationId := Undone(Sha(o), receipt)];
      var persisted := PersistState(f.persistFails);
      if !persisted {
        rollbacks := rollbacks - {o.operationId};
        assert rollbacks == earlier;
        generation := generation - 1;
        var again := Restore(current, restoreAgainFails);
        return Err(Io);
      }
      return Ok(receipt);
    }
  }

  // ---------------------------------------------------------------- atomicity of apply

  /** Whether the apply got as far as replacing the file and then could neither finish nor go back. */
  predicate Stuck(schema: Schema, t: FileTarget, o: AdapterOperation, now: nat, f: Faults) {
    var r := ApplyFile(schema, t, o, now, f).1;
    r == Err(OutcomeUnknown)
      || (r == Err(Io) && f.persistFails && f.restoreFails && !f.stageFails && !f.interruptBeforeReplace
          && !f.replaceFails)
  }

  /**
   An apply that errs leaves memory and state file as they were, always; and the target file too,
   unless the outcome is unknown or the restore after a failed persist failed as well.
   */
  lemma {:induction false} FailedApplyLeavesNoTrace(schema: Schema, t: FileTarget, o: AdapterOperation, now: nat,
        f: Faults)
    requires ApplyFile(schema, t, o, now, f).1.Err?
    ensures
      var after := ApplyFile(schema, t, o, now, f).0;
      && after.memory == t.memory && after.disk == t.disk
      && (!Stuck(schema, t, o, now, f) ==> after.file == t.file)
      && (Stuck(schema, t, o, now, f) ==> ReadFile(after.file) == Ok(o.desired))
  {
  }

  /**
   Every receipt that is not a replay carries the digest of the file as it is when the call
   returns. It says Converged exactly when the generation moved, by one, with one new history
   entry holding the bytes the file held before, all of it persisted.
   */
  lemma {:induction false} FreshReceiptIsTrue(schema: Schema, t: FileTarget, o: AdapterOperation, now: nat, f: Faults)
    requires o.operationId !in t.memory.history && ApplyFile(schema, t, o, now, f).1.Ok?
    ensures
      var (after, r) := ApplyFile(schema, t, o, now, f);
      && r.value.resultDigest == ReadDigest(after.file)
      && r.value.generation == after.memory.generation
      && (r.value.state != Converged ==> after.memory == t.memory && after.disk == t.disk)
      && (r.value.state == Failed ==> after.file == t.file)
      && (r.value.state == Converged ==>
            && after.memory.generation == t.memory.generation + 1
            && after.memory.history.Keys == t.memory.history.Keys + {o.operationId}
            && (forall id :: id in t.memory.history ==> after.memory.history[id] == t.memory.history[id])
            && Some(after.memory.history[o.operationId].prior) == t.file
            && after.memory.history[o.operationId].receipt == r.value
            && after.disk == after.memory && ReadFile(after.file) == Ok(o.desired))
  {
  }

  // ---------------------------------------------------------------- atomicity of rollback

  /** A rollback that succeeds puts back the very bytes the undone apply replaced, unless another writer intrudes. */
  lemma {:induction false} RollbackPutsBytesBack(t: FileTarget, o: AdapterOperation, f: Faults, again: bool)
    requires o.operationId !in t.memory.rollbacks && RollbackFile(t, o, f, again).1.Ok?
    ensures
      var (after, r) := RollbackFile(t, o, f, again);
      && o.related.Some? && o.related.value in t.memory.history
      && (f.intrusion.None? ==> after.file == Some(t.memory.history[o.related.value].prior))
      && r.value.resultDigest == ReadDigest(after.file)
      && r.value.generation == after.memory.generation == t.memory.generation + 1
      && after.disk == after.memory && after.memory.history == t.memory.history
  {
  }

  /** The rollback was admitted and restored the file, but what it then read was no document. */
  predicate ReadBackBroken(t: FileTarget, o: AdapterOperation, f: Faults) {
    EarlyRollback(t, o).None? && !f.restoreFails
      && ReadFile(Intruded(Some(t.memory.history[o.related.value].prior), f)).Err?
  }

  /**
   A rollback that errs is not atomic: its generation moves in memory, and only there, exactly
   when the read-back after the restore fails. Otherwise memory and state file are as they were.
   */
  lemma {:induction false} FailedRollbackMovesGenerationIff(t: FileTarget, o: AdapterOperation, f: Faults, again: bool)
    requires RollbackFile(t, o, f, again).1.Err?
    ensures
      var after := RollbackFile(t, o, f, again).0;
      && after.disk == t.disk
      && (after.memory != t.memory <==> ReadBackBroken(t, o, f))
      && (ReadBackBroken(t, o, f) ==> after.memory == t.memory.(generation := t.memory.generation + 1))
      && (!ReadBackBroken(t, o, f) && !(f.persistFails && again) ==> after.file == t.file)
  {
  }

  // ---------------------------------------------------------------- runs

  datatype FileCall =
    | FileApply(operation: AdapterOperation, now: nat, faults: Faults)
    | FileRollback(operation: AdapterOperation, faults: Faults, restoreAgainFails: bool)
    | Reopen
    | Edited(file: Option<Content>)

  function Do(schema: Schema, t: FileTarget, c: FileCall): FileTarget {
    match c
    case FileApply(o, now, f) => ApplyFile(schema, t, o, now, f).0
    case FileRollback(o, f, again) => RollbackFile(t, o, f, again).0
    case Reopen => t.(memory := t.disk)
    case Edited(file) => t.(file := file)
  }

  function RunFile(schema: Schema, t: FileTarget, calls: seq<FileCall>): FileTarget
    decreases |calls|
  {
    if calls == [] then t else RunFile(schema, Do(schema, t, calls[0]), calls[1..])
  }

  /** Histories survive in the state file; a memory generation can only run ahead of it. */
  ghost predicate Persisted(t: FileTarget) {
    && t.memory.history == t.disk.history && t.memory.rollbacks == t.disk.rollbacks
    && t.disk.generation <= t.memory.generation
  }

  /** A receipt in the history is at most as new as the generation, and reports what its operation desired. */
  predicate EntryTrue(schema: Schema, id: string, e: Entry, generation: nat) {
    && e.binding.Sha? && e.binding.of.operationId == id == e.receipt.operationId
    && e.receipt.generation == e.binding.of.expectedGeneration + 1 <= generation
    && e.receipt.resultDigest == Sha(e.binding.of.desired)
    && e.prior.Document? && Acceptable(schema, e.prior.value) && Acceptable(schema, e.binding.of.desired)
  }

  ghost predicate HistoryTrue(schema: Schema, t: FileTarget) {
    && Persisted(t)
    && forall id :: id in t.disk.history ==> EntryTrue(schema, id, t.disk.history[id], t.disk.generation)
  }

  /** Every entry of the one history is in the other, prior bytes and receipt included. */
  predicate Keeps(later: map<string, Entry>, earlier: map<string, Entry>) {
    forall id :: id in earlier ==> id in later && later[id] == earlier[id]
  }

  lemma {:induction false} ApplyKeepsHistoryTrue(schema: Schema, t: FileTarget, o: AdapterOperation, now: nat,
        f: Faults)
    requires HistoryTrue(schema, t)
    ensures
      var after := ApplyFile(schema, t, o, now, f).0;
      HistoryTrue(schema, after) && Keeps(after.disk.history, t.disk.history)
        && t.disk.generation <= after.disk.generation
  {
  }

  lemma {:induction false} RollbackKeepsHistoryTrue(schema: Schema, t: FileTarget, o: AdapterOperation, f: Faults,
        again: bool)
    requires HistoryTrue(schema, t)
    ensures
      var after := RollbackFile(t, o, f, again).0;
      HistoryTrue(schema, after) && t.disk.history == after.disk.history && t.disk.generation <= after.disk.generation
  {
  }

  lemma {:induction false} DoKeepsHistoryTrue(schema: Schema, t: FileTarget, c: FileCall)
    requires HistoryTrue(schema, t)
    ensures HistoryTrue(schema, Do(schema, t, c)) && Keeps(Do(schema, t, c).disk.history, t.disk.history)
    ensures t.disk.generation <= Do(schema, t, c).disk.generation
  {
    match c {
      case FileApply(o, now, f) => ApplyKeepsHistoryTrue(schema, t, o, now, f);
      case FileRollback(o, f, again) => RollbackKeepsHistoryTrue(schema, t, o, f, again);
      case Reopen =>
      case Edited(_) =>
    }
  }

  /**
   Over every run of applies, rollbacks, faults, foreign edits and restarts, what the adapter
   remembers is what it persisted, every remembered receipt is true of its operation, and every
   entry once persisted, prior bytes included, stays as it was.
   */
  lemma {:induction false} HistoryStaysTrue(schema: Schema, t: FileTarget, calls: seq<FileCall>)
    requires HistoryTrue(schema, t)
    ensures HistoryTrue(schema, RunFile(schema, t, calls))
    ensures Keeps(RunFile(schema, t, calls).disk.history, t.disk.history)
    ensures t.disk.generation <= RunFile(schema, t, calls).disk.generation
    decreases |calls|
  {
    if calls == [] {
    } else {
      DoKeepsHistoryTrue(schema, t, calls[0]);
      HistoryStaysTrue(schema, Do(schema, t, calls[0]), calls[1..]);
    }
  }

  // ---------------------------------------------------------------- the unknown outcome

  /**
   Here the generation is no version clock. After an unknown outcome the same operation is
   accepted again, remembers its own result as the bytes it replaced, and its rollback then
   restores exactly the original bytes only when they already were what the operation writes.
   */
  lemma {:induction false} RetryAfterUnknownSpoilsRollback(schema: Schema, t: FileTarget, o: AdapterOperation,
        now: nat, f: Faults, back: AdapterOperation)
    requires ApplyFile(schema, t, o, now, f).1 == Err(OutcomeUnknown)
    requires back.related == Some(o.operationId) && back.operationId !in t.memory.rollbacks
    requires back.expectedGeneration == t.memory.generation + 1
    ensures
      var unknown := ApplyFile(schema, t, o, now, f).0;
      var (retried, r) := ApplyFile(schema, unknown, o, now, NO_FAULTS);
      var (restored, undone) := RollbackFile(retried, back, NO_FAULTS, false);
      && unknown.memory.generation == t.memory.generation && unknown.file == Some(Written(o))
      && r == Ok(AppliedReceipt(t, o))
      && undone.Ok?
      && restored.file == Some(Written(o))
      && (restored.file == t.file <==> t.file == Some(Written(o)))
  {
  }
}
