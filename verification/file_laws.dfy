/**
 What the file-backed adapter does to its file: told from the file, the operation, and what goes wrong
 during the call.
 */
module FileLaws {
  import opened Common
  import opened Json
  import opened Gates
  import opened Adapters
  import opened FileAdapter
  import H = HostLaws
  import P = PlannerLaws

  // ---------------------------------------------------------------- configurations

  ghost predicate NamesSecret(w: Value) {
    w.Obj? && exists k :: k in w.keys && k in {"secret", "password", "token", "private_key"}
  }

  /** Some object inside, however deep, has a field named like a secret. */
  ghost predicate KeepsSecret(v: Value) {
    exists w :: P.Inside(w, v) && NamesSecret(w)
  }

  ghost predicate AnyKeepsSecret(vs: seq<Value>) {
    exists w :: P.InsideAny(w, vs) && NamesSecret(w)
  }

  lemma {:induction false} NamesSecretIff(v: Value)
    requires v.Obj?
    ensures NamesSecret(v) <==> exists k :: k in v.keys && SecretName(k)
  {
    if k :| k in v.keys && SecretName(k) {
      assert k in {"secret", "password", "token", "private_key"};
    }
  }

  lemma {:induction false} SecretKeptIff(v: Value)
    ensures ContainsSecret(v) <==> KeepsSecret(v)
    decreases v, 1
  {
    match v
    case Arr(items) =>
      AnySecretKeptIff(items);
      if w :| P.InsideAny(w, items) && NamesSecret(w) {
        assert P.Inside(w, v);
      }
    case Obj(_, values) =>
      AnySecretKeptIff(values);
      NamesSecretIff(v);
      assert P.Inside(v, v);
      if w :| P.InsideAny(w, values) && NamesSecret(w) {
        assert P.Inside(w, v);
      }
    case _ =>
  }

  lemma {:induction false} AnySecretKeptIff(vs: seq<Value>)
    ensures AnySecret(vs) <==> AnyKeepsSecret(vs)
    decreases vs, 0
  {
    if vs == [] {
    } else {
      SecretKeptIff(vs[0]);
      AnySecretKeptIff(vs[1..]);
      if w :| P.Inside(w, vs[0]) && NamesSecret(w) {
        assert P.InsideAny(w, vs);
      }
      if w :| P.InsideAny(w, vs[1..]) && NamesSecret(w) {
        assert P.InsideAny(w, vs);
      }
    }
  }

  /** A configuration the schema accepts and that keeps no secret. */
  ghost predicate IsConfiguration(schema: Schema, v: Value) {
    schema(v) && !KeepsSecret(v)
  }

  /** The file holds such a configuration, in some spelling. */
  ghost predicate HoldsConfiguration(schema: Schema, file: Option<Content>) {
    file.Some? && file.value.Document? && IsConfiguration(schema, file.value.value)
  }

  // ---------------------------------------------------------------- which applies are attempted

  /** A well-posed apply of a configuration at its digest, not seen before, at the adapter's generation. */
  ghost predicate Attempts(schema: Schema, t: FileTarget, o: AdapterOperation, now: nat) {
    && H.WellPosed(o, now) && IsConfiguration(schema, o.desired) && o.desiredDigest == Sha(o.desired)
    && o.operationId !in t.memory.history && o.expectedGeneration == t.memory.generation
    && HoldsConfiguration(schema, t.file)
  }

  lemma {:induction false} AttemptsIff(schema: Schema, t: FileTarget, o: AdapterOperation, now: nat)
    ensures Early(schema, t, o, now).None? <==> Attempts(schema, t, o, now)
  {
    H.WellPosedIff(o, now);
    SecretKeptIff(o.desired);
    if t.file.Some? && t.file.value.Document? {
      SecretKeptIff(t.file.value.value);
    }
  }

  /** Any other apply changes nothing: it is invalid, or a replay, or stale, or finds no configuration to replace. */
  lemma {:induction false} UnattemptedIsAnswered(schema: Schema, t: FileTarget, o: AdapterOperation, now: nat,
        f: Faults)
    requires !Attempts(schema, t, o, now)
    ensures
      var (after, r) := ApplyFile(schema, t, o, now, f);
      var valid := H.WellPosed(o, now) && IsConfiguration(schema, o.desired) && o.desiredDigest == Sha(o.desired);
      && after == t
      && (!valid ==> r == Err(InvalidConfig))
      && (valid && o.operationId in t.memory.history ==>
            r == if t.memory.history[o.operationId].binding == Sha(o)
                 then Ok(t.memory.history[o.operationId].receipt) else Err(ReplayConflict))
      && (valid && o.operationId !in t.memory.history ==>
            r == Err(if o.expectedGeneration != t.memory.generation then GenerationConflict else InvalidConfig))
  {
    AttemptsIff(schema, t, o, now);
    H.WellPosedIff(o, now);
    SecretKeptIff(o.desired);
    if t.file.Some? && t.file.value.Document? {
      SecretKeptIff(t.file.value.value);
    }
  }

  // ---------------------------------------------------------------- what an attempt does

  /** The file was not replaced. */
  predicate NotReplaced(f: Faults) {
    f.stageFails || f.interruptBeforeReplace || f.replaceFails
  }

  /** What is read back is what was written. */
  predicate ReadsBack(desired: Value, f: Faults) {
    !f.readbackMismatch
    && match f.intrusion
       case None => true
       case Some(left) => left.Some? && left.value.Document? && left.value.value == desired
  }

  /** What the file holds when it is read back. */
  function Found(desired: Value, f: Faults): Option<Content> {
    match f.intrusion
    case None => Some(Document(desired, 0))
    case Some(left) => left
  }

  lemma {:induction false} ReadsBackIff(o: AdapterOperation, f: Faults)
    ensures
      var seen := Intruded(Some(Written(o)), f);
      && seen == Found(o.desired, f)
      && (!(f.readbackMismatch || ReadFile(seen) != Ok(o.desired)) <==> ReadsBack(o.desired, f))
  {
  }

  lemma {:induction false} AttemptInstalls(schema: Schema, t: FileTarget, o: AdapterOperation, now: nat, f: Faults)
    requires Attempts(schema, t, o, now)
    ensures t.file.Some? && ApplyFile(schema, t, o, now, f) == Install(t, o, t.file.value, f)
  {
    AttemptsIff(schema, t, o, now);
  }

  /**
   An apply into which nothing intrudes and that nothing fails takes effect: the file holds the desired
   configuration, memory and state file the next generation and the bytes that were replaced, and the
   receipt says so. It says so of no other attempt.
   */
  lemma {:induction false} ApplyInstallsIff(schema: Schema, t: FileTarget, o: AdapterOperation, now: nat, f: Faults)
    requires Attempts(schema, t, o, now)
    ensures
      var (after, r) := ApplyFile(schema, t, o, now, f);
      && (r.Ok? && r.value.state == Converged <==>
            !NotReplaced(f) && !f.unknownAfterReplace && ReadsBack(o.desired, f) && !f.persistFails)
      && (r.Ok? && r.value.state == Converged ==>
            && r.value == AdapterReceipt(o.operationId, Converged, t.memory.generation + 1, Sha(o.desired), Applied)
            && after.file == Found(o.desired, f)
            && after.disk == after.memory
            && after.memory
               == Stored(t.memory.generation + 1,
                         t.memory.history[o.operationId := Entry(Sha(o), t.file.value, r.value)], t.memory.rollbacks))
  {
    AttemptInstalls(schema, t, o, now, f);
    ReadsBackIff(o, f);
  }

  /**
   What each failure leaves. Before the file is replaced: everything as it was. With the outcome
   unknown: the new file alone. Read back wrong: the old file again, or, if that fails, whatever is
   there, reported as partial. Not persisted: the old file again, if it can be put back.
   */
  lemma {:induction false} FailuresLeave(schema: Schema, t: FileTarget, o: AdapterOperation, now: nat, f: Faults)
    requires Attempts(schema, t, o, now)
    ensures
      var (after, r) := ApplyFile(schema, t, o, now, f);
      var replaced := !NotReplaced(f) && !f.unknownAfterReplace;
      && (NotReplaced(f) ==> r == Err(Io) && after == t)
      && (!NotReplaced(f) && f.unknownAfterReplace ==>
            r == Err(OutcomeUnknown) && after == t.(file := Some(Document(o.desired, 0))))
      && (replaced && !ReadsBack(o.desired, f) && !f.rollbackFailure && !f.restoreFails ==>
            && after == t
            && r == Ok(AdapterReceipt(o.operationId, Failed, t.memory.generation, Sha(t.file.value.value),
                                      ReadbackRolledBack)))
      && (replaced && !ReadsBack(o.desired, f) && (f.rollbackFailure || f.restoreFails) ==>
            && after == t.(file := Found(o.desired, f))
            && r == Ok(AdapterReceipt(o.operationId, PartiallyConverged, t.memory.generation,
                                      ReadDigest(Found(o.desired, f)), ReadbackRollbackFailed)))
      && (replaced && ReadsBack(o.desired, f) && f.persistFails ==>
            r == Err(Io) && after == t.(file := if f.restoreFails then Found(o.desired, f) else t.file))
  {
    AttemptInstalls(schema, t, o, now, f);
    ReadsBackIff(o, f);
  }

  // ---------------------------------------------------------------- rollbacks

  /** A rollback not seen before, at the adapter's generation, of an apply it remembers, with a file to restore. */
  predicate Undoes(t: FileTarget, o: AdapterOperation) {
    && o.operationId !in t.memory.rollbacks && o.expectedGeneration == t.memory.generation
    && o.related.Some? && o.related.value in t.memory.history && t.file.Some?
  }

  /** Any other rollback changes nothing, and says why. */
  lemma {:induction false} OtherRollbacksAreAnswered(t: FileTarget, o: AdapterOperation, f: Faults, again: bool)
    requires !Undoes(t, o)
    ensures
      var (after, r) := RollbackFile(t, o, f, again);
      && after == t
      && (o.operationId in t.memory.rollbacks ==>
            r == if t.memory.rollbacks[o.operationId].binding == Sha(o)
                 then Ok(t.memory.rollbacks[o.operationId].receipt) else Err(ReplayConflict))
      && (o.operationId !in t.memory.rollbacks ==>
            r == Err(if o.expectedGeneration != t.memory.generation then GenerationConflict
                     else if o.related.None? then InvalidConfig
                     else if o.related.value !in t.memory.history then Unsupported
                     else Io))
  {
  }

  /** What the file holds after the restore. */
  function Restored(prior: Content, f: Faults): Option<Content> {
    match f.intrusion
    case None => Some(prior)
    case Some(left) => left
  }

  /**
   A rollback takes effect exactly when the restore succeeds, a document is read back and the state
   persists: the file holds the replaced bytes, unless another writer left others, memory and state
   file the next generation, and the receipt the digest read back.
   */
  lemma {:induction false} RollbackRestoresIff(t: FileTarget, o: AdapterOperation, f: Faults, again: bool)
    requires Undoes(t, o)
    ensures
      var (after, r) := RollbackFile(t, o, f, again);
      var found := Restored(t.memory.history[o.related.value].prior, f);
      && (r.Ok? <==> !f.restoreFails && found.Some? && found.value.Document? && !f.persistFails)
      && (r.Ok? ==>
            && r.value
               == AdapterReceipt(o.operationId, Converged, t.memory.generation + 1, Sha(found.value.value), RolledBack)
            && after.file == found && after.disk == after.memory
            && after.memory == Stored(t.memory.generation + 1, t.memory.history,
                                      t.memory.rollbacks[o.operationId := Undone(Sha(o), r.value)]))
  {
  }

  /** What each failure of a rollback leaves and reports. */
  lemma {:induction false} FailedRollbackLeaves(t: FileTarget, o: AdapterOperation, f: Faults, again: bool)
    requires Undoes(t, o)
    ensures
      var (after, r) := RollbackFile(t, o, f, again);
      var found := Restored(t.memory.history[o.related.value].prior, f);
      && (f.restoreFails ==> r == Err(Io) && after == t)
      && (!f.restoreFails && !(found.Some? && found.value.Document?) ==>
            && r == Err(if found.None? then Io else InvalidConfig)
            && after == t.(file := found, memory := t.memory.(generation := t.memory.generation + 1)))
      && (!f.restoreFails && found.Some? && found.value.Document? && f.persistFails ==>
            r == Err(Io) && after == t.(file := if again then found else t.file))
  {
  }

  /** What a receipt says of a file: the digest of its document, or of null when it holds none. */
  lemma {:induction false} DigestOfFile(file: Option<Content>)
    ensures ReadDigest(file)
            == if file.Some? && file.value.Document? then Sha(file.value.value) else Sha(Null)
  {
  }
}
