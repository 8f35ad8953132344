/**
 * Any number of processes working on one kms.json, one effect per step, with a crash or a failed
 * call possible between any two. Generate, rotate and destroy hold the directory lock; unwrap and
 * rewrap read the file once and take no lock.
 */
module KmsProtocol {
  import opened Seqs
  import opened KmsModel

  type Pid = nat

  datatype Op = Generate(tenant: string) | Rotate(tenant: string) | Destroy(tenant: string)

  /** Where a process is. `record` is the record it holds in memory, `db` the file it has loaded. */
  datatype Pc =
    | Idle
    | Locked(op: Op)
    | Provisioning(op: Op, record: TenantKeyRecord)
    | ProvisionLoaded(op: Op, record: TenantKeyRecord, db: Db)
    | Ready(op: Op, record: TenantKeyRecord)
    | Writing(op: Op, record: TenantKeyRecord)
    | WriteLoaded(op: Op, record: TenantKeyRecord, db: Db)
    | Written(op: Op, record: TenantKeyRecord)
    | Peeked(tenant: string, w: WrappedDataKey, record: TenantKeyRecord)

  predicate HoldsLock(pc: Pc) { !pc.Idle? && !pc.Peeked? }

  /** Who a key was generated for. */
  datatype Owner = Root | TenantKeyOf(tenant: string) | DataKeyOf(tenant: string)

  /** A wrapped data key handed out, with the data key it wraps. */
  datatype Issued = Issued(tenant: string, w: WrappedDataKey, key: Key)

  /**
   * `db` is kms.json. `owners`, `made`, `issued`, `unwrapped`, `payloads` and `rotations` are history: every key
   * generated, every ciphertext produced, every wrapped key handed out, every plaintext data key an unwrap
   * returned, every payload sealed, every rotation returned.
   */
  datatype State = State(
    db: Db, lock: Option<Pid>, pcs: map<Pid, Pc>, nextId: nat,
    owners: map<Key, Owner>, made: set<Sealed>, issued: set<Issued>, unwrapped: set<Issued>,
    payloads: set<Sealed>, rotations: set<(string, nat)>)

  const ROOT: Key := 0

  const INITIAL := State(map[], None, map[], 1, map[ROOT := Root], {}, {}, {}, {}, {})

  function PcOf(s: State, p: Pid): Pc {
    if p in s.pcs then s.pcs[p] else Idle
  }

  datatype Action =
    | Acquire(p: Pid, op: Op)                          // take the lock
    | Get(p: Pid)                                      // read the record, or fail, or start provisioning
    | LoadAll(p: Pid)                                  // first half of `put`
    | Persist(p: Pid)                                  // second half of `put`
    | Prepare(p: Pid)                                  // rotate or destroy: compute the new record
    | Finish(p: Pid)                                   // return the result and release the lock
    | Peek(p: Pid, tenant: string, w: WrappedDataKey)  // unwrap or rewrap reads the record
    | UnwrapDone(p: Pid)                               // unwrap returns
    | Rewrap(p: Pid)                                   // rewrap returns
    | SealPayload(i: Issued, bytes: Bytes)             // a holder of a data key seals a payload
    | Fail(p: Pid)                                     // crash, or an error returned

  /** A caller can only present ciphertexts somebody made, or garbage. */
  predicate Presentable(s: State, w: WrappedDataKey) {
    w.wrapped.Garbage? || w.wrapped in s.made
  }

  predicate Enabled(s: State, a: Action) {
    match a
    case Acquire(p, _) => PcOf(s, p).Idle? && s.lock.None?
    case Get(p) => PcOf(s, p).Locked?
    case LoadAll(p) => PcOf(s, p).Provisioning? || PcOf(s, p).Writing?
    case Persist(p) => PcOf(s, p).ProvisionLoaded? || PcOf(s, p).WriteLoaded?
    case Prepare(p) => PcOf(s, p).Ready? && !PcOf(s, p).op.Generate?
    case Finish(p) => (PcOf(s, p).Ready? && PcOf(s, p).op.Generate?) || PcOf(s, p).Written?
    case Peek(p, t, w) => PcOf(s, p).Idle? && ActiveRecord(s.db, t).Ok? && Presentable(s, w)
    case UnwrapDone(p) => PcOf(s, p).Peeked?
    case Rewrap(p) => PcOf(s, p).Peeked?
    case SealPayload(i, _) => i in s.issued
    case Fail(p) => !PcOf(s, p).Idle?
  }

  function Release(s: State, p: Pid): State {
    s.(pcs := s.pcs[p := Idle], lock := if HoldsLock(PcOf(s, p)) then None else s.lock)
  }

  /** A new tenant key: its identity, its owner and the ciphertext that wraps it. */
  function MintTenantKey(s: State, tenant: string): State {
    s.(nextId := s.nextId + 2, owners := s.owners[s.nextId := TenantKeyOf(tenant)],
       made := s.made + {Sealed(ROOT, s.nextId + 1, KeyMaterial(s.nextId))})
  }

  function HandOut(s: State, tenant: string, w: WrappedDataKey, key: Key): State {
    s.(made := s.made + {w.wrapped}, issued := s.issued + {Issued(tenant, w, key)})
  }

  function DoGet(s: State, p: Pid): State
    requires PcOf(s, p).Locked?
  {
    var op := PcOf(s, p).op;
    var t := op.tenant;
    if t in s.db then
      if s.db[t].destroyed then Release(s, p) else s.(pcs := s.pcs[p := Ready(op, s.db[t])])
    else if op.Destroy? then Release(s, p)
    else MintTenantKey(s, t).(pcs := s.pcs[p := Provisioning(op, FirstVersion(ROOT, t, s.nextId))])
  }

  function DoPrepare(s: State, p: Pid): State
    requires PcOf(s, p).Ready?
  {
    var pc := PcOf(s, p);
    if pc.op.Destroy? then s.(pcs := s.pcs[p := Writing(pc.op, Shredded(pc.record))])
    else MintTenantKey(s, pc.op.tenant).(pcs := s.pcs[p := Writing(pc.op, Rotated(ROOT, pc.record, s.nextId))])
  }

  function DoFinish(s: State, p: Pid): State
    requires Enabled(s, Finish(p))
  {
    var pc := PcOf(s, p);
    var t := pc.op.tenant;
    if pc.Ready? then
      match MintDataKey(ROOT, pc.record, s.nextId)
      case Err(_) => Release(s, p)
      case Ok(dk) =>
        HandOut(Release(s, p), t, dk.wrapped, dk.plaintext)
          .(nextId := s.nextId + 2, owners := s.owners[s.nextId := DataKeyOf(t)])
    else if pc.op.Rotate? && pc.record.versions != [] then
      Release(s, p).(rotations := s.rotations + {(t, Last(pc.record.versions).version)})
    else Release(s, p)
  }

  function DoUnwrap(s: State, p: Pid): State
    requires PcOf(s, p).Peeked?
  {
    var pc := PcOf(s, p);
    match UnwrapFrom(ROOT, pc.record, pc.w)
    case Err(_) => Release(s, p)
    case Ok(dek) => Release(s, p).(unwrapped := s.unwrapped + {Issued(pc.tenant, pc.w, dek)})
  }

  function DoRewrap(s: State, p: Pid): State
    requires PcOf(s, p).Peeked?
  {
    var pc := PcOf(s, p);
    match (UnwrapFrom(ROOT, pc.record, pc.w), RewrapFrom(ROOT, pc.record, pc.w, s.nextId))
    case (Ok(dek), Ok(w)) => HandOut(Release(s, p), pc.tenant, w, dek).(nextId := s.nextId + 1)
    case _ => Release(s, p)
  }

  function Do(s: State, a: Action): State
    requires Enabled(s, a)
  {
    match a
    case Acquire(p, op) => s.(lock := Some(p), pcs := s.pcs[p := Locked(op)])
    case Get(p) => DoGet(s, p)
    case LoadAll(p) =>
      var pc := PcOf(s, p);
      s.(pcs := s.pcs[p := if pc.Provisioning? then ProvisionLoaded(pc.op, pc.record, s.db) else WriteLoaded(pc.op, pc.record, s.db)])
    case Persist(p) =>
      var pc := PcOf(s, p);
      s.(db := pc.db[pc.record.tenant := pc.record],
         pcs := s.pcs[p := if pc.ProvisionLoaded? then Ready(pc.op, pc.record) else Written(pc.op, pc.record)])
    case Prepare(p) => DoPrepare(s, p)
    case Finish(p) => DoFinish(s, p)
    case Peek(p, t, w) => s.(pcs := s.pcs[p := Peeked(t, w, s.db[t])])
    case UnwrapDone(p) => DoUnwrap(s, p)
    case Rewrap(p) => DoRewrap(s, p)
    case SealPayload(i, bytes) =>
      var c := Sealed(i.key, s.nextId, Payload(bytes));
      s.(nextId := s.nextId + 1, made := s.made + {c}, payloads := s.payloads + {c})
    case Fail(p) => Release(s, p)
  }

  ghost predicate Run(states: seq<State>, actions: seq<Action>) {
    && |states| == |actions| + 1
    && states[0] == INITIAL
    && forall k :: 0 <= k < |actions| ==> Enabled(states[k], actions[k]) && states[k + 1] == Do(states[k], actions[k])
  }

  // ---- the invariant ----

  predicate Owned(s: State, k: Key, o: Owner) { k in s.owners && s.owners[k] == o }

  /** Root seals tenant keys, a tenant's keys seal that tenant's data keys, data keys seal payloads. */
  predicate Typed(s: State, c: Sealed) {
    && c.Sealed? && c.key in s.owners
    && match s.owners[c.key]
       case Root => c.key == ROOT && c.plain.KeyMaterial? && c.plain.key in s.owners && s.owners[c.plain.key].TenantKeyOf?
       case TenantKeyOf(t) => c.plain.KeyMaterial? && Owned(s, c.plain.key, DataKeyOf(t))
       case DataKeyOf(_) => c.plain.Payload?
  }

  /** A good record of the tenant whose keys are all different and were generated for it. */
  ghost predicate RecordOk(s: State, tenant: string, rec: TenantKeyRecord) {
    && rec.tenant == tenant && GoodRecord(ROOT, rec)
    && (forall i :: 0 <= i < |rec.versions| ==> Owned(s, rec.versions[i].wrapped.plain.key, TenantKeyOf(tenant)))
    && forall i, j :: 1 <= i < j <= |rec.versions| ==> KeyAt(ROOT, rec, i) != KeyAt(ROOT, rec, j)
  }

  /** `later` continues `rec`: the same versions first, or shredded. */
  predicate Continues(rec: TenantKeyRecord, later: TenantKeyRecord) {
    later.destroyed || (!rec.destroyed && rec.versions <= later.versions)
  }

  /** The wrapped key opens to its data key with the version it names, for as long as the tenant lives. */
  ghost predicate IssuedOk(s: State, i: Issued) {
    && Owned(s, i.key, DataKeyOf(i.tenant))
    && i.w.wrapped.Sealed? && i.w.wrapped.plain == KeyMaterial(i.key)
    && i.w.wrapped in s.made
    && i.tenant in s.db
    && var rec := s.db[i.tenant];
      !rec.destroyed ==>
        && 1 <= i.w.tenantKeyVersion <= |rec.versions|
        && rec.versions[i.w.tenantKeyVersion - 1].wrapped.Sealed?
        && rec.versions[i.w.tenantKeyVersion - 1].wrapped.plain == KeyMaterial(i.w.wrapped.key)
  }

  /** What a process about to write relies on: it alone changes the file. */
  ghost predicate PcOk(s: State, p: Pid) {
    var pc := PcOf(s, p);
    && (HoldsLock(pc) ==> s.lock == Some(p))
    && (pc.ProvisionLoaded? || pc.WriteLoaded? ==> pc.db == s.db)
    && (pc.Provisioning? || pc.ProvisionLoaded? ==>
        pc.op.tenant !in s.db && RecordOk(s, pc.op.tenant, pc.record) && !pc.record.destroyed)
    && (pc.Ready? || pc.Written? ==> pc.op.tenant in s.db && s.db[pc.op.tenant] == pc.record)
    && (pc.Ready? ==> !pc.record.destroyed)
    && (pc.Writing? || pc.WriteLoaded? ==>
        && pc.op.tenant in s.db && !s.db[pc.op.tenant].destroyed
        && RecordOk(s, pc.op.tenant, pc.record) && Continues(s.db[pc.op.tenant], pc.record))
    && (pc.Writing? || pc.WriteLoaded? || pc.Written? ==>
        && (pc.op.Destroy? ==> pc.record.destroyed)
        && (pc.op.Rotate? ==> !pc.record.destroyed && (pc.op.tenant, |pc.record.versions|) !in s.rotations)
        && !pc.op.Generate?)
    && (pc.Peeked? ==>
        && pc.tenant in s.db && RecordOk(s, pc.tenant, pc.record) && !pc.record.destroyed
        && Continues(pc.record, s.db[pc.tenant]) && Presentable(s, pc.w))
  }

  ghost predicate DbOk(s: State) {
    forall t :: t in s.db ==> RecordOk(s, t, s.db[t])
  }

  ghost predicate RotationsOk(s: State) {
    forall t, n :: (t, n) in s.rotations ==> t in s.db && (s.db[t].destroyed || 1 <= n <= |s.db[t].versions|)
  }

  /** No nonce is used for two ciphertexts. */
  ghost predicate NoncesOk(s: State) {
    && (forall c :: c in s.made && c.Sealed? ==> c.nonce < s.nextId)
    && (forall c, d :: c in s.made && d in s.made && c.Sealed? && d.Sealed? && c.nonce == d.nonce ==> c == d)
  }

  ghost predicate HistoryOk(s: State) {
    && 0 < s.nextId
    && (forall k :: k in s.owners ==> k < s.nextId)
    && (forall k :: k in s.owners && s.owners[k] == Root ==> k == ROOT) && Owned(s, ROOT, Root)
    && (forall c :: c in s.made ==> Typed(s, c))
    && s.payloads <= s.made
    && (forall c :: c in s.payloads ==> c.plain.Payload?)
    && (forall o :: o in s.unwrapped ==> Owned(s, o.key, DataKeyOf(o.tenant)))
  }

  ghost predicate Inv(s: State) {
    && DbOk(s) && HistoryOk(s) && NoncesOk(s) && RotationsOk(s)
    && (forall i :: i in s.issued ==> IssuedOk(s, i))
    && (forall p :: PcOk(s, p))
  }

  /** Keys keep their owners, ciphertexts stay made, and every record only continues. */
  ghost predicate Grows(s: State, t: State) {
    && (forall k :: k in s.owners ==> k in t.owners && t.owners[k] == s.owners[k])
    && s.made <= t.made && s.issued <= t.issued && s.unwrapped <= t.unwrapped && s.rotations <= t.rotations
    && (forall n :: n in s.db ==> n in t.db && (s.db[n].destroyed ==> t.db[n] == s.db[n]) && Continues(s.db[n], t.db[n]))
  }
}
