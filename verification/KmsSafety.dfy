/** What every run of the key management protocol keeps. */
module KmsSafety {
  import opened Seqs
  import opened KmsModel
  import opened KmsProtocol

  lemma RecordOkKept(s: State, t: State, tenant: string, rec: TenantKeyRecord)
    requires RecordOk(s, tenant, rec)
    requires forall k :: k in s.owners ==> k in t.owners && t.owners[k] == s.owners[k]
    ensures RecordOk(t, tenant, rec)
  {
  }

  /** Facts about the acting process that the proofs below start from. */
  lemma Acting(s: State, p: Pid)
    requires Inv(s)
    ensures PcOk(s, p)
  {
  }

  lemma OwnersGrow(s: State, a: Action)
    requires Inv(s) && Enabled(s, a)
    ensures var t := Do(s, a);
      && s.nextId <= t.nextId
      && (forall k :: k in s.owners ==> k in t.owners && t.owners[k] == s.owners[k])
      && s.made <= t.made && s.issued <= t.issued && s.unwrapped <= t.unwrapped && s.rotations <= t.rotations
  {
    hide RecordOk, RewrapFrom, UnwrapFrom, MintDataKey, PcOk, Typed;
  }

  /** Only `Persist` changes the file, and it puts exactly the record in hand. */
  lemma DbChange(s: State, a: Action)
    requires Inv(s) && Enabled(s, a)
    ensures var t := Do(s, a);
      if a.Persist? then t.db == s.db[PcOf(s, a.p).op.tenant := PcOf(s, a.p).record] else t.db == s.db
  {
    if a.Persist? { Acting(s, a.p); }
  }

  lemma StepKeepsDb(s: State, a: Action)
    requires Inv(s) && Enabled(s, a)
    ensures DbOk(Do(s, a))
  {
    var t := Do(s, a);
    OwnersGrow(s, a);
    DbChange(s, a);
    if a.Persist? {
      Acting(s, a.p);
      RecordOkKept(s, t, PcOf(s, a.p).op.tenant, PcOf(s, a.p).record);
    }
    forall n | n in t.db ensures RecordOk(t, n, t.db[n]) {
      if n in s.db && t.db[n] == s.db[n] { RecordOkKept(s, t, n, s.db[n]); }
    }
  }

  lemma StepGrows(s: State, a: Action)
    requires Inv(s) && Enabled(s, a)
    ensures Grows(s, Do(s, a))
  {
    OwnersGrow(s, a);
    DbChange(s, a);
    if a.Persist? { Acting(s, a.p); }
  }

  lemma StepKeepsRotations(s: State, a: Action)
    requires Inv(s) && Enabled(s, a)
    ensures RotationsOk(Do(s, a))
  {
    var t := Do(s, a);
    DbChange(s, a);
    if a.Persist? || a.Finish? { Acting(s, a.p); }
    if a.Finish? && PcOf(s, a.p).Written? {
      var n := PcOf(s, a.p).op.tenant;
      assert RecordOk(s, n, s.db[n]);
    }
  }

  lemma TypedKept(s: State, t: State, c: Sealed)
    requires Typed(s, c)
    requires forall k :: k in s.owners ==> k in t.owners && t.owners[k] == s.owners[k]
    ensures Typed(t, c)
  {
  }

  /** The data key that a presented wrapped key opens to under a record was generated for that tenant. */
  lemma UnwrapIsTyped(s: State, tenant: string, rec: TenantKeyRecord, w: WrappedDataKey)
    requires HistoryOk(s) && RecordOk(s, tenant, rec) && Presentable(s, w)
    requires UnwrapFrom(ROOT, rec, w).Ok?
    ensures Owned(s, UnwrapFrom(ROOT, rec, w).value, DataKeyOf(tenant))
  {
    TenantKeySelects(ROOT, rec, w.tenantKeyVersion);
    assert Typed(s, w.wrapped);
  }

  /** A wrapped key made for the record's current version names that version and its key. */
  lemma WrapIsTyped(s: State, tenant: string, rec: TenantKeyRecord, dek: Key, nonce: nat)
    requires RecordOk(s, tenant, rec) && !rec.destroyed
    ensures var n := |rec.versions|;
      var tk := KeyAt(ROOT, rec, n);
      && n >= 1 && WrapUnder(ROOT, rec, dek, nonce) == Ok(WrappedDataKey(n, Sealed(tk, nonce, KeyMaterial(dek))))
      && Owned(s, tk, TenantKeyOf(tenant))
  {
    WrapUnderGood(ROOT, rec, dek, nonce);
  }

  lemma FinishKeepsHistory(s: State, p: Pid)
    requires Inv(s) && Enabled(s, Finish(p))
    ensures HistoryOk(DoFinish(s, p))
  {
    Acting(s, p);
    var t, pc := DoFinish(s, p), PcOf(s, p);
    if pc.Ready? {
      WrapIsTyped(s, pc.op.tenant, pc.record, s.nextId, s.nextId + 1);
    }
    forall c | c in s.made ensures Typed(t, c) { TypedKept(s, t, c); }
  }

  lemma RewrapKeepsHistory(s: State, p: Pid)
    requires Inv(s) && PcOf(s, p).Peeked?
    ensures HistoryOk(DoRewrap(s, p))
  {
    Acting(s, p);
    var t, pc := DoRewrap(s, p), PcOf(s, p);
    if UnwrapFrom(ROOT, pc.record, pc.w).Ok? {
      UnwrapIsTyped(s, pc.tenant, pc.record, pc.w);
      WrapIsTyped(s, pc.tenant, pc.record, UnwrapFrom(ROOT, pc.record, pc.w).value, s.nextId);
    }
    forall c | c in s.made ensures Typed(t, c) { TypedKept(s, t, c); }
  }

  lemma UnwrapKeepsHistory(s: State, p: Pid)
    requires Inv(s) && PcOf(s, p).Peeked?
    ensures HistoryOk(DoUnwrap(s, p))
  {
    Acting(s, p);
    var t, pc := DoUnwrap(s, p), PcOf(s, p);
    if UnwrapFrom(ROOT, pc.record, pc.w).Ok? {
      UnwrapIsTyped(s, pc.tenant, pc.record, pc.w);
    }
    forall c | c in s.made ensures Typed(t, c) { TypedKept(s, t, c); }
  }

  lemma StepKeepsHistory(s: State, a: Action)
    requires Inv(s) && Enabled(s, a)
    ensures HistoryOk(Do(s, a))
  {
    if a.Finish? {
      FinishKeepsHistory(s, a.p);
    } else if a.UnwrapDone? {
      UnwrapKeepsHistory(s, a.p);
    } else if a.Rewrap? {
      RewrapKeepsHistory(s, a.p);
    } else {
      var t := Do(s, a);
      OwnersGrow(s, a);
      forall c | c in s.made ensures Typed(t, c) { TypedKept(s, t, c); }
      if a.SealPayload? { assert IssuedOk(s, a.i); }
    }
  }

  lemma WrapNonce(rec: TenantKeyRecord, dek: Key, nonce: nat)
    ensures var w := WrapUnder(ROOT, rec, dek, nonce); w.Ok? ==> w.value.wrapped.Sealed? && w.value.wrapped.nonce == nonce
  {
  }

  /** The ciphertext was made in this step, under a nonce of this step. */
  ghost predicate MadeNow(s: State, t: State, c: Sealed) {
    && t.made == s.made + {c}
    && c.Sealed? && s.nextId <= c.nonce < t.nextId
  }

  /** A step makes at most one ciphertext. */
  lemma MadeGrowsByOne(s: State, a: Action)
    requires Inv(s) && Enabled(s, a)
    ensures Do(s, a).made == s.made || exists c :: MadeNow(s, Do(s, a), c)
    ensures s.nextId <= Do(s, a).nextId
  {
    hide Inv, WrapUnder, UnwrapFrom;
    var t := Do(s, a);
    if t.made != s.made {
      var c := match a
        case Get(_) => Sealed(ROOT, s.nextId + 1, KeyMaterial(s.nextId))
        case Prepare(_) => Sealed(ROOT, s.nextId + 1, KeyMaterial(s.nextId))
        case SealPayload(i, bytes) => Sealed(i.key, s.nextId, Payload(bytes))
        case Finish(p) => WrapUnder(ROOT, PcOf(s, p).record, s.nextId, s.nextId + 1).value.wrapped
        case Rewrap(p) => RewrapFrom(ROOT, PcOf(s, p).record, PcOf(s, p).w, s.nextId).value.wrapped
        case _ => Garbage([]);
      if a.Finish? { WrapNonce(PcOf(s, a.p).record, s.nextId, s.nextId + 1); }
      if a.Rewrap? { WrapNonce(PcOf(s, a.p).record, UnwrapFrom(ROOT, PcOf(s, a.p).record, PcOf(s, a.p).w).value, s.nextId); }
      assert MadeNow(s, t, c);
    }
  }

  lemma StepKeepsNonces(s: State, a: Action)
    requires Inv(s) && Enabled(s, a)
    ensures NoncesOk(Do(s, a))
  {
    MadeGrowsByOne(s, a);
    hide Do, Enabled;
  }

  lemma IssuedKept(s: State, a: Action, i: Issued)
    requires Inv(s) && Enabled(s, a) && IssuedOk(s, i)
    ensures IssuedOk(Do(s, a), i)
  {
    OwnersGrow(s, a);
    StepGrows(s, a);
  }

  lemma FinishIssues(s: State, p: Pid, i: Issued)
    requires Inv(s) && Enabled(s, Finish(p)) && i in DoFinish(s, p).issued && i !in s.issued
    ensures IssuedOk(DoFinish(s, p), i)
  {
    Acting(s, p);
    var pc := PcOf(s, p);
    WrapIsTyped(s, pc.op.tenant, pc.record, s.nextId, s.nextId + 1);
  }

  lemma RewrapIssues(s: State, p: Pid, i: Issued)
    requires Inv(s) && PcOf(s, p).Peeked? && i in DoRewrap(s, p).issued && i !in s.issued
    ensures IssuedOk(DoRewrap(s, p), i)
  {
    Acting(s, p);
    var pc := PcOf(s, p);
    UnwrapIsTyped(s, pc.tenant, pc.record, pc.w);
    WrapIsTyped(s, pc.tenant, pc.record, UnwrapFrom(ROOT, pc.record, pc.w).value, s.nextId);
  }

  lemma StepKeepsIssued(s: State, a: Action, i: Issued)
    requires Inv(s) && Enabled(s, a) && i in Do(s, a).issued
    ensures IssuedOk(Do(s, a), i)
  {
    if i in s.issued {
      IssuedKept(s, a, i);
    } else if a.Finish? {
      FinishIssues(s, a.p, i);
    } else if a.Rewrap? {
      RewrapIssues(s, a.p, i);
    }
  }

  /** What a process relies on survives growth; if it holds the lock, nobody has changed the file. */
  lemma PcOkKept(s: State, t: State, p: Pid)
    requires PcOk(s, p) && PcOf(t, p) == PcOf(s, p) && Grows(s, t)
    requires HoldsLock(PcOf(s, p)) ==> t.lock == s.lock && t.db == s.db && t.rotations == s.rotations
    ensures PcOk(t, p)
  {
    var pc := PcOf(s, p);
    if pc.Peeked? {
      RecordOkKept(s, t, pc.tenant, pc.record);
    } else if pc.Provisioning? || pc.ProvisionLoaded? || pc.Writing? || pc.WriteLoaded? {
      RecordOkKept(s, t, pc.op.tenant, pc.record);
    }
  }

  /** A process without the lock changes neither the file nor the lock while another holds it. */
  lemma OnlyHolderWrites(s: State, a: Action)
    requires Inv(s) && Enabled(s, a) && s.lock.Some?
    requires a.SealPayload? || !HoldsLock(PcOf(s, a.p))
    ensures var t := Do(s, a); t.lock == s.lock && t.db == s.db && t.rotations == s.rotations
  {
  }

  lemma OthersStay(s: State, a: Action, p: Pid)
    requires Enabled(s, a) && (a.SealPayload? || a.p != p)
    ensures PcOf(Do(s, a), p) == PcOf(s, p)
  {
  }

  lemma HolderIsAlone(s: State, p: Pid, p': Pid)
    requires Inv(s) && HoldsLock(PcOf(s, p)) && p != p'
    ensures s.lock.Some? && !HoldsLock(PcOf(s, p'))
  {
    Acting(s, p);
    Acting(s, p');
  }

  /** A process that does not act keeps what it relies on. */
  lemma OthersKept(s: State, a: Action, p: Pid)
    requires Inv(s) && Enabled(s, a) && (a.SealPayload? || a.p != p)
    ensures PcOk(Do(s, a), p)
  {
    Acting(s, p);
    hide Do, Grows, Inv, PcOk, PcOf, HoldsLock;
    StepGrows(s, a);
    OthersStay(s, a, p);
    if HoldsLock(PcOf(s, p)) {
      if !a.SealPayload? { HolderIsAlone(s, p, a.p); }
      assert s.lock.Some? by { HolderIsAlone(s, p, p + 1); }
      OnlyHolderWrites(s, a);
    }
    PcOkKept(s, Do(s, a), p);
  }

  lemma RecordIsFresh(s: State, tenant: string, rec: TenantKeyRecord)
    requires HistoryOk(s) && RecordOk(s, tenant, rec)
    ensures FreshKeys(ROOT, rec, s.nextId)
    ensures forall k :: k in Keys(rec) ==> Owned(s, k, TenantKeyOf(tenant))
  {
    forall k | k in Keys(rec) ensures Owned(s, k, TenantKeyOf(tenant)) {
      var v :| v in rec.versions && v.wrapped.Sealed? && v.wrapped.plain.KeyMaterial? && v.wrapped.plain.key == k;
      var i :| 0 <= i < |rec.versions| && rec.versions[i] == v;
    }
  }

  /** Rotate and destroy compute a record that continues the one in the file. */
  lemma PreparedIsOk(s: State, p: Pid)
    requires Inv(s) && Enabled(s, Prepare(p))
    ensures PcOk(DoPrepare(s, p), p)
  {
    Acting(s, p);
    var t, pc := DoPrepare(s, p), PcOf(s, p);
    assert RecordOk(s, pc.op.tenant, s.db[pc.op.tenant]);
    OwnersGrow(s, Prepare(p));
    RecordOkKept(s, t, pc.op.tenant, pc.record);
    if pc.op.Rotate? {
      RecordIsFresh(s, pc.op.tenant, pc.record);
      RotatedIsFresh(ROOT, pc.record, s.nextId);
      hide Keys;
    }
  }

  lemma ActorKept(s: State, a: Action)
    requires Inv(s) && Enabled(s, a) && !a.SealPayload?
    ensures PcOk(Do(s, a), a.p)
  {
    var t := Do(s, a);
    var pc := PcOf(s, a.p);
    Acting(s, a.p);
    OwnersGrow(s, a);
    if a.Prepare? {
      PreparedIsOk(s, a.p);
    } else if a.LoadAll? || a.Persist? {
      RecordOkKept(s, t, pc.op.tenant, pc.record);
    } else if a.Get? && pc.op.tenant in s.db {
      assert RecordOk(s, pc.op.tenant, s.db[pc.op.tenant]);
    } else if a.Peek? {
      assert RecordOk(s, a.tenant, s.db[a.tenant]);
    }
  }

  lemma StepKeepsInv(s: State, a: Action)
    requires Inv(s) && Enabled(s, a)
    ensures Inv(Do(s, a)) && Grows(s, Do(s, a))
  {
    var t := Do(s, a);
    StepKeepsDb(s, a);
    StepKeepsHistory(s, a);
    StepKeepsNonces(s, a);
    StepKeepsRotations(s, a);
    StepGrows(s, a);
    forall i | i in t.issued ensures IssuedOk(t, i) { StepKeepsIssued(s, a, i); }
    forall p ensures PcOk(t, p) {
      if a.SealPayload? || a.p != p { OthersKept(s, a, p); } else { ActorKept(s, a); }
    }
  }

  lemma {:induction false} RunKeepsInv(states: seq<State>, actions: seq<Action>, k: nat)
    requires Run(states, actions) && k < |states|
    ensures Inv(states[k])
  {
    if k > 0 {
      RunKeepsInv(states, actions, k - 1);
      StepKeepsInv(states[k - 1], actions[k - 1]);
    } else {
      forall p ensures PcOk(INITIAL, p) {}
    }
  }

  lemma {:induction false} RunGrows(states: seq<State>, actions: seq<Action>, i: nat, j: nat)
    requires Run(states, actions) && i <= j < |states|
    ensures Grows(states[i], states[j])
    decreases j
  {
    if i == j {
      GrowsReflexive(states[i]);
    } else {
      hide Grows, Inv, Do, Enabled;
      RunGrows(states, actions, i, j - 1);
      RunKeepsInv(states, actions, j - 1);
      StepKeepsInv(states[j - 1], actions[j - 1]);
      GrowsTransitive(states[i], states[j - 1], states[j]);
    }
  }

  lemma GrowsReflexive(s: State)
    ensures Grows(s, s)
  {
  }

  lemma GrowsTransitive(r: State, s: State, t: State)
    requires Grows(r, s) && Grows(s, t)
    ensures Grows(r, t)
  {
  }
}
