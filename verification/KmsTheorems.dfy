/** What the key hierarchy guarantees in every reachable state, before and after a crypto-shred. */
module KmsTheorems {
  import opened Seqs
  import opened KmsModel
  import opened KmsProtocol
  import opened KmsSafety

  /** Every live tenant has versions exactly 1..n with n >= 1; a shredded one has none. */
  lemma VersionsAreOneToN(states: seq<State>, actions: seq<Action>, k: nat, tenant: string)
    requires Run(states, actions) && k < |states| && tenant in states[k].db
    ensures var rec := states[k].db[tenant];
      && rec.tenant == tenant
      && (rec.destroyed <==> rec.versions == [])
      && forall i :: 0 <= i < |rec.versions| ==> rec.versions[i].version == i + 1
  {
    RunKeepsInv(states, actions, k);
    assert RecordOk(states[k], tenant, states[k].db[tenant]);
  }

  /** The `expect` on the current version never fires: generate always returns, rewrap whenever the unwrap opens. */
  lemma CurrentVersionExists(states: seq<State>, actions: seq<Action>, k: nat, p: Pid)
    requires Run(states, actions) && k < |states|
    ensures var s, pc := states[k], PcOf(states[k], p);
      && (pc.Ready? ==> MintDataKey(ROOT, pc.record, s.nextId).Ok?)
      && (pc.Peeked? ==> (RewrapFrom(ROOT, pc.record, pc.w, s.nextId).Ok? <==> UnwrapFrom(ROOT, pc.record, pc.w).Ok?))
  {
    RunKeepsInv(states, actions, k);
    var s, pc := states[k], PcOf(states[k], p);
    Acting(s, p);
    if pc.Ready? {
      WrapIsTyped(s, pc.op.tenant, pc.record, s.nextId, s.nextId + 1);
    }
    if pc.Peeked? && UnwrapFrom(ROOT, pc.record, pc.w).Ok? {
      WrapIsTyped(s, pc.tenant, pc.record, UnwrapFrom(ROOT, pc.record, pc.w).value, s.nextId);
    }
  }

  lemma IssuedOpens(s: State, i: Issued)
    requires DbOk(s) && IssuedOk(s, i)
    ensures Unwrap(ROOT, s.db, i.tenant, i.w) == if s.db[i.tenant].destroyed then Err(Destroyed) else Ok(i.key)
  {
    var rec := s.db[i.tenant];
    assert RecordOk(s, i.tenant, rec);
    TenantKeySelects(ROOT, rec, i.w.tenantKeyVersion);
  }

  /** Every wrapped key ever returned opens to its data key, through any rotations, exactly until its tenant is shredded. */
  lemma IssuedKeysKeepUnwrapping(states: seq<State>, actions: seq<Action>, i: nat, j: nat, issued: Issued)
    requires Run(states, actions) && i <= j < |states| && issued in states[i].issued
    ensures issued.tenant in states[j].db
    ensures Unwrap(ROOT, states[j].db, issued.tenant, issued.w) ==
      if states[j].db[issued.tenant].destroyed then Err(Destroyed) else Ok(issued.key)
  {
    RunGrows(states, actions, i, j);
    RunKeepsInv(states, actions, j);
    assert IssuedOk(states[j], issued);
    IssuedOpens(states[j], issued);
  }

  /** Whatever is presented, a data key comes out only for the tenant it was generated for. */
  lemma WrongTenantFailsClosed(states: seq<State>, actions: seq<Action>, k: nat, issued: Issued, tenant: string, n: nat)
    requires Run(states, actions) && k < |states| && issued in states[k].issued && tenant != issued.tenant
    ensures Unwrap(ROOT, states[k].db, tenant, WrappedDataKey(n, issued.w.wrapped)).Err?
  {
    RunKeepsInv(states, actions, k);
    var s := states[k];
    var w := WrappedDataKey(n, issued.w.wrapped);
    assert IssuedOk(s, issued);
    if Unwrap(ROOT, s.db, tenant, w).Ok? {
      assert RecordOk(s, tenant, s.db[tenant]);
      UnwrapIsTyped(s, tenant, s.db[tenant], w);
      assert OpenKey(issued.w.wrapped.key, w.wrapped) == Ok(issued.key);
    }
  }

  /** A rotation that returned stays: its version is never dropped or replaced while the tenant lives. */
  lemma RotationsAreNotLost(states: seq<State>, actions: seq<Action>, i: nat, j: nat, tenant: string, n: nat)
    requires Run(states, actions) && i <= j < |states| && (tenant, n) in states[i].rotations
    ensures tenant in states[i].db && tenant in states[j].db
    ensures !states[j].db[tenant].destroyed ==>
      && 1 <= n <= |states[i].db[tenant].versions| && n <= |states[j].db[tenant].versions|
      && states[j].db[tenant].versions[n - 1] == states[i].db[tenant].versions[n - 1]
  {
    RunGrows(states, actions, i, j);
    RunKeepsInv(states, actions, i);
  }

  /** Two rotations of one tenant never return the same version, however they interleave. */
  lemma RotationsAreDistinct(states: seq<State>, actions: seq<Action>, k: nat)
    requires Run(states, actions) && k < |actions| && actions[k].Finish?
    requires var pc := PcOf(states[k], actions[k].p); pc.Written? && pc.op.Rotate?
    ensures var pc := PcOf(states[k], actions[k].p);
      var result := (pc.op.tenant, |pc.record.versions|);
      result !in states[k].rotations && states[k + 1].rotations == states[k].rotations + {result}
  {
    RunKeepsInv(states, actions, k);
    var s, p := states[k], actions[k].p;
    Acting(s, p);
    var n := PcOf(s, p).op.tenant;
    assert RecordOk(s, n, s.db[n]);
  }

  /** In every reachable state different versions, of one tenant or of two, carry different keys. */
  lemma VersionKeysDiffer(states: seq<State>, actions: seq<Action>, k: nat, t: string, m: nat, u: string, n: nat)
    requires Run(states, actions) && k < |states| && t in states[k].db && u in states[k].db && (t != u || m != n)
    requires 1 <= m <= |states[k].db[t].versions| && 1 <= n <= |states[k].db[u].versions|
    ensures GoodRecord(ROOT, states[k].db[t]) && GoodRecord(ROOT, states[k].db[u])
    ensures KeyAt(ROOT, states[k].db[t], m) != KeyAt(ROOT, states[k].db[u], n)
  {
    RunKeepsInv(states, actions, k);
    var s := states[k];
    assert RecordOk(s, t, s.db[t]) && RecordOk(s, u, s.db[u]);
    if t == u {
      if m < n { assert KeyAt(ROOT, s.db[t], m) != KeyAt(ROOT, s.db[t], n); }
    } else {
      RecordIsFresh(s, t, s.db[t]);
      RecordIsFresh(s, u, s.db[u]);
      KeyAtIsKey(ROOT, s.db[t], m);
      KeyAtIsKey(ROOT, s.db[u], n);
    }
  }

  /** The key a rotation adds belonged to nobody before: it is made for the tenant in that step. */
  lemma RotationKeyIsNew(states: seq<State>, actions: seq<Action>, k: nat)
    requires Run(states, actions) && k < |actions| && actions[k].Prepare? && PcOf(states[k], actions[k].p).op.Rotate?
    ensures var before, after := PcOf(states[k], actions[k].p), PcOf(states[k + 1], actions[k].p);
      && after.Writing? && after.record.versions != []
      && var added := Last(after.record.versions).wrapped;
      && Init(after.record.versions) == before.record.versions
      && added.Sealed? && added.plain.KeyMaterial? && added !in states[k].made
      && added.plain.key !in states[k].owners
      && Owned(states[k + 1], added.plain.key, TenantKeyOf(before.op.tenant))
  {
    RunKeepsInv(states, actions, k);
    Acting(states[k], actions[k].p);
  }

  /** A wrapped key handed out opens under the key of the version it names, and under no other version's, of any tenant. */
  lemma OnlyItsVersionOpens(states: seq<State>, actions: seq<Action>, k: nat, issued: Issued, t: string, m: nat)
    requires Run(states, actions) && k < |states| && issued in states[k].issued && t in states[k].db
    requires 1 <= m <= |states[k].db[t].versions|
    requires issued.tenant in states[k].db && !states[k].db[issued.tenant].destroyed
    ensures GoodRecord(ROOT, states[k].db[t])
    ensures OpenKey(KeyAt(ROOT, states[k].db[t], m), issued.w.wrapped) ==
      if t == issued.tenant && m == issued.w.tenantKeyVersion then Ok(issued.key) else Err(DecryptionFailed)
  {
    RunKeepsInv(states, actions, k);
    var s := states[k];
    assert IssuedOk(s, issued) && RecordOk(s, t, s.db[t]) && RecordOk(s, issued.tenant, s.db[issued.tenant]);
    if t != issued.tenant || m != issued.w.tenantKeyVersion {
      VersionKeysDiffer(states, actions, k, t, m, issued.tenant, issued.w.tenantKeyVersion);
    }
  }

  /** No two ciphertexts ever made share a nonce. */
  lemma NoncesNeverRepeat(states: seq<State>, actions: seq<Action>, k: nat, c: Sealed, d: Sealed)
    requires Run(states, actions) && k < |states| && c in states[k].made && d in states[k].made && c != d
    ensures c.Sealed? && d.Sealed? && c.nonce != d.nonce
  {
    RunKeepsInv(states, actions, k);
    assert Typed(states[k], c) && Typed(states[k], d);
  }

  /** A step on behalf of one tenant leaves every other tenant's record as it was. */
  lemma OtherTenantsUntouched(states: seq<State>, actions: seq<Action>, k: nat, tenant: string)
    requires Run(states, actions) && k < |actions|
    requires tenant in states[k].db
    requires actions[k].Persist? ==> PcOf(states[k], actions[k].p).op.tenant != tenant
    ensures tenant in states[k + 1].db && states[k + 1].db[tenant] == states[k].db[tenant]
  {
    RunKeepsInv(states, actions, k);
    DbChange(states[k], actions[k]);
  }

  // ---- a process left alone computes the sequential operation ----

  /** The catalog and counter a process sees between operations. */
  function Sequential(s: State): Kms { Kms(ROOT, s.db, s.nextId) }

  lemma SequentialIsGood(s: State)
    requires Inv(s)
    ensures GoodKms(Sequential(s))
  {
    forall t | t in s.db ensures RecordOk(s, t, s.db[t]) && FreshKeys(ROOT, s.db[t], s.nextId) {
      assert RecordOk(s, t, s.db[t]);
      RecordIsFresh(s, t, s.db[t]);
    }
    forall t, u | t in s.db && u in s.db && t != u ensures Keys(s.db[t]) !! Keys(s.db[u]) {
      RecordIsFresh(s, t, s.db[t]);
      RecordIsFresh(s, u, s.db[u]);
    }
  }

  /** The process takes the lock, reads, and provisions if it must. */
  function SoloRecord(s: State, p: Pid, op: Op): State
    requires s.lock.None? && PcOf(s, p).Idle?
  {
    var got := Do(Do(s, Acquire(p, op)), Get(p));
    if PcOf(got, p).Provisioning? then Do(Do(got, LoadAll(p)), Persist(p)) else got
  }

  lemma SoloRecordIsSequential(s: State, p: Pid, op: Op)
    requires Inv(s) && s.lock.None? && PcOf(s, p).Idle? && !op.Destroy?
    ensures var s' := SoloRecord(s, p, op);
      var (r, k) := RecordOrProvision(Sequential(s), op.tenant);
      && Sequential(s') == k && s'.issued == s.issued && s'.rotations == s.rotations
      && (r.Ok? ==> PcOf(s', p) == Ready(op, r.value))
      && (r.Err? ==> PcOf(s', p) == Idle && s'.lock.None?)
  {
    if op.tenant in s.db { assert RecordOk(s, op.tenant, s.db[op.tenant]); }
  }

  /** Lock, read, provision, mint, release, with nobody in between: exactly the sequential generate. */
  lemma SoloGenerateIsSequential(s: State, p: Pid, tenant: string)
    requires Inv(s) && s.lock.None? && PcOf(s, p).Idle?
    ensures var s' := SoloRecord(s, p, Generate(tenant));
      var (r, k) := GenerateDataKey(Sequential(s), tenant);
      if r.Ok? then
        && Enabled(s', Finish(p)) && Sequential(DoFinish(s', p)) == k
        && DoFinish(s', p).issued == s.issued + {Issued(tenant, r.value.wrapped, r.value.plaintext)}
      else
        Sequential(s') == k && s'.issued == s.issued && s'.lock.None?
  {
    hide SoloRecord;
    SoloRecordIsSequential(s, p, Generate(tenant));
    if tenant in s.db { assert RecordOk(s, tenant, s.db[tenant]); }
    SequentialIsGood(s);
    GeneratedKeyOpens(Sequential(s), tenant);
  }

  /** The same for rotate. */
  lemma SoloRotateIsSequential(s: State, p: Pid, tenant: string)
    requires Inv(s) && s.lock.None? && PcOf(s, p).Idle?
    ensures var s' := SoloRecord(s, p, Rotate(tenant));
      var (r, k) := RotateTenantKey(Sequential(s), tenant);
      if r.Ok? then
        && Enabled(s', Prepare(p))
        && var w := Do(Do(DoPrepare(s', p), LoadAll(p)), Persist(p));
          && Sequential(w) == k && DoFinish(w, p).db == k.db
          && DoFinish(w, p).rotations == s.rotations + {(tenant, r.value)}
      else
        Sequential(s') == k && s'.rotations == s.rotations && s'.lock.None?
  {
    hide SoloRecord;
    SoloRecordIsSequential(s, p, Rotate(tenant));
    if tenant in s.db { assert RecordOk(s, tenant, s.db[tenant]); }
  }

  /** Unwrap is the sequential one on what it reads, and changes neither keys nor records. */
  lemma SoloUnwrapIsSequential(s: State, p: Pid, tenant: string, w: WrappedDataKey)
    requires Inv(s) && PcOf(s, p).Idle? && Presentable(s, w)
    ensures Unwrap(ROOT, s.db, tenant, w).Ok? ==> Enabled(s, Peek(p, tenant, w))
    ensures Enabled(s, Peek(p, tenant, w)) ==>
      var t := DoUnwrap(Do(s, Peek(p, tenant, w)), p);
      && Sequential(t) == Sequential(s) && PcOf(t, p).Idle?
      && t.unwrapped == match Unwrap(ROOT, s.db, tenant, w)
        case Ok(key) => s.unwrapped + {Issued(tenant, w, key)}
        case Err(_) => s.unwrapped
  {
  }

  /** And so is rewrap; what it returns is handed out for the same data key. */
  lemma SoloRewrapIsSequential(s: State, p: Pid, tenant: string, w: WrappedDataKey)
    requires Inv(s) && PcOf(s, p).Idle? && Presentable(s, w)
    ensures var (r, k) := RewrapDataKey(Sequential(s), tenant, w);
      && (r.Ok? ==> Enabled(s, Peek(p, tenant, w)) && Unwrap(ROOT, s.db, tenant, w).Ok?)
      && (Enabled(s, Peek(p, tenant, w)) ==>
          var t := DoRewrap(Do(s, Peek(p, tenant, w)), p);
          && PcOf(t, p).Idle? && Sequential(t) == (if r.Ok? then k else Sequential(s))
          && t.issued == if r.Ok? then s.issued + {Issued(tenant, r.value, Unwrap(ROOT, s.db, tenant, w).value)} else s.issued)
  {
  }

  /** And for destroy: alone it shreds exactly the records the sequential destroy does, and fails where it fails. */
  lemma SoloDestroyIsSequential(s: State, p: Pid, tenant: string)
    requires Inv(s) && s.lock.None? && PcOf(s, p).Idle?
    ensures var got := Do(Do(s, Acquire(p, Destroy(tenant))), Get(p));
      var (r, k) := DestroyTenantKey(Sequential(s), tenant);
      if r.Ok? then
        && Enabled(got, Prepare(p))
        && var w := Do(Do(DoPrepare(got, p), LoadAll(p)), Persist(p));
          && Sequential(w) == k && Enabled(w, Finish(p)) && DoFinish(w, p).db == k.db && DoFinish(w, p).lock.None?
          && tenant in k.db && k.db[tenant].destroyed && k.db[tenant].versions == []
          && forall t :: t in s.db && t != tenant ==> t in k.db && k.db[t] == s.db[t]
      else
        Sequential(got) == k && got.lock.None? && PcOf(got, p).Idle? && (tenant !in s.db || s.db[tenant].destroyed)
  {
    if tenant in s.db { assert RecordOk(s, tenant, s.db[tenant]); }
  }

  // ---- crypto-shred ----

  ghost predicate IsShredded(s: State, tenant: string) {
    tenant in s.db && s.db[tenant].destroyed
  }

  /** The key belongs to the tenant: one of its tenant keys or one of its data keys. */
  predicate KeyOf(s: State, tenant: string, k: Key) {
    Owned(s, k, TenantKeyOf(tenant)) || Owned(s, k, DataKeyOf(tenant))
  }

  lemma ShredStopsMinting(s: State, a: Action, tenant: string, k: Key)
    requires Inv(s) && Enabled(s, a) && IsShredded(s, tenant)
    requires KeyOf(Do(s, a), tenant, k)
    ensures KeyOf(s, tenant, k)
  {
    if !a.SealPayload? { Acting(s, a.p); }
  }

  /** After a shred the record never changes again and nothing presented for the tenant ever opens. */
  lemma ShredIsAbsorbing(states: seq<State>, actions: seq<Action>, i: nat, j: nat, tenant: string, w: WrappedDataKey)
    requires Run(states, actions) && i <= j < |states| && IsShredded(states[i], tenant)
    ensures IsShredded(states[j], tenant) && states[j].db[tenant] == states[i].db[tenant]
    ensures Unwrap(ROOT, states[j].db, tenant, w) == Err(Destroyed)
  {
    RunGrows(states, actions, i, j);
  }

  lemma RunStep(states: seq<State>, actions: seq<Action>, k: nat)
    requires Run(states, actions) && k + 1 < |states|
    ensures k < |actions| && Enabled(states[k], actions[k]) && states[k + 1] == Do(states[k], actions[k])
  {
  }

  /** After a shred no tenant key and no data key is ever made for the tenant again. */
  lemma {:induction false} ShredEndsKeyGeneration(states: seq<State>, actions: seq<Action>, i: nat, j: nat, tenant: string, k: Key)
    requires Run(states, actions) && i <= j < |states| && IsShredded(states[i], tenant)
    ensures KeyOf(states[j], tenant, k) ==> KeyOf(states[i], tenant, k)
    decreases j
  {
    hide *;
    if i < j && KeyOf(states[j], tenant, k) {
      ShredIsAbsorbing(states, actions, i, j - 1, tenant, WrappedDataKey(0, Garbage([])));
      RunStep(states, actions, j - 1);
      RunKeepsInv(states, actions, j - 1);
      ShredStopsMinting(states[j - 1], actions[j - 1], tenant, k);
      ShredEndsKeyGeneration(states, actions, i, j - 1, tenant, k);
    }
  }

  /** Generate, rotate and destroy on a shredded tenant give up at their first read, and a rewrap cannot start. */
  lemma ShreddedOperationsFail(states: seq<State>, actions: seq<Action>, k: nat, tenant: string)
    requires Run(states, actions) && k < |actions| && IsShredded(states[k], tenant)
    ensures var s, a := states[k], actions[k];
      && (a.Get? && PcOf(s, a.p).op.tenant == tenant ==> states[k + 1] == Release(s, a.p))
      && (a.Peek? ==> a.tenant != tenant)
      && (a.Finish? && PcOf(s, a.p).op.tenant == tenant ==> states[k + 1] == Release(s, a.p) || PcOf(s, a.p).op.Rotate?)
      && (a.Finish? ==> PcOf(s, a.p).op.tenant == tenant ==> states[k + 1].issued == s.issued)
  {
    RunKeepsInv(states, actions, k);
    if actions[k].Finish? { Acting(states[k], actions[k].p); }
  }

  // ---- reads in flight at the shred: unwrap and rewrap read once and take no lock ----

  /** Whoever is still at work on a shredded tenant's record read it before the shred, and read nothing since. */
  lemma {:induction false} ReadersInFlightReadBefore(states: seq<State>, actions: seq<Action>, i: nat, j: nat, p: Pid)
    requires Run(states, actions) && i <= j < |states|
    requires PcOf(states[j], p).Peeked? && IsShredded(states[i], PcOf(states[j], p).tenant)
    ensures PcOf(states[i], p) == PcOf(states[j], p)
    decreases j
  {
    hide *;
    if i < j {
      var tenant := PcOf(states[j], p).tenant;
      ShredIsAbsorbing(states, actions, i, j - 1, tenant, WrappedDataKey(0, Garbage([])));
      RunStep(states, actions, j - 1);
      PeekedStays(states[j - 1], actions[j - 1], p);
      ReadersInFlightReadBefore(states, actions, i, j - 1, p);
    }
  }

  lemma PeekedStays(s: State, a: Action, p: Pid)
    requires Enabled(s, a) && PcOf(Do(s, a), p).Peeked? && IsShredded(s, PcOf(Do(s, a), p).tenant)
    ensures PcOf(s, p) == PcOf(Do(s, a), p)
  {
  }

  /** An unwrap returns a plaintext data key if and only if the presented key opens under the record it read, shredded since or not. */
  lemma UnwrapReturnsIff(states: seq<State>, actions: seq<Action>, k: nat)
    requires Run(states, actions) && k < |actions| && actions[k].UnwrapDone?
    ensures var s, pc := states[k], PcOf(states[k], actions[k].p);
      var dek := UnwrapFrom(ROOT, pc.record, pc.w);
      states[k + 1].unwrapped == s.unwrapped + if dek.Ok? then {Issued(pc.tenant, pc.w, dek.value)} else {}
  {
  }

  /** Every wrapped key returned so far opens under the record an unwrap reads while the tenant lives. */
  lemma ReadBeforeShredOpens(states: seq<State>, actions: seq<Action>, i: nat, issued: Issued)
    requires Run(states, actions) && i < |states| && issued in states[i].issued
    requires ActiveRecord(states[i].db, issued.tenant).Ok?
    ensures UnwrapFrom(ROOT, states[i].db[issued.tenant], issued.w) == Ok(issued.key)
  {
    RunKeepsInv(states, actions, i);
    assert IssuedOk(states[i], issued);
    IssuedOpens(states[i], issued);
  }

  /** Whatever unwraps and rewraps in flight still return after a shred, it is a data key made for the tenant before it. */
  lemma OnlyOldKeysComeOut(states: seq<State>, actions: seq<Action>, i: nat, j: nat, o: Issued)
    requires Run(states, actions) && i <= j < |states| && IsShredded(states[i], o.tenant)
    requires o in states[j].unwrapped || o in states[j].issued
    ensures Owned(states[i], o.key, DataKeyOf(o.tenant))
  {
    RunKeepsInv(states, actions, j);
    assert o in states[j].issued ==> IssuedOk(states[j], o);
    ShredEndsKeyGeneration(states, actions, i, j, o.tenant, o.key);
    RunGrows(states, actions, i, j);
  }

  /**
   * A rewrap that read its record before the shred still returns, if and only if the presented key opened
   * under what it read.
   */
  lemma LateRewrapReturnsIff(states: seq<State>, actions: seq<Action>, k: nat)
    requires Run(states, actions) && k < |actions| && actions[k].Rewrap?
    ensures var s, pc := states[k], PcOf(states[k], actions[k].p);
      var dek, w := UnwrapFrom(ROOT, pc.record, pc.w), RewrapFrom(ROOT, pc.record, pc.w, s.nextId);
      && (dek.Ok? <==> w.Ok?)
      && states[k + 1].issued == s.issued + if dek.Ok? then {Issued(pc.tenant, w.value, dek.value)} else {}
  {
    CurrentVersionExists(states, actions, k, actions[k].p);
    RunKeepsInv(states, actions, k);
  }

  /** Such a rewrap is all that still issues a wrapped key of a shredded tenant, and no unwrap that reads from then on opens it. */
  lemma LateRewrapIsUseless(states: seq<State>, actions: seq<Action>, k: nat, j: nat, issued: Issued)
    requires Run(states, actions) && k < |actions| && k < j < |states| && IsShredded(states[k], issued.tenant)
    requires issued in states[k + 1].issued && issued !in states[k].issued
    ensures actions[k].Rewrap?
    ensures Owned(states[k], issued.key, DataKeyOf(issued.tenant))
    ensures Unwrap(ROOT, states[j].db, issued.tenant, issued.w) == Err(Destroyed)
  {
    RunKeepsInv(states, actions, k);
    if !actions[k].SealPayload? { Acting(states[k], actions[k].p); }
    OnlyOldKeysComeOut(states, actions, k, k + 1, issued);
    ShredIsAbsorbing(states, actions, k, j, issued.tenant, issued.w);
  }

  // ---- what can be derived from the root key and everything persisted ----

  /** The ciphertexts in the store right now. */
  function StoreCiphers(db: Db): set<Sealed> {
    set t, v | t in db && v in db[t].versions :: v.wrapped
  }

  /** All an onlooker can hold: the current store, every wrapped key ever returned, every payload ever sealed. */
  function Holdings(s: State): set<Sealed> {
    StoreCiphers(s.db) + (set i | i in s.issued :: i.w.wrapped) + s.payloads
  }

  /** The keys obtained from `keys` by opening ciphertexts, n rounds deep. */
  function Derived(keys: set<Key>, ciphers: set<Sealed>, n: nat): set<Key> {
    if n == 0 then keys
    else
      var d := Derived(keys, ciphers, n - 1);
      d + set c | c in ciphers && c.Sealed? && c.key in d && c.plain.KeyMaterial? :: c.plain.key
  }

  lemma HoldingsAreTyped(s: State, c: Sealed)
    requires Inv(s) && c in Holdings(s)
    ensures Typed(s, c)
    ensures forall tenant :: IsShredded(s, tenant) && s.owners[c.key] == Root ==> !Owned(s, c.plain.key, TenantKeyOf(tenant))
  {
    if c in StoreCiphers(s.db) {
      var t, v :| t in s.db && v in s.db[t].versions && v.wrapped == c;
      assert RecordOk(s, t, s.db[t]);
    } else if c in s.payloads {
    } else {
      var i :| i in s.issued && i.w.wrapped == c;
      assert IssuedOk(s, i);
      assert Typed(s, c);
      assert s.owners[c.plain.key].DataKeyOf?;
    }
  }

  /** Even with data keys leaked, a derivation of any depth reaches no other key of a shredded tenant. */
  lemma {:induction false} LeakedKeysRevealNoOthers(s: State, tenant: string, leaked: set<Key>, n: nat)
    requires Inv(s) && IsShredded(s, tenant)
    requires forall k :: k in leaked ==> k in s.owners && s.owners[k].DataKeyOf?
    ensures forall k :: k in Derived({ROOT} + leaked, Holdings(s), n) ==> k in s.owners && (KeyOf(s, tenant, k) ==> k in leaked)
  {
    if n > 0 {
      LeakedKeysRevealNoOthers(s, tenant, leaked, n - 1);
      var d := Derived({ROOT} + leaked, Holdings(s), n - 1);
      forall k | k in Derived({ROOT} + leaked, Holdings(s), n) ensures k in s.owners && (KeyOf(s, tenant, k) ==> k in leaked) {
        if k !in d {
          var c :| c in Holdings(s) && c.Sealed? && c.key in d && c.plain.KeyMaterial? && c.plain.key == k;
          OpensOtherTenantsOnly(s, tenant, c);
        }
      }
    }
  }

  /** What a ciphertext in hand reveals once opened: never a shredded tenant's key, unless its own tenant key opened it. */
  lemma OpensOtherTenantsOnly(s: State, tenant: string, c: Sealed)
    requires Inv(s) && IsShredded(s, tenant) && c in Holdings(s) && c.Sealed? && c.plain.KeyMaterial?
    requires c.key in s.owners && !Owned(s, c.key, TenantKeyOf(tenant))
    ensures c.plain.key in s.owners && !KeyOf(s, tenant, c.plain.key)
  {
    HoldingsAreTyped(s, c);
  }

  /** From the root key no derivation of any depth reaches a key of a shredded tenant. */
  lemma ShreddedKeysAreUnderivable(s: State, tenant: string, n: nat)
    requires Inv(s) && IsShredded(s, tenant)
    ensures forall k :: k in Derived({ROOT}, Holdings(s), n) ==> k in s.owners && !KeyOf(s, tenant, k)
  {
    hide *;
    LeakedKeysRevealNoOthers(s, tenant, {}, n);
    assert {ROOT} + {} == {ROOT};
  }

  /** A payload sealed with a data key in hand is persisted, and that key opens it again. */
  lemma SealedPayloadOpens(s: State, issued: Issued, bytes: Bytes) returns (c: Sealed)
    requires Inv(s) && issued in s.issued
    ensures var t := Do(s, SealPayload(issued, bytes));
      && t.payloads == s.payloads + {c} && c !in s.made && c in t.made
      && Open(issued.key, c) == Ok(Payload(bytes))
      && KeyOf(t, issued.tenant, issued.key)
  {
    c := Sealed(issued.key, s.nextId, Payload(bytes));
    assert IssuedOk(s, issued);
  }

  /** So no payload sealed for the tenant can be opened from the root key and everything persisted. */
  lemma ShreddedPayloadsStaySealed(states: seq<State>, actions: seq<Action>, k: nat, tenant: string, c: Sealed, n: nat)
    requires Run(states, actions) && k < |states| && IsShredded(states[k], tenant)
    requires c in states[k].payloads && c.Sealed? && KeyOf(states[k], tenant, c.key)
    ensures c.key !in Derived({ROOT}, Holdings(states[k]), n)
  {
    RunKeepsInv(states, actions, k);
    ShreddedKeysAreUnderivable(states[k], tenant, n);
  }

  /** The closure is not blind: while a tenant lives, two openings from the root key reach every data key issued for it. */
  lemma LiveKeysAreDerivable(states: seq<State>, actions: seq<Action>, k: nat, issued: Issued)
    requires Run(states, actions) && k < |states| && issued in states[k].issued
    requires !IsShredded(states[k], issued.tenant)
    ensures issued.key in Derived({ROOT}, Holdings(states[k]), 2)
  {
    RunKeepsInv(states, actions, k);
    var s := states[k];
    assert IssuedOk(s, issued);
    var rec := s.db[issued.tenant];
    assert RecordOk(s, issued.tenant, rec);
    var v := rec.versions[issued.w.tenantKeyVersion - 1];
    assert v in rec.versions;
    assert v.wrapped in StoreCiphers(s.db);
    assert v.wrapped in Holdings(s) && v.wrapped.key in Derived({ROOT}, Holdings(s), 0);
    assert issued.w.wrapped.key in Derived({ROOT}, Holdings(s), 1);
    assert issued.w.wrapped in Holdings(s);
  }
}
