/** The key hierarchy: symbolic sealing, tenant key records, and what each operation computes. */
module KmsModel {
  import opened Seqs

  /** A key is its identity: generating one always yields a new identity. */
  type Key = nat

  datatype Plain = KeyMaterial(key: Key) | Payload(bytes: Bytes)

  /** An AEAD ciphertext opens only under the key that sealed it; anything else is garbage. */
  datatype Sealed = Sealed(key: Key, nonce: nat, plain: Plain) | Garbage(bytes: Bytes)

  datatype KmsError = Destroyed | NoKeyMaterial | NoSuchVersion | DecryptionFailed | NotAKey | Panic

  function Open(key: Key, s: Sealed): Result<Plain, KmsError> {
    if s.Sealed? && s.key == key then Ok(s.plain) else Err(DecryptionFailed)
  }

  function OpenKey(key: Key, s: Sealed): Result<Key, KmsError> {
    match Open(key, s)
    case Err(e) => Err(e)
    case Ok(Payload(_)) => Err(NotAKey)
    case Ok(KeyMaterial(k)) => Ok(k)
  }

  datatype TenantKeyVersion = TenantKeyVersion(version: nat, wrapped: Sealed)

  datatype TenantKeyRecord = TenantKeyRecord(tenant: string, versions: seq<TenantKeyVersion>, destroyed: bool)
  {
    function CurrentVersion(): Option<TenantKeyVersion> {
      if versions == [] then None else Some(Last(versions))
    }

    /** The first entry carrying the number. */
    function Version(n: nat): Option<TenantKeyVersion> {
      FindVersion(versions, n)
    }
  }

  function FindVersion(versions: seq<TenantKeyVersion>, n: nat): Option<TenantKeyVersion> {
    if versions == [] then None
    else if versions[0].version == n then Some(versions[0])
    else FindVersion(versions[1..], n)
  }

  datatype WrappedDataKey = WrappedDataKey(tenantKeyVersion: nat, wrapped: Sealed)

  datatype DataKey = DataKey(plaintext: Key, wrapped: WrappedDataKey)

  type Db = map<string, TenantKeyRecord>

  // ---- reading ----

  function ActiveRecord(db: Db, tenant: string): Result<TenantKeyRecord, KmsError> {
    if tenant !in db then Err(NoKeyMaterial)
    else if db[tenant].destroyed then Err(Destroyed)
    else Ok(db[tenant])
  }

  function TenantKey(root: Key, rec: TenantKeyRecord, n: nat): Result<Key, KmsError> {
    match rec.Version(n)
    case None => Err(NoSuchVersion)
    case Some(v) => OpenKey(root, v.wrapped)
  }

  function UnwrapFrom(root: Key, rec: TenantKeyRecord, w: WrappedDataKey): Result<Key, KmsError> {
    match TenantKey(root, rec, w.tenantKeyVersion)
    case Err(e) => Err(e)
    case Ok(tk) => OpenKey(tk, w.wrapped)
  }

  function Unwrap(root: Key, db: Db, tenant: string, w: WrappedDataKey): Result<Key, KmsError> {
    match ActiveRecord(db, tenant)
    case Err(e) => Err(e)
    case Ok(rec) => UnwrapFrom(root, rec, w)
  }

  // ---- building; `nextId` is the next unused identity, for keys and for nonces ----

  function FirstVersion(root: Key, tenant: string, nextId: nat): TenantKeyRecord {
    TenantKeyRecord(tenant, [TenantKeyVersion(1, Sealed(root, nextId + 1, KeyMaterial(nextId)))], false)
  }

  function NextVersion(rec: TenantKeyRecord): nat {
    if rec.versions == [] then 1 else Last(rec.versions).version + 1
  }

  function Rotated(root: Key, rec: TenantKeyRecord, nextId: nat): TenantKeyRecord {
    rec.(versions := rec.versions + [TenantKeyVersion(NextVersion(rec), Sealed(root, nextId + 1, KeyMaterial(nextId)))])
  }

  function Shredded(rec: TenantKeyRecord): TenantKeyRecord {
    rec.(versions := [], destroyed := true)
  }

  /** Wrap a data key under the current version of the record. An empty live record would panic. */
  function WrapUnder(root: Key, rec: TenantKeyRecord, dek: Key, nonce: nat): Result<WrappedDataKey, KmsError> {
    match rec.CurrentVersion()
    case None => Err(Panic)
    case Some(v) =>
      match TenantKey(root, rec, v.version)
      case Err(e) => Err(e)
      case Ok(tk) => Ok(WrappedDataKey(v.version, Sealed(tk, nonce, KeyMaterial(dek))))
  }

  function MintDataKey(root: Key, rec: TenantKeyRecord, nextId: nat): Result<DataKey, KmsError> {
    match WrapUnder(root, rec, nextId, nextId + 1)
    case Err(e) => Err(e)
    case Ok(w) => Ok(DataKey(nextId, w))
  }

  function RewrapFrom(root: Key, rec: TenantKeyRecord, w: WrappedDataKey, nextId: nat): Result<WrappedDataKey, KmsError> {
    match UnwrapFrom(root, rec, w)
    case Err(e) => Err(e)
    case Ok(dek) => WrapUnder(root, rec, dek, nextId)
  }

  // ---- records that the operations keep ----

  /** Versions numbered 1..n, each a key sealed by the root; a shredded record holds none, a live one at least one. */
  predicate GoodRecord(root: Key, rec: TenantKeyRecord) {
    && (rec.destroyed <==> rec.versions == [])
    && forall i :: 0 <= i < |rec.versions| ==>
        && rec.versions[i].version == i + 1
        && rec.versions[i].wrapped.Sealed? && rec.versions[i].wrapped.key == root && rec.versions[i].wrapped.plain.KeyMaterial?
  }

  function KeyAt(root: Key, rec: TenantKeyRecord, n: nat): Key
    requires GoodRecord(root, rec) && 1 <= n <= |rec.versions|
  {
    rec.versions[n - 1].wrapped.plain.key
  }

  lemma {:induction false} FindAt(versions: seq<TenantKeyVersion>, from: nat, n: nat)
    requires forall i :: 0 <= i < |versions| ==> versions[i].version == from + i
    ensures from <= n < from + |versions| ==> FindVersion(versions, n) == Some(versions[n - from])
    ensures n < from || n >= from + |versions| ==> FindVersion(versions, n) == None
  {
    if versions != [] {
      FindAt(versions[1..], from + 1, n);
    }
  }

  /** In a good record the version number selects its own key, and no other number selects any. */
  lemma TenantKeySelects(root: Key, rec: TenantKeyRecord, n: nat)
    requires GoodRecord(root, rec)
    ensures 1 <= n <= |rec.versions| ==> TenantKey(root, rec, n) == Ok(KeyAt(root, rec, n))
    ensures n == 0 || n > |rec.versions| ==> TenantKey(root, rec, n) == Err(NoSuchVersion)
  {
    FindAt(rec.versions, 1, n);
  }

  lemma WrapUnderGood(root: Key, rec: TenantKeyRecord, dek: Key, nonce: nat)
    requires GoodRecord(root, rec) && !rec.destroyed
    ensures WrapUnder(root, rec, dek, nonce)
         == Ok(WrappedDataKey(|rec.versions|, Sealed(KeyAt(root, rec, |rec.versions|), nonce, KeyMaterial(dek))))
  {
    TenantKeySelects(root, rec, |rec.versions|);
  }

  /** No two versions carry the same key, and all keys were generated before the next identity. */
  ghost predicate FreshKeys(root: Key, rec: TenantKeyRecord, nextId: nat)
    requires GoodRecord(root, rec)
  {
    && (forall i, j :: 1 <= i < j <= |rec.versions| ==> KeyAt(root, rec, i) != KeyAt(root, rec, j))
    && (forall k :: k in Keys(rec) ==> k < nextId)
  }

  /** The tenant keys a record carries. */
  function Keys(rec: TenantKeyRecord): set<Key> {
    set v | v in rec.versions && v.wrapped.Sealed? && v.wrapped.plain.KeyMaterial? :: v.wrapped.plain.key
  }

  lemma KeyAtIsKey(root: Key, rec: TenantKeyRecord, n: nat)
    requires GoodRecord(root, rec) && 1 <= n <= |rec.versions|
    ensures KeyAt(root, rec, n) in Keys(rec)
  {
    assert rec.versions[n - 1] in rec.versions;
  }

  lemma RotatedGood(root: Key, rec: TenantKeyRecord, nextId: nat)
    requires GoodRecord(root, rec) && !rec.destroyed
    ensures GoodRecord(root, Rotated(root, rec, nextId))
    ensures NextVersion(rec) == |rec.versions| + 1
  {
  }

  /** Rotating adds a version with a key none before it had, and keeps the versions before it. */
  lemma RotatedIsFresh(root: Key, rec: TenantKeyRecord, nextId: nat)
    requires GoodRecord(root, rec) && !rec.destroyed && FreshKeys(root, rec, nextId)
    ensures var t := Rotated(root, rec, nextId);
      && GoodRecord(root, t) && FreshKeys(root, t, nextId + 2)
      && |t.versions| == |rec.versions| + 1 && t.versions[..|rec.versions|] == rec.versions
      && KeyAt(root, t, |t.versions|) !in Keys(rec) && KeyAt(root, t, |t.versions|) >= nextId
      && (forall k :: k in Keys(t) ==> k in Keys(rec) || k == KeyAt(root, t, |t.versions|))
  {
    RotatedGood(root, rec, nextId);
    var t := Rotated(root, rec, nextId);
    forall i | 1 <= i <= |rec.versions| ensures KeyAt(root, t, i) == KeyAt(root, rec, i) < nextId {
      KeyAtIsKey(root, rec, i);
    }
    forall k | k in Keys(t) ensures k in Keys(rec) || k == nextId {
      var v :| v in t.versions && v.wrapped.Sealed? && v.wrapped.plain.KeyMaterial? && v.wrapped.plain.key == k;
      assert v in rec.versions || v == Last(t.versions);
    }
  }

  // ---- the operations of one process, run without interruption ----

  /** The root key, the catalog and the next unused identity. */
  datatype Kms = Kms(root: Key, db: Db, nextId: nat)

  function Provision(s: Kms, tenant: string): (TenantKeyRecord, Kms) {
    var rec := FirstVersion(s.root, tenant, s.nextId);
    (rec, s.(db := s.db[tenant := rec], nextId := s.nextId + 2))
  }

  function RecordOrProvision(s: Kms, tenant: string): (Result<TenantKeyRecord, KmsError>, Kms) {
    if tenant !in s.db then
      var (rec, s') := Provision(s, tenant);
      (Ok(rec), s')
    else if s.db[tenant].destroyed then (Err(Destroyed), s)
    else (Ok(s.db[tenant]), s)
  }

  function GenerateDataKey(s: Kms, tenant: string): (Result<DataKey, KmsError>, Kms) {
    var (r, s') := RecordOrProvision(s, tenant);
    match r
    case Err(e) => (Err(e), s')
    case Ok(rec) => (MintDataKey(s'.root, rec, s'.nextId), s'.(nextId := s'.nextId + 2))
  }

  function RotateTenantKey(s: Kms, tenant: string): (Result<nat, KmsError>, Kms) {
    var (r, s') := RecordOrProvision(s, tenant);
    match r
    case Err(e) => (Err(e), s')
    case Ok(rec) =>
      (Ok(NextVersion(rec)), s'.(db := s'.db[rec.tenant := Rotated(s'.root, rec, s'.nextId)], nextId := s'.nextId + 2))
  }

  function DestroyTenantKey(s: Kms, tenant: string): (Result<(), KmsError>, Kms) {
    match ActiveRecord(s.db, tenant)
    case Err(e) => (Err(e), s)
    case Ok(rec) => (Ok(()), s.(db := s.db[rec.tenant := Shredded(rec)]))
  }

  function RewrapDataKey(s: Kms, tenant: string, w: WrappedDataKey): (Result<WrappedDataKey, KmsError>, Kms) {
    match ActiveRecord(s.db, tenant)
    case Err(e) => (Err(e), s)
    case Ok(rec) => (RewrapFrom(s.root, rec, w, s.nextId), s.(nextId := s.nextId + 1))
  }

  /** Good records, whose keys are all different, within a tenant and across tenants. */
  ghost predicate GoodKms(s: Kms) {
    && s.root < s.nextId
    && (forall t :: t in s.db ==> s.db[t].tenant == t && GoodRecord(s.root, s.db[t]) && FreshKeys(s.root, s.db[t], s.nextId))
    && (forall t, u :: t in s.db && u in s.db && t != u ==> Keys(s.db[t]) !! Keys(s.db[u]))
  }

  lemma PutKeepsGood(s: Kms, rec: TenantKeyRecord, n: nat)
    requires GoodKms(s) && s.nextId <= n && GoodRecord(s.root, rec) && FreshKeys(s.root, rec, n)
    requires forall k :: k in Keys(rec) ==> k >= s.nextId || (rec.tenant in s.db && k in Keys(s.db[rec.tenant]))
    ensures GoodKms(s.(db := s.db[rec.tenant := rec], nextId := n))
  {
    hide GoodRecord, Keys;
  }

  lemma FirstIsFresh(root: Key, tenant: string, nextId: nat)
    ensures var rec := FirstVersion(root, tenant, nextId);
      && GoodRecord(root, rec) && FreshKeys(root, rec, nextId + 2) && Keys(rec) == {nextId}
  {
    var rec := FirstVersion(root, tenant, nextId);
    assert rec.versions[0] in rec.versions;
  }

  /** The wrapped key opens to the data key, now. */
  predicate Opens(s: Kms, tenant: string, w: WrappedDataKey, k: Key) {
    Unwrap(s.root, s.db, tenant, w) == Ok(k)
  }

  predicate IsShredded(s: Kms, tenant: string) { tenant in s.db && s.db[tenant].destroyed }

  lemma ProvisionKeepsGood(s: Kms, tenant: string)
    requires GoodKms(s)
    ensures GoodKms(RecordOrProvision(s, tenant).1)
    ensures RecordOrProvision(s, tenant).0.Ok? <==> !IsShredded(s, tenant)
  {
    if tenant !in s.db {
      FirstIsFresh(s.root, tenant, s.nextId);
      hide Keys, GoodKms, FreshKeys, GoodRecord;
      PutKeepsGood(s, FirstVersion(s.root, tenant, s.nextId), s.nextId + 2);
    }
  }

  lemma LaterKeepsGood(s: Kms, n: nat)
    requires GoodKms(s) && s.nextId <= n
    ensures GoodKms(s.(nextId := n))
  {
    hide GoodRecord, Keys;
  }

  /** What rotate does to the catalog: a fresh key as one more version, and nothing else. */
  lemma RotateKeepsGood(s: Kms, tenant: string)
    requires GoodKms(s)
    ensures GoodKms(RotateTenantKey(s, tenant).1)
  {
    ProvisionKeepsGood(s, tenant);
    var (r, s') := RecordOrProvision(s, tenant);
    if r.Ok? {
      RotatedIsFresh(s.root, r.value, s'.nextId);
      hide Keys, GoodRecord, FreshKeys, Rotated;
      PutKeepsGood(s', Rotated(s.root, r.value, s'.nextId), s'.nextId + 2);
    }
  }

  /** The key of a rotation's new version was in no record, of any tenant, before. */
  lemma RotateMakesAFreshKey(s: Kms, tenant: string, other: string)
    requires GoodKms(s) && RotateTenantKey(s, tenant).0.Ok?
    ensures var s' := RotateTenantKey(s, tenant).1;
      && tenant in s'.db && GoodRecord(s.root, s'.db[tenant])
      && var n := |s'.db[tenant].versions|;
      && RotateTenantKey(s, tenant).0 == Ok(n) && n >= 2
      && KeyAt(s.root, s'.db[tenant], n) >= s.nextId
      && (other in s.db ==> KeyAt(s.root, s'.db[tenant], n) !in Keys(s.db[other]))
      && (forall m :: 1 <= m < n ==> KeyAt(s.root, s'.db[tenant], m) != KeyAt(s.root, s'.db[tenant], n))
  {
    ProvisionKeepsGood(s, tenant);
    var (r, s') := RecordOrProvision(s, tenant);
    RotatedGood(s.root, r.value, s'.nextId);
    RotatedIsFresh(s.root, r.value, s'.nextId);
    hide Keys;
  }

  /** So a data key minted after a rotation opens under the new version's key and under no earlier one's. */
  lemma NewDataKeysNeedTheNewVersion(s: Kms, tenant: string, m: nat)
    requires GoodKms(s) && RotateTenantKey(s, tenant).0.Ok?
    ensures var s' := RotateTenantKey(s, tenant).1;
      var minted := GenerateDataKey(s', tenant).0;
      && tenant in s'.db && GoodRecord(s.root, s'.db[tenant]) && minted.Ok?
      && var n := |s'.db[tenant].versions|;
      && minted.value.wrapped.tenantKeyVersion == n
      && OpenKey(KeyAt(s.root, s'.db[tenant], n), minted.value.wrapped.wrapped) == Ok(minted.value.plaintext)
      && (1 <= m < n ==> OpenKey(KeyAt(s.root, s'.db[tenant], m), minted.value.wrapped.wrapped) == Err(DecryptionFailed))
  {
    var s' := RotateTenantKey(s, tenant).1;
    RotateMakesAFreshKey(s, tenant, tenant);
    RotateKeepsGood(s, tenant);
    hide RotateTenantKey, Keys, FreshKeys, GoodKms;
    WrapUnderGood(s.root, s'.db[tenant], s'.nextId, s'.nextId + 1);
  }

  /** Generate succeeds unless the tenant is shredded, and the data key it returns opens. */
  lemma GeneratedKeyOpens(s: Kms, tenant: string)
    requires GoodKms(s)
    ensures var (r, s') := GenerateDataKey(s, tenant);
      && GoodKms(s')
      && (if IsShredded(s, tenant) then r == Err(Destroyed) && s' == s
          else r.Ok? && Opens(s', tenant, r.value.wrapped, r.value.plaintext))
  {
    ProvisionKeepsGood(s, tenant);
    var (r, s') := RecordOrProvision(s, tenant);
    if r.Ok? {
      LaterKeepsGood(s', s'.nextId + 2);
      WrapUnderGood(s.root, r.value, s'.nextId, s'.nextId + 1);
      TenantKeySelects(s.root, r.value, |r.value.versions|);
    }
  }

  /** Neither generating nor rotating, for any tenant, stops an earlier wrapped key from opening. */
  lemma OpensThroughGenerateAndRotate(s: Kms, other: string, tenant: string, w: WrappedDataKey, k: Key)
    requires GoodKms(s) && Opens(s, tenant, w, k)
    ensures Opens(GenerateDataKey(s, other).1, tenant, w, k)
    ensures Opens(RotateTenantKey(s, other).1, tenant, w, k) && GoodKms(RotateTenantKey(s, other).1)
  {
    ProvisionKeepsGood(s, other);
    RotateKeepsGood(s, other);
    TenantKeySelects(s.root, s.db[tenant], w.tenantKeyVersion);
    var (r, s') := RecordOrProvision(s, other);
    if r.Ok? {
      RotatedGood(s.root, r.value, s'.nextId);
      var t := RotateTenantKey(s, other).1;
      TenantKeySelects(s.root, t.db[tenant], w.tenantKeyVersion);
    }
  }

  /** Rewrapping moves the same data key onto the current version. */
  lemma RewrapOpensToTheSameKey(s: Kms, tenant: string, w: WrappedDataKey, k: Key)
    requires GoodKms(s) && Opens(s, tenant, w, k)
    ensures var (r, s') := RewrapDataKey(s, tenant, w);
      r.Ok? && r.value.tenantKeyVersion == |s.db[tenant].versions| && Opens(s', tenant, r.value, k)
  {
    var rec := s.db[tenant];
    TenantKeySelects(s.root, rec, w.tenantKeyVersion);
    WrapUnderGood(s.root, rec, k, s.nextId);
    TenantKeySelects(s.root, rec, |rec.versions|);
  }

  /** Reading operations refuse an unknown tenant and leave everything alone; generate and rotate provision it. */
  lemma UnknownTenant(s: Kms, tenant: string, w: WrappedDataKey)
    requires GoodKms(s) && tenant !in s.db
    ensures Unwrap(s.root, s.db, tenant, w) == Err(NoKeyMaterial)
    ensures RewrapDataKey(s, tenant, w) == (Err(NoKeyMaterial), s)
    ensures DestroyTenantKey(s, tenant) == (Err(NoKeyMaterial), s)
    ensures GenerateDataKey(s, tenant).0.Ok? && GenerateDataKey(s, tenant).0.value.wrapped.tenantKeyVersion == 1
    ensures RotateTenantKey(s, tenant).0 == Ok(2)
  {
    var rec := FirstVersion(s.root, tenant, s.nextId);
    FirstIsFresh(s.root, tenant, s.nextId);
    WrapUnderGood(s.root, rec, s.nextId + 2, s.nextId + 3);
    RotatedGood(s.root, rec, s.nextId + 2);
  }

  ghost predicate NoneShredded(s: Kms) {
    forall t :: t in s.db ==> !s.db[t].destroyed
  }

  lemma RotateWhileNoneShredded(s: Kms, tenant: string)
    requires GoodKms(s) && NoneShredded(s)
    ensures var (r, s') := RotateTenantKey(s, tenant); r.Ok? && GoodKms(s') && NoneShredded(s')
  {
    RotateKeepsGood(s, tenant);
    var (r, s') := RecordOrProvision(s, tenant);
    assert r.Ok?;
  }

  /** Every data key is new: no key or nonce before it has its identity. */
  lemma EachDataKeyIsNew(s: Kms, tenant: string)
    requires GoodKms(s) && !IsShredded(s, tenant)
    ensures var (r, s') := GenerateDataKey(s, tenant);
      && r.Ok? && s.nextId <= r.value.plaintext < s'.nextId
      && r.value.wrapped.wrapped.Sealed? && s.nextId <= r.value.wrapped.wrapped.nonce < s'.nextId
      && r.value.wrapped.wrapped.nonce != r.value.plaintext
  {
    GeneratedKeyOpens(s, tenant);
    ProvisionKeepsGood(s, tenant);
    var (r, s') := RecordOrProvision(s, tenant);
    WrapUnderGood(s.root, r.value, s'.nextId, s'.nextId + 1);
  }

  // ---- envelopes ----

  datatype SealedData = SealedData(wrappedKey: WrappedDataKey, sealed: Sealed)

  function SealData(s: Kms, tenant: string, plaintext: Bytes): (Result<SealedData, KmsError>, Kms) {
    var (r, s') := GenerateDataKey(s, tenant);
    match r
    case Err(e) => (Err(e), s')
    case Ok(dek) =>
      (Ok(SealedData(dek.wrapped, Sealed(dek.plaintext, s'.nextId, Payload(plaintext)))), s'.(nextId := s'.nextId + 1))
  }

  function OpenData(s: Kms, tenant: string, d: SealedData): Result<Bytes, KmsError> {
    match Unwrap(s.root, s.db, tenant, d.wrappedKey)
    case Err(e) => Err(e)
    case Ok(dek) =>
      match Open(dek, d.sealed)
      case Err(e) => Err(e)
      case Ok(KeyMaterial(_)) => Err(NotAKey)
      case Ok(Payload(bytes)) => Ok(bytes)
  }

  /** Sealing then opening gives the plaintext back. */
  lemma SealThenOpen(s: Kms, tenant: string, plaintext: Bytes)
    requires GoodKms(s) && !IsShredded(s, tenant)
    ensures var (r, s') := SealData(s, tenant, plaintext);
      GoodKms(s') && r.Ok? && OpenData(s', tenant, r.value) == Ok(plaintext)
  {
    GeneratedKeyOpens(s, tenant);
  }

  /** A payload is sealed under a data key minted for it alone, with a nonce used for nothing else. */
  lemma SealedIsFresh(s: Kms, tenant: string, plaintext: Bytes)
    requires GoodKms(s) && !IsShredded(s, tenant)
    ensures var (r, s') := SealData(s, tenant, plaintext);
      && r.Ok? && r.value.sealed.Sealed? && r.value.sealed.plain == Payload(plaintext)
      && s.nextId <= r.value.sealed.key < s'.nextId
      && s.nextId <= r.value.sealed.nonce < s'.nextId
      && r.value.wrappedKey.wrapped.Sealed? && r.value.sealed.nonce > r.value.wrappedKey.wrapped.nonce
  {
    EachDataKeyIsNew(s, tenant);
  }

  lemma SealWhileNoneShredded(s: Kms, tenant: string, plaintext: Bytes)
    requires GoodKms(s) && NoneShredded(s)
    ensures NoneShredded(SealData(s, tenant, plaintext).1)
  {
  }

  /** What opens keeps opening to the same plaintext while others seal and keys rotate. */
  lemma OpenDataKept(s: Kms, other: string, more: Bytes, tenant: string, d: SealedData, plaintext: Bytes)
    requires GoodKms(s) && OpenData(s, tenant, d) == Ok(plaintext)
    ensures OpenData(SealData(s, other, more).1, tenant, d) == Ok(plaintext)
    ensures OpenData(RotateTenantKey(s, other).1, tenant, d) == Ok(plaintext)
  {
    var k := Unwrap(s.root, s.db, tenant, d.wrappedKey).value;
    OpensThroughGenerateAndRotate(s, other, tenant, d.wrappedKey, k);
  }

  /** After a shred nothing of the tenant opens and every operation on it is refused; other tenants are as before. */
  lemma DestroyShreds(s: Kms, tenant: string, d: SealedData, other: string)
    requires GoodKms(s) && tenant in s.db && !s.db[tenant].destroyed
    ensures var (r, s') := DestroyTenantKey(s, tenant);
      && r == Ok(()) && GoodKms(s') && IsShredded(s', tenant)
      && OpenData(s', tenant, d) == Err(Destroyed)
      && GenerateDataKey(s', tenant) == (Err(Destroyed), s')
      && RotateTenantKey(s', tenant) == (Err(Destroyed), s')
      && DestroyTenantKey(s', tenant) == (Err(Destroyed), s')
      && RewrapDataKey(s', tenant, d.wrappedKey) == (Err(Destroyed), s')
      && (other != tenant ==> OpenData(s', other, d) == OpenData(s, other, d))
  {
  }
}
