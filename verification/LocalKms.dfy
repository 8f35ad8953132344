/** The file-backed store and the operations of `LocalKms` on it. */
module LocalKms {
  import opened Seqs
  import opened Catalog
  import opened KmsModel

  /** kms.json: the list of the catalog's records. */
  class FileKmsStore {
    var file: Option<seq<TenantKeyRecord>>

    constructor ()
      ensures file == None && Db() == map[]
    {
      file := None;
    }

    ghost function Db(): Db
      reads this
    {
      if file.None? then map[] else Load(file.value, (r: TenantKeyRecord) => r.tenant)
    }

    method LoadAll() returns (m: Db)
      ensures m == Db() && Keyed(m, (r: TenantKeyRecord) => r.tenant)
    {
      m := map[];
      if file.None? { return; }
      var list := file.value;
      var i := 0;
      while i < |list|
        invariant 0 <= i <= |list|
        invariant m == Load(list[..i], (r: TenantKeyRecord) => r.tenant)
      {
        assert Init(list[..i + 1]) == list[..i];
        m := m[list[i].tenant := list[i]];
        i := i + 1;
      }
      assert list[..i] == list;
      LoadIsKeyed(list, (r: TenantKeyRecord) => r.tenant);
    }

    method Persist(m: Db)
      requires Keyed(m, (r: TenantKeyRecord) => r.tenant)
      modifies this
      ensures Db() == m
    {
      file := Some(Values(m));
      LoadDumpsBack(m, (r: TenantKeyRecord) => r.tenant);
    }

    method Get(tenant: string) returns (r: Option<TenantKeyRecord>)
      ensures r == if tenant in Db() then Some(Db()[tenant]) else None
    {
      var m := LoadAll();
      r := if tenant in m then Some(m[tenant]) else None;
    }

    method Put(record: TenantKeyRecord)
      modifies this
      ensures Db() == old(Db())[record.tenant := record]
    {
      var m := LoadAll();
      m := m[record.tenant := record];
      Persist(m);
    }
  }

  class LocalKms {
    const rootKey: Key
    const store: FileKmsStore
    var nextId: nat

    constructor (rootKey: Key, store: FileKmsStore)
      ensures this.rootKey == rootKey && this.store == store
    {
      this.rootKey, this.store, nextId := rootKey, store, rootKey + 1;
    }

    ghost function State(): Kms
      reads this, store
    {
      Kms(rootKey, store.Db(), nextId)
    }

    method ActiveRecordOf(tenant: string) returns (r: Result<TenantKeyRecord, KmsError>)
      ensures r == ActiveRecord(store.Db(), tenant)
    {
      var rec := store.Get(tenant);
      r := match rec
        case None => Err(NoKeyMaterial)
        case Some(x) => if x.destroyed then Err(Destroyed) else Ok(x);
    }

    method RecordOrProvision(tenant: string) returns (r: Result<TenantKeyRecord, KmsError>)
      modifies this, store
      ensures (r, State()) == KmsModel.RecordOrProvision(old(State()), tenant)
    {
      var rec := store.Get(tenant);
      if rec.Some? {
        return if rec.value.destroyed then Err(Destroyed) else Ok(rec.value);
      }
      var first := FirstVersion(rootKey, tenant, nextId);
      nextId := nextId + 2;
      store.Put(first);
      r := Ok(first);
    }

    method GenerateDataKey(tenant: string) returns (r: Result<DataKey, KmsError>)
      modifies this, store
      ensures (r, State()) == KmsModel.GenerateDataKey(old(State()), tenant)
    {
      var rec := RecordOrProvision(tenant);
      if rec.Err? { return Err(rec.error); }
      var plaintext, nonce := nextId, nextId + 1;
      nextId := nextId + 2;
      var w := WrapUnder(rootKey, rec.value, plaintext, nonce);
      r := match w case Err(e) => Err(e) case Ok(x) => Ok(DataKey(plaintext, x));
    }

    method UnwrapDataKey(tenant: string, w: WrappedDataKey) returns (r: Result<Key, KmsError>)
      ensures r == Unwrap(rootKey, store.Db(), tenant, w)
    {
      var rec := ActiveRecordOf(tenant);
      if rec.Err? { return Err(rec.error); }
      var tenantKey := TenantKey(rootKey, rec.value, w.tenantKeyVersion);
      if tenantKey.Err? { return Err(tenantKey.error); }
      r := OpenKey(tenantKey.value, w.wrapped);
    }

    method RewrapDataKey(tenant: string, w: WrappedDataKey) returns (r: Result<WrappedDataKey, KmsError>)
      modifies this
      ensures (r, State()) == KmsModel.RewrapDataKey(old(State()), tenant, w)
    {
      var rec := ActiveRecordOf(tenant);
      if rec.Err? { return Err(rec.error); }
      var dek := UnwrapFrom(rootKey, rec.value, w);
      var nonce := nextId;
      nextId := nextId + 1;
      if dek.Err? { return Err(dek.error); }
      r := WrapUnder(rootKey, rec.value, dek.value, nonce);
    }

    method RotateTenantKey(tenant: string) returns (r: Result<nat, KmsError>)
      modifies this, store
      ensures (r, State()) == KmsModel.RotateTenantKey(old(State()), tenant)
    {
      var rec := RecordOrProvision(tenant);
      if rec.Err? { return Err(rec.error); }
      var version := NextVersion(rec.value);
      var wrapped := Sealed(rootKey, nextId + 1, KeyMaterial(nextId));
      nextId := nextId + 2;
      store.Put(rec.value.(versions := rec.value.versions + [TenantKeyVersion(version, wrapped)]));
      r := Ok(version);
    }

    method DestroyTenantKey(tenant: string) returns (r: Result<(), KmsError>)
      modifies store
      ensures (r, State()) == KmsModel.DestroyTenantKey(old(State()), tenant)
    {
      var rec := ActiveRecordOf(tenant);
      if rec.Err? { return Err(rec.error); }
      store.Put(rec.value.(versions := [], destroyed := true));
      r := Ok(());
    }
  }
}
