/** Webhook subscriptions, in memory and encrypted at rest, and why a caller cannot tell them apart. */
module Webhooks {
  import opened Seqs
  import opened Catalog
  import opened KmsModel
  import LocalKms

  datatype Subscription = Subscription(
    id: string, tenant: string, url: string, events: seq<string>, secret: Bytes, active: bool)

  datatype EncryptedSubscription = EncryptedSubscription(
    id: string, tenant: string, url: string, events: seq<string>, sealedSecret: SealedData, active: bool)

  datatype StoreError = NotFound | Crypto(error: KmsError)

  /** `*` matches all, a trailing `*` matches by prefix, anything else exactly. */
  predicate TopicMatches(pattern: string, eventType: string) {
    if pattern == "*" then true
    else if pattern != "" && Last(pattern) == '*' then Init(pattern) <= eventType
    else pattern == eventType
  }

  predicate Matches(s: Subscription, eventType: string) {
    s.active && exists i :: 0 <= i < |s.events| && TopicMatches(s.events[i], eventType)
  }

  // ---- calls and answers ----

  datatype Call =
    | Register(sub: Subscription) | Get(id: string) | List(tenant: string)
    | Matching(tenant: string, eventType: string) | Delete(id: string)
    | Rotate(tenant: string)   // somebody rotates a tenant key; invisible to a plain store

  datatype Answer = Registered(sub: Subscription) | Found(found: Option<Subscription>) | Listed(subs: seq<Subscription>)
                  | Deleted | Rotated | Failed(error: StoreError)

  /** The answers as the stores' methods return them. */
  function OfRegister(r: Result<Subscription, StoreError>): Answer {
    match r case Ok(s) => Registered(s) case Err(x) => Failed(x)
  }

  function OfGet(r: Result<Option<Subscription>, StoreError>): Answer {
    match r case Ok(s) => Found(s) case Err(x) => Failed(x)
  }

  function OfList(r: Result<seq<Subscription>, StoreError>): Answer {
    match r case Ok(l) => Listed(l) case Err(x) => Failed(x)
  }

  function OfDelete(r: Result<(), StoreError>): Answer {
    match r case Ok(_) => Deleted case Err(x) => Failed(x)
  }

  // ---- the plain store ----

  type Plain = map<string, Subscription>

  function ListPlain(m: Plain, tenant: string): seq<Subscription> {
    Filter((s: Subscription) => s.tenant == tenant, Values(m))
  }

  function AnswerPlain(m: Plain, c: Call): (Answer, Plain) {
    match c
    case Register(s) => (Registered(s), m[s.id := s])
    case Get(id) => (Found(if id in m then Some(m[id]) else None), m)
    case List(t) => (Listed(ListPlain(m, t)), m)
    case Matching(t, e) => (Listed(Filter((s: Subscription) => Matches(s, e), ListPlain(m, t))), m)
    case Delete(id) => if id in m then (Deleted, m - {id}) else (Failed(NotFound), m)
    case Rotate(_) => (Rotated, m)
  }

  class InMemoryWebhookStore {
    var subscriptions: Plain

    constructor ()
      ensures subscriptions == map[]
    {
      subscriptions := map[];
    }

    method Register(sub: Subscription) returns (r: Subscription)
      modifies this
      ensures (Registered(r), subscriptions) == AnswerPlain(old(subscriptions), Call.Register(sub))
    {
      subscriptions := subscriptions[sub.id := sub];
      r := sub;
    }

    method Get(id: string) returns (r: Option<Subscription>)
      ensures (Found(r), subscriptions) == AnswerPlain(subscriptions, Call.Get(id))
    {
      r := if id in subscriptions then Some(subscriptions[id]) else None;
    }

    method List(tenant: string) returns (r: seq<Subscription>)
      ensures (Listed(r), subscriptions) == AnswerPlain(subscriptions, Call.List(tenant))
    {
      r := ListPlain(subscriptions, tenant);
    }

    method Matching(tenant: string, eventType: string) returns (r: seq<Subscription>)
      ensures (Listed(r), subscriptions) == AnswerPlain(subscriptions, Call.Matching(tenant, eventType))
    {
      var all := List(tenant);
      r := Filter((s: Subscription) => Matches(s, eventType), all);
    }

    method Delete(id: string) returns (r: Result<(), StoreError>)
      modifies this
      ensures (OfDelete(r), subscriptions) == AnswerPlain(old(subscriptions), Call.Delete(id))
    {
      if id !in subscriptions { return Err(NotFound); }
      subscriptions := subscriptions - {id};
      r := Ok(());
    }
  }

  // ---- the encrypted store ----

  type Sealing = map<string, EncryptedSubscription>

  function Encrypt(k: Kms, s: Subscription): (Result<EncryptedSubscription, StoreError>, Kms) {
    var (r, k') := SealData(k, s.tenant, s.secret);
    match r
    case Err(e) => (Err(Crypto(e)), k')
    case Ok(d) => (Ok(EncryptedSubscription(s.id, s.tenant, s.url, s.events, d, s.active)), k')
  }

  function Decrypt(k: Kms, e: EncryptedSubscription): Result<Subscription, StoreError> {
    match OpenData(k, e.tenant, e.sealedSecret)
    case Err(x) => Err(Crypto(x))
    case Ok(secret) => Ok(Subscription(e.id, e.tenant, e.url, e.events, secret, e.active))
  }

  /** The first failure fails the whole list. */
  function DecryptAll(k: Kms, list: seq<EncryptedSubscription>): Result<seq<Subscription>, StoreError> {
    if list == [] then Ok([])
    else match Decrypt(k, list[0])
      case Err(x) => Err(x)
      case Ok(s) =>
        match DecryptAll(k, list[1..])
        case Err(x) => Err(x)
        case Ok(rest) => Ok([s] + rest)
  }

  function Prepend(done: seq<Subscription>, rest: Result<seq<Subscription>, StoreError>): Result<seq<Subscription>, StoreError> {
    match rest case Err(x) => Err(x) case Ok(l) => Ok(done + l)
  }

  lemma PrependMore(done: seq<Subscription>, s: Subscription, rest: Result<seq<Subscription>, StoreError>)
    ensures Prepend(done, Prepend([s], rest)) == Prepend(done + [s], rest)
  {
    if rest.Ok? { assert done + ([s] + rest.value) == (done + [s]) + rest.value; }
  }

  lemma PrependNothing(rest: Result<seq<Subscription>, StoreError>)
    ensures Prepend([], rest) == rest
  {
    if rest.Ok? { assert [] + rest.value == rest.value; }
  }

  function ListEncrypted(k: Kms, m: Sealing, tenant: string): Result<seq<Subscription>, StoreError> {
    DecryptAll(k, Filter((e: EncryptedSubscription) => e.tenant == tenant, Values(m)))
  }

  function GetEncrypted(k: Kms, m: Sealing, id: string): Result<Option<Subscription>, StoreError> {
    if id !in m then Ok(None)
    else match Decrypt(k, m[id]) case Err(x) => Err(x) case Ok(s) => Ok(Some(s))
  }

  function AnswerEncrypted(k: Kms, m: Sealing, c: Call): (Answer, Kms, Sealing) {
    match c
    case Register(s) =>
      var (e, k') := Encrypt(k, s);
      if e.Err? then (Failed(e.error), k', m) else (Registered(s), k', m[s.id := e.value])
    case Get(id) =>
      (match GetEncrypted(k, m, id) case Err(x) => Failed(x) case Ok(s) => Found(s), k, m)
    case List(t) =>
      (match ListEncrypted(k, m, t) case Err(x) => Failed(x) case Ok(l) => Listed(l), k, m)
    case Matching(t, e) =>
      (match ListEncrypted(k, m, t) case Err(x) => Failed(x)
         case Ok(l) => Listed(Filter((s: Subscription) => Matches(s, e), l)), k, m)
    case Delete(id) => if id in m then (Deleted, k, m - {id}) else (Failed(NotFound), k, m)
    case Rotate(t) =>
      var (r, k') := RotateTenantKey(k, t);
      (if r.Err? then Failed(Crypto(r.error)) else Rotated, k', m)
  }

  /** webhooks.enc.json holds the list of encrypted subscriptions in id order. */
  class EncryptedFileWebhookStore {
    var file: Option<seq<EncryptedSubscription>>
    const kms: LocalKms.LocalKms

    constructor (kms: LocalKms.LocalKms)
      ensures this.kms == kms && Sealings() == map[]
    {
      this.kms, file := kms, None;
    }

    ghost function Sealings(): Sealing
      reads this
    {
      if file.None? then map[] else Load(file.value, (e: EncryptedSubscription) => e.id)
    }

    method LoadAll() returns (m: Sealing)
      ensures m == Sealings() && Keyed(m, (e: EncryptedSubscription) => e.id)
    {
      m := map[];
      if file.None? { return; }
      var list := file.value;
      var i := 0;
      while i < |list|
        invariant 0 <= i <= |list|
        invariant m == Load(list[..i], (e: EncryptedSubscription) => e.id)
      {
        assert Init(list[..i + 1]) == list[..i];
        m := m[list[i].id := list[i]];
        i := i + 1;
      }
      assert list[..i] == list;
      LoadIsKeyed(list, (e: EncryptedSubscription) => e.id);
    }

    method Persist(m: Sealing)
      requires Keyed(m, (e: EncryptedSubscription) => e.id)
      modifies this
      ensures Sealings() == m
    {
      file := Some(Values(m));
      LoadDumpsBack(m, (e: EncryptedSubscription) => e.id);
    }

    /** `envelope::seal` through the KMS: mint a data key, seal the secret under it. */
    method EncryptSub(sub: Subscription) returns (r: Result<EncryptedSubscription, StoreError>)
      modifies kms, kms.store
      ensures (r, kms.State()) == Encrypt(old(kms.State()), sub)
    {
      var dek := kms.GenerateDataKey(sub.tenant);
      if dek.Err? { return Err(Crypto(dek.error)); }
      var sealed := Sealed(dek.value.plaintext, kms.nextId, Payload(sub.secret));
      kms.nextId := kms.nextId + 1;
      r := Ok(EncryptedSubscription(sub.id, sub.tenant, sub.url, sub.events, SealedData(dek.value.wrapped, sealed), sub.active));
    }

    method DecryptSub(e: EncryptedSubscription) returns (r: Result<Subscription, StoreError>)
      ensures r == Decrypt(kms.State(), e)
    {
      var dek := kms.UnwrapDataKey(e.tenant, e.sealedSecret.wrappedKey);
      if dek.Err? { return Err(Crypto(dek.error)); }
      var plain := Open(dek.value, e.sealedSecret.sealed);
      r := match plain
        case Err(x) => Err(Crypto(x))
        case Ok(KeyMaterial(_)) => Err(Crypto(NotAKey))
        case Ok(Payload(secret)) => Ok(Subscription(e.id, e.tenant, e.url, e.events, secret, e.active));
    }

    method Register(sub: Subscription) returns (r: Result<Subscription, StoreError>)
      modifies this, kms, kms.store
      ensures (OfRegister(r), kms.State(), Sealings()) == AnswerEncrypted(old(kms.State()), old(Sealings()), Call.Register(sub))
    {
      var e := EncryptSub(sub);
      if e.Err? { return Err(e.error); }
      var m := LoadAll();
      m := m[e.value.id := e.value];
      Persist(m);
      r := Ok(sub);
    }

    method Get(id: string) returns (r: Result<Option<Subscription>, StoreError>)
      ensures (OfGet(r), kms.State(), Sealings()) == AnswerEncrypted(kms.State(), Sealings(), Call.Get(id))
    {
      var m := LoadAll();
      if id !in m { return Ok(None); }
      var s := DecryptSub(m[id]);
      r := match s case Err(x) => Err(x) case Ok(v) => Ok(Some(v));
    }

    method DecryptList(list: seq<EncryptedSubscription>) returns (r: Result<seq<Subscription>, StoreError>)
      ensures r == DecryptAll(kms.State(), list)
    {
      hide Decrypt;
      ghost var k := kms.State();
      var i := 0;
      var out: seq<Subscription> := [];
      assert list[0..] == list;
      PrependNothing(DecryptAll(k, list));
      while i < |list|
        invariant 0 <= i <= |list|
        invariant DecryptAll(k, list) == Prepend(out, DecryptAll(k, list[i..]))
      {
        assert list[i..][1..] == list[i + 1..];
        var s := DecryptSub(list[i]);
        if s.Err? { return Err(s.error); }
        PrependMore(out, s.value, DecryptAll(k, list[i + 1..]));
        out := out + [s.value];
        i := i + 1;
      }
      assert DecryptAll(k, list[i..]) == Ok([]) && out + [] == out;
      r := Ok(out);
    }

    method List(tenant: string) returns (r: Result<seq<Subscription>, StoreError>)
      ensures r == ListEncrypted(kms.State(), Sealings(), tenant)
      ensures (OfList(r), kms.State(), Sealings()) == AnswerEncrypted(kms.State(), Sealings(), Call.List(tenant))
    {
      var m := LoadAll();
      r := DecryptList(Filter((e: EncryptedSubscription) => e.tenant == tenant, Values(m)));
    }

    method Matching(tenant: string, eventType: string) returns (r: Result<seq<Subscription>, StoreError>)
      ensures (OfList(r), kms.State(), Sealings()) == AnswerEncrypted(kms.State(), Sealings(), Call.Matching(tenant, eventType))
    {
      var all := List(tenant);
      if all.Err? { return all; }
      r := Ok(Filter((s: Subscription) => Matches(s, eventType), all.value));
    }

    method Delete(id: string) returns (r: Result<(), StoreError>)
      modifies this
      ensures (OfDelete(r), kms.State(), Sealings()) == AnswerEncrypted(old(kms.State()), old(Sealings()), Call.Delete(id))
    {
      var m := LoadAll();
      if id !in m { return Err(NotFound); }
      Persist(m - {id});
      r := Ok(());
    }
  }

  // ---- what the plain answers mean ----

  /** The pattern asks for everything, for the topics behind a prefix, or for the one topic. */
  ghost predicate Wants(pattern: string, eventType: string) {
    || pattern == "*"
    || pattern == eventType
    || exists n :: 0 <= n <= |eventType| && pattern == eventType[..n] + "*"
  }

  lemma TopicMatchesIff(pattern: string, eventType: string)
    ensures TopicMatches(pattern, eventType) <==> (if pattern != "" && Last(pattern) == '*' then
      exists n :: 0 <= n <= |eventType| && pattern == eventType[..n] + "*" else pattern == eventType)
    ensures TopicMatches(pattern, eventType) ==> Wants(pattern, eventType)
  {
    if pattern != "" && Last(pattern) == '*' {
      var prefix := Init(pattern);
      assert pattern == prefix + "*";
      if prefix <= eventType { assert eventType[..|prefix|] == prefix; }
      forall n | 0 <= n <= |eventType| && pattern == eventType[..n] + "*" ensures prefix == eventType[..n] {
        assert Init(eventType[..n] + "*") == eventType[..n];
      }
      assert pattern == "*" ==> pattern == eventType[..0] + "*";
    }
  }

  lemma ListPlainMeans(m: Plain, tenant: string, s: Subscription)
    ensures s in ListPlain(m, tenant) <==> s.tenant == tenant && exists id :: id in m && m[id] == s
  {
    var keys := SortedKeys(m.Keys);
    var values := ValuesOf(m, keys);
    FilterMembers((x: Subscription) => x.tenant == tenant, values);
    if s in values {
      var i :| 0 <= i < |values| && values[i] == s;
      assert keys[i] in keys;
    }
    if id :| id in m && m[id] == s {
      assert id in keys;
      var i :| 0 <= i < |keys| && keys[i] == id;
      assert values[i] == s;
    }
  }

  /** The plain store keeps what was registered last under an id until it is deleted. */
  lemma PlainStoreLaws(m: Plain, s: Subscription, id: string)
    ensures AnswerPlain(AnswerPlain(m, Register(s)).1, Get(s.id)).0 == Found(Some(s))
    ensures id != s.id ==> AnswerPlain(AnswerPlain(m, Register(s)).1, Get(id)).0 == AnswerPlain(m, Get(id)).0
    ensures AnswerPlain(AnswerPlain(m, Delete(s.id)).1, Get(s.id)).0 == Found(None)
    ensures id != s.id ==> AnswerPlain(AnswerPlain(m, Delete(s.id)).1, Get(id)).0 == AnswerPlain(m, Get(id)).0
    ensures AnswerPlain(m, Delete(id)).0 == (if AnswerPlain(m, Get(id)).0 == Found(None) then Failed(NotFound) else Deleted)
    ensures AnswerPlain(map[], Get(id)).0 == Found(None)
  {
  }

  /** Lists come in id order, each subscription once. */
  lemma ListsInIdOrder(m: Plain, tenant: string)
    requires Keyed(m, (s: Subscription) => s.id)
    ensures var l := ListPlain(m, tenant);
      forall i, j :: 0 <= i < j < |l| ==> Less(l[i].id, l[j].id)
  {
    var keys := SortedKeys(m.Keys);
    SortedKeysAscend(m.Keys);
    assert forall i :: 0 <= i < |keys| ==> ValuesOf(m, keys)[i].id == keys[i];
    FilterKeepsOrder(ValuesOf(m, keys), tenant);
  }

  ghost predicate IdsAscend(l: seq<Subscription>) { forall i, j :: 0 <= i < j < |l| ==> Less(l[i].id, l[j].id) }

  lemma {:induction false} FilterKeepsOrder(l: seq<Subscription>, tenant: string)
    requires IdsAscend(l)
    ensures IdsAscend(Filter((s: Subscription) => s.tenant == tenant, l))
  {
    if l != [] {
      FilterKeepsOrder(l[1..], tenant);
      FilterMembers((s: Subscription) => s.tenant == tenant, l[1..]);
      var rest := Filter((s: Subscription) => s.tenant == tenant, l[1..]);
      forall j | 0 <= j < |rest| ensures Less(l[0].id, rest[j].id) {
        assert rest[j] in l[1..];
        var k :| 0 <= k < |l[1..]| && l[1..][k] == rest[j];
        assert l[k + 1] == rest[j];
      }
    }
  }

  /** A list shows exactly the stored subscriptions of the tenant, nobody else's. */
  lemma ListsTheTenant(m: Plain, tenant: string, s: Subscription)
    ensures AnswerPlain(m, List(tenant)).0.Listed?
    ensures s in AnswerPlain(m, List(tenant)).0.subs <==> s.tenant == tenant && exists id :: id in m && m[id] == s
  {
    ListPlainMeans(m, tenant, s);
  }

  /** A match shows exactly the tenant's active subscriptions that want the event: all, by prefix, or by name. */
  lemma MatchesTheEvent(m: Plain, tenant: string, eventType: string, s: Subscription)
    ensures AnswerPlain(m, Matching(tenant, eventType)).0.Listed?
    ensures s in AnswerPlain(m, Matching(tenant, eventType)).0.subs <==>
      && s.tenant == tenant && s.active && (exists id :: id in m && m[id] == s)
      && exists i :: 0 <= i < |s.events| && (
          if s.events[i] != "" && Last(s.events[i]) == '*' then
            exists n :: 0 <= n <= |eventType| && s.events[i] == eventType[..n] + "*"
          else s.events[i] == eventType)
  {
    ListPlainMeans(m, tenant, s);
    FilterMembers((x: Subscription) => Matches(x, eventType), ListPlain(m, tenant));
    hide ListPlain, TopicMatches;
    forall i | 0 <= i < |s.events| ensures TopicMatches(s.events[i], eventType) <==> (
        if s.events[i] != "" && Last(s.events[i]) == '*' then
          exists n :: 0 <= n <= |eventType| && s.events[i] == eventType[..n] + "*"
        else s.events[i] == eventType)
    {
      TopicMatchesIff(s.events[i], eventType);
    }
  }

  // ---- the two stores under the same calls ----

  function RunPlain(m: Plain, calls: seq<Call>): seq<Answer>
    decreases |calls|
  {
    if calls == [] then [] else
      var (a, m') := AnswerPlain(m, calls[0]);
      [a] + RunPlain(m', calls[1..])
  }

  function RunEncrypted(k: Kms, m: Sealing, calls: seq<Call>): seq<Answer>
    decreases |calls|
  {
    if calls == [] then [] else
      var (a, k', m') := AnswerEncrypted(k, m, calls[0]);
      [a] + RunEncrypted(k', m', calls[1..])
  }

  /** No tenant is shredded, and every stored record decrypts to the plain subscription. */
  ghost predicate Related(k: Kms, m: Sealing, p: Plain) {
    && GoodKms(k) && NoneShredded(k)
    && m.Keys == p.Keys
    && forall id :: id in p ==> Decrypt(k, m[id]) == Ok(p[id])
  }

  lemma {:induction false} ListsAgree(k: Kms, m: Sealing, p: Plain, keys: seq<string>, tenant: string)
    requires Related(k, m, p) && forall id :: id in keys ==> id in p
    ensures DecryptAll(k, Filter((e: EncryptedSubscription) => e.tenant == tenant, ValuesOf(m, keys)))
         == Ok(Filter((s: Subscription) => s.tenant == tenant, ValuesOf(p, keys)))
  {
    if keys != [] {
      ListsAgree(k, m, p, keys[1..], tenant);
      assert keys[0] in p;
      var encrypted := Filter((e: EncryptedSubscription) => e.tenant == tenant, ValuesOf(m, keys[1..]));
      var plain := Filter((s: Subscription) => s.tenant == tenant, ValuesOf(p, keys[1..]));
      assert ValuesOf(m, keys)[1..] == ValuesOf(m, keys[1..]);
      assert ValuesOf(p, keys)[1..] == ValuesOf(p, keys[1..]);
      if p[keys[0]].tenant == tenant {
        assert ([m[keys[0]]] + encrypted)[1..] == encrypted;
      } else {
        assert [] + encrypted == encrypted && [] + plain == plain;
      }
    }
  }

  lemma EncryptThenDecrypt(k: Kms, s: Subscription)
    requires GoodKms(k) && NoneShredded(k)
    ensures var (e, k') := Encrypt(k, s);
      e.Ok? && Decrypt(k', e.value) == Ok(s) && GoodKms(k') && NoneShredded(k')
  {
    hide SealData, GoodKms;
    SealThenOpen(k, s.tenant, s.secret);
    SealWhileNoneShredded(k, s.tenant, s.secret);
  }

  lemma DecryptKept(k: Kms, s: Subscription, e: EncryptedSubscription, d: Subscription)
    requires GoodKms(k) && NoneShredded(k) && Decrypt(k, e) == Ok(d)
    ensures Decrypt(Encrypt(k, s).1, e) == Ok(d)
  {
    hide SealData, GoodKms;
    OpenDataKept(k, s.tenant, s.secret, d.tenant, e.sealedSecret, d.secret);
  }

  lemma RegisterKeepsRelated(k: Kms, m: Sealing, p: Plain, s: Subscription)
    requires Related(k, m, p)
    ensures var (e, k') := Encrypt(k, s);
      e.Ok? && Related(k', m[s.id := e.value], p[s.id := s])
  {
    hide Encrypt, Decrypt, GoodKms, NoneShredded;
    EncryptThenDecrypt(k, s);
    forall id | id in p ensures Decrypt(Encrypt(k, s).1, m[id]) == Ok(p[id]) {
      DecryptKept(k, s, m[id], p[id]);
    }
  }

  lemma RotateKeepsRelated(k: Kms, m: Sealing, p: Plain, t: string)
    requires Related(k, m, p)
    ensures var (r, k') := RotateTenantKey(k, t); r.Ok? && Related(k', m, p)
  {
    hide RotateTenantKey, GoodKms, NoneShredded;
    RotateWhileNoneShredded(k, t);
    forall id | id in p ensures Decrypt(RotateTenantKey(k, t).1, m[id]) == Ok(p[id]) {
      OpenDataKept(k, t, [], p[id].tenant, m[id].sealedSecret, p[id].secret);
    }
  }

  lemma OneCallAgrees(k: Kms, m: Sealing, p: Plain, c: Call)
    requires Related(k, m, p)
    ensures var (a, k', m') := AnswerEncrypted(k, m, c);
      var (b, p') := AnswerPlain(p, c);
      a == b && Related(k', m', p')
  {
    hide GoodKms, NoneShredded, Encrypt, RotateTenantKey, SealData;
    match c
    case Register(s) => RegisterKeepsRelated(k, m, p, s);
    case Rotate(t) => RotateKeepsRelated(k, m, p, t);
    case List(t) => ListsAgree(k, m, p, SortedKeys(p.Keys), t);
    case Matching(t, _) => ListsAgree(k, m, p, SortedKeys(p.Keys), t);
    case Get(_) =>
    case Delete(_) =>
  }

  /** Any sequence of calls, interleaved with key rotations, is answered alike by both stores. */
  lemma {:induction false} EncryptedStoreRefinesPlain(k: Kms, m: Sealing, p: Plain, calls: seq<Call>)
    requires Related(k, m, p)
    ensures RunEncrypted(k, m, calls) == RunPlain(p, calls)
    decreases |calls|
  {
    if calls != [] {
      OneCallAgrees(k, m, p, calls[0]);
      var (a, k', m') := AnswerEncrypted(k, m, calls[0]);
      EncryptedStoreRefinesPlain(k', m', AnswerPlain(p, calls[0]).1, calls[1..]);
    }
  }

  /** In particular starting from two empty stores and a KMS in which nobody has been shredded. */
  lemma FreshStoresAgree(k: Kms, calls: seq<Call>)
    requires GoodKms(k) && NoneShredded(k)
    ensures RunEncrypted(k, map[], calls) == RunPlain(map[], calls)
  {
    EncryptedStoreRefinesPlain(k, map[], map[], calls);
  }

  lemma ShreddedDecryptFails(k: Kms, e: EncryptedSubscription)
    requires KmsModel.IsShredded(k, e.tenant)
    ensures Decrypt(k, e) == Err(Crypto(Destroyed))
  {
  }

  lemma ShreddedListFails(k: Kms, m: Sealing, keys: seq<string>, id: string)
    requires id in keys && forall i :: i in keys ==> i in m
    requires KmsModel.IsShredded(k, m[id].tenant)
    ensures DecryptAll(k, Filter((e: EncryptedSubscription) => e.tenant == m[id].tenant, ValuesOf(m, keys))) == Err(Crypto(Destroyed))
  {
    var p := (e: EncryptedSubscription) => e.tenant == m[id].tenant;
    var list := ValuesOf(m, keys);
    FilterMembers(p, list);
    var i :| 0 <= i < |keys| && keys[i] == id;
    assert list[i] == m[id] && list[i] in list && m[id] in Filter(p, list);
    assert Filter(p, list)[0] in Filter(p, list);
    hide Filter, Decrypt, ValuesOf;
    ShreddedDecryptFails(k, Filter(p, list)[0]);
  }

  /** A shred takes away exactly the shredded tenant's subscriptions; everyone else's are found as before. */
  lemma DestroyHidesOneTenant(k: Kms, m: Sealing, p: Plain, tenant: string, id: string)
    requires Related(k, m, p) && tenant in k.db && id in p
    ensures var k' := DestroyTenantKey(k, tenant).1;
      AnswerEncrypted(k', m, Get(id)).0 == if m[id].tenant == tenant then Failed(Crypto(Destroyed)) else Found(Some(p[id]))
  {
    assert id in m && GoodKms(k) && !k.db[tenant].destroyed && Decrypt(k, m[id]) == Ok(p[id]);
    hide *;
    DestroyHidesTheSecret(k, tenant, m[id]);
    GetAnswer(DestroyTenantKey(k, tenant).1, m, id);
  }

  lemma DestroyHidesTheSecret(k: Kms, tenant: string, e: EncryptedSubscription)
    requires GoodKms(k) && tenant in k.db && !k.db[tenant].destroyed
    ensures Decrypt(DestroyTenantKey(k, tenant).1, e) == if e.tenant == tenant then Err(Crypto(Destroyed)) else Decrypt(k, e)
  {
    DestroyShreds(k, tenant, e.sealedSecret, e.tenant);
    hide DestroyTenantKey, OpenData, GenerateDataKey, RotateTenantKey, RewrapDataKey, GoodKms;
  }

  lemma GetAnswer(k: Kms, m: Sealing, id: string)
    requires id in m
    ensures AnswerEncrypted(k, m, Get(id)).0 == match Decrypt(k, m[id]) case Err(x) => Failed(x) case Ok(s) => Found(Some(s))
  {
    hide Decrypt, Encrypt, RotateTenantKey, ListEncrypted;
  }

  /** Once its owner is shredded a subscription can be neither read nor listed nor matched, only deleted. */
  lemma ShreddedSubscriptionsAreUnreadable(k: Kms, m: Sealing, id: string, eventType: string)
    requires id in m && KmsModel.IsShredded(k, m[id].tenant)
    ensures AnswerEncrypted(k, m, Get(id)).0 == Failed(Crypto(Destroyed))
    ensures AnswerEncrypted(k, m, List(m[id].tenant)).0 == Failed(Crypto(Destroyed))
    ensures AnswerEncrypted(k, m, Matching(m[id].tenant, eventType)).0 == Failed(Crypto(Destroyed))
    ensures AnswerEncrypted(k, m, Delete(id)).0 == Deleted
  {
    hide Decrypt, DecryptAll, Filter, Encrypt, RotateTenantKey, SortedKeys, ValuesOf;
    ShreddedListFails(k, m, SortedKeys(m.Keys), id);
    ShreddedDecryptFails(k, m[id]);
  }
}
