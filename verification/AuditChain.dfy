/** The keyed hash chain, the head anchor, `verify`, and what a passing `verify` binds. */
module AuditChain {
  import opened Seqs
  import opened AuditModel
  import opened Text

  /**
   * The digest of one log: HMAC-SHA256 under its key, or SHA-256 for an unkeyed log, rendered as
   * 64 lowercase hex digits; and the JSON bytes of the (id, seq, event) triple, an array.
   */
  datatype Suite = Suite(digest: Bytes -> Bytes, body: (string, nat, AuditEvent) -> Bytes)
  {
    ghost predicate Valid() {
      && (forall m :: IsHash(digest(m)))
      && (forall i, n, e, i', n', e' :: body(i, n, e) == body(i', n', e') ==> i == i' && n == n' && e == e')
      && (forall i, n, e :: |body(i, n, e)| > 0 && body(i, n, e)[0] == BRACKET)
    }
  }

  const BRACKET: byte := 91
  const COLON: byte := 58

  predicate IsHexDigit(b: byte) { 48 <= b <= 57 || 97 <= b <= 102 }

  predicate IsHash(h: Bytes) { |h| == 64 && forall i :: 0 <= i < |h| ==> IsHexDigit(h[i]) }

  /** The genesis entry links to the empty string, every other one to a hash. */
  predicate IsLink(h: Bytes) { h == [] || IsHash(h) }

  function ChainInput(suite: Suite, prev: Bytes, id: string, n: nat, event: AuditEvent): Bytes {
    prev + suite.body(id, n, event)
  }

  function ChainHash(suite: Suite, prev: Bytes, id: string, n: nat, event: AuditEvent): Bytes {
    suite.digest(ChainInput(suite, prev, id, n, event))
  }

  datatype HeadAnchor = HeadAnchor(seqNo: nat, hash: Bytes, mac: Bytes)

  /** "wovyr-audit-head:v1:" */
  const HEAD_PREFIX: Bytes :=
    [119, 111, 118, 121, 114, 45, 97, 117, 100, 105, 116, 45, 104, 101, 97, 100, 58, 118, 49, 58]

  /** The low k bytes of n, least significant first. */
  function LeBytes(n: nat, k: nat): (r: Bytes)
    ensures |r| == k
  {
    if k == 0 then [] else [(n % 256) as byte] + LeBytes(n / 256, k - 1)
  }

  /** n without its last i base-256 digits. */
  function HighPart(n: nat, i: nat): nat { if i == 0 then n else HighPart(n / 256, i - 1) }

  /** Byte i carries the i-th base-256 digit, the lowest first. */
  lemma {:induction false} LeBytesAt(n: nat, k: nat, i: nat)
    requires i < k
    ensures LeBytes(n, k)[i] as int == HighPart(n, i) % 256
  {
    if i > 0 { LeBytesAt(n / 256, k - 1, i - 1); }
  }

  function Pow256(k: nat): nat { if k == 0 then 1 else 256 * Pow256(k - 1) }

  lemma HeadPrefixReads(i: nat)
    requires i < 20
    ensures |HEAD_PREFIX| == 20 && HEAD_PREFIX[i] as int == "wovyr-audit-head:v1:"[i] as int
  {
  }

  function HeadInput(n: nat, hash: Bytes): Bytes {
    HEAD_PREFIX + LeBytes(n, 8) + [COLON] + hash
  }

  function HeadMac(suite: Suite, n: nat, hash: Bytes): Bytes {
    suite.digest(HeadInput(n, hash))
  }

  function MakeAnchor(suite: Suite, e: AuditEntry): HeadAnchor {
    HeadAnchor(e.seqNo, e.hash, HeadMac(suite, e.seqNo, e.hash))
  }

  // ---- what verify accepts ----

  function PrevOf(es: seq<AuditEntry>, i: nat): Bytes
    requires i <= |es|
  {
    if i == 0 then [] else es[i - 1].hash
  }

  predicate LinkOk(suite: Suite, es: seq<AuditEntry>, i: nat)
    requires i < |es|
  {
    var e := es[i];
    && e.seqNo == i
    && e.prevHash == PrevOf(es, i)
    && e.hash == ChainHash(suite, e.prevHash, e.id, e.seqNo, e.event)
  }

  ghost predicate ChainOk(suite: Suite, es: seq<AuditEntry>) {
    forall i :: 0 <= i < |es| ==> LinkOk(suite, es, i)
  }

  predicate Authentic(suite: Suite, a: HeadAnchor) { a.mac == HeadMac(suite, a.seqNo, a.hash) }

  /** The anchor is authentic and names an entry that is present with that hash. */
  predicate AnchorOk(suite: Suite, es: seq<AuditEntry>, anchor: Option<HeadAnchor>) {
    match anchor
    case None => es == []
    case Some(a) => Authentic(suite, a) && a.seqNo < |es| && es[a.seqNo].hash == a.hash
  }

  ghost predicate Accepted(suite: Suite, keyed: bool, es: seq<AuditEntry>, anchor: Option<HeadAnchor>) {
    ChainOk(suite, es) && (keyed ==> AnchorOk(suite, es, anchor))
  }

  datatype Fault =
    | OutOfOrder(at: nat) | PrevMismatch(at: nat) | HashMismatch(at: nat)
    | AnchorForged | Truncated | AnchorDiverged | EmptyButAnchored | AnchorMissing

  /** The fault names the first entry that breaks the chain, and the first of its checks that fails. */
  ghost predicate FirstBreak(suite: Suite, es: seq<AuditEntry>, f: Fault) {
    && (f.OutOfOrder? || f.PrevMismatch? || f.HashMismatch?)
    && f.at < |es|
    && ChainOk(suite, es[..f.at])
    && var e := es[f.at];
      && (f.OutOfOrder? <==> e.seqNo != f.at)
      && (f.PrevMismatch? <==> e.seqNo == f.at && e.prevHash != PrevOf(es, f.at))
      && !LinkOk(suite, es, f.at)
  }

  method VerifyChain(suite: Suite, es: seq<AuditEntry>) returns (f: Option<Fault>)
    ensures f.None? <==> ChainOk(suite, es)
    ensures f.Some? ==> FirstBreak(suite, es, f.value)
  {
    var prev: Bytes := [];
    var i := 0;
    while i < |es|
      invariant 0 <= i <= |es|
      invariant prev == PrevOf(es, i)
      invariant forall j :: 0 <= j < i ==> LinkOk(suite, es, j)
    {
      var e := es[i];
      assert forall j :: 0 <= j < i ==> LinkOk(suite, es, j) ==> LinkOk(suite, es[..i], j);
      if e.seqNo != i {
        assert !LinkOk(suite, es, i);
        return Some(OutOfOrder(i));
      }
      if e.prevHash != prev {
        assert !LinkOk(suite, es, i);
        return Some(PrevMismatch(i));
      }
      if e.hash != ChainHash(suite, e.prevHash, e.id, e.seqNo, e.event) {
        assert !LinkOk(suite, es, i);
        return Some(HashMismatch(i));
      }
      prev := e.hash;
      i := i + 1;
    }
    return None;
  }

  method Verify(suite: Suite, keyed: bool, es: seq<AuditEntry>, anchor: Option<HeadAnchor>)
    returns (f: Option<Fault>)
    ensures f.None? <==> Accepted(suite, keyed, es, anchor)
    ensures !ChainOk(suite, es) ==> f.Some? && FirstBreak(suite, es, f.value)
    // on a linked log each anchor fault has its one condition
    ensures keyed && ChainOk(suite, es) ==>
      && (f == Some(AnchorMissing) <==> anchor.None? && es != [])
      && (f == Some(AnchorForged) <==> anchor.Some? && !Authentic(suite, anchor.value))
      && (f == Some(EmptyButAnchored) <==> anchor.Some? && Authentic(suite, anchor.value) && es == [])
      && (f == Some(Truncated) <==> anchor.Some? && Authentic(suite, anchor.value) && 0 < |es| <= anchor.value.seqNo)
      && (f == Some(AnchorDiverged) <==>
            && anchor.Some? && Authentic(suite, anchor.value)
            && anchor.value.seqNo < |es| && es[anchor.value.seqNo].hash != anchor.value.hash)
  {
    f := VerifyChain(suite, es);
    if f.Some? || !keyed { return; }
    assert forall i :: 0 <= i < |es| ==> LinkOk(suite, es, i) ==> es[i].seqNo == i;
    match anchor {
      case Some(a) =>
        if HeadMac(suite, a.seqNo, a.hash) != a.mac { return Some(AnchorForged); }
        if es == [] { return Some(EmptyButAnchored); }
        if Last(es).seqNo < a.seqNo { return Some(Truncated); }
        if !(a.seqNo < |es| && es[a.seqNo].hash == a.hash) { return Some(AnchorDiverged); }
      case None =>
        if es != [] { return Some(AnchorMissing); }
    }
  }

  // ---- the hashed byte strings are unambiguous ----

  lemma ChainInputUnambiguous(suite: Suite, p: Bytes, i: string, n: nat, e: AuditEvent,
                              p': Bytes, i': string, n': nat, e': AuditEvent)
    requires suite.Valid() && IsLink(p) && IsLink(p')
    requires ChainInput(suite, p, i, n, e) == ChainInput(suite, p', i', n', e')
    ensures p == p' && i == i' && n == n' && e == e'
  {
    var b, b' := suite.body(i, n, e), suite.body(i', n', e');
    assert (p + b)[|p|] == b[0] && (p' + b')[|p'|] == b'[0];
    assert |p| == |p'|;
    assert p == (p + b)[..|p|] && b == (p + b)[|p|..];
    assert p' == (p' + b')[..|p|] && b' == (p' + b')[|p|..];
  }

  lemma {:induction false} LeBytesInjective(n: nat, n': nat, k: nat)
    requires n < Pow256(k) && n' < Pow256(k) && LeBytes(n, k) == LeBytes(n', k)
    ensures n == n'
  {
    if k > 0 {
      assert LeBytes(n, k)[1..] == LeBytes(n / 256, k - 1);
      assert LeBytes(n', k)[1..] == LeBytes(n' / 256, k - 1);
      assert LeBytes(n, k)[0] == LeBytes(n', k)[0];
      LeBytesInjective(n / 256, n' / 256, k - 1);
    }
  }

  lemma HeadInputUnambiguous(n: nat, h: Bytes, n': nat, h': Bytes)
    requires n < Pow256(8) && n' < Pow256(8)
    requires HeadInput(n, h) == HeadInput(n', h')
    ensures n == n' && h == h'
  {
    var p := |HEAD_PREFIX|;
    assert HeadInput(n, h)[p..p + 8] == LeBytes(n, 8);
    assert HeadInput(n', h')[p..p + 8] == LeBytes(n', 8);
    LeBytesInjective(n, n', 8);
    assert HeadInput(n, h)[p + 9..] == h;
    assert HeadInput(n', h')[p + 9..] == h';
  }

  /** No entry's chain input is ever an anchor's MAC input. */
  lemma DomainsDisjoint(suite: Suite, p: Bytes, i: string, n: nat, e: AuditEvent, m: nat, h: Bytes)
    requires suite.Valid() && IsLink(p)
    ensures ChainInput(suite, p, i, n, e) != HeadInput(m, h)
  {
    assert HeadInput(m, h)[0] == HEAD_PREFIX[0] == 119;
    if p == [] {
      assert ChainInput(suite, p, i, n, e)[0] == suite.body(i, n, e)[0];
    } else {
      assert ChainInput(suite, p, i, n, e)[0] == p[0];
    }
  }

  // ---- binding ----

  function InputOf(suite: Suite, e: AuditEntry): Bytes {
    ChainInput(suite, e.prevHash, e.id, e.seqNo, e.event)
  }

  /** The two entries exhibit a collision of the digest. */
  predicate Collision(suite: Suite, a: AuditEntry, b: AuditEntry) {
    InputOf(suite, a) != InputOf(suite, b) && suite.digest(InputOf(suite, a)) == suite.digest(InputOf(suite, b))
  }

  lemma SameHashSameEntry(suite: Suite, a: seq<AuditEntry>, b: seq<AuditEntry>, i: nat)
    requires suite.Valid() && ChainOk(suite, a) && ChainOk(suite, b)
    requires i < |a| && i < |b| && a[i].hash == b[i].hash && !Collision(suite, a[i], b[i])
    ensures a[i] == b[i] && (i > 0 ==> a[i - 1].hash == b[i - 1].hash)
  {
    assert LinkOk(suite, a, i) && LinkOk(suite, b, i);
    if i > 0 {
      assert LinkOk(suite, a, i - 1) && LinkOk(suite, b, i - 1);
    }
    ChainInputUnambiguous(suite, a[i].prevHash, a[i].id, a[i].seqNo, a[i].event,
                          b[i].prevHash, b[i].id, b[i].seqNo, b[i].event);
  }

  /** Two chains sharing the hash at i are equal through i, unless they exhibit a collision at or below i. */
  lemma {:induction false} SharedHashBinds(suite: Suite, a: seq<AuditEntry>, b: seq<AuditEntry>, i: nat)
    requires suite.Valid() && ChainOk(suite, a) && ChainOk(suite, b)
    requires i < |a| && i < |b| && a[i].hash == b[i].hash
    ensures a[..i + 1] == b[..i + 1] || exists j :: 0 <= j <= i && Collision(suite, a[j], b[j])
  {
    if !Collision(suite, a[i], b[i]) {
      SameHashSameEntry(suite, a, b, i);
      hide ChainOk, Collision;
      if i > 0 {
        SharedHashBinds(suite, a, b, i - 1);
        if a[..i] == b[..i] {
          assert a[..i + 1] == a[..i] + [a[i]] && b[..i + 1] == b[..i] + [b[i]];
        }
      } else {
        assert a[..1] == [a[0]] && b[..1] == [b[0]];
      }
    }
  }

  /**
   * A log that passes `verify` against an untouched anchor agrees with the genuine one on every
   * entry up to the anchor: an edit, deletion or reordering there either fails or exhibits a collision.
   */
  lemma AnchorBinds(suite: Suite, genuine: seq<AuditEntry>, tampered: seq<AuditEntry>, anchor: HeadAnchor)
    requires suite.Valid()
    requires Accepted(suite, true, genuine, Some(anchor)) && Accepted(suite, true, tampered, Some(anchor))
    ensures anchor.seqNo < |genuine| && anchor.seqNo < |tampered|
    ensures tampered[..anchor.seqNo + 1] == genuine[..anchor.seqNo + 1]
         || exists j :: 0 <= j <= anchor.seqNo && Collision(suite, tampered[j], genuine[j])
  {
    SharedHashBinds(suite, tampered, genuine, anchor.seqNo);
  }

  /** A forged anchor reusing the MAC of a genuine one names the same entry, or the digest collides. */
  lemma AnchorMacBinds(suite: Suite, genuine: HeadAnchor, forged: HeadAnchor)
    requires genuine.seqNo < Pow256(8) && forged.seqNo < Pow256(8)
    requires genuine.mac == HeadMac(suite, genuine.seqNo, genuine.hash)
    requires forged.mac == HeadMac(suite, forged.seqNo, forged.hash)
    requires forged.mac == genuine.mac
    ensures forged == genuine
      || (HeadInput(forged.seqNo, forged.hash) != HeadInput(genuine.seqNo, genuine.hash)
          && suite.digest(HeadInput(forged.seqNo, forged.hash)) == suite.digest(HeadInput(genuine.seqNo, genuine.hash)))
  {
    if HeadInput(forged.seqNo, forged.hash) == HeadInput(genuine.seqNo, genuine.hash) {
      HeadInputUnambiguous(forged.seqNo, forged.hash, genuine.seqNo, genuine.hash);
    }
  }

  /** An accepted chain is ascending, so the backward scan and the default page agree on it. */
  lemma ChainIsAscending(suite: Suite, es: seq<AuditEntry>)
    requires ChainOk(suite, es)
    ensures Ascending(es)
  {
    forall i, j | 0 <= i < j < |es| ensures es[i].seqNo < es[j].seqNo {
      assert LinkOk(suite, es, i) && LinkOk(suite, es, j);
    }
  }

  // ---- the entry `record` builds ----

  function IdFor(n: nat): string { "aud-" + Decimal(n) }

  /** The entry that extends a log whose last entry is `tip`. */
  function NextEntry(suite: Suite, tip: Option<AuditEntry>, event: AuditEvent): AuditEntry {
    var n := if tip.None? then 0 else tip.value.seqNo + 1;
    var prev := if tip.None? then [] else tip.value.hash;
    var id := IdFor(n);
    AuditEntry(id, n, event, prev, ChainHash(suite, prev, id, n, event))
  }

  function Tip(es: seq<AuditEntry>): Option<AuditEntry> {
    if es == [] then None else Some(Last(es))
  }

  /** Different entries of a chain get different ids. */
  lemma IdsDiffer(i: nat, j: nat)
    requires i != j
    ensures IdFor(i) != IdFor(j)
  {
    if IdFor(i) == IdFor(j) {
      assert IdFor(i)[4..] == Decimal(i) && IdFor(j)[4..] == Decimal(j);
      DecimalIsInjective(i, j);
    }
  }

  /** With an anchor, exactly those are accepted that `record` makes for an entry of the log. */
  lemma AcceptedAnchorsAreMade(suite: Suite, es: seq<AuditEntry>, a: HeadAnchor)
    ensures Accepted(suite, true, es, Some(a)) <==>
      ChainOk(suite, es) && exists i :: 0 <= i < |es| && a == MakeAnchor(suite, es[i])
  {
    if ChainOk(suite, es) {
      forall i | 0 <= i < |es| ensures es[i].seqNo == i { assert LinkOk(suite, es, i); }
      if Accepted(suite, true, es, Some(a)) { assert a == MakeAnchor(suite, es[a.seqNo]); }
    }
  }

  lemma NextEntryExtends(suite: Suite, es: seq<AuditEntry>, event: AuditEvent)
    requires ChainOk(suite, es)
    ensures ChainOk(suite, es + [NextEntry(suite, Tip(es), event)])
  {
    var e := NextEntry(suite, Tip(es), event);
    forall i | 0 <= i < |es| + 1 ensures LinkOk(suite, es + [e], i) {
      if i < |es| {
        assert LinkOk(suite, es, i);
      } else if es != [] {
        assert LinkOk(suite, es, |es| - 1);
      }
    }
  }
}
