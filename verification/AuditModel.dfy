/** The audit record schema, the read filter and the page type. */
module AuditModel {
  import opened Seqs

  datatype ActorType = User | Service | ApiKey | System

  datatype Actor = Actor(principal: string, actorType: ActorType, tenant: string)

  datatype Resource = Resource(resourceType: string, id: string)

  datatype Outcome = Allowed | Denied | Error

  datatype AuditEvent = AuditEvent(
    timestampMs: nat, actor: Actor, action: string, resource: Resource, outcome: Outcome,
    reason: Option<string>, requestId: Option<string>)

  /** `prevHash` and `hash` hold the ASCII bytes of the lowercase-hex strings. */
  datatype AuditEntry = AuditEntry(id: string, seqNo: nat, event: AuditEvent, prevHash: Bytes, hash: Bytes)

  datatype AuditFilter = AuditFilter(
    tenant: Option<string>, principal: Option<string>, action: Option<string>,
    afterMs: Option<nat>, beforeMs: Option<nat>)
  {
    predicate Matches(e: AuditEntry) {
      && (tenant.Some? ==> e.event.actor.tenant == tenant.value)
      && (principal.Some? ==> e.event.actor.principal == principal.value)
      && (action.Some? ==> e.event.action == action.value)
      && (afterMs.Some? ==> e.event.timestampMs >= afterMs.value)
      && (beforeMs.Some? ==> e.event.timestampMs <= beforeMs.value)
    }
  }

  datatype AuditPage = AuditPage(entries: seq<AuditEntry>, nextCursor: Option<nat>)

  /** Entries a page may hold: they match the filter and lie strictly below the cursor. */
  predicate Selected(filter: AuditFilter, beforeSeq: Option<nat>, e: AuditEntry) {
    filter.Matches(e) && (beforeSeq.Some? ==> e.seqNo < beforeSeq.value)
  }

  function Select(filter: AuditFilter, beforeSeq: Option<nat>, es: seq<AuditEntry>): seq<AuditEntry> {
    Filter(e => Selected(filter, beforeSeq, e), es)
  }

  /** Strictly ascending sequence numbers: what an append-only log written under its lock holds. */
  ghost predicate Ascending(es: seq<AuditEntry>) {
    forall i, j :: 0 <= i < j < |es| ==> es[i].seqNo < es[j].seqNo
  }

  ghost predicate Descending(es: seq<AuditEntry>) {
    forall i, j :: 0 <= i < j < |es| ==> es[i].seqNo > es[j].seqNo
  }

  // ---- the default page: filter everything, sort, truncate ----

  /** Stable insertion by descending sequence number: after every entry of the same or a greater number. */
  function InsertDesc(e: AuditEntry, s: seq<AuditEntry>): seq<AuditEntry> {
    if s == [] || s[0].seqNo < e.seqNo then [e] + s else [s[0]] + InsertDesc(e, s[1..])
  }

  function SortDesc(s: seq<AuditEntry>): seq<AuditEntry> {
    if s == [] then [] else InsertDesc(Last(s), SortDesc(Init(s)))
  }

  /** The page cut from a list of candidates that is already most-recent first. */
  function CutPage(sorted: seq<AuditEntry>, limit: nat): AuditPage {
    var kept := Take(sorted, limit);
    AuditPage(kept, if |sorted| > limit && kept != [] then Some(Last(kept).seqNo) else None)
  }

  function DefaultPage(es: seq<AuditEntry>, filter: AuditFilter, beforeSeq: Option<nat>, limit: nat): AuditPage {
    CutPage(SortDesc(Select(filter, beforeSeq, es)), limit)
  }

  ghost predicate NonIncreasing(s: seq<AuditEntry>) {
    forall i, j :: 0 <= i < j < |s| ==> s[i].seqNo >= s[j].seqNo
  }

  /** The entries numbered n, in their order in s. */
  function Numbered(n: nat, s: seq<AuditEntry>): seq<AuditEntry> {
    if s == [] then [] else (if s[0].seqNo == n then [s[0]] else []) + Numbered(n, s[1..])
  }

  lemma {:induction false} InsertDescPermutes(e: AuditEntry, s: seq<AuditEntry>)
    ensures multiset(InsertDesc(e, s)) == multiset(s) + multiset{e}
  {
    if s != [] && s[0].seqNo >= e.seqNo {
      assert s == [s[0]] + s[1..];
      InsertDescPermutes(e, s[1..]);
    }
  }

  lemma {:induction false} InsertDescMembers(e: AuditEntry, s: seq<AuditEntry>, x: AuditEntry)
    ensures x in InsertDesc(e, s) ==> x == e || x in s
  {
    if s != [] && s[0].seqNo >= e.seqNo {
      InsertDescMembers(e, s[1..], x);
    }
  }

  lemma NonIncreasingCons(x: AuditEntry, t: seq<AuditEntry>)
    requires NonIncreasing(t) && forall y :: y in t ==> y.seqNo <= x.seqNo
    ensures NonIncreasing([x] + t)
  {
  }

  lemma {:induction false} InsertDescSorts(e: AuditEntry, s: seq<AuditEntry>)
    requires NonIncreasing(s)
    ensures NonIncreasing(InsertDesc(e, s))
  {
    if s == [] || s[0].seqNo < e.seqNo {
      NonIncreasingCons(e, s);
    } else {
      InsertDescSorts(e, s[1..]);
      var t := InsertDesc(e, s[1..]);
      forall y | y in t ensures y.seqNo <= s[0].seqNo { InsertDescMembers(e, s[1..], y); }
      hide InsertDesc, NonIncreasing;
      NonIncreasingCons(s[0], t);
    }
  }

  lemma {:induction false} InsertDescIsStable(n: nat, e: AuditEntry, s: seq<AuditEntry>)
    requires NonIncreasing(s)
    ensures Numbered(n, InsertDesc(e, s)) == Numbered(n, s) + Numbered(n, [e])
  {
    assert [e][1..] == [];
    if s == [] {
    } else if s[0].seqNo < e.seqNo {
      assert ([e] + s)[1..] == s;
      if e.seqNo == n { NumberedNone(n, s); }
    } else {
      InsertDescIsStable(n, e, s[1..]);
      assert ([s[0]] + InsertDesc(e, s[1..]))[1..] == InsertDesc(e, s[1..]);
    }
  }

  lemma {:induction false} NumberedNone(n: nat, s: seq<AuditEntry>)
    requires NonIncreasing(s) && (s != [] ==> s[0].seqNo < n)
    ensures Numbered(n, s) == []
  {
    if s != [] { NumberedNone(n, s[1..]); }
  }

  lemma {:induction false} NumberedConcat(n: nat, a: seq<AuditEntry>, b: seq<AuditEntry>)
    ensures Numbered(n, a + b) == Numbered(n, a) + Numbered(n, b)
  {
    if a == [] {
      assert a + b == b;
    } else {
      NumberedConcat(n, a[1..], b);
      assert (a + b)[1..] == a[1..] + b && (a + b)[0] == a[0];
      ConcatAssociates(if a[0].seqNo == n then [a[0]] else [], Numbered(n, a[1..]), Numbered(n, b));
    }
  }

  lemma MultisetSnoc(s: seq<AuditEntry>)
    requires s != []
    ensures multiset(s) == multiset(Init(s)) + multiset{Last(s)}
  {
    assert s == Init(s) + [Last(s)];
  }

  lemma {:induction false} SortDescSorts(s: seq<AuditEntry>)
    ensures NonIncreasing(SortDesc(s)) && multiset(SortDesc(s)) == multiset(s)
  {
    if s != [] {
      SortDescSorts(Init(s));
      InsertDescSorts(Last(s), SortDesc(Init(s)));
      InsertDescPermutes(Last(s), SortDesc(Init(s)));
      MultisetSnoc(s);
    }
  }

  lemma {:induction false} SortDescKeepsTies(n: nat, s: seq<AuditEntry>)
    ensures Numbered(n, SortDesc(s)) == Numbered(n, s)
  {
    if s != [] {
      hide InsertDesc, Numbered, NonIncreasing;
      SortDescKeepsTies(n, Init(s));
      SortDescSorts(Init(s));
      InsertDescIsStable(n, Last(s), SortDesc(Init(s)));
      assert s == Init(s) + [Last(s)];
      NumberedConcat(n, Init(s), [Last(s)]);
    }
  }

  /** The model of `sort_by_key(Reverse(seq))`: sorted, a permutation, and stable. */
  lemma SortDescIsAStableSort(n: nat, s: seq<AuditEntry>)
    ensures NonIncreasing(SortDesc(s))
    ensures multiset(SortDesc(s)) == multiset(s)
    ensures Numbered(n, SortDesc(s)) == Numbered(n, s)
  {
    SortDescSorts(s);
    SortDescKeepsTies(n, s);
  }

  lemma {:induction false} SortDescOfAscending(s: seq<AuditEntry>)
    requires Ascending(s)
    ensures SortDesc(s) == Reverse(s)
  {
    if s != [] {
      SortDescOfAscending(Init(s));
      assert s == Init(s) + [Last(s)];
      ReverseConcat(Init(s), [Last(s)]);
      assert Reverse([Last(s)]) == [Last(s)];
      if Init(s) != [] {
        assert Reverse(Init(s))[0] == s[|s| - 2];
      }
    }
  }

  lemma {:induction false} SelectAscending(filter: AuditFilter, beforeSeq: Option<nat>, es: seq<AuditEntry>)
    requires Ascending(es)
    ensures Ascending(Select(filter, beforeSeq, es))
  {
    if es != [] {
      SelectAscending(filter, beforeSeq, es[1..]);
      FilterMembers(e => Selected(filter, beforeSeq, e), es[1..]);
      var t := Select(filter, beforeSeq, es[1..]);
      forall x | x in t ensures es[0].seqNo < x.seqNo {
        var k :| 0 <= k < |es[1..]| && es[1..][k] == x;
        assert es[k + 1] == x;
      }
    }
  }

  /** On an ascending log the default page is the reversed selection, cut at the limit. */
  lemma DefaultPageOfAscending(es: seq<AuditEntry>, filter: AuditFilter, beforeSeq: Option<nat>, limit: nat)
    requires Ascending(es)
    ensures DefaultPage(es, filter, beforeSeq, limit) == CutPage(Reverse(Select(filter, beforeSeq, es)), limit)
  {
    SelectAscending(filter, beforeSeq, es);
    SortDescOfAscending(Select(filter, beforeSeq, es));
  }

  // ---- what a page answers ----

  /** The entry has the asked tenant, principal and action and lies in the asked time range, each where asked. */
  ghost predicate Meets(f: AuditFilter, e: AuditEntry) {
    && f.tenant in {None, Some(e.event.actor.tenant)}
    && f.principal in {None, Some(e.event.actor.principal)}
    && f.action in {None, Some(e.event.action)}
    && (f.afterMs == None || f.afterMs.value <= e.event.timestampMs)
    && (f.beforeMs == None || e.event.timestampMs <= f.beforeMs.value)
  }

  ghost predicate Below(cursor: Option<nat>, e: AuditEntry) { cursor.Some? ==> e.seqNo < cursor.value }

  /**
   * The page shows only entries of the log that were asked for, at most `limit` of them, newest first; all of
   * those below the cursor it was read at, down to the cursor it gives; and it gives one only if more remain.
   */
  ghost predicate Answers(page: AuditPage, es: seq<AuditEntry>, f: AuditFilter, beforeSeq: Option<nat>, limit: nat) {
    && |page.entries| <= limit && Descending(page.entries)
    && (forall e :: e in page.entries ==> e in es && Meets(f, e) && Below(beforeSeq, e))
    && (limit > 0 ==> forall e :: e in es && Meets(f, e) && Below(beforeSeq, e) && Reached(page, e) ==> e in page.entries)
    && (page.nextCursor.Some? ==>
        && |page.entries| == limit > 0 && page.nextCursor.value == Last(page.entries).seqNo
        && exists e :: e in es && Meets(f, e) && Below(beforeSeq, e) && !Reached(page, e))
  }

  /** At or above the cursor the page gives. */
  predicate Reached(page: AuditPage, e: AuditEntry) { page.nextCursor.Some? ==> page.nextCursor.value <= e.seqNo }

  lemma SelectIsWhatMeets(f: AuditFilter, beforeSeq: Option<nat>, es: seq<AuditEntry>, e: AuditEntry)
    ensures e in Select(f, beforeSeq, es) <==> e in es && Meets(f, e) && Below(beforeSeq, e)
  {
    FilterMembers(x => Selected(f, beforeSeq, x), es);
  }

  lemma ReversedSelection(f: AuditFilter, beforeSeq: Option<nat>, es: seq<AuditEntry>)
    requires Ascending(es)
    ensures var d := Reverse(Select(f, beforeSeq, es));
      && Descending(d)
      && forall e :: e in d <==> e in es && Meets(f, e) && Below(beforeSeq, e)
  {
    var s := Select(f, beforeSeq, es);
    SelectAscending(f, beforeSeq, es);
    hide Select, Meets, Below;
    forall e ensures e in Reverse(s) <==> e in es && Meets(f, e) && Below(beforeSeq, e) {
      SelectIsWhatMeets(f, beforeSeq, es, e);
      if e in s {
        var i :| 0 <= i < |s| && s[i] == e;
        assert Reverse(s)[|s| - 1 - i] == e;
      }
    }
  }

  /** What the default page answers, in terms of the fields asked for. */
  lemma DefaultPageAnswers(es: seq<AuditEntry>, f: AuditFilter, beforeSeq: Option<nat>, limit: nat)
    requires Ascending(es)
    ensures Answers(DefaultPage(es, f, beforeSeq, limit), es, f, beforeSeq, limit)
  {
    DefaultPageOfAscending(es, f, beforeSeq, limit);
    ReversedSelection(f, beforeSeq, es);
    hide Select, Meets, Below, DefaultPage;
    CutAnswers(Reverse(Select(f, beforeSeq, es)), es, f, beforeSeq, limit);
  }

  lemma CutAnswers(d: seq<AuditEntry>, es: seq<AuditEntry>, f: AuditFilter, beforeSeq: Option<nat>, limit: nat)
    requires Descending(d) && forall e :: e in d <==> e in es && Meets(f, e) && Below(beforeSeq, e)
    ensures Answers(CutPage(d, limit), es, f, beforeSeq, limit)
  {
    hide Meets, Below;
    var page := CutPage(d, limit);
    if |d| > limit && limit > 0 {
      assert page.entries == d[..limit] && page.nextCursor == Some(d[limit - 1].seqNo);
      forall e | e in d && Reached(page, e) ensures e in page.entries {
        var i :| 0 <= i < |d| && d[i] == e;
        assert i < limit;
        assert page.entries[i] == e;
      }
      assert d[limit] in d && !Reached(page, d[limit]);
    }
  }
}
