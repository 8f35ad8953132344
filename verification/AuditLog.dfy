/** A keyed or unkeyed log over the bytes of its files: record, read one page, verify. */
module AuditLog {
  import opened Seqs
  import opened AuditModel
  import opened AuditScan
  import opened AuditPages
  import opened AuditChain
  import AuditProtocol

  const READ_CHUNK_BYTES: nat := 64 * 1024

  class FileAuditLog {
    const codec: LineCodec
    const suite: Suite
    const keyed: bool
    var file: Option<Bytes>
    var anchor: Option<HeadAnchor>

    constructor (codec: LineCodec, suite: Suite, keyed: bool)
      requires codec.Valid() && suite.Valid()
      ensures this.codec == codec && this.suite == suite && this.keyed == keyed
      ensures Holds([])
    {
      this.codec, this.suite, this.keyed := codec, suite, keyed;
      file, anchor := None, None;
    }

    /** The files hold exactly the chain es, and a keyed log's anchor names its last entry. */
    ghost predicate Holds(es: seq<AuditEntry>)
      reads this
    {
      && codec.Valid() && suite.Valid()
      && (file == Some(Render(codec, es)) || (es == [] && file == None))
      && ChainOk(suite, es)
      && anchor == if keyed && es != [] then Some(MakeAnchor(suite, Last(es))) else None
    }

    lemma HoldsReadsBack(es: seq<AuditEntry>)
      requires Holds(es)
      ensures ReadAll(codec, file) == Ok(es)
      ensures file.Some? ==> SameBlanks(Split(file.value))
      ensures Ascending(es)
    {
      RenderReadsBack(codec, es);
      ChainIsAscending(suite, es);
    }

    /** An unreadable log is left alone; a readable one gains one line, then its anchor advances. */
    method Record(event: AuditEvent) returns (r: Result<AuditEntry, ReadError>)
      modifies this
      ensures match old(ReadAll(codec, file))
        case Err(x) => r == Err(x) && file == old(file) && anchor == old(anchor)
        case Ok(es) =>
          var e := NextEntry(suite, Tip(es), event);
          && r == Ok(e)
          && file == Some((if old(file).None? then [] else old(file).value) + codec.encode(e) + [NL])
          && anchor == if keyed then Some(MakeAnchor(suite, e)) else old(anchor)
      ensures r.Ok? ==> r.value.event == event
      ensures forall es :: old(Holds(es)) ==> r.Ok? && Holds(es + [r.value])
    {
      var existing := ReadAll(codec, file);
      if existing.Err? {
        forall es | Holds(es) ensures false { HoldsReadsBack(es); }
        return Err(existing.error);
      }
      var e := NextEntry(suite, Tip(existing.value), event);
      forall es | Holds(es) ensures existing.value == es && ChainOk(suite, es + [e]) {
        HoldsReadsBack(es);
        NextEntryExtends(suite, es, event);
      }
      ghost var before := file;
      file := Some((if file.None? then [] else file.value) + codec.encode(e) + [NL]);
      if keyed {
        anchor := Some(MakeAnchor(suite, e));
      }
      forall es | old(Holds(es)) ensures Holds(es + [e]) {
        assert Init(es + [e]) == es && Last(es + [e]) == e;
        assert before == None ==> Render(codec, es) == [];
      }
      return Ok(e);
    }

    /** Served by the bounded backward read, and equal to the read-everything page. */
    method QueryPage(filter: AuditFilter, beforeSeq: Option<nat>, limit: nat)
      returns (r: Result<AuditPage, ReadError>)
      ensures forall es :: Holds(es) ==> r == Ok(DefaultPage(es, filter, beforeSeq, limit))
      ensures forall es :: Holds(es) ==> Answers(r.value, es, filter, beforeSeq, limit)
      // in particular nothing of another tenant, principal, action or time is shown
      ensures (exists es :: Holds(es)) ==> forall e :: e in r.value.entries ==>
        && (filter.tenant.Some? ==> e.event.actor.tenant == filter.tenant.value)
        && (filter.principal.Some? ==> e.event.actor.principal == filter.principal.value)
        && (filter.action.Some? ==> e.event.action == filter.action.value)
        && (filter.afterMs.Some? ==> filter.afterMs.value <= e.event.timestampMs)
        && (filter.beforeMs.Some? ==> e.event.timestampMs <= filter.beforeMs.value)
    {
      var q := Query(codec, filter, beforeSeq, limit);
      r := ScanReverse(q, file, READ_CHUNK_BYTES);
      forall es | Holds(es)
        ensures r == Ok(DefaultPage(es, filter, beforeSeq, limit)) && Answers(r.value, es, filter, beforeSeq, limit)
      {
        HoldsReadsBack(es);
        DefaultPageAnswers(es, filter, beforeSeq, limit);
        if file.Some? {
          ScanIsDefaultPage(q, file.value, es);
        }
      }
    }

    /** Reads the log, then the anchor. A log that only `record` has touched passes. */
    method VerifyLog() returns (r: Result<Option<Fault>, ReadError>)
      ensures match ReadAll(codec, file)
        case Err(x) => r == Err(x)
        case Ok(es) => r.Ok? && (r.value.None? <==> Accepted(suite, keyed, es, anchor))
      ensures forall es :: Holds(es) ==> r == Ok(None)
    {
      var existing := ReadAll(codec, file);
      forall es | Holds(es) ensures existing == Ok(es) && Accepted(suite, keyed, es, anchor) {
        HoldsReadsBack(es);
        assert es != [] ==> LinkOk(suite, es, |es| - 1);
      }
      if existing.Err? { return Err(existing.error); }
      var f := Verify(suite, keyed, existing.value, anchor);
      return Ok(f);
    }
  }

  /** In every state any processes can reach, a page read from the file's bytes is the default page of the chain. */
  lemma EveryReachablePageIsExact(
    q: Query, suite: Suite, states: seq<AuditProtocol.State>, actions: seq<AuditProtocol.Action>, k: nat)
    requires q.codec.Valid() && AuditProtocol.Run(suite, states, actions) && k < |states|
    ensures PageOf(WalkBack(q, Split(Render(q.codec, states[k].log)), []))
         == Ok(DefaultPage(states[k].log, q.filter, q.beforeSeq, q.limit))
  {
    AuditProtocol.RunKeepsInv(suite, states, actions, k);
    ChainIsAscending(suite, states[k].log);
    RenderReadsBack(q.codec, states[k].log);
    ScanIsDefaultPage(q, Render(q.codec, states[k].log), states[k].log);
  }
}
