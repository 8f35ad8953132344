/**
 * `record` by any number of processes sharing one log directory, one file-system effect per step,
 * with a crash or a failed call possible between any two of them.
 */
module AuditProtocol {
  import opened Seqs
  import opened AuditModel
  import opened Text
  import opened AuditChain

  type Pid = nat

  /** Where a process is inside `record`. */
  datatype Pc =
    | Idle
    | Locked(event: AuditEvent)
    | Read(event: AuditEvent, tip: Option<AuditEntry>)
    | Appended(entry: AuditEntry)
    | Staged(entry: AuditEntry)
    | Anchored(entry: AuditEntry)

  /** `log` is audit.jsonl, `anchor` is audit.head, `temp` is audit.head.tmp; `recorded` is what `record` returned. */
  datatype State = State(
    log: seq<AuditEntry>, anchor: Option<HeadAnchor>, temp: Option<HeadAnchor>,
    lock: Option<Pid>, pcs: map<Pid, Pc>, recorded: set<AuditEntry>)

  function PcOf(s: State, p: Pid): Pc {
    if p in s.pcs then s.pcs[p] else Idle
  }

  datatype Action =
    | Acquire(p: Pid, event: AuditEvent) | ReadTip(p: Pid) | Append(p: Pid)
    | Stage(p: Pid) | Publish(p: Pid) | Return(p: Pid) | Fail(p: Pid)

  const INITIAL := State([], None, None, None, map[], {})

  predicate Enabled(s: State, a: Action) {
    var pc := PcOf(s, a.p);
    match a
    case Acquire(_, _) => pc.Idle? && s.lock.None?
    case ReadTip(_) => pc.Locked?
    case Append(_) => pc.Read?
    case Stage(_) => pc.Appended?
    case Publish(_) => pc.Staged? && s.temp.Some?
    case Return(_) => pc.Anchored?
    case Fail(_) => !pc.Idle?
  }

  function Do(suite: Suite, s: State, a: Action): State
    requires Enabled(s, a)
  {
    var p, pc := a.p, PcOf(s, a.p);
    match a
    case Acquire(_, event) => s.(lock := Some(p), pcs := s.pcs[p := Locked(event)])
    case ReadTip(_) => s.(pcs := s.pcs[p := Read(pc.event, Tip(s.log))])
    case Append(_) =>
      var e := NextEntry(suite, pc.tip, pc.event);
      s.(log := s.log + [e], pcs := s.pcs[p := Appended(e)])
    case Stage(_) => s.(temp := Some(MakeAnchor(suite, pc.entry)), pcs := s.pcs[p := Staged(pc.entry)])
    case Publish(_) => s.(anchor := s.temp, temp := None, pcs := s.pcs[p := Anchored(pc.entry)])
    case Return(_) => s.(lock := None, pcs := s.pcs[p := Idle], recorded := s.recorded + {pc.entry})
    // the process dies or its call fails: the lock is released and nothing else changes
    case Fail(_) => s.(lock := None, pcs := s.pcs[p := Idle])
  }

  /** A run: every state follows from the one before by one enabled action of one process. */
  ghost predicate Run(suite: Suite, states: seq<State>, actions: seq<Action>) {
    && |states| == |actions| + 1
    && states[0] == INITIAL
    && forall k :: 0 <= k < |actions| ==> Enabled(states[k], actions[k]) && states[k + 1] == Do(suite, states[k], actions[k])
  }

  // ---- the invariant ----

  /** The entry is in the log and the anchor has reached it. */
  ghost predicate Covered(s: State, e: AuditEntry) {
    && e.seqNo < |s.log| && s.log[e.seqNo] == e
    && s.anchor.Some? && e.seqNo <= s.anchor.value.seqNo
  }

  ghost predicate PcOk(suite: Suite, s: State, p: Pid) {
    var pc := PcOf(s, p);
    && (!pc.Idle? ==> s.lock == Some(p))
    && (pc.Read? ==> pc.tip == Tip(s.log))
    && (pc.Appended? || pc.Staged? || pc.Anchored? ==> Tip(s.log) == Some(pc.entry))
    && (pc.Staged? ==> s.temp == Some(MakeAnchor(suite, pc.entry)))
    && (pc.Anchored? ==> Covered(s, pc.entry))
  }

  ghost predicate IdsDerived(log: seq<AuditEntry>) {
    forall i :: 0 <= i < |log| ==> log[i].id == IdFor(i)
  }

  ghost predicate Inv(suite: Suite, s: State) {
    && ChainOk(suite, s.log)
    && IdsDerived(s.log)
    && (s.anchor.Some? ==> s.anchor.value.seqNo < |s.log| && s.anchor.value == MakeAnchor(suite, s.log[s.anchor.value.seqNo]))
    && (forall p :: PcOk(suite, s, p))
    && (forall e :: e in s.recorded ==> Covered(s, e))
  }

  /** The parts of the state every step only extends. */
  ghost predicate Grows(s: State, t: State) {
    && s.log <= t.log
    && (s.anchor.Some? ==> t.anchor.Some? && s.anchor.value.seqNo <= t.anchor.value.seqNo)
    && s.recorded <= t.recorded
  }

  lemma AppendKeepsLog(suite: Suite, log: seq<AuditEntry>, event: AuditEvent)
    requires ChainOk(suite, log) && IdsDerived(log)
    ensures var longer := log + [NextEntry(suite, Tip(log), event)];
      ChainOk(suite, longer) && IdsDerived(longer)
  {
    NextEntryExtends(suite, log, event);
    if log != [] {
      assert LinkOk(suite, log, |log| - 1);
    }
    hide IdFor, ChainHash;
  }

  lemma StepKeepsLog(suite: Suite, s: State, a: Action)
    requires Inv(suite, s) && Enabled(s, a)
    ensures var t := Do(suite, s, a);
      && ChainOk(suite, t.log) && s.log <= t.log
      && IdsDerived(t.log)
  {
    assert PcOk(suite, s, a.p);
    if a.Append? {
      AppendKeepsLog(suite, s.log, PcOf(s, a.p).event);
    }
  }

  lemma StepKeepsAnchor(suite: Suite, s: State, a: Action)
    requires Inv(suite, s) && Enabled(s, a)
    ensures var t := Do(suite, s, a);
      && (t.anchor.Some? ==> t.anchor.value.seqNo < |t.log|
                             && t.anchor.value == MakeAnchor(suite, t.log[t.anchor.value.seqNo]))
      && (s.anchor.Some? ==> t.anchor.Some? && s.anchor.value.seqNo <= t.anchor.value.seqNo)
  {
    assert PcOk(suite, s, a.p);
    if a.Publish? {
      assert LinkOk(suite, s.log, |s.log| - 1);
    }
  }

  lemma StepKeepsPc(suite: Suite, s: State, a: Action, p: Pid)
    requires Inv(suite, s) && Enabled(s, a)
    ensures PcOk(suite, Do(suite, s, a), p)
  {
    assert PcOk(suite, s, a.p) && PcOk(suite, s, p);
    if a.p == p {
      if a.Publish? {
        assert LinkOk(suite, s.log, |s.log| - 1);
      }
    } else {
      assert PcOf(Do(suite, s, a), p) == PcOf(s, p) == Idle;
    }
  }

  /** All steps of one `record` with nobody in between. */
  function SoloRecord(suite: Suite, s: State, p: Pid, event: AuditEvent): State
    requires s.lock.None? && PcOf(s, p).Idle?
  {
    var appended := Do(suite, Do(suite, Do(suite, s, Acquire(p, event)), ReadTip(p)), Append(p));
    Do(suite, Do(suite, Do(suite, appended, Stage(p)), Publish(p)), Return(p))
  }

  /** Alone, a `record` goes through: its event is the new tip, the anchor names it, and the entry is returned. */
  lemma SoloRecordAppends(suite: Suite, s: State, p: Pid, event: AuditEvent)
    requires Inv(suite, s) && s.lock.None? && PcOf(s, p).Idle?
    ensures var t := SoloRecord(suite, s, p, event);
      && |t.log| == |s.log| + 1 && s.log <= t.log && Last(t.log).event == event
      && t.recorded == s.recorded + {Last(t.log)}
      && t.lock.None? && PcOf(t, p).Idle?
      && Accepted(suite, true, t.log, t.anchor)
      && t.anchor.Some? && t.anchor.value.seqNo == |s.log|
  {
    AppendKeepsLog(suite, s.log, event);
    var t := SoloRecord(suite, s, p, event);
    assert LinkOk(suite, t.log, |s.log|);
  }

  lemma StepKeepsInv(suite: Suite, s: State, a: Action)
    requires Inv(suite, s) && Enabled(s, a)
    ensures Inv(suite, Do(suite, s, a)) && Grows(s, Do(suite, s, a))
  {
    var t := Do(suite, s, a);
    StepKeepsLog(suite, s, a);
    StepKeepsAnchor(suite, s, a);
    forall p ensures PcOk(suite, t, p) {
      StepKeepsPc(suite, s, a, p);
    }
    assert PcOk(suite, s, a.p);
    forall e | e in t.recorded ensures Covered(t, e) {
      if e in s.recorded { assert Covered(s, e); }
    }
  }

  lemma {:induction false} RunKeepsInv(suite: Suite, states: seq<State>, actions: seq<Action>, k: nat)
    requires Run(suite, states, actions) && k < |states|
    ensures Inv(suite, states[k])
  {
    if k == 0 {
      forall p ensures PcOk(suite, INITIAL, p) {}
    } else {
      RunKeepsInv(suite, states, actions, k - 1);
      StepKeepsInv(suite, states[k - 1], actions[k - 1]);
    }
  }

  // ---- the theorems ----

  /** The log is append-only, the anchor never moves back, nothing recorded is forgotten. */
  lemma {:induction false} RunGrows(suite: Suite, states: seq<State>, actions: seq<Action>, i: nat, j: nat)
    requires Run(suite, states, actions) && i <= j < |states|
    ensures Grows(states[i], states[j])
    decreases j
  {
    if i < j {
      RunGrows(suite, states, actions, i, j - 1);
      RunKeepsInv(suite, states, actions, j - 1);
      StepKeepsInv(suite, states[j - 1], actions[j - 1]);
    }
  }

  /** One unforked chain numbered 0..n-1 with the ids record derives, and the anchor never ahead of it. */
  lemma LogIsOneChain(suite: Suite, states: seq<State>, actions: seq<Action>, k: nat)
    requires Run(suite, states, actions) && k < |states|
    ensures var s := states[k];
      && ChainOk(suite, s.log)
      && (forall i :: 0 <= i < |s.log| ==> s.log[i].seqNo == i && s.log[i].id == IdFor(i))
      && (forall i, j :: 0 <= i < j < |s.log| ==> s.log[i].id != s.log[j].id)
      && (s.anchor.Some? ==> s.anchor.value.seqNo < |s.log|)
  {
    RunKeepsInv(suite, states, actions, k);
    forall i | 0 <= i < |states[k].log| ensures states[k].log[i].seqNo == i {
      assert LinkOk(suite, states[k].log, i);
    }
    forall i, j | 0 <= i < j < |states[k].log| ensures states[k].log[i].id != states[k].log[j].id { IdsDiffer(i, j); }
  }

  /** The event was passed to `record` before state k. */
  ghost predicate Asked(actions: seq<Action>, k: nat, event: AuditEvent) {
    k <= |actions| && exists m :: 0 <= m < k && actions[m].Acquire? && actions[m].event == event
  }

  /** The event a process carries through `record`. */
  function Carried(pc: Pc): Option<AuditEvent> {
    match pc
    case Locked(event) => Some(event)
    case Read(event, _) => Some(event)
    case _ => None
  }

  lemma StepCarries(suite: Suite, s: State, a: Action, p: Pid)
    requires Enabled(s, a)
    ensures var c := Carried(PcOf(Do(suite, s, a), p));
      c.None? || c == Carried(PcOf(s, p)) || (a.Acquire? && c == Some(a.event))
    ensures forall i :: 0 <= i < |Do(suite, s, a).log| ==>
      (i < |s.log| && Do(suite, s, a).log[i] == s.log[i]) || Some(Do(suite, s, a).log[i].event) == Carried(PcOf(s, a.p))
  {
  }

  lemma {:induction false} CarriedWasAsked(suite: Suite, states: seq<State>, actions: seq<Action>, k: nat, p: Pid)
    requires Run(suite, states, actions) && k < |states| && Carried(PcOf(states[k], p)).Some?
    ensures Asked(actions, k, Carried(PcOf(states[k], p)).value)
  {
    if k > 0 {
      StepCarries(suite, states[k - 1], actions[k - 1], p);
      if Carried(PcOf(states[k], p)) == Carried(PcOf(states[k - 1], p)) {
        CarriedWasAsked(suite, states, actions, k - 1, p);
      }
    }
  }

  /** Every entry of the log records an event somebody asked to have recorded, unchanged. */
  lemma {:induction false} LogHoldsWhatWasAsked(suite: Suite, states: seq<State>, actions: seq<Action>, k: nat, i: nat)
    requires Run(suite, states, actions) && k < |states| && i < |states[k].log|
    ensures Asked(actions, k, states[k].log[i].event)
  {
    if k > 0 {
      StepCarries(suite, states[k - 1], actions[k - 1], actions[k - 1].p);
      if i < |states[k - 1].log| && states[k].log[i] == states[k - 1].log[i] {
        LogHoldsWhatWasAsked(suite, states, actions, k - 1, i);
      } else {
        CarriedWasAsked(suite, states, actions, k - 1, actions[k - 1].p);
      }
    }
  }

  /** At most one process is between taking and releasing the lock. */
  lemma OneWriter(suite: Suite, states: seq<State>, actions: seq<Action>, k: nat, p: Pid, p': Pid)
    requires Run(suite, states, actions) && k < |states|
    requires !PcOf(states[k], p).Idle? && !PcOf(states[k], p').Idle?
    ensures p == p'
  {
    RunKeepsInv(suite, states, actions, k);
    assert PcOk(suite, states[k], p) && PcOk(suite, states[k], p');
  }

  /** What `record` returned stays in every later log, and cutting it off again is always detected. */
  lemma RecordedIsSafe(suite: Suite, states: seq<State>, actions: seq<Action>, i: nat, j: nat, e: AuditEntry)
    requires Run(suite, states, actions) && i <= j < |states| && e in states[i].recorded
    ensures e.seqNo < |states[j].log| && states[j].log[e.seqNo] == e
    ensures forall n: nat :: n <= e.seqNo ==> !Accepted(suite, true, states[j].log[..n], states[j].anchor)
  {
    RunGrows(suite, states, actions, i, j);
    RunKeepsInv(suite, states, actions, j);
    assert Covered(states[j], e);
  }

  /**
   * Whatever somebody makes of the file afterwards: if it passes against the anchor it agrees with the honest
   * log through every entry ever returned, or exhibits a collision.
   */
  lemma RecordedIsBound(suite: Suite, states: seq<State>, actions: seq<Action>, i: nat, j: nat, e: AuditEntry,
                        tampered: seq<AuditEntry>)
    requires suite.Valid() && Run(suite, states, actions) && i <= j < |states| && e in states[i].recorded
    requires Accepted(suite, true, tampered, states[j].anchor)
    ensures e.seqNo < |tampered| && e.seqNo < |states[j].log|
    ensures (tampered[..e.seqNo + 1] == states[j].log[..e.seqNo + 1] && tampered[e.seqNo] == e)
      || exists k :: 0 <= k < |tampered| && k < |states[j].log| && Collision(suite, tampered[k], states[j].log[k])
  {
    var log, anchor := states[j].log, states[j].anchor;
    RunGrows(suite, states, actions, i, j);
    RunKeepsInv(suite, states, actions, j);
    assert Covered(states[j], e);
    VerifyAcceptsIff(suite, states, actions, j);
    hide Run, Inv, Accepted, Collision, Covered;
    AnchorBinds(suite, log, tampered, anchor.value);
    var n := anchor.value.seqNo;
    if tampered[..n + 1] == log[..n + 1] {
      assert tampered[..n + 1][..e.seqNo + 1] == tampered[..e.seqNo + 1] && log[..n + 1][..e.seqNo + 1] == log[..e.seqNo + 1];
      assert tampered[e.seqNo] == tampered[..n + 1][e.seqNo] && log[e.seqNo] == log[..n + 1][e.seqNo];
    }
  }

  /** `verify` as one atomic step: it fails exactly while the log is non-empty and no anchor was ever published. */
  lemma VerifyAcceptsIff(suite: Suite, states: seq<State>, actions: seq<Action>, k: nat)
    requires Run(suite, states, actions) && k < |states|
    ensures Accepted(suite, true, states[k].log, states[k].anchor) <==> states[k].log == [] || states[k].anchor.Some?
    ensures states[k].recorded != {} ==> Accepted(suite, true, states[k].log, states[k].anchor)
  {
    var s := states[k];
    RunKeepsInv(suite, states, actions, k);
    if s.anchor.Some? {
      assert LinkOk(suite, s.log, s.anchor.value.seqNo);
    }
    if s.recorded != {} {
      var e :| e in s.recorded;
      assert Covered(s, e);
    }
  }

  /**
   * `verify` takes no lock and reads the log before the anchor. Reading the log at i and the anchor
   * at j >= i it accepts exactly when the anchor has not overtaken the log it read.
   */
  lemma SplitVerifyAcceptsIff(suite: Suite, states: seq<State>, actions: seq<Action>, i: nat, j: nat)
    requires Run(suite, states, actions) && i <= j < |states|
    ensures Accepted(suite, true, states[i].log, states[j].anchor) <==>
      (states[j].anchor.None? && states[i].log == [])
      || (states[j].anchor.Some? && states[j].anchor.value.seqNo < |states[i].log|)
  {
    RunGrows(suite, states, actions, i, j);
    RunKeepsInv(suite, states, actions, i);
    RunKeepsInv(suite, states, actions, j);
    var a := states[j].anchor;
    if a.Some? && a.value.seqNo < |states[i].log| {
      assert states[i].log[a.value.seqNo] == states[j].log[a.value.seqNo];
      assert LinkOk(suite, states[j].log, a.value.seqNo);
    }
  }


  /** A `record` that completes between the two reads of `verify` makes it report a fault in an honest log. */
  lemma SplitVerifyCanRaiseFalseAlarm(suite: Suite, event: AuditEvent)
    returns (states: seq<State>, actions: seq<Action>)
    ensures Run(suite, states, actions)
    ensures exists i, j :: 0 <= i < j < |states| && !Accepted(suite, true, states[i].log, states[j].anchor)
  {
    actions := [Acquire(0, event), ReadTip(0), Append(0), Stage(0), Publish(0), Return(0)];
    var s1 := Do(suite, INITIAL, actions[0]);
    var s2 := Do(suite, s1, actions[1]);
    var s3 := Do(suite, s2, actions[2]);
    var s4 := Do(suite, s3, actions[3]);
    var s5 := Do(suite, s4, actions[4]);
    var s6 := Do(suite, s5, actions[5]);
    states := [INITIAL, s1, s2, s3, s4, s5, s6];
    assert !Accepted(suite, true, states[0].log, states[6].anchor);
  }

  /** A crash between the first append and the first anchor leaves a log that `verify` rejects. */
  lemma CrashBeforeFirstAnchor(suite: Suite, event: AuditEvent)
    returns (states: seq<State>, actions: seq<Action>)
    ensures Run(suite, states, actions)
    ensures Last(states).lock.None? && !Accepted(suite, true, Last(states).log, Last(states).anchor)
  {
    actions := [Acquire(0, event), ReadTip(0), Append(0), Fail(0)];
    var s1 := Do(suite, INITIAL, actions[0]);
    var s2 := Do(suite, s1, actions[1]);
    var s3 := Do(suite, s2, actions[2]);
    var s4 := Do(suite, s3, actions[3]);
    states := [INITIAL, s1, s2, s3, s4];
  }
}
