/**
 * `atomic_write` as create, write in pieces, sync, rename over inodes, by any number of processes
 * sharing one temp-file name; and the generate-once root key built on it.
 */
module AtomicFile {
  import opened Seqs

  type Pid = nat
  type Inode = nat

  /** `locked`: the directory lock is held throughout. `onlyIfAbsent`: an existing file is read, not replaced. */
  datatype Config = Config(locked: bool, onlyIfAbsent: bool)

  datatype Pc =
    | Idle
    | Entered
    | Creating(content: Bytes)
    | Open(content: Bytes, inode: Inode, written: nat)
    | Synced(content: Bytes, inode: Inode)
    | Renamed(content: Bytes)

  /** `chosen` are the contents processes set out to write, `returned` those they came back with. */
  datatype State = State(
    inodes: map<Inode, Bytes>, nextInode: Inode, temp: Option<Inode>, target: Option<Inode>,
    lock: Option<Pid>, pcs: map<Pid, Pc>, chosen: set<Bytes>, returned: set<Bytes>)

  const INITIAL := State(map[], 0, None, None, None, map[], {}, {})

  function PcOf(s: State, p: Pid): Pc {
    if p in s.pcs then s.pcs[p] else Idle
  }

  /** What a reader of the target path sees. */
  function Content(s: State): Option<Bytes> {
    if s.target.Some? && s.target.value in s.inodes then Some(s.inodes[s.target.value]) else None
  }

  datatype Action =
    | Enter(p: Pid) | Decide(p: Pid, content: Bytes) | Create(p: Pid) | Write(p: Pid, n: nat)
    | Sync(p: Pid) | Rename(p: Pid) | Return(p: Pid) | Fail(p: Pid)

  predicate Enabled(c: Config, s: State, a: Action) {
    var pc := PcOf(s, a.p);
    match a
    case Enter(_) => pc.Idle? && (c.locked ==> s.lock.None?)
    case Decide(_, _) => pc.Entered?
    case Create(_) => pc.Creating?
    case Write(_, n) => pc.Open? && 0 < n <= |pc.content| - pc.written && pc.inode in s.inodes
    case Sync(_) => pc.Open? && pc.written == |pc.content|
    case Rename(_) => pc.Synced? && s.temp.Some?
    case Return(_) => pc.Renamed?
    case Fail(_) => !pc.Idle?
  }

  /** Overwrite `was` from `at` on with `piece`; a gap is filled with zero bytes. */
  function Overwrite(was: Bytes, at: nat, piece: Bytes): Bytes {
    var head := if at <= |was| then was[..at] else was + seq(at - |was|, _ => 0 as byte);
    head + piece + if at + |piece| <= |was| then was[at + |piece|..] else []
  }

  function Leave(c: Config, s: State, p: Pid): State {
    s.(pcs := s.pcs[p := Idle], lock := if c.locked then None else s.lock)
  }

  function Do(c: Config, s: State, a: Action): State
    requires Enabled(c, s, a)
  {
    var p, pc := a.p, PcOf(s, a.p);
    match a
    case Enter(_) => s.(pcs := s.pcs[p := Entered], lock := if c.locked then Some(p) else s.lock)
    case Decide(_, content) =>
      if c.onlyIfAbsent && Content(s).Some? then Leave(c, s, p).(returned := s.returned + {Content(s).value})
      else s.(pcs := s.pcs[p := Creating(content)], chosen := s.chosen + {content})
    // open with truncation: reuses the inode the temp name points to
    case Create(_) =>
      var i := if s.temp.Some? then s.temp.value else s.nextInode;
      s.(inodes := s.inodes[i := []], temp := Some(i), nextInode := if s.temp.Some? then s.nextInode else s.nextInode + 1,
         pcs := s.pcs[p := Open(pc.content, i, 0)])
    case Write(_, n) =>
      s.(inodes := s.inodes[pc.inode := Overwrite(s.inodes[pc.inode], pc.written, pc.content[pc.written..pc.written + n])],
         pcs := s.pcs[p := Open(pc.content, pc.inode, pc.written + n)])
    case Sync(_) => s.(pcs := s.pcs[p := Synced(pc.content, pc.inode)])
    case Rename(_) => s.(target := s.temp, temp := None, pcs := s.pcs[p := Renamed(pc.content)])
    case Return(_) => Leave(c, s, p).(returned := s.returned + {pc.content})
    case Fail(_) => Leave(c, s, p)
  }

  ghost predicate Run(c: Config, states: seq<State>, actions: seq<Action>) {
    && |states| == |actions| + 1
    && states[0] == INITIAL
    && forall k :: 0 <= k < |actions| ==> Enabled(c, states[k], actions[k]) && states[k + 1] == Do(c, states[k], actions[k])
  }

  // ---- with the lock ----

  ghost predicate PcOk(c: Config, s: State, p: Pid) {
    var pc := PcOf(s, p);
    && (!pc.Idle? ==> s.lock == Some(p))
    && (c.onlyIfAbsent && (pc.Creating? || pc.Open? || pc.Synced?) ==> s.target.None?)
    && (pc.Creating? ==> pc.content in s.chosen)
    && (pc.Open? ==>
        && pc.content in s.chosen && s.temp == Some(pc.inode) && pc.inode in s.inodes
        && pc.written <= |pc.content| && s.inodes[pc.inode] == pc.content[..pc.written])
    && (pc.Synced? ==>
        && pc.content in s.chosen && s.temp == Some(pc.inode) && pc.inode in s.inodes
        && s.inodes[pc.inode] == pc.content)
    && (pc.Renamed? ==> Content(s) == Some(pc.content))
  }

  ghost predicate Inv(c: Config, s: State) {
    && (forall i :: i in s.inodes ==> i < s.nextInode)
    && (s.temp.Some? ==> s.temp.value in s.inodes && s.temp != s.target)
    && (s.target.Some? ==> s.target.value in s.inodes && s.inodes[s.target.value] in s.chosen)
    && (forall p :: PcOk(c, s, p))
    && (c.onlyIfAbsent ==> forall b :: b in s.returned ==> Content(s) == Some(b))
  }

  lemma WriteExtends(was: Bytes, content: Bytes, at: nat, n: nat)
    requires at + n <= |content| && was == content[..at]
    ensures Overwrite(was, at, content[at..at + n]) == content[..at + n]
  {
  }

  /** One step: the file a reader sees stays, or becomes the complete content one process set out to write. */
  ghost predicate OldOrNew(c: Config, s: State, a: Action) {
    && Enabled(c, s, a)
    && var t := Do(c, s, a);
      || Content(t) == Content(s)
      || (a.Rename? && Content(t) == Some(PcOf(s, a.p).content))
  }

  lemma StepKeepsInv(c: Config, s: State, a: Action)
    requires c.locked && Inv(c, s) && Enabled(c, s, a)
    ensures Inv(c, Do(c, s, a)) && OldOrNew(c, s, a)
    ensures c.onlyIfAbsent && Content(s).Some? ==> Content(Do(c, s, a)) == Content(s)
  {
    var t := Do(c, s, a);
    var pc := PcOf(s, a.p);
    assert PcOk(c, s, a.p);
    if a.Write? {
      WriteExtends(s.inodes[pc.inode], pc.content, pc.written, a.n);
    }
    if a.Sync? {
      assert pc.content[..pc.written] == pc.content;
    }
    forall p ensures PcOk(c, t, p) {
      assert PcOk(c, s, p);
    }
  }

  lemma {:induction false} RunKeepsInv(c: Config, states: seq<State>, actions: seq<Action>, k: nat)
    requires c.locked && Run(c, states, actions) && k < |states|
    ensures Inv(c, states[k])
  {
    if k == 0 {
      forall p ensures PcOk(c, INITIAL, p) {}
    } else {
      RunKeepsInv(c, states, actions, k - 1);
      StepKeepsInv(c, states[k - 1], actions[k - 1]);
    }
  }

  /** Whatever crashes, a reader never sees anything but nothing or one complete chosen content, old or new. */
  lemma ReadersSeeOldOrNew(c: Config, states: seq<State>, actions: seq<Action>, k: nat)
    requires c.locked && Run(c, states, actions) && k < |actions|
    ensures OldOrNew(c, states[k], actions[k])
    ensures Content(states[k]).Some? ==> Content(states[k]).value in states[k].chosen
  {
    RunKeepsInv(c, states, actions, k);
    StepKeepsInv(c, states[k], actions[k]);
  }

  /** Generate once: after the first rename the content never changes. */
  lemma {:induction false} FirstContentStays(c: Config, states: seq<State>, actions: seq<Action>, i: nat, j: nat)
    requires c.locked && c.onlyIfAbsent && Run(c, states, actions) && i <= j < |states|
    requires Content(states[i]).Some?
    ensures Content(states[j]) == Content(states[i])
    decreases j
  {
    if i < j {
      FirstContentStays(c, states, actions, i, j - 1);
      RunKeepsInv(c, states, actions, j - 1);
      StepKeepsInv(c, states[j - 1], actions[j - 1]);
    }
  }

  // ---- an undisturbed write ----

  ghost predicate Free(c: Config, s: State, p: Pid) {
    c.locked && Inv(c, s) && s.lock.None? && PcOf(s, p).Idle?
  }

  ghost function SoloWrite(c: Config, s: State, p: Pid, content: Bytes): State
    requires Free(c, s, p) && (c.onlyIfAbsent ==> Content(s).None?)
  {
    var created := Do(c, Do(c, Do(c, s, Enter(p)), Decide(p, content)), Create(p));
    var written := if content == [] then created else Do(c, created, Write(p, |content|));
    Do(c, Do(c, Do(c, written, Sync(p)), Rename(p)), Return(p))
  }

  /** Alone, a write goes through: readers see the content, and it is returned. */
  lemma SoloWriteReplaces(c: Config, s: State, p: Pid, content: Bytes)
    requires Free(c, s, p) && (c.onlyIfAbsent ==> Content(s).None?)
    ensures var t := SoloWrite(c, s, p, content);
      && Content(t) == Some(content) && t.returned == s.returned + {content}
      && t.lock.None? && PcOf(t, p).Idle?
  {
    if content != [] {
      assert content[..0] == [] && content[0..0 + |content|] == content;
      WriteExtends([], content, 0, |content|);
    }
  }

  /** And where only an absent file is written, whoever finds one returns what is there and changes nothing. */
  lemma SoloReadReturns(c: Config, s: State, p: Pid, content: Bytes)
    requires Free(c, s, p) && c.onlyIfAbsent && Content(s).Some?
    ensures var t := Do(c, Do(c, s, Enter(p)), Decide(p, content));
      && Content(t) == Content(s) && t.returned == s.returned + {Content(s).value}
      && t.lock.None? && PcOf(t, p).Idle?
  {
  }

  const NO_LOCK := Config(false, false)
  const ONES: Bytes := [1, 1]
  const TWOS: Bytes := [2, 2]

  /** Both processes have opened, and so truncated, the one temp file. */
  const BOTH_OPEN := State(map[0 := []], 1, Some(0), None, None,
    map[0 := Open(ONES, 0, 0), 1 := Open(TWOS, 0, 0)], {ONES, TWOS}, {})

  lemma BothOpen() returns (states: seq<State>, actions: seq<Action>)
    ensures Run(NO_LOCK, states, actions) && Last(states) == BOTH_OPEN
  {
    actions := [Enter(0), Decide(0, ONES), Enter(1), Decide(1, TWOS), Create(0), Create(1)];
    var s1 := Do(NO_LOCK, INITIAL, actions[0]);
    var s2 := Do(NO_LOCK, s1, actions[1]);
    var s3 := Do(NO_LOCK, s2, actions[2]);
    var s4 := Do(NO_LOCK, s3, actions[3]);
    var s5 := Do(NO_LOCK, s4, actions[4]);
    var s6 := Do(NO_LOCK, s5, actions[5]);
    states := [INITIAL, s1, s2, s3, s4, s5, s6];
  }

  lemma RunOn(c: Config, states: seq<State>, actions: seq<Action>, a: Action)
    requires Run(c, states, actions) && Enabled(c, Last(states), a)
    ensures Run(c, states + [Do(c, Last(states), a)], actions + [a])
  {
  }

  /** Two processes that share the temp file without the lock can leave a content nobody wrote. */
  lemma WithoutLockWritesMix() returns (states: seq<State>, actions: seq<Action>)
    ensures Run(NO_LOCK, states, actions)
    ensures Content(Last(states)) == Some([2, 1]) && Last(states).chosen == {[1, 1], [2, 2]}
  {
    states, actions := BothOpen();
    RunOn(NO_LOCK, states, actions, Write(0, 2));
    states, actions := states + [Do(NO_LOCK, Last(states), Write(0, 2))], actions + [Write(0, 2)];
    assert Overwrite([], 0, ONES[0..2]) == ONES;
    RunOn(NO_LOCK, states, actions, Sync(0));
    states, actions := states + [Do(NO_LOCK, Last(states), Sync(0))], actions + [Sync(0)];
    RunOn(NO_LOCK, states, actions, Rename(0));
    states, actions := states + [Do(NO_LOCK, Last(states), Rename(0))], actions + [Rename(0)];
    assert Content(Last(states)) == Some(ONES);
    RunOn(NO_LOCK, states, actions, Write(1, 1));
    states, actions := states + [Do(NO_LOCK, Last(states), Write(1, 1))], actions + [Write(1, 1)];
    assert Overwrite(ONES, 0, TWOS[0..1]) == [2, 1];
  }

  // ---- the root key file: hex digits of 32 random bytes ----

  function HexDigit(n: nat): byte
    requires n < 16
  {
    if n < 10 then (48 + n) as byte else (87 + n) as byte
  }

  function HexEncode(key: Bytes): Bytes {
    if key == [] then [] else [HexDigit(key[0] as nat / 16), HexDigit(key[0] as nat % 16)] + HexEncode(key[1..])
  }

  function HexDecode(text: Bytes): Option<Bytes> {
    if text == [] then Some([])
    else if |text| == 1 then None
    else match (HexValue(text[0]), HexValue(text[1]), HexDecode(text[2..]))
      case (Some(h), Some(l), Some(rest)) => Some([(h * 16 + l) as byte] + rest)
      case _ => None
  }

  lemma {:induction false} HexRoundTrip(key: Bytes)
    ensures HexDecode(HexEncode(key)) == Some(key)
  {
    if key != [] {
      HexRoundTrip(key[1..]);
      assert HexEncode(key)[2..] == HexEncode(key[1..]);
      assert [key[0]] + key[1..] == key;
    }
  }

  const HEX_DIGITS := "0123456789abcdef"

  /** Two lowercase digits to a byte, the high half first. */
  lemma {:induction false} HexDigitsAt(key: Bytes, i: nat)
    requires i < |key|
    ensures |HexEncode(key)| == 2 * |key|
    ensures HexEncode(key)[2 * i] as int == HEX_DIGITS[key[i] as int / 16] as int
    ensures HexEncode(key)[2 * i + 1] as int == HEX_DIGITS[key[i] as int % 16] as int
  {
    LowercaseDigit(key[0] as int / 16);
    LowercaseDigit(key[0] as int % 16);
    var rest := HexEncode(key[1..]);
    assert HexEncode(key)[2..] == rest;
    if i > 0 {
      HexDigitsAt(key[1..], i - 1);
      assert HexEncode(key)[2 * i] == rest[2 * (i - 1)] && HexEncode(key)[2 * i + 1] == rest[2 * (i - 1) + 1];
    } else if |key| > 1 {
      HexDigitsAt(key[1..], 0);
    }
  }

  lemma LowercaseDigit(n: nat)
    requires n < 16
    ensures HexDigit(n) as int == HEX_DIGITS[n] as int
  {
  }

  /** `from_file` keeps the lock and never replaces a file; what it writes is the hex of a fresh key. */
  const ROOT_KEY_FILE := Config(true, true)

  ghost predicate RootKeyRun(states: seq<State>, actions: seq<Action>) {
    && Run(ROOT_KEY_FILE, states, actions)
    && forall k :: 0 <= k < |actions| && actions[k].Decide? ==> exists key: Bytes :: |key| == 32 && actions[k].content == HexEncode(key)
  }

  lemma {:induction false} ChosenAreKeys(states: seq<State>, actions: seq<Action>, k: nat, b: Bytes)
    requires RootKeyRun(states, actions) && k < |states| && b in states[k].chosen
    ensures exists key :: |key| == 32 && b == HexEncode(key) && HexDecode(b) == Some(key)
  {
    if k > 0 {
      if b in states[k - 1].chosen {
        ChosenAreKeys(states, actions, k - 1, b);
      } else {
        assert actions[k - 1].Decide? && actions[k - 1].content == b;
        var key: Bytes :| |key| == 32 && b == HexEncode(key);
        HexRoundTrip(key);
      }
    }
  }

  /**
   * However many processes race and crash, everyone who gets a key, now or later, gets the one on disk.
   */
  lemma EveryoneGetsTheKeyOnDisk(states: seq<State>, actions: seq<Action>, i: nat, j: nat, got: Bytes)
    requires RootKeyRun(states, actions) && i <= j < |states| && got in states[i].returned
    ensures Content(states[j]) == Some(got)
    ensures exists key :: |key| == 32 && HexDecode(got) == Some(key)
  {
    RunKeepsInv(ROOT_KEY_FILE, states, actions, i);
    FirstContentStays(ROOT_KEY_FILE, states, actions, i, j);
    ChosenAreKeys(states, actions, i, got);
  }
}
