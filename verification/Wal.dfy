/** The write-ahead log: a JSON-lines file, its write buffer and the in-memory map of pending
    entries (internal/ipcbus/wal.go). Granularity is one record; of a line's bytes only their
    number is modelled. */
module Wal {
  import opened Common
  import opened Decimal

  datatype State = Pending | Complete | DeadLetter | Unknown(text: string)

  datatype Entry = Entry(id: string, channel: string, state: State, attempts: int, ts: string, msg: Option<Message>)

  /** A line of the file: one that unmarshals, or one that does not. */
  datatype Line = Good(entry: Entry) | Corrupt(length: nat)

  type Entries = map<string, Entry>

  /** 16 MiB: the longest line, newline included, that the recovery scanner accepts. */
  const MAX_LINE: nat := 16 * 1024 * 1024

  // ---- How long a line is ----

  /** The number of bytes in the JSON encoding of a message and of a string. */
  datatype Sizes = Sizes(message: Message -> nat, text: string -> nat)

  /** Quotes around the text and at least one byte for each character. */
  ghost predicate Lawful(z: Sizes) { forall t :: z.text(t) >= |t| + 2 }

  function StateText(s: State): string {
    match s
    case Pending => "pending"
    case Complete => "complete"
    case DeadLetter => "dlq"
    case Unknown(t) => t
  }

  function LineLen(z: Sizes, e: Entry): nat {
    |"{\"id\":"| + z.text(e.id) + |",\"channel\":"| + z.text(e.channel) + |",\"state\":"| + z.text(StateText(e.state))
    + |",\"attempts\":"| + |FormatInt(e.attempts)| + |",\"ts\":"| + z.text(e.ts)
    + (if e.msg.Some? then |",\"msg\":"| + z.message(e.msg.value) else 0) + |"}\n"|
  }

  function Length(z: Sizes, line: Line): nat { match line case Good(e) => LineLen(z, e) case Corrupt(n) => n }

  predicate Fits(z: Sizes, line: Line) { Length(z, line) <= MAX_LINE }

  predicate AllFit(z: Sizes, log: seq<Line>) { forall i | 0 <= i < |log| :: Fits(z, log[i]) }

  /** What a log line adds to the message it wraps, at the least. */
  const WRAPPER: nat := 69

  /** The exact length of a fresh entry's line, and so when a restart can read it: up to 16 MiB. */
  lemma FreshLineFitsIff(z: Sizes, msg: Message, ts: string)
    ensures var len := z.message(msg) + z.text(msg.id) + z.text(msg.channel) + z.text("pending") + z.text(ts) + 54;
            LineLen(z, NewEntry(msg, ts)) == len && (Fits(z, Good(NewEntry(msg, ts))) <==> len <= 0x100_0000)
  {
    assert |FormatInt(1)| == 1;
  }

  /** The exact length of a record without a message, as Complete and MarkDLQ write it. */
  lemma ShortLineLen(z: Sizes, e: Entry)
    requires e.msg.None?
    ensures LineLen(z, e)
            == z.text(e.id) + z.text(e.channel) + z.text(StateText(e.state)) + z.text(e.ts)
               + |FormatInt(e.attempts)| + 46
  {
  }

  /** The line of a fresh entry is longer than its message, so the limit the scanner shares with
      the framing leaves the longest messages no room. */
  lemma FreshLineLen(z: Sizes, msg: Message, ts: string)
    requires Lawful(z)
    ensures LineLen(z, NewEntry(msg, ts)) >= z.message(msg) + WRAPPER + |msg.id| + |msg.channel| + |ts|
    ensures z.message(msg) > MAX_LINE - WRAPPER ==> !Fits(z, Good(NewEntry(msg, ts)))
  {
    assert |FormatInt(1)| >= 1;
    assert z.text("pending") >= 9;
  }

  // ---- What a log means ----

  function ReplayLine(m: Entries, line: Line): Entries {
    match line
    case Corrupt(_) => m
    case Good(e) =>
      match e.state
      case Pending => m[e.id := e]
      case Complete => m - {e.id}
      case DeadLetter => m - {e.id}
      case Unknown(_) => m
  }

  function Replay(m: Entries, log: seq<Line>): Entries {
    if log == [] then m else ReplayLine(Replay(m, log[..|log| - 1]), log[|log| - 1])
  }

  /** The line decides whether `id` is pending. */
  predicate Decides(line: Line, id: string) {
    line.Good? && line.entry.id == id && !line.entry.state.Unknown?
  }

  ghost predicate LastWord(log: seq<Line>, id: string, i: nat) {
    i < |log| && Decides(log[i], id) && forall j | i < j < |log| :: !Decides(log[j], id)
  }

  /** Independent reading of a log: an entry is pending exactly when the last record about its
      id is a pending one, and it is that record. */
  lemma {:induction false} ReplayIsLastWord(log: seq<Line>, id: string)
    ensures id in Replay(map[], log)
            <==> exists i: nat :: LastWord(log, id, i) && log[i].entry.state == Pending
    ensures forall i: nat | LastWord(log, id, i) && log[i].entry.state == Pending ::
              id in Replay(map[], log) && Replay(map[], log)[id] == log[i].entry
  {
    if log != [] {
      var n := |log| - 1;
      var before := log[..n];
      ReplayIsLastWord(before, id);
      if Decides(log[n], id) {
        assert LastWord(log, id, n);
      } else {
        forall i: nat ensures LastWord(log, id, i) <==> LastWord(before, id, i) {
          if LastWord(log, id, i) { assert forall j | i < j < n :: before[j] == log[j]; }
          if LastWord(before, id, i) { assert forall j | i < j < n :: before[j] == log[j]; }
        }
      }
    }
  }

  /** Every entry is filed under its own id and is a pending record. */
  ghost predicate Keyed(m: Entries) {
    forall id | id in m :: m[id].id == id && m[id].state == Pending
  }

  lemma {:induction false} ReplayKeyed(m: Entries, log: seq<Line>)
    requires Keyed(m)
    ensures Keyed(Replay(m, log))
  {
    if log != [] { ReplayKeyed(m, log[..|log| - 1]); }
  }

  lemma {:induction false} ReplayConcat(m: Entries, a: seq<Line>, b: seq<Line>)
    ensures Replay(m, a + b) == Replay(Replay(m, a), b)
  {
    if b == [] {
      assert a + b == a;
    } else {
      ReplayConcat(m, a, b[..|b| - 1]);
      assert (a + b)[..|a + b| - 1] == a + b[..|b| - 1];
    }
  }

  // ---- What one operation does to memory, and the record it writes ----

  datatype Op =
    | Append(msg: Message, ts: string)
    | MarkComplete(id: string, ts: string)
    | MarkDLQ(id: string, ts: string)
    | IncrementAttempts(id: string, ts: string)

  datatype Effect = Effect(entries: Entries, written: Option<Entry>)

  function NewEntry(msg: Message, ts: string): Entry {
    Entry(msg.id, msg.channel, Pending, 1, ts, Some(msg))
  }

  /** Operations on an id that is not pending are errors and write nothing. */
  function Exec(m: Entries, op: Op): Effect {
    match op
    case Append(msg, ts) =>
      var e := NewEntry(msg, ts);
      Effect(m[msg.id := e], Some(e))
    case MarkComplete(id, ts) =>
      if id !in m then Effect(m, None)
      else Effect(m - {id}, Some(Entry(m[id].id, m[id].channel, Complete, m[id].attempts, ts, None)))
    case MarkDLQ(id, ts) =>
      if id !in m then Effect(m, None)
      else Effect(m - {id}, Some(Entry(m[id].id, m[id].channel, DeadLetter, m[id].attempts, ts, None)))
    case IncrementAttempts(id, ts) =>
      if id !in m then Effect(m, None)
      else
        var e := m[id].(attempts := m[id].attempts + 1, ts := ts);
        Effect(m[id := e], Some(e))
  }

  function Record(w: Option<Entry>): seq<Line> { if w.Some? then [Good(w.value)] else [] }

  /** The record an operation writes carries exactly its effect on memory. */
  lemma ExecIsReplayed(m: Entries, op: Op)
    requires Keyed(m)
    ensures Keyed(Exec(m, op).entries)
    ensures Replay(m, Record(Exec(m, op).written)) == Exec(m, op).entries
  {
    var w := Exec(m, op).written;
    if w.Some? {
      assert Record(w)[..0] == [];
      assert Replay(m, Record(w)) == ReplayLine(m, Good(w.value));
    }
  }

  // ---- Runs of operations ----

  function Memory(m: Entries, ops: seq<Op>): Entries {
    if ops == [] then m else Exec(Memory(m, ops[..|ops| - 1]), ops[|ops| - 1]).entries
  }

  /** What the last operation of a run wrote. */
  function LastWrite(m: Entries, ops: seq<Op>): (w: seq<Line>)
    requires ops != []
    ensures |w| <= 1
  {
    Record(Exec(Memory(m, ops[..|ops| - 1]), ops[|ops| - 1]).written)
  }

  function Written(m: Entries, ops: seq<Op>): seq<Line> {
    if ops == [] then [] else Written(m, ops[..|ops| - 1]) + LastWrite(m, ops)
  }

  /** The number of operations up to and including the one that wrote record `k - 1`. */
  function WriterOf(m: Entries, ops: seq<Op>, k: nat): (j: nat)
    requires k <= |Written(m, ops)|
    ensures j <= |ops| && (k > 0 ==> j > 0)
  {
    if k == 0 then 0
    else if k > |Written(m, ops[..|ops| - 1])| then |ops|
    else WriterOf(m, ops[..|ops| - 1], k)
  }

  lemma {:induction false} WriterPrefix(m: Entries, ops: seq<Op>, k: nat)
    requires k <= |Written(m, ops)|
    ensures var j := WriterOf(m, ops, k);
            && Written(m, ops[..j]) == Written(m, ops)[..k]
            && (k > 0 ==> LastWrite(m, ops[..j]) == [Written(m, ops)[k - 1]])
  {
    if k > 0 {
      var before := ops[..|ops| - 1];
      var w, l := Written(m, before), LastWrite(m, ops);
      assert Written(m, ops) == w + l;
      if k > |w| {
        assert ops[..|ops|] == ops && (w + l)[..k] == w + l && l == [(w + l)[k - 1]];
      } else {
        WriterPrefix(m, before, k);
        assert ops[..WriterOf(m, before, k)] == before[..WriterOf(m, before, k)];
        assert (w + l)[..k] == w[..k];
      }
    }
  }

  /** Replaying everything written rebuilds the present memory. */
  lemma {:induction false} WholeReplay(m: Entries, ops: seq<Op>)
    requires Keyed(m)
    ensures Keyed(Memory(m, ops)) && Replay(m, Written(m, ops)) == Memory(m, ops)
  {
    if ops != [] {
      var before := ops[..|ops| - 1];
      WholeReplay(m, before);
      ExecIsReplayed(Memory(m, before), ops[|ops| - 1]);
      ReplayConcat(m, Written(m, before), LastWrite(m, ops));
    }
  }

  /** Crash recovery: replaying any prefix of the records rebuilds exactly the memory that held
      after the operation that wrote the prefix's last record. */
  lemma PrefixReplay(m: Entries, ops: seq<Op>, k: nat)
    requires Keyed(m) && k <= |Written(m, ops)|
    ensures var j := WriterOf(m, ops, k);
            && Replay(m, Written(m, ops)[..k]) == Memory(m, ops[..j])
            && (k > 0 ==> LastWrite(m, ops[..j]) == [Written(m, ops)[k - 1]])
  {
    WriterPrefix(m, ops, k);
    WholeReplay(m, ops[..WriterOf(m, ops, k)]);
  }

  /** Every pending record the log ever writes carries its message. */
  lemma {:induction false} WrittenCarriesMessages(m: Entries, ops: seq<Op>)
    requires forall id | id in m :: m[id].msg.Some?
    ensures forall id | id in Memory(m, ops) :: Memory(m, ops)[id].msg.Some?
    ensures forall i | 0 <= i < |Written(m, ops)| ::
              var line := Written(m, ops)[i];
              line.Good? && (line.entry.state == Pending ==> line.entry.msg.Some?)
  {
    if ops != [] {
      WrittenCarriesMessages(m, ops[..|ops| - 1]);
      var l := LastWrite(m, ops);
      assert Written(m, ops) == Written(m, ops[..|ops| - 1]) + l;
    }
  }

  // ---- Compaction ----

  /** Some iteration order of the map: every entry once. */
  ghost predicate Enumerates(order: seq<Entry>, m: Entries) {
    && (forall i | 0 <= i < |order| :: order[i].id in m && m[order[i].id] == order[i])
    && (forall i, j | 0 <= i < j < |order| :: order[i].id != order[j].id)
    && (forall id | id in m :: m[id] in order)
  }

  function AsLines(order: seq<Entry>): (r: seq<Line>)
    ensures |r| == |order| && forall i | 0 <= i < |r| :: r[i] == Good(order[i])
  {
    seq(|order|, i requires 0 <= i < |order| => Good(order[i]))
  }

  lemma {:induction false} ReplayOfPending(order: seq<Entry>, id: string)
    requires forall i | 0 <= i < |order| :: order[i].state == Pending
    requires forall i, j | 0 <= i < j < |order| :: order[i].id != order[j].id
    ensures id in Replay(map[], AsLines(order)) <==> exists i :: 0 <= i < |order| && order[i].id == id
    ensures forall i | 0 <= i < |order| && order[i].id == id :: Replay(map[], AsLines(order))[id] == order[i]
  {
    if order != [] {
      var n := |order| - 1;
      ReplayOfPending(order[..n], id);
      assert AsLines(order)[..n] == AsLines(order[..n]);
      if id in Replay(map[], AsLines(order[..n])) {
        var i :| 0 <= i < n && order[..n][i].id == id;
        assert order[i].id == id;
      }
    }
  }

  /** In whatever order the map is visited, the compacted file recovers to the same map. */
  lemma CompactedRecovers(order: seq<Entry>, m: Entries)
    requires Keyed(m) && Enumerates(order, m)
    ensures Replay(map[], AsLines(order)) == m
  {
    var r := Replay(map[], AsLines(order));
    forall id ensures id in r <==> id in m
    {
      ReplayOfPending(order, id);
      if id in m {
        var i :| 0 <= i < |order| && order[i] == m[id];
        assert order[i].id == id;
      }
    }
    forall id | id in m ensures r[id] == m[id] {
      ReplayOfPending(order, id);
      var i :| 0 <= i < |order| && order[i] == m[id];
    }
  }

  // ---- Whole lifetimes: buffering, flushing, compaction, crashes and restarts ----

  /** `log` is file and buffer together; its first `synced` records are known to be on disk. After
      a failed restart the log is not `up`: the file is there and nobody has it open. */
  datatype Sys = Sys(log: seq<Line>, synced: nat, entries: Entries, up: bool)

  datatype Event = Do(op: Op) | Flush | Compact(order: seq<Entry>) | CrashRestart(keep: nat)

  ghost predicate Opened(z: Sizes, s: Sys) {
    s.up && AllFit(z, s.log) && s.synced == |s.log| && s.entries == Replay(map[], s.log)
  }

  ghost predicate Enabled(s: Sys, ev: Event) {
    match ev
    case Compact(order) => s.up && Enumerates(order, s.entries)
    case CrashRestart(keep) => s.synced <= keep <= |s.log|
    case _ => s.up
  }

  /** A crash keeps a prefix of the log with everything synced in it; the restart fails exactly
      when a line of that prefix is too long for the scanner. */
  function Step(z: Sizes, s: Sys, ev: Event): Sys
    requires ev.CrashRestart? ==> ev.keep <= |s.log|
  {
    match ev
    case Do(op) =>
      var e := Exec(s.entries, op);
      s.(log := s.log + Record(e.written), entries := e.entries)
    case Flush => s.(synced := |s.log|)
    case Compact(order) => s.(log := AsLines(order), synced := |order|)
    case CrashRestart(keep) =>
      var kept := s.log[..keep];
      if AllFit(z, kept) then Sys(kept, s.synced, Replay(map[], kept), true) else Sys(kept, s.synced, map[], false)
  }

  ghost predicate StepsTo(z: Sizes, s: Sys, s': Sys) { exists ev :: Enabled(s, ev) && s' == Step(z, s, ev) }

  ghost predicate Lifetime(z: Sizes, t: seq<Sys>) {
    && |t| > 0 && Opened(z, t[0])
    && forall i | 0 <= i < |t| - 1 :: StepsTo(z, t[i], t[i + 1])
  }

  ghost predicate Consistent(s: Sys) {
    s.synced <= |s.log| && s.entries == if s.up then Replay(map[], s.log) else map[]
  }

  lemma StepConsistent(z: Sizes, s: Sys, ev: Event)
    requires Enabled(s, ev) && Consistent(s)
    ensures Consistent(Step(z, s, ev))
  {
    ReplayKeyed(map[], s.log);
    match ev
    case Do(op) =>
      ExecIsReplayed(s.entries, op);
      ReplayConcat(map[], s.log, Record(Exec(s.entries, op).written));
    case Flush =>
    case Compact(order) => CompactedRecovers(order, s.entries);
    case CrashRestart(keep) =>
  }

  lemma LifetimePrefix(z: Sizes, t: seq<Sys>) returns (ev: Event)
    requires Lifetime(z, t) && |t| > 1
    ensures Lifetime(z, t[..|t| - 1])
    ensures var s := t[|t| - 2]; Enabled(s, ev) && t[|t| - 1] == Step(z, s, ev)
  {
    var p := t[..|t| - 1];
    forall i | 0 <= i < |p| - 1 ensures StepsTo(z, p[i], p[i + 1]) {
      assert p[i] == t[i] && p[i + 1] == t[i + 1];
    }
    var s := t[|t| - 2];
    assert StepsTo(z, s, t[|t| - 2 + 1]);
    ev :| Enabled(s, ev) && t[|t| - 1] == Step(z, s, ev);
  }

  lemma {:induction false} LifetimeConsistent(z: Sizes, t: seq<Sys>)
    requires Lifetime(z, t)
    ensures Consistent(t[|t| - 1])
    decreases |t|
  {
    if |t| > 1 {
      var ev := LifetimePrefix(z, t);
      LifetimeConsistent(z, t[..|t| - 1]);
      StepConsistent(z, t[|t| - 2], ev);
    }
  }

  /** At some moment of the lifetime the open log had exactly these records and this memory. */
  ghost predicate Was(t: seq<Sys>, log: seq<Line>, m: Entries) {
    exists i :: 0 <= i < |t| && t[i].up && t[i].log == log && t[i].entries == m
  }

  lemma {:induction false} PrefixWasThere(z: Sizes, t: seq<Sys>, keep: nat)
    requires Lifetime(z, t)
    requires t[|t| - 1].synced <= keep <= |t[|t| - 1].log|
    ensures var kept := t[|t| - 1].log[..keep]; Was(t, kept, Replay(map[], kept))
    decreases |t|
  {
    var n := |t| - 1;
    var s := t[n];
    LifetimeConsistent(z, t);
    assert s.log[..|s.log|] == s.log;
    if keep < |s.log| || !s.up {
      var ev := LifetimePrefix(z, t);
      var p := t[..n];
      LifetimeConsistent(z, p);
      StepBack(z, t[n - 1], ev, keep);
      PrefixWasThere(z, p, keep);
      WasLater(p, t, s.log[..keep], Replay(map[], s.log[..keep]));
    }
  }

  lemma WasLater(p: seq<Sys>, t: seq<Sys>, log: seq<Line>, m: Entries)
    requires p <= t && Was(p, log, m)
    ensures Was(t, log, m)
  {
    var i :| 0 <= i < |p| && p[i].up && p[i].log == log && p[i].entries == m;
    assert t[i] == p[i];
  }

  /** In every lifetime, whatever prefix of the log a crash leaves (never less than was synced), the
      records are those of an earlier moment. So the restart either brings that moment's memory back
      or stops at a line that does not fit. */
  lemma CrashRecoversAnEarlierMoment(z: Sizes, t: seq<Sys>, keep: nat)
    requires Lifetime(z, t)
    requires t[|t| - 1].synced <= keep <= |t[|t| - 1].log|
    ensures var s := t[|t| - 1];
            var r := Step(z, s, CrashRestart(keep));
            && Was(t, r.log, Replay(map[], r.log))
            && (if r.up then r.entries == Replay(map[], r.log) else exists i :: 0 <= i < keep && !Fits(z, s.log[i]))
  {
    PrefixWasThere(z, t, keep);
    var kept := t[|t| - 1].log[..keep];
    if !AllFit(z, kept) {
      var i :| 0 <= i < keep && !Fits(z, kept[i]);
      assert !Fits(z, t[|t| - 1].log[i]);
    }
  }

  /** Records that a crash can still take away, and those of a log that did not come up, were there
      one step before. */
  lemma StepBack(z: Sizes, s: Sys, ev: Event, keep: nat)
    requires Enabled(s, ev) && Consistent(s)
    requires var s' := Step(z, s, ev); s'.synced <= keep <= |s'.log| && (keep < |s'.log| || !s'.up)
    ensures s.synced <= keep <= |s.log| && s.log[..keep] == Step(z, s, ev).log[..keep]
  {
  }

  /** A log whose lines have always fitted comes up after every crash. */
  lemma {:induction false} FittingStaysUp(z: Sizes, t: seq<Sys>)
    requires Lifetime(z, t) && forall i | 0 <= i < |t| :: AllFit(z, t[i].log)
    ensures t[|t| - 1].up
    decreases |t|
  {
    if |t| > 1 {
      var ev := LifetimePrefix(z, t);
      var p := t[..|t| - 1];
      forall i | 0 <= i < |p| ensures AllFit(z, p[i].log) { assert p[i] == t[i]; }
      FittingStaysUp(z, p);
    }
  }

  /** Down, with a line on disk that does not fit. */
  ghost predicate Stuck(z: Sizes, s: Sys) {
    !s.up && exists i :: 0 <= i < s.synced <= |s.log| && !Fits(z, s.log[i])
  }

  /** One such line on disk is final: nothing the log itself does ever opens it again. */
  lemma StuckForGood(z: Sizes, s: Sys, ev: Event)
    requires Stuck(z, s) && Enabled(s, ev)
    ensures Stuck(z, Step(z, s, ev)) && Step(z, s, ev).log[..s.synced] == s.log[..s.synced]
  {
    var i :| 0 <= i < s.synced <= |s.log| && !Fits(z, s.log[i]);
    var s' := Step(z, s, ev);
    assert ev.CrashRestart? && s'.log[i] == s.log[i] && s'.synced == s.synced;
    assert !Fits(z, s.log[..ev.keep][i]);
  }

  // ---- Messages survive ----

  /** Every pending record carries its message. */
  ghost predicate Carrying(log: seq<Line>) {
    forall i | 0 <= i < |log| && log[i].Good? && log[i].entry.state == Pending :: log[i].entry.msg.Some?
  }

  lemma {:induction false} ReplayCarries(log: seq<Line>)
    requires Carrying(log)
    ensures forall id | id in Replay(map[], log) :: Replay(map[], log)[id].msg.Some?
  {
    if log != [] { ReplayCarries(log[..|log| - 1]); }
  }

  lemma ExecCarries(m: Entries, op: Op)
    requires forall id | id in m :: m[id].msg.Some?
    ensures Carrying(Record(Exec(m, op).written))
  {
  }

  lemma StepCarries(z: Sizes, s: Sys, ev: Event)
    requires Enabled(s, ev) && Consistent(s) && Carrying(s.log)
    ensures Carrying(Step(z, s, ev).log)
  {
    ReplayCarries(s.log);
    if ev.Do? { ExecCarries(s.entries, ev.op); }
  }

  /** Through operations, compactions, crashes and restarts alike, every pending record and every
      pending entry keeps its message. */
  lemma {:induction false} LifetimeCarries(z: Sizes, t: seq<Sys>)
    requires Lifetime(z, t) && Carrying(t[0].log)
    ensures var s := t[|t| - 1]; Carrying(s.log) && forall id | id in s.entries :: s.entries[id].msg.Some?
    decreases |t|
  {
    if |t| > 1 {
      var ev := LifetimePrefix(z, t);
      LifetimeCarries(z, t[..|t| - 1]);
      LifetimeConsistent(z, t[..|t| - 1]);
      StepCarries(z, t[|t| - 2], ev);
    }
    LifetimeConsistent(z, t);
    ReplayCarries(t[|t| - 1].log);
  }

  // ---- A torn last line ----

  type pos = n: int | n > 0 witness 1

  /** How the file ends: behind a newline, some bytes into a record, or between a record and its
      newline. */
  datatype Tail = Clean | Cut(bytes: pos) | Unended(entry: Entry)

  /** The bytes left behind the last newline. */
  function TailLen(z: Sizes, tail: Tail): nat {
    match tail
    case Clean => 0
    case Cut(n) => n
    case Unended(e) => LineLen(z, e) - 1
  }

  /** The lines a scan finds after a crash left `kept` and `tail` and the reopened log appended `more`
      right behind them. Run together with what was torn, the first of these does not unmarshal. An
      unended line needs room for the newline it lacks. */
  function Rescan(z: Sizes, kept: seq<Line>, tail: Tail, more: seq<Line>): seq<Line> {
    if tail.Clean? then kept + more
    else if more != [] then kept + [Corrupt(TailLen(z, tail) + Length(z, more[0]))] + more[1..]
    else if tail.Unended? then kept + [Good(tail.entry)]
    else kept + [Corrupt(tail.bytes + 1)]
  }

  /** The records such a tail costs: the next one written, and the one that lacked its newline. */
  function Swallowed(tail: Tail, more: seq<Line>): seq<Line> {
    if tail.Clean? || more == [] then []
    else (if tail.Unended? then [Good(tail.entry)] else []) + more[..1]
  }

  ghost predicate DecidedIn(log: seq<Line>, id: string) { exists i :: 0 <= i < |log| && Decides(log[i], id) }

  ghost predicate SameAt(a: Entries, b: Entries, id: string) {
    (id in a <==> id in b) && (id in a ==> a[id] == b[id])
  }

  lemma {:induction false} ReplayAt(a: Entries, b: Entries, log: seq<Line>, id: string)
    ensures DecidedIn(log, id) || SameAt(a, b, id) ==> SameAt(Replay(a, log), Replay(b, log), id)
    ensures !DecidedIn(log, id) ==> SameAt(Replay(a, log), a, id) && SameAt(Replay(b, log), b, id)
  {
    if log != [] {
      var n := |log| - 1;
      ReplayAt(a, b, log[..n], id);
      if !Decides(log[n], id) && DecidedIn(log, id) {
        var i :| 0 <= i < |log| && Decides(log[i], id);
        assert Decides(log[..n][i], id);
      }
      if DecidedIn(log[..n], id) {
        var i :| 0 <= i < n && Decides(log[..n][i], id);
        assert Decides(log[i], id);
      }
    }
  }

  /** Leaving records out changes nothing exactly for the ids that a later record decides or that the
      records left out did not change. */
  lemma SkippedIff(m: Entries, lost: seq<Line>, rest: seq<Line>)
    ensures Replay(m, lost + rest) == Replay(m, rest)
            <==> forall id :: DecidedIn(rest, id) || SameAt(Replay(m, lost), m, id)
  {
    ReplayConcat(m, lost, rest);
    var a, b := Replay(Replay(m, lost), rest), Replay(m, rest);
    forall id ensures SameAt(a, b, id) <==> DecidedIn(rest, id) || SameAt(Replay(m, lost), m, id) {
      ReplayAt(Replay(m, lost), m, rest, id);
    }
    if forall id :: DecidedIn(rest, id) || SameAt(Replay(m, lost), m, id) {
      forall id ensures (id in a <==> id in b) && (id in a ==> a[id] == b[id]) { assert SameAt(a, b, id); }
      assert a == b;
    }
    if a == b {
      forall id ensures DecidedIn(rest, id) || SameAt(Replay(m, lost), m, id) { assert SameAt(a, b, id); }
    }
  }

  lemma RescanMeans(z: Sizes, kept: seq<Line>, tail: Tail, more: seq<Line>)
    requires more != []
    ensures var rest := if tail.Clean? then more else more[1..];
            var m := Replay(map[], kept);
            && Replay(map[], Rescan(z, kept, tail, more)) == Replay(m, rest)
            && Replay(Replay(map[], Rescan(z, kept, tail, [])), more) == Replay(m, Swallowed(tail, more) + rest)
  {
    if tail.Clean? {
      ReplayConcat(map[], kept, more);
      assert kept + [] == kept && [] + more == more;
    } else {
      var m := Replay(map[], kept);
      assert Rescan(z, kept, tail, [])[..|kept|] == kept;
      var joined := kept + [Rescan(z, kept, tail, more)[|kept|]];
      ReplayConcat(map[], joined, more[1..]);
      assert joined[..|kept|] == kept && Rescan(z, kept, tail, more) == joined + more[1..];
      RejoinTail(m, tail, more);
    }
  }

  lemma RejoinTail(m: Entries, tail: Tail, more: seq<Line>)
    requires !tail.Clean? && more != []
    ensures Replay(m, Swallowed(tail, more) + more[1..])
            == Replay(if tail.Unended? then ReplayLine(m, Good(tail.entry)) else m, more)
  {
    if tail.Unended? {
      var e := [Good(tail.entry)];
      assert Swallowed(tail, more) + more[1..] == e + more;
      ReplayConcat(m, e, more);
      assert e[..0] == [];
    } else {
      assert Swallowed(tail, more) + more[1..] == more;
    }
  }

  /** Lines that fit on their own still fit behind the tail exactly when the first does not make the
      torn line too long. */
  lemma RescanFits(z: Sizes, kept: seq<Line>, tail: Tail, more: seq<Line>)
    requires AllFit(z, kept) && more != []
    ensures AllFit(z, Rescan(z, kept, tail, more))
            <==> TailLen(z, tail) + Length(z, more[0]) <= MAX_LINE && AllFit(z, more[1..])
  {
    var first := if tail.Clean? then more[0] else Corrupt(TailLen(z, tail) + Length(z, more[0]));
    var lines := Rescan(z, kept, tail, more);
    assert lines == kept + [first] + more[1..];
    assert Fits(z, first) <==> TailLen(z, tail) + Length(z, more[0]) <= MAX_LINE;
    if AllFit(z, lines) {
      assert Fits(z, lines[|kept|]);
      forall i | 0 <= i < |more[1..]| ensures Fits(z, more[1..][i]) { assert Fits(z, lines[|kept| + 1 + i]); }
    }
  }

  /** The restart right after the tear: it comes up exactly when what is left behind the last newline is
      shorter than the limit, and then with the whole records and an unended one, if any. */
  lemma TornRestartIff(z: Sizes, kept: seq<Line>, tail: Tail)
    requires AllFit(z, kept)
    ensures AllFit(z, Rescan(z, kept, tail, [])) <==> TailLen(z, tail) < 0x100_0000
    ensures Replay(map[], Rescan(z, kept, tail, []))
            == if tail.Unended? then ReplayLine(Replay(map[], kept), Good(tail.entry)) else Replay(map[], kept)
  {
    var lines := Rescan(z, kept, tail, []);
    if tail.Clean? {
      assert lines == kept;
    } else {
      assert lines[..|kept|] == kept && |lines| == |kept| + 1;
      assert Fits(z, lines[|kept|]) <==> TailLen(z, tail) < 0x100_0000;
    }
  }

  /** The next restart comes up with all of memory. */
  ghost predicate Recovers(z: Sizes, lines: seq<Line>, m: Entries) { AllFit(z, lines) && Replay(map[], lines) == m }

  /** Every id is decided by a later record or was left by the swallowed ones as it was. */
  ghost predicate NothingSwallowed(kept: seq<Line>, tail: Tail, more: seq<Line>)
    requires more != []
  {
    var m := Replay(map[], kept);
    var rest := if tail.Clean? then more else more[1..];
    forall id :: DecidedIn(rest, id) || SameAt(Replay(m, Swallowed(tail, more)), m, id)
  }

  /** A log reopened over a torn line goes on appending behind it. The next restart brings back all that
      the operations `ops` have done exactly when the line they were joined to is not too long, the
      records behind it fit, and no id depends on a swallowed record. */
  lemma TornTailKeepsIff(z: Sizes, kept: seq<Line>, tail: Tail, ops: seq<Op>)
    requires AllFit(z, kept)
    requires var m := Replay(map[], Rescan(z, kept, tail, [])); Written(m, ops) != []
    ensures var m := Replay(map[], Rescan(z, kept, tail, []));
            var more := Written(m, ops);
            Recovers(z, Rescan(z, kept, tail, more), Memory(m, ops))
            <==> && TailLen(z, tail) + Length(z, more[0]) <= MAX_LINE && AllFit(z, more[1..])
                 && NothingSwallowed(kept, tail, more)
  {
    var m := Replay(map[], Rescan(z, kept, tail, []));
    var more := Written(m, ops);
    ReplayKeyed(map[], Rescan(z, kept, tail, []));
    WholeReplay(m, ops);
    RescanMeans(z, kept, tail, more);
    RescanFits(z, kept, tail, more);
    SkippedIff(Replay(map[], kept), Swallowed(tail, more), if tail.Clean? then more else more[1..]);
  }

  /** A record appended twice depends on no swallowed one, and the restart fails all the same when its
      first copy makes the torn line too long, although each line fits on its own. */
  lemma JoinedLineTooLong(z: Sizes, kept: seq<Line>, n: pos, msg: Message, ts: string)
    requires AllFit(z, kept)
    requires var len := LineLen(z, NewEntry(msg, ts)); len <= MAX_LINE < n + len
    ensures var line := Good(NewEntry(msg, ts));
            && AllFit(z, [line, line]) && NothingSwallowed(kept, Cut(n), [line, line])
            && !AllFit(z, Rescan(z, kept, Cut(n), [line, line]))
  {
    var line := Good(NewEntry(msg, ts));
    var more, m := [line, line], Replay(map[], kept);
    RescanFits(z, kept, Cut(n), more);
    assert more[..1] == [line] && more[1..] == [line] && [line][..0] == [];
    assert Replay(m, [line]) == m[msg.id := line.entry];
    assert DecidedIn(more[1..], msg.id) by { assert Decides(more[1..][0], msg.id); }
  }

  /** In particular the first new message after such a restart is gone at the next one. */
  lemma TornTailLosesMessage(z: Sizes, kept: seq<Line>, tail: Tail, msg: Message, ts: string)
    requires !tail.Clean? && msg.id !in Replay(map[], kept)
    ensures var m := Replay(map[], Rescan(z, kept, tail, []));
            var more := Written(m, [Append(msg, ts)]);
            msg.id in Memory(m, [Append(msg, ts)]) && msg.id !in Replay(map[], Rescan(z, kept, tail, more))
  {
    var m := Replay(map[], Rescan(z, kept, tail, []));
    var ops := [Append(msg, ts)];
    assert ops[..0] == [] && Written(m, ops) == [] + LastWrite(m, ops);
    RescanMeans(z, kept, tail, Written(m, ops));
  }

  // ---- The object ----

  /** Where a flush can stop. */
  datatype FlushStop = Flushing | Syncing | Flushed

  /** Where a compaction can stop. Every failure returns an error. */
  datatype CompactStop = WritingTemp | FlushingOld | ClosingOld | Renaming | Reopening | Finished

  /** What the scanner makes of one line. */
  method ScanLine(m: Entries, line: Line) returns (r: Entries)
    ensures r == ReplayLine(m, line)
  {
    r := m;
    match line {
      case Corrupt(_) =>
      case Good(e) =>
        match e.state {
          case Pending => r := r[e.id := e];
          case Complete => r := r - {e.id};
          case DeadLetter => r := r - {e.id};
          case Unknown(_) =>
        }
    }
  }

  /** Replays a file line by line. A line longer than the scanner's buffer stops it with an error. */
  method Recover(file: seq<Line>, z: Sizes) returns (ok: bool, entries: Entries)
    ensures ok <==> AllFit(z, file)
    ensures ok ==> entries == Replay(map[], file)
    ensures !ok ==> exists k :: 0 <= k < |file| && !Fits(z, file[k]) && entries == Replay(map[], file[..k])
  {
    entries := map[];
    var i := 0;
    while i < |file|
      invariant 0 <= i <= |file|
      invariant entries == Replay(map[], file[..i])
      invariant forall k | 0 <= k < i :: Fits(z, file[k])
    {
      if !Fits(z, file[i]) {
        return false, entries;
      }
      assert file[..i + 1][..i] == file[..i];
      entries := ScanLine(entries, file[i]);
      i := i + 1;
    }
    assert file[..i] == file;
    ok := true;
  }

  class WAL {
    /** The records of the file at the WAL path. */
    var file: seq<Line>
    /** Records accepted by the buffered writer and not yet handed to the file. */
    var buffer: seq<Line>
    var entries: Entries
    /** False once a failed flush or compaction has left the writer without a usable file. */
    var usable: bool
    /** How many records of the file are known to be on disk. */
    ghost var synced: nat

    ghost function Log(): seq<Line>
      reads this
    {
      file + buffer
    }

    ghost predicate Valid()
      reads this
    {
      entries == Replay(map[], Log()) && synced <= |file|
    }

    constructor (existing: seq<Line>, recovered: Entries, ghost onDisk: nat)
      requires recovered == Replay(map[], existing) && onDisk <= |existing|
      ensures Valid() && usable && file == existing && buffer == [] && entries == recovered && synced == onDisk
    {
      file, buffer, entries, usable, synced := existing, [], recovered, true, onDisk;
      new;
      assert file + buffer == file;
    }

    /** One writer.Flush: everything goes to the file, or, when writing fails, some of it. */
    method FlushBuffer(ok: bool)
      requires Valid() && usable
      modifies this`file, this`buffer, this`usable
      ensures Valid() && Log() == old(Log()) && old(file) <= file && usable == ok
      ensures ok ==> buffer == []
    {
      var k: nat :| k <= |buffer| && (ok ==> k == |buffer|);
      assert buffer[..k] + buffer[k..] == buffer;
      file, buffer, usable := file + buffer[..k], buffer[k..], ok;
      assert Log() == old(Log());
    }

    /** The buffered writer may hand any number of records to the file on the way. */
    method AppendEntry(e: Entry)
      requires usable
      modifies this`file, this`buffer
      ensures Log() == old(Log()) + [Good(e)] && old(file) <= file
    {
      var held := buffer + [Good(e)];
      var k: nat :| k <= |held|;
      file, buffer := file + held[..k], held[k..];
      assert held[..k] + held[k..] == held;
    }

    lemma Logged(m: Entries, log: seq<Line>, op: Op)
      requires m == Replay(map[], log)
      ensures Keyed(m) && Replay(map[], log + Record(Exec(m, op).written)) == Exec(m, op).entries
    {
      ReplayKeyed(map[], log);
      ExecIsReplayed(m, op);
      ReplayConcat(map[], log, Record(Exec(m, op).written));
    }

    method Append(msg: Message, ts: string)
      requires Valid() && usable
      modifies this`file, this`buffer, this`entries
      ensures Valid()
      ensures entries == Exec(old(entries), Op.Append(msg, ts)).entries
      ensures Log() == old(Log()) + Record(Exec(old(entries), Op.Append(msg, ts)).written)
      ensures entries == old(entries)[msg.id := Entry(msg.id, msg.channel, Pending, 1, ts, Some(msg))]
    {
      Logged(entries, Log(), Op.Append(msg, ts));
      var e := Entry(msg.id, msg.channel, Pending, 1, ts, Some(msg));
      AppendEntry(e);
      entries := entries[msg.id := e];
    }

    method Complete(id: string, ts: string) returns (ok: bool)
      requires Valid() && usable
      modifies this`file, this`buffer, this`entries
      ensures Valid() && (ok <==> id in old(entries))
      ensures entries == Exec(old(entries), MarkComplete(id, ts)).entries
      ensures Log() == old(Log()) + Record(Exec(old(entries), MarkComplete(id, ts)).written)
      ensures ok ==> var e := old(entries)[id];
                     Log() == old(Log()) + [Good(Entry(e.id, e.channel, State.Complete, e.attempts, ts, None))]
    {
      Logged(entries, Log(), MarkComplete(id, ts));
      if id !in entries {
        return false;
      }
      var e := entries[id];
      AppendEntry(Entry(e.id, e.channel, State.Complete, e.attempts, ts, None));
      entries := entries - {id};
      ok := true;
    }

    method MarkDead(id: string, ts: string) returns (ok: bool)
      requires Valid() && usable
      modifies this`file, this`buffer, this`entries
      ensures Valid() && (ok <==> id in old(entries))
      ensures entries == Exec(old(entries), MarkDLQ(id, ts)).entries
      ensures Log() == old(Log()) + Record(Exec(old(entries), MarkDLQ(id, ts)).written)
      ensures ok ==> var e := old(entries)[id];
                     Log() == old(Log()) + [Good(Entry(e.id, e.channel, DeadLetter, e.attempts, ts, None))]
    {
      Logged(entries, Log(), MarkDLQ(id, ts));
      if id !in entries {
        return false;
      }
      var e := entries[id];
      AppendEntry(Entry(e.id, e.channel, DeadLetter, e.attempts, ts, None));
      entries := entries - {id};
      ok := true;
    }

    method Increment(id: string, ts: string) returns (attempts: Option<int>)
      requires Valid() && usable
      modifies this`file, this`buffer, this`entries
      ensures Valid()
      ensures entries == Exec(old(entries), IncrementAttempts(id, ts)).entries
      ensures Log() == old(Log()) + Record(Exec(old(entries), IncrementAttempts(id, ts)).written)
      ensures attempts == if id in old(entries) then Some(old(entries)[id].attempts + 1) else None
      ensures attempts.Some? ==> Log() == old(Log()) + [Good(old(entries)[id].(attempts := attempts.value, ts := ts))]
    {
      Logged(entries, Log(), IncrementAttempts(id, ts));
      if id !in entries {
        return None;
      }
      var e := entries[id];
      e := e.(attempts := e.attempts + 1, ts := ts);
      entries := entries[id := e];
      AppendEntry(e);
      attempts := Some(e.attempts);
    }

    /** The map's values in some iteration order. */
    method PendingEntries() returns (result: seq<Entry>)
      requires Valid()
      ensures Enumerates(result, entries)
    {
      ReplayKeyed(map[], Log());
      result := [];
      var left := entries.Keys;
      while left != {}
        invariant left <= entries.Keys
        invariant forall i | 0 <= i < |result| ::
                  result[i].id in entries.Keys - left && entries[result[i].id] == result[i]
        invariant forall i, j | 0 <= i < j < |result| :: result[i].id != result[j].id
        invariant forall id | id in entries.Keys - left :: entries[id] in result
      {
        var id :| id in left;
        result := result + [entries[id]];
        left := left - {id};
      }
    }

    /** Buffer to file, then file to disk. A failed write leaves part of the buffer behind and the
        writer stuck; a failed sync leaves the records in the file. */
    method Flush(stop: FlushStop) returns (ok: bool)
      requires Valid() && usable
      modifies this`file, this`buffer, this`usable, this`synced
      ensures Valid() && Log() == old(Log()) && old(file) <= file
      ensures ok <==> stop == Flushed
      ensures usable <==> stop != Flushing
      ensures stop != Flushing ==> buffer == []
      ensures synced == if ok then |Log()| else old(synced)
    {
      FlushBuffer(stop != Flushing);
      if stop != Flushed {
        return false;
      }
      assert file + buffer == file;
      synced := |file|;
      ok := true;
    }

    /** The rename: the WAL path now holds the temporary file. */
    method Rename(ghost order: seq<Entry>, tmp: seq<Line>)
      requires Valid() && buffer == [] && Enumerates(order, entries) && tmp == AsLines(order)
      modifies this`file, this`synced
      ensures Valid() && file == tmp && synced == |tmp| && Replay(map[], file) == entries
    {
      ReplayKeyed(map[], Log());
      CompactedRecovers(order, entries);
      file, synced := tmp, |tmp|;
      assert file + buffer == file;
    }

    /** Rewrites the file to the pending entries. `seen` lists what the WAL path held after each
        step: the old file until its flush, and from a completed flush on always something that
        recovers to exactly the pending map, wherever the compaction stops. A flush that fails may
        have moved part of the buffer. */
    method Compact(stop: CompactStop) returns (ok: bool, ghost seen: seq<seq<Line>>)
      requires Valid() && usable
      modifies this`file, this`buffer, this`usable, this`synced
      ensures Valid()
      ensures ok <==> stop == Finished
      ensures usable <==> stop == Finished || stop == WritingTemp
      ensures |seen| == (match stop case WritingTemp => 1 case FlushingOld => 2 case ClosingOld => 2
                                    case Renaming => 2 case Reopening => 3 case Finished => 3)
      ensures seen[0] == old(file) && seen[|seen| - 1] == file
      ensures stop != FlushingOld ==> forall i | 0 < i < |seen| :: Replay(map[], seen[i]) == entries
      ensures stop == WritingTemp ==> file == old(file) && buffer == old(buffer)
      ensures |seen| <= 2 ==> Log() == old(Log()) && old(file) <= file && synced == old(synced)
      ensures |seen| == 3 ==> buffer == [] && synced == |file|
                              && exists order :: Enumerates(order, entries) && file == AsLines(order)
    {
      seen := [file];
      if stop == WritingTemp {
        return false, seen;
      }
      var order := PendingEntries();
      var tmp := AsLines(order);
      FlushBuffer(stop != FlushingOld);
      seen := seen + [file];
      if stop == FlushingOld {
        return false, seen;
      }
      assert file + buffer == file;
      if stop == ClosingOld || stop == Renaming {
        usable := false;
        return false, seen;
      }
      Rename(order, tmp);
      seen := seen + [file];
      if stop == Reopening {
        usable := false;
        return false, seen;
      }
      ok := true;
    }
  }

  /** NewWAL: no log when the directory or the file cannot be had, or when recovery meets a line
      that does not fit; otherwise a log whose memory is what the file says. A missing file is an
      empty one. */
  method OpenWAL(existing: seq<Line>, z: Sizes, ioOk: bool, ghost onDisk: nat) returns (w: WAL?)
    requires onDisk <= |existing|
    ensures w != null <==> ioOk && AllFit(z, existing)
    ensures w != null ==> && fresh(w) && w.Valid() && w.usable
                          && w.file == existing && w.buffer == [] && w.synced == onDisk
                          && w.entries == Step(z, Sys(existing, onDisk, map[], false), CrashRestart(|existing|)).entries
  {
    if !ioOk {
      return null;
    }
    var ok, entries := Recover(existing, z);
    if !ok {
      return null;
    }
    w := new WAL(existing, entries, onDisk);
    assert existing[..|existing|] == existing;
  }
}
