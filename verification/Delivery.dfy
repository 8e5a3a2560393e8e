/** At-least-once message by message (internal/ipcbus/router.go, internal/ipcbus/wal.go). The log and the
    router tell messages apart by id alone; module Router accounts for ids. */
module Delivery {
  import opened Common
  import opened Wal
  import opened Router

  /** What happened to each message, as seen from outside the bus: the messages appended, accepted by the
      bridge, put in the dead letter queue, in the hands of a handler between MarkDLQ and Put at a crash,
      and cut off the log by one. */
  datatype Ledger = Ledger(appended: set<Message>, accepted: set<Message>, dead: set<Message>,
                           lost: set<Message>, erased: set<Message>)

  const EMPTY := Ledger({}, {}, {}, {}, {})

  function HeldMessages(s: Bus): set<Message> {
    set h | h in s.handlers && s.handlers[h].pc.ToPut? :: s.handlers[h].msg
  }

  function CutMessages(s: Bus, keep: nat): set<Message>
    requires keep <= |s.log|
  {
    set id | id in s.pending && id !in Replay(map[], s.log[..keep]) && s.pending[id].msg.Some? ::
      s.pending[id].msg.value
  }

  function Entered(cfg: Config, s: Bus, l: Ledger, h: nat, sendOk: bool): Ledger
    requires h in s.handlers
  {
    var m, pc := s.handlers[h].msg, s.handlers[h].pc;
    if pc.ToAppend? then l.(appended := l.appended + {m})
    else if (pc.ToSend? || pc.ToReplay?) && cfg.hasBridge && sendOk then l.(accepted := l.accepted + {m})
    else if pc.ToPut? && cfg.hasDLQ then l.(dead := l.dead + {m})
    else l
  }

  ghost function Note(cfg: Config, s: Bus, l: Ledger, a: Action): Ledger {
    if !Router.Enabled(s, a) then l
    else match a
      case Advance(h, ok, _) => Entered(cfg, s, l, h, ok)
      case CrashRestart(keep) => l.(lost := l.lost + HeldMessages(s), erased := l.erased + CutMessages(s, keep))
      case _ => l
  }

  ghost function Trace(cfg: Config, acts: seq<Action>): Ledger {
    if acts == [] then EMPTY
    else Note(cfg, Router.Run(cfg, START, acts[..|acts| - 1]), Trace(cfg, acts[..|acts| - 1]), acts[|acts| - 1])
  }

  lemma TraceSnoc(cfg: Config, acts: seq<Action>, a: Action)
    ensures Router.Run(cfg, START, acts + [a]) == Router.Next(cfg, Router.Run(cfg, START, acts), a)
    ensures Trace(cfg, acts + [a]) == Note(cfg, Router.Run(cfg, START, acts), Trace(cfg, acts), a)
  {
    assert (acts + [a])[..|acts|] == acts;
  }

  /** The message itself is on record, was accepted or dead-lettered, is about to be, or fell to a crash. */
  ghost predicate Delivered(s: Bus, l: Ledger, m: Message) {
    || (m.id in s.pending && s.pending[m.id].msg == Some(m))
    || m in l.accepted || m in l.dead || m in HeldMessages(s) || m in l.lost || m in l.erased
  }

  ghost predicate AllDelivered(cfg: Config, acts: seq<Action>) {
    forall m | m in Trace(cfg, acts).appended :: Delivered(Router.Run(cfg, START, acts), Trace(cfg, acts), m)
  }

  // ---- One message for each id ----

  /** The messages a channel may send that the bus logs. */
  ghost predicate Data(ms: iset<Message>, m: Message) { m in ms && !IsControl(m) }

  ghost predicate OneEach(ms: iset<Message>) {
    forall a, b | Data(ms, a) && Data(ms, b) && a.id == b.id :: a == b
  }

  ghost predicate Within(ms: iset<Message>, acts: seq<Action>) {
    forall i | 0 <= i < |acts| && acts[i].Receive? :: acts[i].msg in ms
  }

  ghost predicate DataEntry(ms: iset<Message>, e: Entry) {
    e.msg.Some? && e.msg.value.id == e.id && Data(ms, e.msg.value)
  }

  ghost predicate DataLog(ms: iset<Message>, log: seq<Line>) {
    forall i | 0 <= i < |log| && log[i].Good? && log[i].entry.state == Pending :: DataEntry(ms, log[i].entry)
  }

  ghost predicate DataPending(ms: iset<Message>, m: Entries) {
    forall id | id in m :: m[id].id == id && DataEntry(ms, m[id])
  }

  lemma {:induction false} ReplayData(ms: iset<Message>, log: seq<Line>)
    requires DataLog(ms, log)
    ensures DataPending(ms, Replay(map[], log))
  {
    if log != [] { ReplayData(ms, log[..|log| - 1]); }
  }

  ghost predicate DataHandlers(ms: iset<Message>, s: Bus) {
    forall h | h in s.handlers :: Data(ms, s.handlers[h].msg)
  }

  lemma ExecData(ms: iset<Message>, m: Entries, op: Op)
    requires DataPending(ms, m) && (op.Append? ==> Data(ms, op.msg))
    ensures DataLog(ms, Record(Exec(m, op).written))
  {
  }

  lemma StepData(cfg: Config, ms: iset<Message>, s: Bus, h: nat, ok: bool, ts: string)
    requires h in s.handlers && DataLog(ms, s.log) && DataPending(ms, s.pending) && DataHandlers(ms, s)
    ensures var s' := StepHandler(cfg, s, h, ok, ts); DataLog(ms, s'.log) && DataHandlers(ms, s')
  {
    StepIsOp(cfg, s, h, ok, ts);
    StepSame(cfg, s, h, ok, ts);
    StepKeepsMessage(cfg, s, h, ok, ts);
    if OpOf(s, h, ts).Some? { ExecData(ms, s.pending, OpOf(s, h, ts).value); }
  }

  lemma StepKeepsMessage(cfg: Config, s: Bus, h: nat, ok: bool, ts: string)
    requires h in s.handlers
    ensures var s' := StepHandler(cfg, s, h, ok, ts); h in s'.handlers ==> s'.handlers[h].msg == s.handlers[h].msg
  {
  }

  lemma NextData(cfg: Config, ms: iset<Message>, s: Bus, a: Action)
    requires Durable(s) && DataLog(ms, s.log) && DataHandlers(ms, s) && (a.Receive? ==> a.msg in ms)
    ensures var s' := Router.Next(cfg, s, a); DataLog(ms, s'.log) && DataHandlers(ms, s')
  {
    ReplayData(ms, s.log);
    if Router.Enabled(s, a) && a.Advance? { StepData(cfg, ms, s, a.h, a.sendOk, a.ts); }
  }

  // ---- From ids to messages ----

  /** Whoever's id is listed is itself in the ledger. */
  ghost predicate Backed(ms: iset<Message>, ids: set<string>, noted: set<Message>) {
    forall m | Data(ms, m) && m.id in ids :: m in noted
  }

  ghost predicate Linked(ms: iset<Message>, s: Bus, l: Ledger) {
    && (forall m | m in l.appended :: Data(ms, m) && m.id in s.appended)
    && Backed(ms, s.accepted, l.accepted) && Backed(ms, s.dead, l.dead)
    && Backed(ms, s.lost, l.lost) && Backed(ms, s.erased, l.erased)
  }

  /** What one step puts on the lists of ids. */
  lemma StepLists(cfg: Config, s: Bus, h: nat, ok: bool, ts: string)
    requires h in s.handlers
    ensures var s', l := StepHandler(cfg, s, h, ok, ts), Entered(cfg, s, EMPTY, h, ok);
            var me := s.handlers[h].msg;
            && s'.appended == s.appended + (if me in l.appended then {me.id} else {})
            && s'.accepted == s.accepted + (if me in l.accepted then {me.id} else {})
            && s'.dead == s.dead + (if me in l.dead then {me.id} else {})
            && s'.lost == s.lost && s'.erased == s.erased
  {
    StepKeeps(cfg, s, h, ok, ts);
  }

  lemma AddBacked(ms: iset<Message>, ids: set<string>, noted: set<Message>, m: Message)
    requires OneEach(ms) && Data(ms, m) && Backed(ms, ids, noted)
    ensures Backed(ms, ids + {m.id}, noted + {m})
  {
  }

  lemma StepLinked(cfg: Config, ms: iset<Message>, s: Bus, l: Ledger, h: nat, ok: bool, ts: string)
    requires OneEach(ms) && h in s.handlers && DataHandlers(ms, s) && Linked(ms, s, l)
    ensures Linked(ms, StepHandler(cfg, s, h, ok, ts), Entered(cfg, s, l, h, ok))
  {
    var me := s.handlers[h].msg;
    StepLists(cfg, s, h, ok, ts);
    AddBacked(ms, s.accepted, l.accepted, me);
    AddBacked(ms, s.dead, l.dead, me);
  }

  lemma CrashLinked(cfg: Config, ms: iset<Message>, s: Bus, l: Ledger, keep: nat)
    requires OneEach(ms) && DataHandlers(ms, s) && DataPending(ms, s.pending) && Linked(ms, s, l) && keep <= |s.log|
    ensures Linked(ms, Crash(cfg, s, keep),
                   l.(lost := l.lost + HeldMessages(s), erased := l.erased + CutMessages(s, keep)))
  {
    forall m | Data(ms, m) && m.id in Held(s) ensures m in HeldMessages(s) {
      var h :| h in s.handlers && s.handlers[h].pc.ToPut? && s.handlers[h].msg.id == m.id;
      assert s.handlers[h].msg == m;
    }
    forall m | Data(ms, m) && m.id in s.pending.Keys - Replay(map[], s.log[..keep]).Keys
      ensures m in CutMessages(s, keep)
    {
      assert DataEntry(ms, s.pending[m.id]) && s.pending[m.id].msg.value == m;
    }
  }

  lemma {:induction false} RunLinked(cfg: Config, ms: iset<Message>, acts: seq<Action>)
    requires OneEach(ms) && Within(ms, acts)
    ensures var s := Router.Run(cfg, START, acts);
            DataLog(ms, s.log) && DataHandlers(ms, s) && Linked(ms, s, Trace(cfg, acts))
  {
    if acts != [] {
      var n := |acts| - 1;
      var s, l, a := Router.Run(cfg, START, acts[..n]), Trace(cfg, acts[..n]), acts[n];
      RunLinked(cfg, ms, acts[..n]);
      RunDurable(cfg, acts[..n]);
      ReplayData(ms, s.log);
      NextData(cfg, ms, s, a);
      if Router.Enabled(s, a) {
        match a
        case Advance(h, ok, ts) => StepLinked(cfg, ms, s, l, h, ok, ts);
        case CrashRestart(keep) => CrashLinked(cfg, ms, s, l, keep);
        case _ =>
      }
    }
  }

  lemma TracedIsDelivered(ms: iset<Message>, s: Bus, l: Ledger, m: Message)
    requires OneEach(ms) && DataHandlers(ms, s) && DataPending(ms, s.pending) && Linked(ms, s, l)
    requires Data(ms, m) && Traced(s, m.id)
    ensures Delivered(s, l, m)
  {
    if m.id in s.pending { assert DataEntry(ms, s.pending[m.id]) && s.pending[m.id].msg.value == m; }
    if m.id in Held(s) {
      var h :| h in s.handlers && s.handlers[h].pc.ToPut? && s.handlers[h].msg.id == m.id;
      assert s.handlers[h].msg == m;
    }
  }

  lemma OneEachDelivers(cfg: Config, ms: iset<Message>, acts: seq<Action>)
    requires cfg.hasBridge && cfg.hasDLQ && OneEach(ms) && Within(ms, acts)
    ensures AllDelivered(cfg, acts)
  {
    var s, l := Router.Run(cfg, START, acts), Trace(cfg, acts);
    RunAccounted(cfg, acts);
    RunLinked(cfg, ms, acts);
    ReplayData(ms, s.log);
    forall m | m in l.appended ensures Delivered(s, l, m) {
      assert Traced(s, m.id);
      TracedIsDelivered(ms, s, l, m);
    }
  }

  // ---- Two messages with one id ----

  lemma RefusedAlone(cfg: Config, m: Message)
    requires cfg.hasBridge && !IsControl(m)
    ensures var acts := [Receive(0, m), Advance(0, true, ""), Advance(0, false, ""), Advance(0, false, "")];
            && Waiting(Router.Run(cfg, START, acts), m, {}, 2)
            && Trace(cfg, acts) == EMPTY.(appended := {m})
  {
    var r, a, f := Receive(0, m), Advance(0, true, ""), Advance(0, false, "");
    var s1 := Router.Next(cfg, START, r);
    assert [r] == [] + [r] && [r, a] == [r] + [a] && [r, a, f] == [r, a] + [f] && [r, a, f, f] == [r, a, f] + [f];
    assert Router.Run(cfg, START, []) == START;
    TraceSnoc(cfg, [], r);
    TraceSnoc(cfg, [r], a);
    assert Trace(cfg, [r, a]).appended == {m};
    Join(cfg, START, m, {}, 0);
    var s2 := Router.Run(cfg, START, [r, a]);
    TraceSnoc(cfg, [r, a], f);
    TraceSnoc(cfg, [r, a, f], f);
    RefusedTwice(cfg, s2, m, f);
    assert Router.Run(cfg, START, [r, a, f, f]) == Router.Run(cfg, s2, [f, f]) by { Run2(cfg, s2, f, f); }
    Fail(cfg, s2, m, {0}, 0, 1);
    assert {0} - {0} == {};
  }

  lemma RefusedTwice(cfg: Config, s: Bus, m: Message, f: Action)
    requires cfg.hasBridge && Waiting(s, m, {0}, 1) && f == Advance(0, false, "")
    ensures Note(cfg, s, EMPTY.(appended := {m}), f) == EMPTY.(appended := {m})
    ensures Note(cfg, Router.Next(cfg, s, f), EMPTY.(appended := {m}), f) == EMPTY.(appended := {m})
  {
    assert Router.Next(cfg, s, f).handlers[0] == Handler(m, ToIncrement);
  }

  /** A refused message is on record until another one with its id is appended; then it is nowhere. */
  lemma SameIdOverwrites(cfg: Config, m: Message, other: Message)
    requires cfg.hasBridge && !IsControl(m) && !IsControl(other) && m.id == other.id && m != other
    ensures !AllDelivered(cfg, [Receive(0, m), Advance(0, true, ""), Advance(0, false, ""), Advance(0, false, ""),
                                Receive(1, other), Advance(1, true, "")])
  {
    var before := [Receive(0, m), Advance(0, true, ""), Advance(0, false, ""), Advance(0, false, "")];
    var r, a := Receive(1, other), Advance(1, true, "");
    RefusedAlone(cfg, m);
    var s := Router.Run(cfg, START, before);
    TraceSnoc(cfg, before, r);
    TraceSnoc(cfg, before + [r], a);
    var acts := before + [r] + [a];
    assert acts == [Receive(0, m), Advance(0, true, ""), Advance(0, false, ""), Advance(0, false, ""), r, a];
    var s1 := Router.Next(cfg, s, r);
    assert s1.handlers == map[1 := Handler(other, ToAppend)];
    var s2, l := Router.Run(cfg, START, acts), Trace(cfg, acts);
    assert s2.pending[m.id] == NewEntry(other, "") && s2.handlers == map[1 := Handler(other, ToSend)];
    assert l == EMPTY.(appended := {m} + {other}) && HeldMessages(s2) == {};
    assert m in l.appended && !Delivered(s2, l, m);
  }

  /** With bridge and queue, every message of every run is delivered at least once, short of the crash
      windows, exactly when no two of the messages that may arrive share an id. */
  lemma EachMessageIff(cfg: Config, ms: iset<Message>)
    requires cfg.hasBridge && cfg.hasDLQ
    ensures (forall acts | Within(ms, acts) :: AllDelivered(cfg, acts)) <==> OneEach(ms)
  {
    if OneEach(ms) {
      forall acts | Within(ms, acts) ensures AllDelivered(cfg, acts) { OneEachDelivers(cfg, ms, acts); }
    } else {
      var m, other :| Data(ms, m) && Data(ms, other) && m.id == other.id && m != other;
      SameIdOverwrites(cfg, m, other);
      var acts := [Receive(0, m), Advance(0, true, ""), Advance(0, false, ""), Advance(0, false, ""),
                   Receive(1, other), Advance(1, true, "")];
      assert Within(ms, acts);
    }
  }
}
