/** Concurrent inbound handlers over the write-ahead log, the bridge and the dead letter queue
    (internal/ipcbus/router.go). Each call into one of them is one atomic step of a handler.
    The ring-buffer calls of the same handlers are in module Backpressure: they touch neither
    the log nor the dead letter queue. */
module Router {
  import opened Common
  import opened Wal

  const MAX_RETRY_ATTEMPTS: int := 5

  const CONTROL_KINDS: set<string> := {"ack", "nack", "slow_down", "resume", "shutdown", "register", "heartbeat"}

  predicate IsControl(m: Message) { m.kind in CONTROL_KINDS }

  /** Which of the optional collaborators the router was given, and how long its log lines are. */
  datatype Config = Config(hasBridge: bool, hasDLQ: bool, sizes: Sizes)

  /** What a handler does next. */
  datatype PC =
    | ToAppend | ToSend | ToComplete | ToIncrement
    | ToMark(attempts: int) | ToPut(attempts: int)
    | ToReplay  // a pending entry picked up by ReplayWAL

  datatype Handler = Handler(msg: Message, pc: PC)

  /** The system: `pending` is what the log says, held in memory while the bus is `up`. With it goes
      the history needed to say what became of each message id: ids ever appended, accepted by the
      bridge and put in the dead letter queue; ids whose handler stood between MarkDLQ and Put at a
      crash; ids whose pending record a crash cut off. */
  datatype Bus = Bus(
    log: seq<Line>, synced: nat, up: bool, pending: Entries, handlers: map<nat, Handler>,
    appended: set<string>, accepted: set<string>, dead: set<string>,
    lost: set<string>, erased: set<string>)

  datatype Action =
    | Receive(h: nat, msg: Message)
    | Advance(h: nat, sendOk: bool, ts: string)
    | StartReplay(h: nat, id: string)
    | FlushLog
    | CompactLog(order: seq<Entry>)
    | CrashRestart(keep: nat)

  const START := Bus([], 0, true, map[], map[], {}, {}, {}, {}, {})

  function Held(s: Bus): set<string> {
    set h | h in s.handlers && s.handlers[h].pc.ToPut? :: s.handlers[h].msg.id
  }

  function Do(s: Bus, op: Op): Bus {
    var e := Exec(s.pending, op);
    s.(log := s.log + Record(e.written), pending := e.entries)
  }

  function Goto(s: Bus, h: nat, pc: PC): Bus
    requires h in s.handlers
  {
    s.(handlers := s.handlers[h := s.handlers[h].(pc := pc)])
  }

  function Finish(s: Bus, h: nat): Bus { s.(handlers := s.handlers - {h}) }

  /** One atomic step of handler `h`; `sendOk` is the bridge's answer and `ts` the clock's. */
  function StepHandler(cfg: Config, s: Bus, h: nat, sendOk: bool, ts: string): Bus
    requires h in s.handlers
  {
    var msg := s.handlers[h].msg;
    match s.handlers[h].pc
    case ToAppend =>
      Goto(Do(s, Append(msg, ts)).(appended := s.appended + {msg.id}), h, ToSend)
    case ToSend =>
      if !cfg.hasBridge then Goto(s, h, ToComplete)
      else if sendOk then Goto(s.(accepted := s.accepted + {msg.id}), h, ToComplete)
      else Goto(s, h, ToIncrement)
    case ToComplete =>
      Finish(Do(s, MarkComplete(msg.id, ts)), h)
    case ToIncrement =>
      if msg.id !in s.pending then Finish(s, h)
      else
        var s' := Do(s, IncrementAttempts(msg.id, ts));
        var n := s'.pending[msg.id].attempts;
        if n >= MAX_RETRY_ATTEMPTS then Goto(s', h, ToMark(n)) else Finish(s', h)
    case ToMark(n) =>
      Goto(Do(s, MarkDLQ(msg.id, ts)), h, ToPut(n))
    case ToPut(n) =>
      Finish(if cfg.hasDLQ then s.(dead := s.dead + {msg.id}) else s, h)
    case ToReplay =>
      if !cfg.hasBridge then Goto(s, h, ToComplete)
      else if sendOk then Goto(s.(accepted := s.accepted + {msg.id}), h, ToComplete)
      else Finish(s, h)
  }

  ghost predicate Enabled(s: Bus, a: Action) {
    match a
    case Receive(h, msg) => s.up && h !in s.handlers && !IsControl(msg)
    case Advance(h, _, _) => s.up && h in s.handlers
    case StartReplay(h, id) => s.up && h !in s.handlers && id in s.pending && s.pending[id].msg.Some?
    case FlushLog => s.up
    case CompactLog(order) => s.up && Enumerates(order, s.pending)
    case CrashRestart(keep) => s.synced <= keep <= |s.log|
  }

  /** A crash keeps a prefix of the log that contains everything synced and ends every handler. The
      restarted bus recovers from what is left, or does not come up when a line of it is too long. */
  function Crash(cfg: Config, s: Bus, keep: nat): Bus
    requires keep <= |s.log|
  {
    var back := Replay(map[], s.log[..keep]);
    Bus(s.log[..keep], s.synced, AllFit(cfg.sizes, s.log[..keep]), back, map[], s.appended, s.accepted, s.dead,
        s.lost + Held(s), s.erased + (s.pending.Keys - back.Keys))
  }

  ghost function Next(cfg: Config, s: Bus, a: Action): Bus {
    if !Enabled(s, a) then s else
    match a
    case Receive(h, msg) => s.(handlers := s.handlers[h := Handler(msg, ToAppend)])
    case Advance(h, ok, ts) => StepHandler(cfg, s, h, ok, ts)
    case StartReplay(h, id) => s.(handlers := s.handlers[h := Handler(s.pending[id].msg.value, ToReplay)])
    case FlushLog => s.(synced := |s.log|)
    case CompactLog(order) => s.(log := AsLines(order), synced := |order|)
    case CrashRestart(keep) => Crash(cfg, s, keep)
  }

  ghost function Run(cfg: Config, s: Bus, acts: seq<Action>): Bus {
    if acts == [] then s else Next(cfg, Run(cfg, s, acts[..|acts| - 1]), acts[|acts| - 1])
  }

  lemma {:induction false} RunConcat(cfg: Config, s: Bus, a: seq<Action>, b: seq<Action>)
    ensures Run(cfg, s, a + b) == Run(cfg, Run(cfg, s, a), b)
  {
    if b == [] {
      assert a + b == a;
    } else {
      RunConcat(cfg, s, a, b[..|b| - 1]);
      assert (a + b)[..|a + b| - 1] == a + b[..|b| - 1];
    }
  }

  // ---- At-least-once ----

  /** Every id ever appended is pending on record, was accepted, was dead-lettered, is in the hands
      of a handler about to dead-letter it, or fell to one of the two crash windows. */
  ghost predicate Accounted(s: Bus) {
    forall id | id in s.appended :: Traced(s, id)
  }

  ghost predicate Traced(s: Bus, id: string) {
    id in s.pending || id in s.accepted || id in s.dead || id in Held(s) || id in s.lost || id in s.erased
  }

  ghost predicate Durable(s: Bus) {
    s.synced <= |s.log| && s.pending == Replay(map[], s.log)
  }

  ghost predicate CompletingWasAccepted(s: Bus) {
    forall h | h in s.handlers && s.handlers[h].pc.ToComplete? :: s.handlers[h].msg.id in s.accepted
  }

  lemma DoDurable(s: Bus, op: Op)
    requires Durable(s)
    ensures Durable(Do(s, op)) && Keyed(s.pending)
  {
    ReplayKeyed(map[], s.log);
    ExecIsReplayed(s.pending, op);
    ReplayConcat(map[], s.log, Record(Exec(s.pending, op).written));
  }

  /** The one operation on the log that a handler's step makes, if any. */
  function OpOf(s: Bus, h: nat, ts: string): Option<Op>
    requires h in s.handlers
  {
    var msg := s.handlers[h].msg;
    match s.handlers[h].pc
    case ToAppend => Some(Append(msg, ts))
    case ToComplete => Some(MarkComplete(msg.id, ts))
    case ToIncrement => Some(IncrementAttempts(msg.id, ts))
    case ToMark(_) => Some(MarkDLQ(msg.id, ts))
    case _ => None
  }

  lemma StepIsOp(cfg: Config, s: Bus, h: nat, ok: bool, ts: string)
    requires h in s.handlers
    ensures var s', op := StepHandler(cfg, s, h, ok, ts), OpOf(s, h, ts);
            var t := if op.Some? then Do(s, op.value) else s;
            s'.log == t.log && s'.pending == t.pending && s'.synced == s.synced && s'.up == s.up
  {
    assert s.log + [] == s.log;
  }

  lemma StepDurable(cfg: Config, s: Bus, h: nat, ok: bool, ts: string)
    requires Durable(s) && h in s.handlers
    ensures Durable(StepHandler(cfg, s, h, ok, ts))
  {
    StepIsOp(cfg, s, h, ok, ts);
    if OpOf(s, h, ts).Some? { DoDurable(s, OpOf(s, h, ts).value); }
  }

  lemma NextDurable(cfg: Config, s: Bus, a: Action)
    requires Durable(s)
    ensures Durable(Next(cfg, s, a))
  {
    if Enabled(s, a) {
      match a
      case Advance(h, ok, ts) => StepDurable(cfg, s, h, ok, ts);
      case CompactLog(order) =>
        ReplayKeyed(map[], s.log);
        CompactedRecovers(order, s.pending);
      case _ =>
    }
  }

  /** A step that is not MarkDLQ's successor keeps every held id held. */
  lemma HeldUnless(s: Bus, s': Bus, h: nat)
    requires forall g | g in s.handlers && g != h :: g in s'.handlers && s'.handlers[g] == s.handlers[g]
    ensures forall id | id in Held(s) ::
              id in Held(s') || (h in s.handlers && s.handlers[h].pc.ToPut? && id == s.handlers[h].msg.id)
  {
  }

  /** A step concerns one id and takes no id off any list. */
  lemma StepKeeps(cfg: Config, s: Bus, h: nat, ok: bool, ts: string)
    requires h in s.handlers
    ensures var s', me := StepHandler(cfg, s, h, ok, ts), s.handlers[h].msg.id;
            && s.accepted <= s'.accepted && s.dead <= s'.dead && s'.lost == s.lost && s'.erased == s.erased
            && s.appended <= s'.appended <= s.appended + {me}
  {
  }

  lemma StepOthersPending(cfg: Config, s: Bus, h: nat, ok: bool, ts: string, id: string)
    requires h in s.handlers && id != s.handlers[h].msg.id
    ensures id in StepHandler(cfg, s, h, ok, ts).pending <==> id in s.pending
  {
    StepIsOp(cfg, s, h, ok, ts);
  }

  lemma StepOwn(cfg: Config, s: Bus, h: nat, ok: bool, ts: string)
    requires cfg.hasBridge && cfg.hasDLQ && h in s.handlers && CompletingWasAccepted(s)
    requires var me := s.handlers[h].msg.id; me in s.appended ==> Traced(s, me)
    ensures var s', me := StepHandler(cfg, s, h, ok, ts), s.handlers[h].msg.id; me in s'.appended ==> Traced(s', me)
  {
    var s' := StepHandler(cfg, s, h, ok, ts);
    HeldUnless(s, s', h);
    if s.handlers[h].pc.ToMark? {
      assert s'.handlers[h].pc.ToPut? && s'.handlers[h].msg == s.handlers[h].msg;
    }
  }

  lemma StepCompleting(cfg: Config, s: Bus, h: nat, ok: bool, ts: string)
    requires cfg.hasBridge && h in s.handlers && CompletingWasAccepted(s)
    ensures CompletingWasAccepted(StepHandler(cfg, s, h, ok, ts))
  {
  }

  lemma StepAccounted(cfg: Config, s: Bus, h: nat, ok: bool, ts: string)
    requires cfg.hasBridge && cfg.hasDLQ && h in s.handlers
    requires Accounted(s) && CompletingWasAccepted(s)
    ensures var s' := StepHandler(cfg, s, h, ok, ts); Accounted(s') && CompletingWasAccepted(s')
  {
    var s', me := StepHandler(cfg, s, h, ok, ts), s.handlers[h].msg.id;
    StepCompleting(cfg, s, h, ok, ts);
    StepOwn(cfg, s, h, ok, ts);
    StepKeeps(cfg, s, h, ok, ts);
    StepSame(cfg, s, h, ok, ts);
    HeldUnless(s, s', h);
    forall id | id in s'.appended && id != me ensures Traced(s', id) {
      assert id in s.appended && Traced(s, id);
      StepOthersPending(cfg, s, h, ok, ts, id);
    }
  }

  lemma NextAccounted(cfg: Config, s: Bus, a: Action)
    requires cfg.hasBridge && cfg.hasDLQ
    requires Durable(s) && Accounted(s) && CompletingWasAccepted(s)
    ensures var s' := Next(cfg, s, a); Accounted(s') && CompletingWasAccepted(s')
  {
    if Enabled(s, a) {
      match a
      case Advance(h, ok, ts) => StepAccounted(cfg, s, h, ok, ts);
      case Receive(h, _) => HeldUnless(s, Next(cfg, s, a), h);
      case StartReplay(h, _) => HeldUnless(s, Next(cfg, s, a), h);
      case _ =>
    }
  }

  lemma {:induction false} RunAccounted(cfg: Config, acts: seq<Action>)
    requires cfg.hasBridge && cfg.hasDLQ
    ensures var s := Run(cfg, START, acts); Durable(s) && Accounted(s) && CompletingWasAccepted(s)
  {
    if acts != [] {
      var s := Run(cfg, START, acts[..|acts| - 1]);
      RunAccounted(cfg, acts[..|acts| - 1]);
      NextDurable(cfg, s, acts[|acts| - 1]);
      NextAccounted(cfg, s, acts[|acts| - 1]);
    }
  }

  lemma NextNoCrash(cfg: Config, s: Bus, a: Action)
    requires !a.CrashRestart?
    ensures var s' := Next(cfg, s, a); s'.lost == s.lost && s'.erased == s.erased && s'.up == s.up
  {
    if Enabled(s, a) && a.Advance? {
      StepKeeps(cfg, s, a.h, a.sendOk, a.ts);
      StepIsOp(cfg, s, a.h, a.sendOk, a.ts);
    }
  }

  /** Without crashes the two crash windows are empty and the bus is up. */
  lemma {:induction false} NoCrashNoLoss(cfg: Config, acts: seq<Action>)
    requires forall i | 0 <= i < |acts| :: !acts[i].CrashRestart?
    ensures var s := Run(cfg, START, acts); s.lost == {} && s.erased == {} && s.up
  {
    if acts != [] {
      NoCrashNoLoss(cfg, acts[..|acts| - 1]);
      NextNoCrash(cfg, Run(cfg, START, acts[..|acts| - 1]), acts[|acts| - 1]);
    }
  }

  /** A crash erases no id whose deciding record is among those kept. */
  lemma OnlyCutRecordsErased(cfg: Config, s: Bus, keep: nat, id: string, i: nat)
    requires Durable(s) && keep <= |s.log|
    requires LastWord(s.log, id, i) && s.log[i].entry.state == Pending && i < keep
    ensures id in Crash(cfg, s, keep).pending && id !in Crash(cfg, s, keep).erased - s.erased
  {
    assert LastWord(s.log[..keep], id, i);
    ReplayIsLastWord(s.log[..keep], id);
  }

  // ---- Lines that do not fit ----

  /** A log whose lines have fitted in every state of a run keeps the bus up through every crash. */
  lemma {:induction false} FittingBusStaysUp(cfg: Config, acts: seq<Action>)
    requires forall k | 0 <= k <= |acts| :: AllFit(cfg.sizes, Run(cfg, START, acts[..k]).log)
    ensures Run(cfg, START, acts).up
  {
    if acts != [] {
      var before := acts[..|acts| - 1];
      forall k | 0 <= k <= |before| ensures AllFit(cfg.sizes, Run(cfg, START, before[..k]).log) {
        assert before[..k] == acts[..k];
      }
      FittingBusStaysUp(cfg, before);
      assert acts[..|acts|] == acts;
      var s, a := Run(cfg, START, before), acts[|acts| - 1];
      if !a.CrashRestart? { NextNoCrash(cfg, s, a); }
    }
  }

  /** Down, with a line on disk that does not fit. */
  ghost predicate Jammed(cfg: Config, s: Bus) {
    !s.up && exists i :: 0 <= i < s.synced <= |s.log| && !Fits(cfg.sizes, s.log[i])
  }

  lemma NextJammed(cfg: Config, s: Bus, a: Action)
    requires Jammed(cfg, s)
    ensures var s' := Next(cfg, s, a);
            && Jammed(cfg, s') && s'.synced == s.synced && s'.log[..s.synced] == s.log[..s.synced]
            && s'.accepted == s.accepted && s'.dead == s.dead
  {
    if Enabled(s, a) {
      var i :| 0 <= i < s.synced <= |s.log| && !Fits(cfg.sizes, s.log[i]);
      assert !Fits(cfg.sizes, s.log[..a.keep][i]);
    }
  }

  /** One such line on disk stops the bus for good: no continuation accepts or dead-letters anything. */
  lemma {:induction false} JammedForGood(cfg: Config, s: Bus, acts: seq<Action>)
    requires Jammed(cfg, s)
    ensures var s' := Run(cfg, s, acts);
            && Jammed(cfg, s') && s'.synced == s.synced && s'.log[..s.synced] == s.log[..s.synced]
            && s'.accepted == s.accepted && s'.dead == s.dead
  {
    if acts != [] {
      JammedForGood(cfg, s, acts[..|acts| - 1]);
      NextJammed(cfg, Run(cfg, s, acts[..|acts| - 1]), acts[|acts| - 1]);
    }
  }

  /** Any message whose log line does not fit does this, delivered or not: once its line is synced,
      the next restart fails and so does every one after it. */
  lemma OversizeMessageJams(cfg: Config, m: Message, ts: string)
    requires !IsControl(m) && !Fits(cfg.sizes, Good(NewEntry(m, ts)))
    ensures Jammed(cfg, Run(cfg, START, [Receive(0, m), Advance(0, true, ts), FlushLog, Action.CrashRestart(1)]))
  {
    var a, b := [Receive(0, m), Advance(0, true, ts)], [FlushLog, Action.CrashRestart(1)];
    Run2(cfg, START, a[0], a[1]);
    var s := Run(cfg, START, a);
    assert s.log == [Good(NewEntry(m, ts))] && s.up && s.synced == 0;
    Run2(cfg, s, b[0], b[1]);
    RunConcat(cfg, START, a, b);
    assert a + b == [Receive(0, m), Advance(0, true, ts), FlushLog, Action.CrashRestart(1)];
    assert s.log[..1] == s.log && !Fits(cfg.sizes, s.log[0]);
  }

  // ---- Messages on record ----

  lemma NextCarries(cfg: Config, s: Bus, a: Action)
    requires Durable(s) && Carrying(s.log)
    ensures Carrying(Next(cfg, s, a).log)
  {
    ReplayCarries(s.log);
    if Enabled(s, a) && a.Advance? { StepHandlerCarries(cfg, s, a.h, a.sendOk, a.ts); }
  }

  lemma StepHandlerCarries(cfg: Config, s: Bus, h: nat, ok: bool, ts: string)
    requires h in s.handlers && Carrying(s.log) && forall id | id in s.pending :: s.pending[id].msg.Some?
    ensures Carrying(StepHandler(cfg, s, h, ok, ts).log)
  {
    StepIsOp(cfg, s, h, ok, ts);
    if OpOf(s, h, ts).Some? { ExecCarries(s.pending, OpOf(s, h, ts).value); }
  }

  /** In every run, compactions, crashes and restarts included, every pending record carries its
      message. */
  lemma {:induction false} RunCarries(cfg: Config, acts: seq<Action>)
    ensures Carrying(Run(cfg, START, acts).log)
  {
    if acts != [] {
      RunCarries(cfg, acts[..|acts| - 1]);
      RunDurable(cfg, acts[..|acts| - 1]);
      NextCarries(cfg, Run(cfg, START, acts[..|acts| - 1]), acts[|acts| - 1]);
    }
  }

  // ---- Reaching the dead letter queue ----

  /** Handlers of `id` that have appended and may still increment its attempts. */
  function Racing(s: Bus, id: string): set<nat> {
    set h | h in s.handlers && s.handlers[h].msg.id == id && (s.handlers[h].pc.ToSend? || s.handlers[h].pc.ToIncrement?)
  }

  /** The attempts on record leave room for every handler that can still add one. */
  ghost predicate Bounded(s: Bus, n: nat) {
    && (forall id :: Room(s, id, n)) && LogBounded(s, n)
    && (forall h | h in s.handlers :: !s.handlers[h].pc.ToMark? && !s.handlers[h].pc.ToPut?)
    && s.dead == {}
  }

  ghost predicate SameBut(s: Bus, s': Bus, h: nat) {
    forall g | g != h :: (g in s.handlers <==> g in s'.handlers)
      && (g in s.handlers ==> s.handlers[g] == s'.handlers[g])
  }

  lemma RacingAfter(s: Bus, s': Bus, h: nat, id: string)
    requires SameBut(s, s', h)
    ensures h !in Racing(s, id) && h !in Racing(s', id) ==> Racing(s', id) == Racing(s, id)
    ensures h in Racing(s, id) && h in Racing(s', id) ==> Racing(s', id) == Racing(s, id)
    ensures h in Racing(s, id) && h !in Racing(s', id) ==> |Racing(s', id)| == |Racing(s, id)| - 1
  {
    forall g | g != h ensures g in Racing(s', id) <==> g in Racing(s, id) {}
    if h in Racing(s, id) && h !in Racing(s', id) {
      assert Racing(s', id) == Racing(s, id) - {h};
    }
  }

  lemma {:induction false} ReplayFromLog(log: seq<Line>, id: string)
    requires id in Replay(map[], log)
    ensures exists i :: 0 <= i < |log| && log[i] == Good(Replay(map[], log)[id])
  {
    if log != [] {
      var n := |log| - 1;
      if id in Replay(map[], log[..n]) && Replay(map[], log)[id] == Replay(map[], log[..n])[id] {
        ReplayFromLog(log[..n], id);
        var i :| 0 <= i < n && log[..n][i] == Good(Replay(map[], log[..n])[id]);
        assert log[i] == Good(Replay(map[], log)[id]);
      } else {
        assert log[n] == Good(Replay(map[], log)[id]);
      }
    }
  }

  ghost predicate Room(s: Bus, id: string, n: nat) {
    id in s.pending ==> s.pending[id].attempts - 1 + |Racing(s, id)| <= n
  }

  /** An id keeps its room when its attempts do not grow and no handler of it starts racing. */
  lemma KeepsRoom(s: Bus, s': Bus, h: nat, id: string, n: nat)
    requires SameBut(s, s', h) && Room(s, id, n) && (h in Racing(s', id) ==> h in Racing(s, id))
    requires id in s'.pending ==> id in s.pending && s'.pending[id].attempts == s.pending[id].attempts
    ensures Room(s', id, n)
  {
    RacingAfter(s, s', h, id);
  }

  lemma StepSame(cfg: Config, s: Bus, h: nat, ok: bool, ts: string)
    requires h in s.handlers
    ensures SameBut(s, StepHandler(cfg, s, h, ok, ts), h)
  {
  }

  /** What one step does to the pair (attempts on record, handlers that can add one). */
  lemma StepRoom(cfg: Config, s: Bus, h: nat, ok: bool, ts: string, n: nat, id: string)
    requires h in s.handlers && Room(s, id, n) && |Racing(StepHandler(cfg, s, h, ok, ts), id)| <= n
    ensures Room(StepHandler(cfg, s, h, ok, ts), id, n)
  {
    var s' := StepHandler(cfg, s, h, ok, ts);
    var me, pc := s.handlers[h].msg.id, s.handlers[h].pc;
    StepSame(cfg, s, h, ok, ts);
    if me == id && pc.ToAppend? {
      assert s'.pending[id].attempts == 1;
    } else if me == id && pc.ToIncrement? && id in s.pending {
      StepIncrement(cfg, s, h, ok, ts);
      RacingAfter(s, s', h, id);
    } else {
      StepOthers(cfg, s, h, ok, ts, id);
      KeepsRoom(s, s', h, id, n);
    }
  }

  lemma StepIncrement(cfg: Config, s: Bus, h: nat, ok: bool, ts: string)
    requires h in s.handlers && s.handlers[h].pc.ToIncrement? && s.handlers[h].msg.id in s.pending
    ensures var s', id := StepHandler(cfg, s, h, ok, ts), s.handlers[h].msg.id;
            && id in s'.pending && s'.pending[id].attempts == s.pending[id].attempts + 1
            && h in Racing(s, id) && h !in Racing(s', id)
  {
  }

  /** Every other step adds no attempt for `id` and no handler that could. */
  lemma StepOthers(cfg: Config, s: Bus, h: nat, ok: bool, ts: string, id: string)
    requires h in s.handlers
    requires s.handlers[h].msg.id == id ==>
             !s.handlers[h].pc.ToAppend? && (s.handlers[h].pc.ToIncrement? ==> id !in s.pending)
    ensures var s' := StepHandler(cfg, s, h, ok, ts);
            && (id in s'.pending ==> id in s.pending && s'.pending[id].attempts == s.pending[id].attempts)
            && (h in Racing(s', id) ==> h in Racing(s, id))
  {
    match s.handlers[h].pc
    case ToAppend =>
    case ToSend =>
    case ToComplete =>
    case ToIncrement =>
    case ToMark(_) =>
    case ToPut(_) =>
    case ToReplay =>
  }

  ghost predicate LogBounded(s: Bus, n: nat) {
    forall i | 0 <= i < |s.log| && s.log[i].Good? :: s.log[i].entry.attempts - 1 <= n
  }

  lemma StepLog(cfg: Config, s: Bus, h: nat, ok: bool, ts: string, n: nat)
    requires h in s.handlers && LogBounded(s, n) && Room(s, s.handlers[h].msg.id, n)
    ensures LogBounded(StepHandler(cfg, s, h, ok, ts), n)
  {
    var id := s.handlers[h].msg.id;
    StepIsOp(cfg, s, h, ok, ts);
    if id in s.pending && s.handlers[h].pc.ToIncrement? {
      assert h in Racing(s, id);
    }
  }

  lemma StepBounded(cfg: Config, s: Bus, h: nat, ok: bool, ts: string, n: nat)
    requires n < MAX_RETRY_ATTEMPTS - 1 && h in s.handlers && Bounded(s, n)
    requires var s' := StepHandler(cfg, s, h, ok, ts); forall id :: |Racing(s', id)| <= n
    ensures Bounded(StepHandler(cfg, s, h, ok, ts), n)
  {
    var s' := StepHandler(cfg, s, h, ok, ts);
    var me := s.handlers[h].msg.id;
    assert Room(s, me, n);
    StepLog(cfg, s, h, ok, ts, n);
    forall id ensures Room(s', id, n) {
      assert Room(s, id, n);
      StepRoom(cfg, s, h, ok, ts, n, id);
    }
    if me in s.pending && s.handlers[h].pc.ToIncrement? {
      assert h in Racing(s, me);
    }
    StepSame(cfg, s, h, ok, ts);
  }

  lemma NextBounded(cfg: Config, s: Bus, a: Action, n: nat)
    requires n < MAX_RETRY_ATTEMPTS - 1 && Durable(s) && Bounded(s, n)
    requires forall id :: |Racing(Next(cfg, s, a), id)| <= n
    ensures Bounded(Next(cfg, s, a), n)
  {
    var s' := Next(cfg, s, a);
    if Enabled(s, a) {
      match a
      case Advance(h, ok, ts) => StepBounded(cfg, s, h, ok, ts, n);
      case Receive(h, _) =>
        forall id ensures Room(s', id, n) { assert Room(s, id, n); KeepsRoom(s, s', h, id, n); }
      case StartReplay(h, _) =>
        forall id ensures Room(s', id, n) { assert Room(s, id, n); KeepsRoom(s, s', h, id, n); }
      case FlushLog =>
        forall id ensures Room(s', id, n) { assert Room(s, id, n) && Racing(s', id) == Racing(s, id); }
      case CompactLog(order) =>
        forall id ensures Room(s', id, n) { assert Room(s, id, n) && Racing(s', id) == Racing(s, id); }
        forall i | 0 <= i < |order| ensures order[i].attempts - 1 <= n { assert Room(s, order[i].id, n); }
      case CrashRestart(keep) =>
        forall id ensures Room(s', id, n) {
          if id in s'.pending { ReplayFromLog(s'.log, id); }
          assert Racing(s', id) == {};
        }
    }
  }

  /** With at most three handlers of one id racing, no run ever reaches the dead letter queue:
      each append resets the attempts, and nothing else retries. */
  lemma {:induction false} FewRacersNeverDeadLetter(cfg: Config, acts: seq<Action>, n: nat)
    requires n < MAX_RETRY_ATTEMPTS - 1
    requires forall k, id | 0 <= k <= |acts| :: |Racing(Run(cfg, START, acts[..k]), id)| <= n
    ensures Durable(Run(cfg, START, acts)) && Bounded(Run(cfg, START, acts), n)
    ensures Run(cfg, START, acts).dead == {}
  {
    if acts != [] {
      var m := |acts| - 1;
      var before := acts[..m];
      var s := Run(cfg, START, before);
      forall k, id | 0 <= k <= m ensures |Racing(Run(cfg, START, before[..k]), id)| <= n {
        assert before[..k] == acts[..k];
      }
      FewRacersNeverDeadLetter(cfg, before, n);
      assert acts[..|acts|] == acts;
      assert Run(cfg, START, acts) == Next(cfg, s, acts[m]);
      NextDurable(cfg, s, acts[m]);
      NextBounded(cfg, s, acts[m], n);
    }
  }

  // ---- Witness runs ----

  lemma Run2(cfg: Config, s: Bus, a: Action, b: Action)
    ensures Run(cfg, s, [a]) == Next(cfg, s, a)
    ensures Run(cfg, s, [a, b]) == Next(cfg, Next(cfg, s, a), b)
  {
    assert [a][..0] == [] && [a, b][..1] == [a];
  }

  /** The only message is `m`; handlers `hs` are about to send it; `a` attempts are on record. */
  ghost predicate Waiting(s: Bus, m: Message, hs: set<nat>, a: int) {
    && s.handlers.Keys == hs && (forall h | h in hs :: s.handlers[h] == Handler(m, ToSend))
    && s.pending.Keys == {m.id} && s.pending[m.id].attempts == a
    && s.appended == {m.id} && s.accepted == {} && s.dead == {} && s.lost == {} && s.erased == {}
    && s.synced == 0 && s.up
  }

  lemma Join(cfg: Config, s: Bus, m: Message, hs: set<nat>, h: nat)
    requires !IsControl(m) && h !in hs
    requires (s == START && hs == {}) || Waiting(s, m, hs, 1)
    ensures Waiting(Run(cfg, s, [Receive(h, m), Advance(h, true, "")]), m, hs + {h}, 1)
  {
    Run2(cfg, s, Receive(h, m), Advance(h, true, ""));
  }

  lemma Fail(cfg: Config, s: Bus, m: Message, hs: set<nat>, h: nat, a: int)
    requires cfg.hasBridge && h in hs && Waiting(s, m, hs, a)
    ensures var s' := Run(cfg, s, [Advance(h, false, ""), Advance(h, false, "")]);
            if a + 1 < MAX_RETRY_ATTEMPTS then Waiting(s', m, hs - {h}, a + 1)
            else s'.handlers == s.handlers[h := Handler(m, ToMark(a + 1))] && Waiting(Finish(s', h), m, hs - {h}, a + 1)
  {
    Run2(cfg, s, Advance(h, false, ""), Advance(h, false, ""));
  }

  function Below(n: nat): (r: set<nat>)
    ensures forall h: nat :: h in r <==> h < n
  {
    if n == 0 then {} else Below(n - 1) + {n - 1}
  }

  lemma {:induction false} JoinMany(cfg: Config, m: Message, n: nat) returns (acts: seq<Action>)
    requires !IsControl(m) && n > 0
    ensures Waiting(Run(cfg, START, acts), m, Below(n), 1)
  {
    acts := [];
    if n > 1 { acts := JoinMany(cfg, m, n - 1); }
    var b := [Receive(n - 1, m), Advance(n - 1, true, "")];
    Join(cfg, Run(cfg, START, acts), m, Below(n - 1), n - 1);
    RunConcat(cfg, START, acts, b);
    acts := acts + b;
  }

  lemma {:induction false} FailMany(cfg: Config, m: Message, n: nat) returns (acts: seq<Action>)
    requires cfg.hasBridge && !IsControl(m) && n < 4
    ensures Waiting(Run(cfg, START, acts), m, Below(4) - Below(n), 1 + n)
  {
    if n == 0 {
      acts := JoinMany(cfg, m, 4);
      assert Below(4) - Below(0) == Below(4);
    } else {
      acts := FailMany(cfg, m, n - 1);
      var b := [Advance(n - 1, false, ""), Advance(n - 1, false, "")];
      var hs := Below(4) - Below(n - 1);
      Fail(cfg, Run(cfg, START, acts), m, hs, n - 1, n);
      assert hs - {n - 1} == Below(4) - Below(n);
      RunConcat(cfg, START, acts, b);
      acts := acts + b;
    }
  }

  /** Four overlapping handlers of one id, every send refused, bring the last of them to the
      point between MarkDLQ and Put. */
  lemma FourRacersReachPut(cfg: Config, m: Message) returns (acts: seq<Action>)
    requires cfg.hasBridge && !IsControl(m)
    ensures var s := Run(cfg, START, acts);
            && s.handlers == map[3 := Handler(m, ToPut(5))] && s.pending == map[] && s.appended == {m.id}
            && s.accepted == {} && s.dead == {} && s.lost == {} && s.erased == {} && s.up
  {
    acts := FailMany(cfg, m, 3);
    var s := Run(cfg, START, acts);
    var b := [Advance(3, false, ""), Advance(3, false, "")];
    assert Below(4) - Below(3) == {3};
    Fail(cfg, s, m, {3}, 3, 4);
    var s1 := Run(cfg, s, b);
    RunConcat(cfg, START, acts, b);
    var c := [Advance(3, false, "")];
    Run2(cfg, s1, c[0], FlushLog);
    RunConcat(cfg, START, acts + b, c);
    acts := acts + b + c;
    assert s1.handlers == map[3 := Handler(m, ToMark(5))];
    assert s1.pending - {m.id} == map[];
  }

  /** At-least-once holds in every run exactly when the router has both a bridge to accept
      messages and a dead letter queue to keep those it gives up on. */
  lemma AtLeastOnceIff(cfg: Config)
    ensures (forall acts :: Accounted(Run(cfg, START, acts))) <==> cfg.hasBridge && cfg.hasDLQ
  {
    var m := Message("id", "message", "c", "");
    if cfg.hasBridge && cfg.hasDLQ {
      forall acts ensures Accounted(Run(cfg, START, acts)) { RunAccounted(cfg, acts); }
    } else if cfg.hasBridge {
      var acts := FourRacersReachPut(cfg, m);
      var s := Run(cfg, START, acts);
      Run2(cfg, s, Advance(3, false, ""), FlushLog);
      RunConcat(cfg, START, acts, [Advance(3, false, "")]);
      assert "id" in Run(cfg, START, acts + [Advance(3, false, "")]).appended;
    } else {
      Join(cfg, START, m, {}, 0);
      var a := [Receive(0, m), Advance(0, true, "")];
      var s := Run(cfg, START, a);
      var b := [Advance(0, true, ""), Advance(0, true, "")];
      Run2(cfg, s, b[0], b[1]);
      RunConcat(cfg, START, a, b);
      assert "id" in Run(cfg, START, a + b).appended;
    }
  }

  /** The window between MarkDLQ and Put is real: a crash there, with every record kept, leaves
      an id neither pending, nor accepted, nor dead-lettered. */
  lemma CrashWindowLosesAnId(cfg: Config, m: Message) returns (acts: seq<Action>)
    requires cfg.hasBridge && !IsControl(m)
    ensures var s := Run(cfg, START, acts);
            && m.id in s.appended && m.id !in s.pending && m.id !in s.accepted && m.id !in s.dead
            && m.id in s.lost && s.erased == {} && s.handlers == map[]
  {
    acts := FourRacersReachPut(cfg, m);
    var s := Run(cfg, START, acts);
    RunDurable(cfg, acts);
    var c := Action.CrashRestart(|s.log|);
    Run2(cfg, s, c, FlushLog);
    RunConcat(cfg, START, acts, [c]);
    acts := acts + [c];
    assert s.log[..|s.log|] == s.log;
    assert s.handlers[3].pc.ToPut? && m.id in Held(s);
  }

  lemma {:induction false} RunDurable(cfg: Config, acts: seq<Action>)
    ensures Durable(Run(cfg, START, acts))
  {
    if acts != [] {
      RunDurable(cfg, acts[..|acts| - 1]);
      NextDurable(cfg, Run(cfg, START, acts[..|acts| - 1]), acts[|acts| - 1]);
    }
  }
}
