/** When the bus comes up again: log lines against the recovery scanner's limit, over runs
    (internal/ipcbus/wal.go, internal/ipcbus/router.go). */
module Uptime {
  import opened Common
  import opened Decimal
  import opened Wal
  import opened Router

  lemma Logged(cfg: Config, m: Message, ts: string)
    requires !IsControl(m)
    ensures var s := Router.Run(cfg, START, [Receive(0, m), Advance(0, true, ts)]);
            s == START.(log := [Good(NewEntry(m, ts))], pending := map[m.id := NewEntry(m, ts)],
                        handlers := map[0 := Handler(m, ToSend)], appended := {m.id})
  {
    Run2(cfg, START, Receive(0, m), Advance(0, true, ts));
  }

  lemma SyncedAndCrashed(cfg: Config, s: Bus, line: Line)
    requires s.up && s.log == [line] && s.synced == 0
    ensures var s' := Router.Run(cfg, s, [FlushLog, Action.CrashRestart(1)]);
            (s'.up <==> Fits(cfg.sizes, line)) && s'.pending == Replay(map[], [line]) && s'.handlers == map[]
  {
    Run2(cfg, s, FlushLog, Action.CrashRestart(1));
    assert [line][..1] == [line];
    assert AllFit(cfg.sizes, [line]) <==> Fits(cfg.sizes, [line][0]);
  }

  /** One message received, logged and synced is pending again after a crash exactly when its line is at
      most 16 MiB long; otherwise the bus does not come up. */
  lemma LoggedMessageReturnsIff(cfg: Config, m: Message, ts: string)
    requires !IsControl(m)
    ensures var z := cfg.sizes;
            var s := Router.Run(cfg, START, [Receive(0, m), Advance(0, true, ts), FlushLog, Action.CrashRestart(1)]);
            && (s.up <==> z.message(m) + z.text(m.id) + z.text(m.channel) + z.text("pending") + z.text(ts) + 54
                          <= 0x100_0000)
            && s.pending == map[m.id := NewEntry(m, ts)] && s.handlers == map[]
  {
    var a, b := [Receive(0, m), Advance(0, true, ts)], [FlushLog, Action.CrashRestart(1)];
    var line := Good(NewEntry(m, ts));
    Logged(cfg, m, ts);
    SyncedAndCrashed(cfg, Router.Run(cfg, START, a), line);
    RunConcat(cfg, START, a, b);
    assert a + b == [Receive(0, m), Advance(0, true, ts), FlushLog, Action.CrashRestart(1)];
    assert [line][..0] == [] && Replay(map[], [line]) == ReplayLine(map[], line);
    FreshLineFitsIff(cfg.sizes, m, ts);
  }

  // ---- Small messages ----

  /** JSON spends at most six bytes on a character. */
  ghost predicate Tame(z: Sizes) { forall t :: z.text(t) <= 6 * |t| + 2 }

  function SizeOf(z: Sizes, m: Message): nat { z.message(m) + z.text(m.id) + z.text(m.channel) }

  const LONGEST_TS: nat := 64
  const SLACK: nat := 512

  ghost predicate Small(z: Sizes, e: Entry, size: nat, attempts: nat) {
    && !e.state.Unknown? && 0 <= e.attempts <= attempts && |e.ts| <= LONGEST_TS
    && z.text(e.id) + z.text(e.channel) + (if e.msg.Some? then z.message(e.msg.value) else 0) <= size
  }

  ghost predicate SmallLog(z: Sizes, log: seq<Line>, size: nat, attempts: nat) {
    forall i | 0 <= i < |log| :: log[i].Good? && Small(z, log[i].entry, size, attempts)
  }

  ghost predicate SmallPending(z: Sizes, m: Entries, size: nat, attempts: nat) {
    forall id | id in m :: Small(z, m[id], size, attempts)
  }

  lemma {:induction false} DigitsMonotone(n: nat, m: nat)
    requires n <= m
    ensures |Digits(n)| <= |Digits(m)|
  {
    if n >= 10 { DigitsMonotone(n / 10, m / 10); }
  }

  lemma SmallFits(z: Sizes, e: Entry, size: nat, attempts: nat)
    requires Tame(z) && Small(z, e, size, attempts)
    requires size + |Digits(attempts)| + SLACK <= 0x100_0000
    ensures Fits(z, Good(e))
  {
    DigitsMonotone(e.attempts, attempts);
    assert z.text(StateText(e.state)) <= 50 && z.text(e.ts) <= 386;
    assert LineLen(z, e) <= size + 53 + 50 + |Digits(attempts)| + 386;
    ScannerLimit();
  }

  /** The limit is the scanner's: 16 MiB. */
  lemma ScannerLimit()
    ensures MAX_LINE == 0x100_0000
  {
  }

  lemma {:induction false} ReplaySmall(z: Sizes, log: seq<Line>, size: nat, attempts: nat)
    requires SmallLog(z, log, size, attempts)
    ensures SmallPending(z, Replay(map[], log), size, attempts)
  {
    if log != [] { ReplaySmall(z, log[..|log| - 1], size, attempts); }
  }

  lemma ExecSmall(z: Sizes, m: Entries, op: Op, size: nat, attempts: nat)
    requires attempts >= 1 && SmallPending(z, m, size, attempts) && |op.ts| <= LONGEST_TS
    requires op.Append? ==> SizeOf(z, op.msg) <= size
    ensures SmallLog(z, Record(Exec(m, op).written), size, attempts + 1)
  {
  }

  ghost predicate SmallSenders(z: Sizes, s: Bus, size: nat) {
    forall h | h in s.handlers && s.handlers[h].pc.ToAppend? :: SizeOf(z, s.handlers[h].msg) <= size
  }

  /** Every message received has at most this size and every time stamp written is short. */
  ghost predicate SmallInputs(z: Sizes, acts: seq<Action>, size: nat) {
    forall i | 0 <= i < |acts| ::
      && (acts[i].Receive? ==> SizeOf(z, acts[i].msg) <= size)
      && (acts[i].Advance? ==> |acts[i].ts| <= LONGEST_TS)
  }

  lemma StepSmall(cfg: Config, s: Bus, h: nat, ok: bool, ts: string, size: nat, attempts: nat)
    requires h in s.handlers && attempts >= 1 && |ts| <= LONGEST_TS
    requires SmallLog(cfg.sizes, s.log, size, attempts) && SmallPending(cfg.sizes, s.pending, size, attempts)
    requires SmallSenders(cfg.sizes, s, size)
    ensures var s' := StepHandler(cfg, s, h, ok, ts);
            SmallLog(cfg.sizes, s'.log, size, attempts + 1) && SmallSenders(cfg.sizes, s', size)
  {
    StepIsOp(cfg, s, h, ok, ts);
    StepSame(cfg, s, h, ok, ts);
    StepLeavesAppend(cfg, s, h, ok, ts);
    if OpOf(s, h, ts).Some? { ExecSmall(cfg.sizes, s.pending, OpOf(s, h, ts).value, size, attempts); }
  }

  lemma StepLeavesAppend(cfg: Config, s: Bus, h: nat, ok: bool, ts: string)
    requires h in s.handlers
    ensures var s' := StepHandler(cfg, s, h, ok, ts); h in s'.handlers ==> !s'.handlers[h].pc.ToAppend?
  {
  }

  lemma NextSmall(cfg: Config, s: Bus, a: Action, size: nat, attempts: nat)
    requires Durable(s) && attempts >= 1 && SmallInputs(cfg.sizes, [a], size)
    requires SmallLog(cfg.sizes, s.log, size, attempts) && SmallSenders(cfg.sizes, s, size)
    ensures var s' := Router.Next(cfg, s, a);
            SmallLog(cfg.sizes, s'.log, size, attempts + 1) && SmallSenders(cfg.sizes, s', size)
  {
    ReplaySmall(cfg.sizes, s.log, size, attempts);
    assert [a][0] == a;
    if Router.Enabled(s, a) && a.Advance? { StepSmall(cfg, s, a.h, a.sendOk, a.ts, size, attempts); }
  }

  lemma {:induction false} RunSmall(cfg: Config, acts: seq<Action>, size: nat)
    requires SmallInputs(cfg.sizes, acts, size)
    ensures var s := Router.Run(cfg, START, acts);
            SmallLog(cfg.sizes, s.log, size, |acts| + 1) && SmallSenders(cfg.sizes, s, size)
  {
    if acts != [] {
      var n := |acts| - 1;
      assert forall i | 0 <= i < n :: acts[..n][i] == acts[i];
      RunSmall(cfg, acts[..n], size);
      RunDurable(cfg, acts[..n]);
      assert SmallInputs(cfg.sizes, [acts[n]], size);
      NextSmall(cfg, Router.Run(cfg, START, acts[..n]), acts[n], size, n + 1);
    }
  }

  /** A bus that is sent messages short of the limit comes up after every crash of every run, whatever is
      retried, replayed and compacted: 512 bytes of room, and the digits of the attempts, are enough. */
  lemma SmallMessagesStayUp(cfg: Config, acts: seq<Action>, size: nat)
    requires Tame(cfg.sizes) && SmallInputs(cfg.sizes, acts, size)
    requires size + |Digits(|acts| + 1)| + SLACK <= 0x100_0000
    ensures Router.Run(cfg, START, acts).up
  {
    forall k | 0 <= k <= |acts| ensures AllFit(cfg.sizes, Router.Run(cfg, START, acts[..k]).log) {
      assert forall i | 0 <= i < k :: acts[..k][i] == acts[i];
      RunSmall(cfg, acts[..k], size);
      var log := Router.Run(cfg, START, acts[..k]).log;
      forall i | 0 <= i < |log| ensures Fits(cfg.sizes, log[i]) {
        DigitsMonotone(k + 1, |acts| + 1);
        SmallFits(cfg.sizes, log[i].entry, size, k + 1);
      }
    }
    FittingBusStaysUp(cfg, acts);
  }
}
