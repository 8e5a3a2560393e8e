/** The router's methods run without interference: HandleInbound, scheduleRetry and ReplayWAL
    over the log, one channel's ring and the dead letter queue (internal/ipcbus/router.go).
    The router's collaborators are parameters; an absent one is null. */
module Dispatch {
  import opened Common
  import opened Wal
  import opened RingBuffers
  import opened Router
  import opened DeadLetters
  import Framing

  /** The attempts on record once a failure has been counted, when the id is pending. */
  ghost function Counted(m: Entries, id: string): int {
    if id in m then m[id].attempts + 1 else 0
  }

  /** Counts the failed attempt; from the fifth on, moves the message to the dead letter queue
      (or nowhere, when there is none). Without a log nothing is retried. */
  method ScheduleRetry(wal: WAL?, dlq: DLQ?, msg: Message, ts: string, cursor: seq<string>)
    requires wal != null ==> wal.Valid() && wal.usable
    requires dlq != null ==> IsCursor(cursor, dlq.bucket)
    modifies wal, dlq
    ensures wal != null ==>
              && wal.Valid() && wal.usable
              && wal.entries == if Counted(old(wal.entries), msg.id) < MAX_RETRY_ATTEMPTS
                                then Exec(old(wal.entries), IncrementAttempts(msg.id, ts)).entries
                                else old(wal.entries) - {msg.id}
    ensures dlq != null && (wal == null || Counted(old(wal.entries), msg.id) < MAX_RETRY_ATTEMPTS) ==>
              dlq.bucket == old(dlq.bucket)
    ensures dlq != null && wal != null && Counted(old(wal.entries), msg.id) >= MAX_RETRY_ATTEMPTS ==>
              PutStep(dlq.maxSize, old(dlq.bucket),
                      DLQEntry(msg.id, msg.channel, Counted(old(wal.entries), msg.id), ts, msg), dlq.bucket)
  {
    if wal == null {
      return;
    }
    var attempts := CountFailure(wal, msg.id, ts);
    if attempts.None? {
      return;
    }
    if attempts.value >= MAX_RETRY_ATTEMPTS {
      Bury(wal, dlq, msg, attempts.value, ts, cursor);
    }
  }

  method CountFailure(wal: WAL, id: string, ts: string) returns (attempts: Option<int>)
    requires wal.Valid() && wal.usable
    modifies wal
    ensures wal.Valid() && wal.usable
    ensures wal.entries == Exec(old(wal.entries), IncrementAttempts(id, ts)).entries
    ensures attempts == if id in old(wal.entries) then Some(Counted(old(wal.entries), id)) else None
  {
    attempts := wal.Increment(id, ts);
  }

  method Bury(wal: WAL, dlq: DLQ?, msg: Message, attempts: int, ts: string, cursor: seq<string>)
    requires wal.Valid() && wal.usable
    requires dlq != null ==> IsCursor(cursor, dlq.bucket)
    modifies wal, dlq
    ensures wal.Valid() && wal.usable && wal.entries == old(wal.entries) - {msg.id}
    ensures dlq != null ==>
              PutStep(dlq.maxSize, old(dlq.bucket), DLQEntry(msg.id, msg.channel, attempts, ts, msg), dlq.bucket)
  {
    var _ := wal.MarkDead(msg.id, ts);
    if dlq != null {
      dlq.Put(msg, attempts, ts, cursor);
    }
  }

  /** One inbound message, start to finish. `signals` are the backpressure messages sent back; `rb`
      is null when the channel has no ring. */
  method HandleInbound(wal: WAL?, dlq: DLQ?, hasBridge: bool, rb: RingBuffer?<Message>,
                       msg: Message, sendOk: bool, ts: string, cursor: seq<string>)
    returns (signals: seq<string>)
    requires (wal != null ==> wal.Valid() && wal.usable) && (rb != null ==> rb.Valid())
    requires dlq != null ==> IsCursor(cursor, dlq.bucket)
    modifies wal, dlq, rb, if rb != null then {rb.buf} else {}
    ensures wal != null ==>
              && wal.Valid() && wal.usable
              && wal.entries == if IsControl(msg) then old(wal.entries)
                                else if hasBridge && !sendOk then
                                  old(wal.entries)[msg.id := NewEntry(msg, ts).(attempts := 2)]
                                else old(wal.entries) - {msg.id}
    ensures rb != null ==>
              var pushed := PushRing(rb.marks, old(rb.Contents()), msg);
              && rb.Valid()
              && rb.Contents() == (if IsControl(msg) then old(rb.Contents())
                                   else if hasBridge && !sendOk then pushed
                                   else PopRing(rb.marks, pushed))
              && signals == if IsControl(msg) then []
                            else if hasBridge && !sendOk then Raised(old(rb.state), rb.state)
                            else Raised(old(rb.state), pushed.mode) + Raised(pushed.mode, rb.state)
    ensures rb == null ==> signals == []
    ensures dlq != null ==> dlq.bucket == old(dlq.bucket)  // one handler alone never gets there
  {
    signals := [];
    if IsControl(msg) {
      return;
    }
    LogInbound(wal, msg, ts);
    signals := Enqueue(rb, msg);
    if hasBridge && !sendOk {
      ScheduleRetry(wal, dlq, msg, ts, cursor);
      return;
    }
    var resume := Delivered(wal, rb, msg.id, ts);
    signals := signals + resume;
  }

  /** What follows a send the bridge accepted. */
  method Delivered(wal: WAL?, rb: RingBuffer?<Message>, id: string, ts: string) returns (signals: seq<string>)
    requires (wal != null ==> wal.Valid() && wal.usable) && (rb != null ==> rb.Valid())
    modifies wal, rb, if rb != null then {rb.buf} else {}
    ensures wal != null ==> wal.Valid() && wal.usable && wal.entries == old(wal.entries) - {id}
    ensures rb != null ==> && rb.Valid() && rb.Contents() == PopRing(rb.marks, old(rb.Contents()))
                           && signals == Raised(old(rb.state), rb.state)
    ensures rb == null ==> signals == []
  {
    LogComplete(wal, id, ts);
    signals := Dequeue(rb);
  }

  method LogInbound(wal: WAL?, msg: Message, ts: string)
    requires wal != null ==> wal.Valid() && wal.usable
    modifies wal
    ensures wal != null ==> wal.Valid() && wal.usable && wal.entries == old(wal.entries)[msg.id := NewEntry(msg, ts)]
  {
    if wal != null {
      wal.Append(msg, ts);
    }
  }

  method LogComplete(wal: WAL?, id: string, ts: string)
    requires wal != null ==> wal.Valid() && wal.usable
    modifies wal
    ensures wal != null ==> wal.Valid() && wal.usable && wal.entries == old(wal.entries) - {id}
  {
    if wal != null {
      var _ := wal.Complete(id, ts);
    }
  }

  method Enqueue(rb: RingBuffer?<Message>, msg: Message) returns (signals: seq<string>)
    requires rb != null ==> rb.Valid()
    modifies rb, if rb != null then {rb.buf} else {}
    ensures rb != null ==>
              && rb.Valid()
              && rb.Contents() == PushRing(rb.marks, old(rb.Contents()), msg)
              && signals == Raised(old(rb.state), rb.state)
    ensures rb == null ==> signals == []
  {
    signals := [];
    if rb != null {
      var ok, stateChanged := rb.Push(msg);
      if stateChanged {
        signals := ["slow_down"];
      }
    }
  }

  method Dequeue(rb: RingBuffer?<Message>) returns (signals: seq<string>)
    requires rb != null ==> rb.Valid()
    modifies rb, if rb != null then {rb.buf} else {}
    ensures rb != null ==>
              && rb.Valid() && rb.Contents() == PopRing(rb.marks, old(rb.Contents()))
              && signals == Raised(old(rb.state), rb.state)
    ensures rb == null ==> signals == []
  {
    signals := [];
    if rb != null {
      var _, stateChanged := rb.Pop();
      if stateChanged {
        signals := ["resume"];
      }
    }
  }

  /** The message announcing a change of mode. */
  function Raised(was: Mode, now: Mode): seq<string> {
    if was == now then [] else if now == SlowDown then ["slow_down"] else ["resume"]
  }

  /** One slow_down at the push that reaches the high mark in normal mode, one resume at the pop that
      reaches the low mark in slow mode, and nothing else. */
  lemma RaisedIff(k: Marks, r: Ring<Message>, msg: Message)
    requires k.size > 0
    ensures var up := Raised(r.mode, PushRing(k, r, msg).mode);
            up == if r.mode == Normal && |r.items| < k.size && Fill(|r.items| + 1, k.size) >= k.high then ["slow_down"]
                  else []
    ensures var down := Raised(r.mode, PopRing(k, r).mode);
            down == if r.mode == SlowDown && r.items != [] && Fill(|r.items| - 1, k.size) <= k.low then ["resume"]
                    else []
  {
  }

  /** Whether ReplayWAL clears a pending entry: it carries its message and the bridge took it. */
  predicate Cleared(hasBridge: bool, e: Entry, answers: string -> bool) {
    e.msg.Some? && (hasBridge ==> answers(e.id))
  }

  function ClearedIds(hasBridge: bool, es: seq<Entry>, answers: string -> bool): set<string> {
    set e | e in es && Cleared(hasBridge, e, answers) :: e.id
  }

  function TriedIds(hasBridge: bool, es: seq<Entry>): (s: seq<string>) {
    if es == [] then []
    else
      var e := es[|es| - 1];
      TriedIds(hasBridge, es[..|es| - 1]) + if hasBridge && e.msg.Some? then [e.id] else []
  }

  /** What is left pending once `es` have been replayed. */
  function StillPending(m: Entries, hasBridge: bool, es: seq<Entry>, answers: string -> bool): Entries {
    m - ClearedIds(hasBridge, es, answers)
  }

  lemma ReplayedOneMore(m: Entries, hasBridge: bool, es: seq<Entry>, i: nat, answers: string -> bool)
    requires i < |es|
    ensures StillPending(m, hasBridge, es[..i + 1], answers)
            == StillPending(m, hasBridge, es[..i], answers)
               - if Cleared(hasBridge, es[i], answers) then {es[i].id} else {}
    ensures TriedIds(hasBridge, es[..i + 1])
            == TriedIds(hasBridge, es[..i]) + if hasBridge && es[i].msg.Some? then [es[i].id] else []
  {
    assert es[..i + 1] == es[..i] + [es[i]];
    assert es[..i + 1][..i] == es[..i];
    assert ClearedIds(hasBridge, es[..i + 1], answers)
        == ClearedIds(hasBridge, es[..i], answers) + if Cleared(hasBridge, es[i], answers) then {es[i].id} else {};
  }

  /** One entry of the replay: skip it without a message, leave it on a refusal, else complete it. */
  method ReplayOne(wal: WAL, hasBridge: bool, entry: Entry, answers: string -> bool, ts: string)
    returns (tried: seq<string>)
    requires wal.Valid() && wal.usable
    modifies wal
    ensures wal.Valid() && wal.usable
    ensures wal.entries == old(wal.entries) - if Cleared(hasBridge, entry, answers) then {entry.id} else {}
    ensures tried == if hasBridge && entry.msg.Some? then [entry.id] else []
  {
    tried := [];
    if entry.msg.None? {
      return;
    }
    if hasBridge {
      tried := [entry.id];
      if !answers(entry.id) {
        return;
      }
    }
    var _ := wal.Complete(entry.id, ts);
  }

  /** Sends every pending message once, in some order, and completes those the bridge accepts.
      `answers` is the bridge's answer for each id. */
  method ReplayWAL(wal: WAL?, hasBridge: bool, answers: string -> bool, ts: string)
    returns (attempted: seq<string>, entries: seq<Entry>)
    requires wal != null ==> wal.Valid() && wal.usable
    modifies wal
    ensures attempted == TriedIds(hasBridge, entries)
    ensures wal == null ==> attempted == []
    ensures wal != null ==>
              && wal.Valid() && wal.usable && Enumerates(entries, old(wal.entries))
              && wal.entries == StillPending(old(wal.entries), hasBridge, entries, answers)
  {
    if wal == null {
      return [], [];
    }
    entries := wal.PendingEntries();
    attempted := [];
    var i := 0;
    while i < |entries|
      invariant 0 <= i <= |entries| && wal.Valid() && wal.usable
      invariant attempted == TriedIds(hasBridge, entries[..i])
      invariant wal.entries == StillPending(old(wal.entries), hasBridge, entries[..i], answers)
    {
      ReplayedOneMore(old(wal.entries), hasBridge, entries, i, answers);
      var tried := ReplayOne(wal, hasBridge, entries[i], answers, ts);
      attempted := attempted + tried;
      i := i + 1;
    }
    assert entries[..i] == entries;
  }

  lemma {:induction false} TriedExactly(hasBridge: bool, es: seq<Entry>)
    requires forall i, j | 0 <= i < j < |es| :: es[i].id != es[j].id
    ensures forall id :: id in TriedIds(hasBridge, es) <==> hasBridge && Carries(es, id)
    ensures NoRepeats(TriedIds(hasBridge, es))
  {
    if es != [] {
      var n := |es| - 1;
      TriedExactly(hasBridge, es[..n]);
      forall id ensures Carries(es, id) <==> Carries(es[..n], id) || (es[n].id == id && es[n].msg.Some?) {
        if Carries(es, id) {
          var i :| 0 <= i < |es| && es[i].id == id && es[i].msg.Some?;
          if i < n { assert es[..n][i] == es[i]; }
        }
        if Carries(es[..n], id) {
          var i :| 0 <= i < n && es[..n][i].id == id && es[..n][i].msg.Some?;
          assert es[i].id == id;
        }
        if es[n].id == id && es[n].msg.Some? { assert Carries(es, id); }
      }
      var t := TriedIds(hasBridge, es[..n]);
      assert !Carries(es[..n], es[n].id) && es[n].id !in t;
      NoRepeatsSnoc(t, es[n].id);
      assert t + [] == t;
    }
  }

  ghost predicate Carries(es: seq<Entry>, id: string) {
    exists i :: 0 <= i < |es| && es[i].id == id && es[i].msg.Some?
  }

  /** The last surviving record about `id` is a pending one. */
  ghost predicate EndsPending(log: seq<Line>, id: string) {
    exists i: nat :: LastWord(log, id, i) && log[i].entry.state == Pending
  }

  /** After a crash, recovery plus ReplayWAL sends each id whose surviving records end in pending,
      exactly once and no other, and leaves pending exactly those the bridge refused. */
  lemma RestartRedelivers(log: seq<Line>, entries: seq<Entry>, answers: string -> bool, id: string)
    requires Enumerates(entries, Replay(map[], log))
    requires Carrying(log)
    ensures id in TriedIds(true, entries) <==> EndsPending(log, id)
    ensures NoRepeats(TriedIds(true, entries))
    ensures id in StillPending(Replay(map[], log), true, entries, answers) <==> EndsPending(log, id) && !answers(id)
  {
    var m := Replay(map[], log);
    ReplayIsLastWord(log, id);
    TriedExactly(true, entries);
    if id in m {
      var i: nat :| LastWord(log, id, i) && log[i].entry.state == Pending;
      assert m[id] == log[i].entry && m[id] in entries;
      var k :| 0 <= k < |entries| && entries[k] == m[id];
      assert Carries(entries, id);
    }
    if Carries(entries, id) {
      var k :| 0 <= k < |entries| && entries[k].id == id && entries[k].msg.Some?;
      assert entries[k].id in m;
    }
  }

  /** Every run of the concurrent router meets that condition: after any crash the bus comes up from,
      replaying sends exactly the ids whose surviving records end in pending, each once. */
  lemma RouterRestartRedelivers(cfg: Config, acts: seq<Router.Action>, keep: nat, entries: seq<Entry>,
                                answers: string -> bool, id: string)
    requires var s := Router.Run(cfg, START, acts);
             && s.synced <= keep <= |s.log| && AllFit(cfg.sizes, s.log[..keep])
             && Enumerates(entries, Crash(cfg, s, keep).pending)
    ensures var s := Router.Run(cfg, START, acts);
            && Router.Next(cfg, s, Router.Action.CrashRestart(keep)) == Crash(cfg, s, keep) && Crash(cfg, s, keep).up
            && NoRepeats(TriedIds(true, entries))
            && (id in TriedIds(true, entries) <==> EndsPending(s.log[..keep], id))
            && (id in StillPending(Crash(cfg, s, keep).pending, true, entries, answers)
                <==> EndsPending(s.log[..keep], id) && !answers(id))
  {
    var s := Router.Run(cfg, START, acts);
    RunCarries(cfg, acts);
    RestartRedelivers(s.log[..keep], entries, answers, id);
  }

  // ---- A message the socket takes and the log cannot give back ----

  /** Bodies within the frame limit but not a wrapper below it are received, logged, and then stop
      the bus at the next restart. */
  lemma ReceivedYetJams(cfg: Config, codec: Framing.Codec, msg: Message, ts: string)
    requires Lawful(cfg.sizes) && !IsControl(msg)
    requires codec.marshal(msg).Some? && codec.unmarshal(codec.marshal(msg).value) == Some(msg)
    requires |codec.marshal(msg).value| == cfg.sizes.message(msg)
    requires MAX_LINE - WRAPPER < cfg.sizes.message(msg) <= 0x100_0000
    ensures Framing.Parse(codec, Framing.Frame(codec.marshal(msg).value)).0 == Framing.Got(msg)
    ensures Jammed(cfg, Router.Run(cfg, START,
              [Receive(0, msg), Advance(0, true, ts), FlushLog, Router.Action.CrashRestart(1)]))
  {
    var data := codec.marshal(msg).value;
    Framing.ParseFrame(codec, Framing.Sent(msg, data), []);
    assert Framing.Frame(data) + [] == Framing.Frame(data);
    FreshLineLen(cfg.sizes, msg, ts);
    OversizeMessageJams(cfg, msg, ts);
  }

  /** The encoding of a message none of whose texts needs escaping. */
  function PlainText(m: Message): string {
    "{\"id\":\"" + m.id + "\",\"type\":\"" + m.kind + "\",\"channel\":\"" + m.channel
    + "\",\"timestamp\":\"2026-01-01T00:00:00Z\",\"payload\":" + m.payload + "}"
  }

  const PLAIN := Sizes(m => |PlainText(m)|, t => |t| + 2)

  const PLAIN_EXTRA: nat := 78

  lemma PlainLen(m: Message)
    ensures |PlainText(m)| == PLAIN_EXTRA + |m.id| + |m.kind| + |m.channel| + |m.payload|
  {
  }

  /** Exactly which plain messages a restart can read back. */
  lemma PlainFitsIff(m: Message, ts: string)
    ensures Fits(PLAIN, Good(NewEntry(m, ts))) <==> |PlainText(m)| + 69 + |m.id| + |m.channel| + |ts| <= 0x100_0000
  {
    FreshLineFitsIff(PLAIN, m, ts);
  }

  lemma PlainOversize(m: Message, ts: string)
    requires |PlainText(m)| > MAX_LINE - WRAPPER
    ensures !Fits(PLAIN, Good(NewEntry(m, ts)))
  {
    assert Lawful(PLAIN);
    FreshLineLen(PLAIN, m, ts);
  }

  /** There is such a message: a payload of plain letters that makes the body exactly 16 MiB. */
  lemma LongestMessage(ts: string) returns (m: Message)
    ensures !IsControl(m) && |PlainText(m)| == 0x100_0000
    ensures !Fits(PLAIN, Good(NewEntry(m, ts)))
  {
    var letters := seq(0x100_0000 - PLAIN_EXTRA - 11, _ => 'x');
    m := Message("a", "message", "c", "\"" + letters + "\"");
    PlainLen(m);
    PlainOversize(m, ts);
  }

  /** An entry without its message is never sent and never completed: it stays pending through
      every restart. No operation of the log writes such a record. */
  lemma MissingMessageStays(entries: seq<Entry>, m: Entries, answers: string -> bool, id: string)
    requires Keyed(m) && Enumerates(entries, m) && id in m && m[id].msg.None?
    ensures id !in TriedIds(true, entries) && id in StillPending(m, true, entries, answers)
  {
    TriedExactly(true, entries);
  }

  /** The concurrent machine run with one handler alone does to the log what HandleInbound does. */
  lemma AloneAgrees(cfg: Config, s: Bus, h: nat, msg: Message, sendOk: bool, ts: string)
    requires s.up && h !in s.handlers && !IsControl(msg)
    ensures var a := Advance(h, sendOk, ts);
            var s1 := Router.Next(cfg, s, Receive(h, msg));
            var s4 := Router.Next(cfg, Router.Next(cfg, Router.Next(cfg, s1, a), a), a);
            && h !in s4.handlers
            && s4.pending == (if cfg.hasBridge && !sendOk then s.pending[msg.id := NewEntry(msg, ts).(attempts := 2)]
                              else s.pending - {msg.id})
            && s4.dead == s.dead
  {
    var a := Advance(h, sendOk, ts);
    var s1 := Router.Next(cfg, s, Receive(h, msg));
    var s2 := Router.Next(cfg, s1, a);
    assert s2.pending == s.pending[msg.id := NewEntry(msg, ts)] && s2.handlers[h] == Handler(msg, ToSend);
    var s3 := Router.Next(cfg, s2, a);
    assert s3.handlers[h].pc == if cfg.hasBridge && !sendOk then ToIncrement else ToComplete;
    var s4 := Router.Next(cfg, s3, a);
    assert s4.handlers == s3.handlers - {h};
    assert s2.pending - {msg.id} == s.pending - {msg.id};
  }
}
