/** One channel's flow control, end to end: the router's handlers push and pop its ring and send
    slow_down/resume on their own connection (internal/ipcbus/router.go), and the SDK client at the
    other end turns those into a throttle that its Send calls wait on (sdk/channel/client.go).
    A connection handles its messages one after the other (internal/ipcbus/server.go). */
module Backpressure {
  import opened Common
  import opened RingBuffers

  datatype Sig = Slow | Resume

  // ---- The client ----

  /** The client with its gates numbered in order of creation. */
  datatype Throttle = Throttle(throttled: bool, gate: nat, made: nat, closed: set<nat>, panicked: bool)

  const FRESH := Throttle(false, 0, 1, {}, false)

  function Receive(t: Throttle, s: Sig): Throttle {
    match s
    case Slow => t.(throttled := true, gate := t.made, made := t.made + 1)
    case Resume => t.(throttled := false, closed := t.closed + {t.gate}, panicked := t.panicked || t.gate in t.closed)
  }

  class Chan {
    var closed: bool
    constructor ()
      ensures !closed
    {
      closed := false;
    }
  }

  class Client {
    var throttled: bool
    var throttleCh: Chan
    ghost var gates: seq<Chan>
    ghost var panicked: bool

    ghost predicate Valid()
      reads this
    {
      && gates != [] && throttleCh == gates[|gates| - 1]
      && (forall i, j | 0 <= i < j < |gates| :: gates[i] != gates[j])
    }

    ghost function View(): Throttle
      requires Valid()
      reads this, gates
    {
      Throttle(throttled, |gates| - 1, |gates|, (set i | 0 <= i < |gates| && gates[i].closed), panicked)
    }

    constructor ()
      ensures Valid() && View() == FRESH && fresh(throttleCh)
    {
      throttled := false;
      throttleCh := new Chan();
      panicked := false;
      new;
      gates := [throttleCh];
    }

    /** Refines the numbered machine: slow_down installs a fresh gate; resume opens the one in place,
        and closing a closed channel is a panic. Other kinds leave the throttle alone. */
    method HandleMessage(kind: string) returns (panics: bool)
      requires Valid()
      modifies this, throttleCh
      ensures Valid() && old(gates) <= gates
      ensures kind == "slow_down" ==> View() == Receive(old(View()), Slow) && fresh(throttleCh) && !panics
      ensures kind == "resume" ==> View() == Receive(old(View()), Resume)
                                   && (panics <==> old(View()).gate in old(View()).closed)
      ensures kind != "slow_down" && kind != "resume" ==> View() == old(View()) && !panics
    {
      panics := false;
      if kind == "slow_down" {
        throttled := true;
        throttleCh := new Chan();
        gates := gates + [throttleCh];
      } else if kind == "resume" {
        throttled := false;
        panics := throttleCh.closed;
        throttleCh.closed := true;
        panicked := panicked || panics;
      }
    }
  }

  // ---- The protocol as a machine ----

  datatype PC = ToPush | ToTellSlow | ToSend | ToPop | ToTellResume

  datatype Handler = Handler(msg: Message, pc: PC)

  /** One connection: signals on their way to its client, the client, and the client's waiting Sends
      with the gate each waits on. */
  datatype Conn = Conn(wire: seq<Sig>, client: Throttle, blocked: map<nat, nat>)

  /** `handlers` maps a connection to the message it is handling; `failed`, `spilled` and `emptyPops`
      count sends the bridge refused, pushes onto a full ring and pops from an empty one. */
  datatype Sys = Sys(
    ring: Ring<Message>, handlers: map<nat, Handler>, conns: seq<Conn>, failed: nat, spilled: nat, emptyPops: nat)

  /** `n` clients have connected to the channel. */
  function Start(n: nat): Sys { Sys(Empty(), map[], seq(n, _ => Conn([], FRESH, map[])), 0, 0, 0) }

  datatype Action =
    | Begin(c: nat, msg: Message)
    | Advance(c: nat, sendOk: bool)
    | Deliver(c: nat)
    | EnterSend(c: nat, sender: nat)
    | LeaveSend(c: nat, sender: nat, cancelled: bool)

  function Goto(s: Sys, c: nat, pc: PC): Sys
    requires c in s.handlers
  {
    s.(handlers := s.handlers[c := s.handlers[c].(pc := pc)])
  }

  function Finish(s: Sys, c: nat): Sys { s.(handlers := s.handlers - {c}) }

  function Tell(s: Sys, c: nat, sig: Sig): Sys
    requires c < |s.conns|
  {
    s.(conns := s.conns[c := s.conns[c].(wire := s.conns[c].wire + [sig])])
  }

  function StepHandler(k: Marks, s: Sys, c: nat, sendOk: bool): Sys
    requires k.size > 0 && c in s.handlers && c < |s.conns|
  {
    match s.handlers[c].pc
    case ToPush =>
      var r := PushRing(k, s.ring, s.handlers[c].msg);
      var s' := s.(ring := r, spilled := s.spilled + if |s.ring.items| >= k.size then 1 else 0);
      Goto(s', c, if r.mode != s.ring.mode then ToTellSlow else ToSend)
    case ToTellSlow => Goto(Tell(s, c, Slow), c, ToSend)
    case ToSend => if sendOk then Goto(s, c, ToPop) else Finish(s.(failed := s.failed + 1), c)
    case ToPop =>
      var r := PopRing(k, s.ring);
      var s' := s.(ring := r, emptyPops := s.emptyPops + if s.ring.items == [] then 1 else 0);
      if r.mode != s.ring.mode then Goto(s', c, ToTellResume) else Finish(s', c)
    case ToTellResume => Finish(Tell(s, c, Resume), c)
  }

  function StepClient(n: Conn, a: Action): Conn {
    match a
    case Deliver(_) => if n.wire == [] then n else n.(wire := n.wire[1..], client := Receive(n.client, n.wire[0]))
    case EnterSend(_, d) =>
      if d in n.blocked || !n.client.throttled then n else n.(blocked := n.blocked[d := n.client.gate])
    case LeaveSend(_, d, cancelled) =>
      if d in n.blocked && (cancelled || n.blocked[d] in n.client.closed) then n.(blocked := n.blocked - {d}) else n
    case _ => n
  }

  function Next(k: Marks, s: Sys, a: Action): Sys
    requires k.size > 0
  {
    if a.c >= |s.conns| then s else
    match a
    case Begin(c, msg) => if c in s.handlers then s else s.(handlers := s.handlers[c := Handler(msg, ToPush)])
    case Advance(c, ok) => if c in s.handlers then StepHandler(k, s, c, ok) else s
    case _ => s.(conns := s.conns[a.c := StepClient(s.conns[a.c], a)])
  }

  function Run(k: Marks, s: Sys, acts: seq<Action>): Sys
    requires k.size > 0
  {
    if acts == [] then s else Next(k, Run(k, s, acts[..|acts| - 1]), acts[|acts| - 1])
  }

  lemma {:induction false} RunConcat(k: Marks, s: Sys, a: seq<Action>, b: seq<Action>)
    requires k.size > 0
    ensures Run(k, s, a + b) == Run(k, Run(k, s, a), b)
  {
    if b == [] {
      assert a + b == a;
    } else {
      RunConcat(k, s, a, b[..|b| - 1]);
      assert (a + b)[..|a + b| - 1] == a + b[..|b| - 1];
    }
  }

  lemma RunOne(k: Marks, s: Sys, a: Action)
    requires k.size > 0
    ensures Run(k, s, [a]) == Next(k, s, a)
  {
    assert [a][..0] == [];
  }

  /** Handlers belong to existing connections, whose number is fixed. */
  ghost predicate Wired(n: nat, s: Sys) {
    |s.conns| == n && forall c | c in s.handlers :: c < n
  }

  lemma {:induction false} RunWired(k: Marks, n: nat, acts: seq<Action>)
    requires k.size > 0
    ensures Wired(n, Run(k, Start(n), acts))
  {
    if acts != [] { RunWired(k, n, acts[..|acts| - 1]); }
  }

  // ---- Occupancy, under any interleaving ----

  /** Connections whose handler stands between its push and its pop. */
  function InFlight(s: Sys): set<nat> {
    set c | c in s.handlers && s.handlers[c].pc in {ToTellSlow, ToSend, ToPop}
  }

  ghost predicate Balanced(k: Marks, s: Sys) {
    && |s.ring.items| == |InFlight(s)| + s.failed - s.spilled + s.emptyPops
    && |s.ring.items| <= |InFlight(s)| + s.failed
    && |s.ring.items| <= k.size
  }

  ghost predicate SameBut(s: Sys, s': Sys, c: nat) {
    forall g | g != c :: (g in s.handlers <==> g in s'.handlers)
      && (g in s.handlers ==> s.handlers[g] == s'.handlers[g])
  }

  lemma InFlightAfter(s: Sys, s': Sys, c: nat)
    requires SameBut(s, s', c)
    ensures c in InFlight(s) && c in InFlight(s') ==> InFlight(s') == InFlight(s)
    ensures c !in InFlight(s) && c !in InFlight(s') ==> InFlight(s') == InFlight(s)
    ensures c in InFlight(s) && c !in InFlight(s') ==> |InFlight(s')| == |InFlight(s)| - 1
    ensures c !in InFlight(s) && c in InFlight(s') ==> |InFlight(s')| == |InFlight(s)| + 1
  {
    forall g | g != c ensures g in InFlight(s') <==> g in InFlight(s) {}
    if c in InFlight(s) && c !in InFlight(s') { assert InFlight(s') == InFlight(s) - {c}; }
    if c !in InFlight(s) && c in InFlight(s') { assert InFlight(s') == InFlight(s) + {c}; }
  }

  lemma StepBalanced(k: Marks, s: Sys, c: nat, ok: bool)
    requires k.size > 0 && c in s.handlers && c < |s.conns| && Balanced(k, s)
    ensures Balanced(k, StepHandler(k, s, c, ok))
  {
    var s' := StepHandler(k, s, c, ok);
    InFlightAfter(s, s', c);
    match s.handlers[c].pc
    case ToPush =>
    case ToTellSlow =>
    case ToSend =>
    case ToPop =>
    case ToTellResume =>
  }

  lemma NextBalanced(k: Marks, s: Sys, a: Action)
    requires k.size > 0 && Balanced(k, s)
    ensures Balanced(k, Next(k, s, a))
  {
    var s' := Next(k, s, a);
    if a.c < |s.conns| {
      match a
      case Begin(c, _) => InFlightAfter(s, s', c);
      case Advance(c, ok) => if c in s.handlers { StepBalanced(k, s, c, ok); }
      case _ => assert InFlight(s') == InFlight(s);
    }
  }

  /** The ring holds one message per handler in flight and one per refused send, less the
      spills, plus the pops that found it empty; so it never exceeds the first two. A refused
      send never pops: each one costs its channel a slot for good. */
  lemma {:induction false} Occupancy(k: Marks, n: nat, acts: seq<Action>)
    requires k.size > 0
    ensures Balanced(k, Run(k, Start(n), acts))
  {
    if acts == [] {
      assert InFlight(Start(n)) == {};
    } else {
      Occupancy(k, n, acts[..|acts| - 1]);
      NextBalanced(k, Run(k, Start(n), acts[..|acts| - 1]), acts[|acts| - 1]);
    }
  }

  // ---- A waiting Send ----

  /** A Send waits exactly while its client is throttled, on the gate then in place, and goes on exactly
      when it is cancelled or that gate has been closed. */
  lemma SendWaitsIff(n: Conn, c: nat, d: nat, cancelled: bool)
    ensures d !in n.blocked ==>
              var b := StepClient(n, EnterSend(c, d)).blocked;
              (d in b <==> n.client.throttled) && (d in b ==> b[d] == n.client.gate)
    ensures d in n.blocked ==>
              (d !in StepClient(n, LeaveSend(c, d, cancelled)).blocked
               <==> cancelled || n.blocked[d] in n.client.closed)
  {
  }

  /** The next resume to arrive lets every Send that waits on the gate in place go on. */
  lemma ResumeFrees(n: Conn, c: nat, d: nat)
    requires n.wire != [] && n.wire[0] == Resume && d in n.blocked && n.blocked[d] == n.client.gate
    ensures var n' := StepClient(n, Deliver(c));
            !n'.client.throttled && n'.wire == n.wire[1..] && d !in StepClient(n', LeaveSend(c, d, false)).blocked
  {
  }

  // ---- Too few connections ever to resume ----

  lemma {:induction false} Below(s: set<nat>, n: nat)
    requires forall c | c in s :: c < n
    ensures |s| <= n
  {
    if n == 0 {
      assert s == {};
    } else {
      Below(s - {n - 1}, n - 1);
      if n - 1 in s { assert s == (s - {n - 1}) + {n - 1}; } else { assert s == s - {n - 1}; }
    }
  }

  /** In slow mode at most `n` of the messages that filled the ring can still be popped. */
  ghost predicate Sunk(k: Marks, n: nat, s: Sys) {
    s.ring.mode == SlowDown ==> |s.ring.items| - |InFlight(s)| >= Top(k) - n
  }

  lemma StepSunk(k: Marks, n: nat, s: Sys, c: nat, ok: bool)
    requires k.Sane() && c in s.handlers && Wired(n, s) && Sunk(k, n, s)
    ensures Sunk(k, n, StepHandler(k, s, c, ok))
    ensures n < Top(k) - Bottom(k) && s.ring.mode == SlowDown ==> StepHandler(k, s, c, ok).ring.mode == SlowDown
  {
    var s' := StepHandler(k, s, c, ok);
    InFlightAfter(s, s', c);
    Below(InFlight(s'), n);
    WholeCounts(k, |s'.ring.items|);
    match s.handlers[c].pc
    case ToPush =>
    case ToTellSlow =>
    case ToSend =>
    case ToPop => assert c in InFlight(s);
    case ToTellResume =>
  }

  /** No resume has been decided on, sent or received. */
  ghost predicate NoResume(s: Sys) {
    && (forall c | c in s.handlers :: s.handlers[c].pc != ToTellResume)
    && (forall c | 0 <= c < |s.conns| ::
         Resume !in s.conns[c].wire && s.conns[c].client.closed == {} && !s.conns[c].client.panicked)
  }

  lemma StepNoResume(k: Marks, n: nat, s: Sys, c: nat, ok: bool)
    requires k.Sane() && n < Top(k) - Bottom(k) && Wired(n, s) && Sunk(k, n, s) && NoResume(s) && c in s.handlers
    ensures NoResume(StepHandler(k, s, c, ok))
  {
    StepSunk(k, n, s, c, ok);
    var s' := StepHandler(k, s, c, ok);
    assert s.handlers[c].pc == ToPop ==> s'.ring.mode == s.ring.mode;
    assert s'.conns[c].wire == s.conns[c].wire || s'.conns[c].wire == s.conns[c].wire + [Slow];
  }

  lemma ClientNoResume(s: Sys, a: Action)
    requires NoResume(s) && a.c < |s.conns|
    ensures NoResume(s.(conns := s.conns[a.c := StepClient(s.conns[a.c], a)]))
  {
    var n := s.conns[a.c];
    assert n.wire != [] ==> n.wire[0] in n.wire;
  }

  lemma NextNoResume(k: Marks, n: nat, s: Sys, a: Action)
    requires k.Sane() && n < Top(k) - Bottom(k) && Wired(n, s) && Sunk(k, n, s) && NoResume(s)
    ensures var s' := Next(k, s, a);
            Sunk(k, n, s') && NoResume(s') && (s.ring.mode == SlowDown ==> s'.ring.mode == SlowDown)
  {
    var s' := Next(k, s, a);
    if a.c < n {
      match a
      case Begin(c, _) => InFlightAfter(s, s', c);
      case Advance(c, ok) =>
        if c in s.handlers {
          StepSunk(k, n, s, c, ok);
          StepNoResume(k, n, s, c, ok);
        }
      case _ =>
        assert InFlight(s') == InFlight(s);
        ClientNoResume(s, a);
    }
  }

  /** With fewer connections than counts between the marks, slow mode is absorbing, spills included,
      and no resume is ever sent. */
  lemma {:induction false} TooFewNeverResume(k: Marks, n: nat, acts: seq<Action>)
    requires k.Sane() && n < Top(k) - Bottom(k)
    ensures var s := Run(k, Start(n), acts); Wired(n, s) && Sunk(k, n, s) && NoResume(s)
    ensures acts != [] && Run(k, Start(n), acts[..|acts| - 1]).ring.mode == SlowDown
            ==> Run(k, Start(n), acts).ring.mode == SlowDown
  {
    RunWired(k, n, acts);
    if acts != [] {
      var before := acts[..|acts| - 1];
      TooFewNeverResume(k, n, before);
      NextNoResume(k, n, Run(k, Start(n), before), acts[|acts| - 1]);
    }
  }

  // ---- Agreement ----

  /** The signal, if any, that the connection's handler has decided on and is about to send. */
  function Unsent(s: Sys, c: nat): seq<Sig> {
    if c !in s.handlers then []
    else match s.handlers[c].pc case ToTellSlow => [Slow] case ToTellResume => [Resume] case _ => []
  }

  /** The client once everything in flight has reached it. */
  function Drain(t: Throttle, q: seq<Sig>): Throttle
    decreases q
  {
    if q == [] then t else Drain(Receive(t, q[0]), q[1..])
  }

  /** The queue alternates and takes the flag from `t` to `m`. */
  ghost predicate Toggles(t: bool, q: seq<Sig>, m: bool)
    decreases q
  {
    if q == [] then t == m else q[0] == (if t then Resume else Slow) && Toggles(!t, q[1..], m)
  }

  lemma {:induction false} TogglesSnoc(t: bool, q: seq<Sig>, m: bool)
    requires Toggles(t, q, m)
    ensures Toggles(t, q + [if m then Resume else Slow], !m)
    decreases q
  {
    var x := if m then Resume else Slow;
    if q == [] {
      assert q + [x] == [x];
    } else {
      TogglesSnoc(!t, q[1..], m);
      assert (q + [x])[1..] == q[1..] + [x];
    }
  }

  /** While throttled the gate is open for exactly the next resume to close. */
  ghost predicate GateOk(t: Throttle) {
    && !t.panicked && t.gate < t.made && (forall g | g in t.closed :: g < t.made)
    && (t.throttled ==> t.gate !in t.closed)
  }

  lemma {:induction false} DrainAgrees(t: Throttle, q: seq<Sig>, m: bool)
    requires GateOk(t) && Toggles(t.throttled, q, m)
    ensures GateOk(Drain(t, q)) && Drain(t, q).throttled == m
    decreases q
  {
    if q != [] { DrainAgrees(Receive(t, q[0]), q[1..], m); }
  }

  /** A waiting Send is either free to go or waits on the gate the next resume closes. */
  ghost predicate WaitersOk(n: Conn) {
    forall d | d in n.blocked ::
      n.blocked[d] in n.client.closed || (n.client.throttled && n.blocked[d] == n.client.gate)
  }

  ghost predicate ConnOk(n: Conn, unsent: seq<Sig>, slow: bool) {
    Toggles(n.client.throttled, n.wire + unsent, slow) && GateOk(n.client) && WaitersOk(n)
  }

  /** The one connection of a channel, and its ring. */
  ghost predicate Agreed(s: Sys) {
    Wired(1, s) && ConnOk(s.conns[0], Unsent(s, 0), s.ring.mode == SlowDown)
  }

  lemma StepAgreed(k: Marks, s: Sys, ok: bool)
    requires k.size > 0 && 0 in s.handlers && Agreed(s)
    ensures Agreed(StepHandler(k, s, 0, ok))
  {
    var s' := StepHandler(k, s, 0, ok);
    var n := s.conns[0];
    assert n.wire + [] == n.wire && s'.conns[0].wire + [] == s'.conns[0].wire;
    match s.handlers[0].pc
    case ToPush => if s'.ring.mode != s.ring.mode { TogglesSnoc(n.client.throttled, n.wire, s.ring.mode == SlowDown); }
    case ToPop => if s'.ring.mode != s.ring.mode { TogglesSnoc(n.client.throttled, n.wire, s.ring.mode == SlowDown); }
    case _ =>
  }

  lemma ClientAgreed(n: Conn, a: Action, unsent: seq<Sig>, slow: bool)
    requires ConnOk(n, unsent, slow)
    ensures ConnOk(StepClient(n, a), unsent, slow)
  {
    if n.wire != [] { assert (n.wire + unsent)[1..] == n.wire[1..] + unsent; }
  }

  lemma {:induction false} RunAgreed(k: Marks, acts: seq<Action>)
    requires k.size > 0
    ensures Agreed(Run(k, Start(1), acts))
  {
    RunWired(k, 1, acts);
    if acts == [] {
      assert Start(1).conns[0].wire + Unsent(Start(1), 0) == [];
    } else {
      var s, a := Run(k, Start(1), acts[..|acts| - 1]), acts[|acts| - 1];
      RunAgreed(k, acts[..|acts| - 1]);
      if a.c == 0 {
        match a
        case Advance(_, ok) => if 0 in s.handlers { StepAgreed(k, s, ok); }
        case Begin(_, _) =>
        case _ => ClientAgreed(s.conns[0], a, Unsent(s, 0), s.ring.mode == SlowDown);
      }
    }
  }

  /** Everything in flight delivered, the client's flag is the ring's mode. */
  ghost predicate Follows(s: Sys, c: nat)
    requires c < |s.conns|
  {
    Drain(s.conns[c].client, s.conns[c].wire + Unsent(s, c)).throttled <==> s.ring.mode == SlowDown
  }

  /** Some run of `n` connections puts a resume on a wire. */
  ghost predicate CanResume(k: Marks, n: nat)
    requires k.size > 0
  {
    exists acts, c :: ResumeSent(k, n, acts, c)
  }

  ghost predicate ResumeSent(k: Marks, n: nat, acts: seq<Action>, c: nat)
    requires k.size > 0
  {
    var s := Run(k, Start(n), acts);
    c < |s.conns| && Resume in s.conns[c].wire
  }

  /** Some run of `n` connections makes a client close a closed gate. */
  ghost predicate CanPanic(k: Marks, n: nat)
    requires k.size > 0
  {
    exists acts, c :: Panicked(k, n, acts, c)
  }

  ghost predicate Panicked(k: Marks, n: nat, acts: seq<Action>, c: nat)
    requires k.size > 0
  {
    var s := Run(k, Start(n), acts);
    c < |s.conns| && s.conns[c].client.panicked
  }

  /** With a single connection: once everything in flight arrives the client is throttled exactly
      when the ring says so, no gate is closed twice, and every Send still waiting waits on the gate
      that the next signal to arrive, a resume, will close. Whether such a resume can exist at all is
      decided by the marks: only when no count lies strictly between them. */
  lemma ClientFollowsRing(k: Marks, acts: seq<Action>)
    requires k.Sane()
    ensures var s := Run(k, Start(1), acts);
            && |s.conns| == 1 && Follows(s, 0)
            && var n, q := s.conns[0], s.conns[0].wire + Unsent(s, 0);
               && !Drain(n.client, q).panicked && !n.client.panicked
               && forall d | d in n.blocked && n.blocked[d] !in n.client.closed ::
                    && n.client.throttled && n.blocked[d] == n.client.gate
                    && (q != [] ==> q[0] == Resume && n.blocked[d] in Receive(n.client, q[0]).closed)
    ensures CanResume(k, 1) <==> Top(k) - Bottom(k) <= 1
  {
    RunAgreed(k, acts);
    var s := Run(k, Start(1), acts);
    DrainAgrees(s.conns[0].client, s.conns[0].wire + Unsent(s, 0), s.ring.mode == SlowDown);
    ResumeIff(k, 1);
  }

  // ---- A picture of the machine with whole-number thresholds, for building runs ----

  datatype Pic = Pic(count: nat, mode: Mode, pcs: map<nat, PC>, wires: seq<seq<Sig>>)

  ghost predicate Shows(s: Sys, p: Pic) {
    && |s.ring.items| == p.count && s.ring.mode == p.mode && |s.conns| == |p.wires|
    && s.handlers.Keys == p.pcs.Keys && (forall c | c in p.pcs :: s.handlers[c].pc == p.pcs[c])
    && (forall c | 0 <= c < |p.wires| :: s.conns[c].wire == p.wires[c] && s.conns[c].client == FRESH)
  }

  const MSG := Message("m", "message", "c", "")

  function Sent(w: seq<seq<Sig>>, c: nat, x: Sig): seq<seq<Sig>>
    requires c < |w|
  {
    w[c := w[c] + [x]]
  }

  /** The picture after one step of connection `c`'s handler. */
  function PicStep(size: nat, top: int, bot: int, p: Pic, c: nat, ok: bool): Pic
    requires c in p.pcs && c < |p.wires|
  {
    match p.pcs[c]
    case ToPush =>
      if p.count >= size then p.(pcs := p.pcs[c := ToSend])
      else if p.mode == Normal && p.count + 1 >= top then Pic(p.count + 1, SlowDown, p.pcs[c := ToTellSlow], p.wires)
      else p.(count := p.count + 1, pcs := p.pcs[c := ToSend])
    case ToTellSlow => p.(wires := Sent(p.wires, c, Slow), pcs := p.pcs[c := ToSend])
    case ToSend => if ok then p.(pcs := p.pcs[c := ToPop]) else p.(pcs := p.pcs - {c})
    case ToPop =>
      if p.count == 0 then p.(pcs := p.pcs - {c})
      else if p.mode == SlowDown && p.count - 1 <= bot then Pic(p.count - 1, Normal, p.pcs[c := ToTellResume], p.wires)
      else p.(count := p.count - 1, pcs := p.pcs - {c})
    case ToTellResume => p.(wires := Sent(p.wires, c, Resume), pcs := p.pcs - {c})
  }

  /** The picture after one handler's start or step; nothing else is pictured. */
  ghost function PicNext(k: Marks, p: Pic, a: Action): Option<Pic> {
    match a
    case Begin(c, _) => if c < |p.wires| && c !in p.pcs then Some(p.(pcs := p.pcs[c := ToPush])) else None
    case Advance(c, ok) =>
      if c < |p.wires| && c in p.pcs then Some(PicStep(k.size, Top(k), Bottom(k), p, c, ok)) else None
    case _ => None
  }

  ghost function PicRun(k: Marks, p: Pic, acts: seq<Action>): Option<Pic> {
    if acts == [] then Some(p)
    else
      var q := PicRun(k, p, acts[..|acts| - 1]);
      if q.None? then None else PicNext(k, q.value, acts[|acts| - 1])
  }

  ghost predicate Leads(k: Marks, p: Pic, acts: seq<Action>, p': Pic) { PicRun(k, p, acts) == Some(p') }

  lemma {:induction false} Chain(k: Marks, p: Pic, a: seq<Action>, q: Pic, b: seq<Action>, r: Pic)
    requires Leads(k, p, a, q) && Leads(k, q, b, r)
    ensures Leads(k, p, a + b, r)
    decreases |b|
  {
    if b == [] {
      assert a + b == a;
    } else {
      Chain(k, p, a, q, b[..|b| - 1], PicRun(k, q, b[..|b| - 1]).value);
      assert (a + b)[..|a + b| - 1] == a + b[..|b| - 1];
    }
  }

  /** The machine does what the picture says. */
  lemma {:induction false} RunShows(k: Marks, s: Sys, p: Pic, acts: seq<Action>, q: Pic)
    requires k.Sane() && Shows(s, p) && Leads(k, p, acts, q)
    ensures Shows(Run(k, s, acts), q)
  {
    if acts != [] {
      var before, a := acts[..|acts| - 1], acts[|acts| - 1];
      var m := PicRun(k, p, before).value;
      RunShows(k, s, p, before, m);
      NextShows(k, Run(k, s, before), m, a, q);
    }
  }

  lemma NextShows(k: Marks, s: Sys, p: Pic, a: Action, q: Pic)
    requires k.Sane() && Shows(s, p) && PicNext(k, p, a) == Some(q)
    ensures Shows(Next(k, s, a), q)
  {
    if a.Advance? { StepShows(k, s, p, a.c, a.sendOk); }
  }

  lemma PicBegins(k: Marks, p: Pic, c: nat)
    requires c < |p.wires| && c !in p.pcs
    ensures Leads(k, p, [Begin(c, MSG)], p.(pcs := p.pcs[c := ToPush]))
  {
    assert [Begin(c, MSG)][..0] == [];
  }

  lemma PicSteps(k: Marks, p: Pic, c: nat, ok: bool)
    requires c < |p.wires| && c in p.pcs
    ensures Leads(k, p, [Advance(c, ok)], PicStep(k.size, Top(k), Bottom(k), p, c, ok))
  {
    assert [Advance(c, ok)][..0] == [];
  }

  lemma StepShows(k: Marks, s: Sys, p: Pic, c: nat, ok: bool)
    requires k.Sane() && c < |p.wires| && c in p.pcs && Shows(s, p)
    ensures Shows(StepHandler(k, s, c, ok), PicStep(k.size, Top(k), Bottom(k), p, c, ok))
  {
    WholeCounts(k, p.count + 1);
    if p.count > 0 { WholeCounts(k, p.count - 1); }
    match p.pcs[c]
    case ToPush =>
    case ToTellSlow =>
    case ToSend =>
    case ToPop =>
    case ToTellResume =>
  }

  // ---- Building blocks of runs ----

  lemma Join(k: Marks, p: Pic, c: nat) returns (acts: seq<Action>)
    requires k.Sane() && c < |p.wires| && c !in p.pcs && p.mode == Normal && p.count + 1 < Top(k)
    ensures Leads(k, p, acts, p.(count := p.count + 1, pcs := p.pcs[c := ToSend]))
  {
    WholeCounts(k, 0);
    PicBegins(k, p, c);
    var q := p.(pcs := p.pcs[c := ToPush]);
    PicSteps(k, q, c, true);
    acts := [Begin(c, MSG)] + [Advance(c, true)];
    Chain(k, p, [Begin(c, MSG)], q, [Advance(c, true)], PicStep(k.size, Top(k), Bottom(k), q, c, true));
    assert p.pcs[c := ToPush][c := ToSend] == p.pcs[c := ToSend];
  }

  /** One refused message: a slot gone for good. */
  lemma Sink(k: Marks, p: Pic, c: nat) returns (acts: seq<Action>)
    requires k.Sane() && c < |p.wires| && c !in p.pcs && p.mode == Normal && p.count + 1 < Top(k)
    ensures Leads(k, p, acts, p.(count := p.count + 1))
  {
    acts := Join(k, p, c);
    var q := p.(count := p.count + 1, pcs := p.pcs[c := ToSend]);
    PicSteps(k, q, c, false);
    Chain(k, p, acts, q, [Advance(c, false)], q.(pcs := q.pcs - {c}));
    acts := acts + [Advance(c, false)];
    assert p.pcs[c := ToSend] - {c} == p.pcs;
  }

  /** The push that reaches the high mark, and its slow_down. */
  lemma CrossUp(k: Marks, p: Pic, c: nat) returns (acts: seq<Action>)
    requires k.Sane() && c < |p.wires| && c !in p.pcs && p.mode == Normal && p.count + 1 == Top(k)
    ensures Leads(k, p, acts, Pic(p.count + 1, SlowDown, p.pcs[c := ToSend], Sent(p.wires, c, Slow)))
  {
    WholeCounts(k, 0);
    var q := p.(pcs := p.pcs[c := ToPush]);
    var r := Pic(p.count + 1, SlowDown, q.pcs[c := ToTellSlow], p.wires);
    PicBegins(k, p, c);
    PicSteps(k, q, c, true);
    Chain(k, p, [Begin(c, MSG)], q, [Advance(c, true)], r);
    acts := [Begin(c, MSG)] + [Advance(c, true)];
    PicSteps(k, r, c, true);
    Chain(k, p, acts, r, [Advance(c, true)], PicStep(k.size, Top(k), Bottom(k), r, c, true));
    acts := acts + [Advance(c, true)];
    assert r.pcs[c := ToSend] == p.pcs[c := ToSend];
  }

  /** An accepted message whose pop changes no mode. */
  lemma PopQuiet(k: Marks, p: Pic, c: nat) returns (acts: seq<Action>)
    requires k.Sane() && c < |p.wires| && c in p.pcs && p.pcs[c] == ToSend && p.count > 0
    requires p.mode == Normal || p.count - 1 > Bottom(k)
    ensures Leads(k, p, acts, p.(count := p.count - 1, pcs := p.pcs - {c}))
  {
    var q := p.(pcs := p.pcs[c := ToPop]);
    PicSteps(k, p, c, true);
    PicSteps(k, q, c, true);
    acts := [Advance(c, true)] + [Advance(c, true)];
    Chain(k, p, [Advance(c, true)], q, [Advance(c, true)], PicStep(k.size, Top(k), Bottom(k), q, c, true));
    assert q.pcs - {c} == p.pcs - {c};
  }

  /** The pop that reaches the low mark, and its resume. */
  lemma CrossDown(k: Marks, p: Pic, c: nat) returns (acts: seq<Action>)
    requires k.Sane() && c < |p.wires| && c in p.pcs && p.pcs[c] == ToSend && p.count > 0
    requires p.mode == SlowDown && p.count - 1 <= Bottom(k)
    ensures Leads(k, p, acts, Pic(p.count - 1, Normal, p.pcs - {c}, Sent(p.wires, c, Resume)))
  {
    var q := p.(pcs := p.pcs[c := ToPop]);
    var r := Pic(p.count - 1, Normal, p.pcs[c := ToTellResume], p.wires);
    PicSteps(k, p, c, true);
    PopsDown(k, q, c);
    assert q.pcs[c := ToTellResume] == r.pcs;
    Chain(k, p, [Advance(c, true)], q, [Advance(c, true)], r);
    acts := [Advance(c, true)] + [Advance(c, true)];
    Tells(k, r, c);
    assert r.pcs - {c} == p.pcs - {c};
    Chain(k, p, acts, r, [Advance(c, true)], Pic(p.count - 1, Normal, p.pcs - {c}, Sent(p.wires, c, Resume)));
    acts := acts + [Advance(c, true)];
  }

  lemma PopsDown(k: Marks, q: Pic, c: nat)
    requires k.Sane() && c < |q.wires| && c in q.pcs && q.pcs[c] == ToPop && q.count > 0
    requires q.mode == SlowDown && q.count - 1 <= Bottom(k)
    ensures Leads(k, q, [Advance(c, true)], Pic(q.count - 1, Normal, q.pcs[c := ToTellResume], q.wires))
  {
    PicSteps(k, q, c, true);
  }

  lemma Tells(k: Marks, r: Pic, c: nat)
    requires k.Sane() && c < |r.wires| && c in r.pcs && r.pcs[c] == ToTellResume
    ensures Leads(k, r, [Advance(c, true)], r.(wires := Sent(r.wires, c, Resume), pcs := r.pcs - {c}))
  {
    PicSteps(k, r, c, true);
  }

  // ---- Runs ----

  function Silence(n: nat): seq<seq<Sig>> { seq(n, _ => []) }

  lemma StartShows(n: nat)
    ensures Shows(Start(n), Pic(0, Normal, map[], Silence(n)))
  {
  }

  /** Refused messages bring the ring to any count below the high mark. */
  lemma {:induction false} SinkTo(k: Marks, w: seq<seq<Sig>>, b: nat) returns (acts: seq<Action>)
    requires k.Sane() && |w| > 0 && b < Top(k)
    ensures Leads(k, Pic(0, Normal, map[], w), acts, Pic(b, Normal, map[], w))
  {
    if b == 0 {
      acts := [];
    } else {
      acts := SinkTo(k, w, b - 1);
      var more := Sink(k, Pic(b - 1, Normal, map[], w), 0);
      Chain(k, Pic(0, Normal, map[], w), acts, Pic(b - 1, Normal, map[], w), more, Pic(b, Normal, map[], w));
      acts := acts + more;
    }
  }

  /** The first `j` connections all about to send. */
  function Sending(j: nat): (m: map<nat, PC>)
    ensures forall c: nat :: c in m <==> c < j
    ensures forall c | c in m :: m[c] == ToSend
  {
    if j == 0 then map[] else Sending(j - 1)[j - 1 := ToSend]
  }

  lemma {:induction false} JoinMany(k: Marks, b: nat, w: seq<seq<Sig>>, j: nat) returns (acts: seq<Action>)
    requires k.Sane() && j <= |w| && b + j < Top(k)
    ensures Leads(k, Pic(b, Normal, map[], w), acts, Pic(b + j, Normal, Sending(j), w))
  {
    if j == 0 {
      acts := [];
    } else {
      acts := JoinMany(k, b, w, j - 1);
      var p, q := Pic(b + j - 1, Normal, Sending(j - 1), w), Pic(b + j, Normal, Sending(j), w);
      assert q == p.(count := p.count + 1, pcs := p.pcs[j - 1 := ToSend]);
      var more := Join(k, p, j - 1);
      Chain(k, Pic(b, Normal, map[], w), acts, p, more, q);
      acts := acts + more;
    }
  }

  /** The last of `m` connections reaches the high mark. */
  lemma Load(k: Marks, b: nat, w: seq<seq<Sig>>, m: nat) returns (acts: seq<Action>)
    requires k.Sane() && 1 <= m <= |w| && b + m == Top(k)
    ensures Leads(k, Pic(b, Normal, map[], w), acts, Pic(b + m, SlowDown, Sending(m), Sent(w, m - 1, Slow)))
  {
    acts := JoinMany(k, b, w, m - 1);
    var p, q := Pic(b + m - 1, Normal, Sending(m - 1), w), Pic(b + m, SlowDown, Sending(m), Sent(w, m - 1, Slow));
    assert q == Pic(p.count + 1, SlowDown, p.pcs[m - 1 := ToSend], Sent(p.wires, m - 1, Slow));
    var more := CrossUp(k, p, m - 1);
    Chain(k, Pic(b, Normal, map[], w), acts, p, more, q);
    acts := acts + more;
  }

  /** All of them pop; the first connection comes last and reaches the low mark. */
  lemma {:induction false} Unload(k: Marks, b: nat, w: seq<seq<Sig>>, m: nat) returns (acts: seq<Action>)
    requires k.Sane() && 1 <= m <= |w| && b <= Bottom(k) && (m > 1 ==> b == Bottom(k))
    ensures Leads(k, Pic(b + m, SlowDown, Sending(m), w), acts, Pic(b, Normal, map[], Sent(w, 0, Resume)))
  {
    var p := Pic(b + m, SlowDown, Sending(m), w);
    if m == 1 {
      acts := CrossDown(k, p, 0);
      assert Sending(1) - {0} == map[];
    } else {
      acts := PopQuiet(k, p, m - 1);
      assert Sending(m) - {m - 1} == Sending(m - 1);
      var q := Pic(b + m - 1, SlowDown, Sending(m - 1), w);
      var more := Unload(k, b, w, m - 1);
      Chain(k, p, acts, q, more, Pic(b, Normal, map[], Sent(w, 0, Resume)));
      acts := acts + more;
    }
  }

  /** How many connections it takes to come down from the high mark to the low one. */
  ghost function Span(k: Marks): int { if Top(k) - Bottom(k) <= 1 then 1 else Top(k) - Bottom(k) }

  /** One swing of the ring with Span(k) connections: the last one is slowed down, the first resumed. */
  lemma Swing(k: Marks, w: seq<seq<Sig>>) returns (acts: seq<Action>)
    requires k.Sane() && Span(k) <= |w| && Top(k) - Span(k) >= 0
    ensures var m, b := Span(k), Top(k) - Span(k);
            Leads(k, Pic(b, Normal, map[], w), acts, Pic(b, Normal, map[], Sent(Sent(w, m - 1, Slow), 0, Resume)))
  {
    acts := SwingFrom(k, w, Span(k), Top(k) - Span(k));
  }

  lemma SwingFrom(k: Marks, w: seq<seq<Sig>>, m: nat, b: nat) returns (acts: seq<Action>)
    requires k.Sane() && 1 <= m <= |w| && b + m == Top(k) && b <= Bottom(k) && (m > 1 ==> b == Bottom(k))
    ensures Leads(k, Pic(b, Normal, map[], w), acts, Pic(b, Normal, map[], Sent(Sent(w, m - 1, Slow), 0, Resume)))
  {
    var up := Load(k, b, w, m);
    var v := Sent(w, m - 1, Slow);
    var down := Unload(k, b, v, m);
    Chain(k, Pic(b, Normal, map[], w), up, Pic(b + m, SlowDown, Sending(m), v), down,
          Pic(b, Normal, map[], Sent(v, 0, Resume)));
    acts := up + down;
  }

  lemma SpanFits(k: Marks)
    requires k.Sane()
    ensures 0 <= Top(k) - Span(k) < Top(k)
  {
    WholeCounts(k, 0);
  }

  /** A resume can be sent exactly when there are at least as many connections as counts from the low
      mark up to the high one (and at least one). */
  lemma ResumeIff(k: Marks, n: nat)
    requires k.Sane()
    ensures CanResume(k, n) <==> n >= 1 && n >= Top(k) - Bottom(k)
  {
    if n >= 1 && n >= Top(k) - Bottom(k) {
      SpanFits(k);
      var w, b := Silence(n), Top(k) - Span(k);
      var a1 := SinkTo(k, w, b);
      var a2 := Swing(k, w);
      var w' := Sent(Sent(w, Span(k) - 1, Slow), 0, Resume);
      Chain(k, Pic(0, Normal, map[], w), a1, Pic(b, Normal, map[], w), a2, Pic(b, Normal, map[], w'));
      StartShows(n);
      RunShows(k, Start(n), Pic(0, Normal, map[], w), a1 + a2, Pic(b, Normal, map[], w'));
      assert w'[0][|w'[0]| - 1] == Resume;
      assert ResumeSent(k, n, a1 + a2, 0);
    } else {
      forall acts, c ensures !ResumeSent(k, n, acts, c) {
        if n == 0 { RunWired(k, n, acts); } else { TooFewNeverResume(k, n, acts); }
      }
    }
  }

  /** The shipped configuration: 513 connections would have to swing together. */
  lemma DefaultsNeedManyConnections()
    ensures var k := EffectiveMarks(0, 0.0, 0.0);
            k.Sane() && Top(k) == 820 && Bottom(k) == 307 && forall n: nat :: CanResume(k, n) <==> n >= 513
  {
    var k := EffectiveMarks(0, 0.0, 0.0);
    assert HighCount(k) == 819.2 && LowCount(k) == 307.2;
    forall n: nat ensures CanResume(k, n) <==> n >= 513 { ResumeIff(k, n); }
  }

  // ---- Two connections ----

  /** The second connection joins a ring in slow mode; onto a full one it spills. */
  lemma JoinSlow(k: Marks, p: Pic, c: nat) returns (acts: seq<Action>)
    requires k.Sane() && c < |p.wires| && c !in p.pcs && p.mode == SlowDown && p.count <= k.size
    ensures Leads(k, p, acts, p.(count := if p.count == k.size then p.count else p.count + 1,
                                 pcs := p.pcs[c := ToSend]))
  {
    PicBegins(k, p, c);
    var q := p.(pcs := p.pcs[c := ToPush]);
    PicSteps(k, q, c, true);
    acts := [Begin(c, MSG)] + [Advance(c, true)];
    Chain(k, p, [Begin(c, MSG)], q, [Advance(c, true)], PicStep(k.size, Top(k), Bottom(k), q, c, true));
    assert p.pcs[c := ToPush][c := ToSend] == p.pcs[c := ToSend];
  }

  /** When one connection could swing the ring alone, two can still split the swing: the first is
      slowed down and the second resumed. */
  lemma SplitSwing(k: Marks, w: seq<seq<Sig>>) returns (acts: seq<Action>)
    requires k.Sane() && |w| >= 2 && Top(k) - Bottom(k) <= 1 && Top(k) >= 1
    ensures Leads(k, Pic(Top(k) - 1, Normal, map[], w), acts,
                  Pic(Top(k) - 1, Normal, map[], Sent(Sent(w, 0, Slow), 1, Resume)))
  {
    WholeCounts(k, 0);
    var t: nat := Top(k);
    var v := Sent(w, 0, Slow);
    var v' := Sent(v, 1, Resume);
    var p0, p1 := Pic(t - 1, Normal, map[], w), Pic(t, SlowDown, map[0 := ToSend], v);
    acts := CrossUp(k, p0, 0);
    assert map[][0 := ToSend] == map[0 := ToSend];
    var more := JoinSlow(k, p1, 1);
    var both := map[0 := ToSend][1 := ToSend];
    var p2 := Pic(if t == k.size then t else t + 1, SlowDown, both, v);
    Chain(k, p0, acts, p1, more, p2);
    acts := acts + more;
    var only0, only1 := both - {1}, both - {0};
    assert only0 - {0} == map[] && only1 - {1} == map[];
    if t == k.size {
      more := CrossDown(k, p2, 1);
      var p3 := Pic(t - 1, Normal, only0, v');
      Chain(k, p0, acts, p2, more, p3);
      acts := acts + more;
      PicSteps(k, p3, 0, false);
      Chain(k, p0, acts, p3, [Advance(0, false)], Pic(t - 1, Normal, map[], v'));
      acts := acts + [Advance(0, false)];
    } else if Bottom(k) >= t {
      more := CrossDown(k, p2, 1);
      var p3 := Pic(t, Normal, only0, v');
      Chain(k, p0, acts, p2, more, p3);
      acts := acts + more;
      more := PopQuiet(k, p3, 0);
      Chain(k, p0, acts, p3, more, Pic(t - 1, Normal, map[], v'));
      acts := acts + more;
    } else {
      more := PopQuiet(k, p2, 0);
      var p3 := Pic(t, SlowDown, only1, v);
      Chain(k, p0, acts, p2, more, p3);
      acts := acts + more;
      more := CrossDown(k, p3, 1);
      Chain(k, p0, acts, p3, more, Pic(t - 1, Normal, map[], v'));
      acts := acts + more;
    }
  }

  /** Two swings in a row send one client two resumes and no slow_down. */
  lemma TwoResumes(k: Marks, n: nat) returns (acts: seq<Action>, p: Pic, c: nat)
    requires k.Sane() && n >= 2 && n >= Top(k) - Bottom(k)
    ensures Leads(k, Pic(0, Normal, map[], Silence(n)), acts, p)
    ensures c < n && |p.wires| == n && p.wires[c] == [Resume, Resume]
  {
    SpanFits(k);
    var w, b: nat := Silence(n), Top(k) - Span(k);
    acts := SinkTo(k, w, b);
    var m: nat := Span(k);
    var w1, w2;
    var one, two;
    if m >= 2 {
      c := 0;
      one := Swing(k, w);
      w1 := Sent(Sent(w, m - 1, Slow), 0, Resume);
      two := Swing(k, w1);
      w2 := Sent(Sent(w1, m - 1, Slow), 0, Resume);
    } else {
      c := 1;
      one := SplitSwing(k, w);
      w1 := Sent(Sent(w, 0, Slow), 1, Resume);
      two := SplitSwing(k, w1);
      w2 := Sent(Sent(w1, 0, Slow), 1, Resume);
    }
    Chain(k, Pic(0, Normal, map[], w), acts, Pic(b, Normal, map[], w), one, Pic(b, Normal, map[], w1));
    acts := acts + one;
    p := Pic(b, Normal, map[], w2);
    Chain(k, Pic(0, Normal, map[], w), acts, Pic(b, Normal, map[], w1), two, p);
    acts := acts + two;
    assert w1[c] == [Resume] && w2[c] == [Resume] + [Resume];
  }

  /** Delivering them closes the first gate twice. */
  lemma DeliverTwice(k: Marks, s: Sys, c: nat)
    requires k.size > 0 && c < |s.conns| && s.conns[c].wire == [Resume, Resume] && s.conns[c].client == FRESH
    ensures var s' := Run(k, s, [Deliver(c), Deliver(c)]); c < |s'.conns| && s'.conns[c].client.panicked
  {
    assert [Deliver(c), Deliver(c)] == [Deliver(c)] + [Deliver(c)];
    RunConcat(k, s, [Deliver(c)], [Deliver(c)]);
    RunOne(k, s, Deliver(c));
    var s1 := Next(k, s, Deliver(c));
    RunOne(k, s1, Deliver(c));
    assert s1.conns[c].wire == [Resume] && s1.conns[c].client == Receive(FRESH, Resume);
  }

  /** A client can close a closed gate exactly when a second connection exists and a resume can be
      sent at all. */
  lemma DoubleCloseIff(k: Marks, n: nat)
    requires k.Sane()
    ensures CanPanic(k, n) <==> n >= 2 && n >= Top(k) - Bottom(k)
  {
    if n >= 2 && n >= Top(k) - Bottom(k) {
      var acts, p, c := TwoResumes(k, n);
      StartShows(n);
      var s := Run(k, Start(n), acts);
      RunShows(k, Start(n), Pic(0, Normal, map[], Silence(n)), acts, p);
      DeliverTwice(k, s, c);
      RunConcat(k, Start(n), acts, [Deliver(c), Deliver(c)]);
      assert Panicked(k, n, acts + [Deliver(c), Deliver(c)], c);
    } else {
      forall acts, c ensures !Panicked(k, n, acts, c) {
        RunWired(k, n, acts);
        if n == 1 { RunAgreed(k, acts); }
        else if n >= 2 { TooFewNeverResume(k, n, acts); }
      }
    }
  }

  ghost predicate AllFollow(s: Sys) { forall c | 0 <= c < |s.conns| :: Follows(s, c) }

  /** One connection's refused messages slow it down and leave the other clients as they were. */
  lemma OthersUntold(k: Marks, n: nat) returns (acts: seq<Action>)
    requires k.Sane() && n >= 2
    ensures var s := Run(k, Start(n), acts);
            && |s.conns| == n && s.ring.mode == SlowDown && 1 !in s.handlers
            && s.conns[1].wire == [] && s.conns[1].client == FRESH
  {
    WholeCounts(k, 0);
    var w := Silence(n);
    var b: nat := Top(k) - 1;
    var sink := SinkTo(k, w, b);
    var cross := CrossUp(k, Pic(b, Normal, map[], w), 0);
    var p := Pic(b + 1, SlowDown, map[][0 := ToSend], Sent(w, 0, Slow));
    Chain(k, Pic(0, Normal, map[], w), sink, Pic(b, Normal, map[], w), cross, p);
    StartShows(n);
    acts := sink + cross;
    RunShows(k, Start(n), Pic(0, Normal, map[], w), acts, p);
  }

  /** Every client ends up following the ring in all runs exactly when the channel has at most one
      connection: a signal goes only to the connection whose message caused it. */
  lemma AgreementIff(k: Marks, n: nat)
    requires k.Sane()
    ensures (forall acts :: AllFollow(Run(k, Start(n), acts))) <==> n <= 1
  {
    if n <= 1 {
      forall acts ensures AllFollow(Run(k, Start(n), acts)) {
        RunWired(k, n, acts);
        if n == 1 { ClientFollowsRing(k, acts); }
      }
    } else {
      var acts := OthersUntold(k, n);
      var s := Run(k, Start(n), acts);
      assert s.conns[1].wire + Unsent(s, 1) == [] && Drain(FRESH, []) == FRESH;
      assert !Follows(s, 1);
    }
  }
}
