/** The ops controller's reconcile: rate limit, rule match, execution and escalation
    (internal/controller/clawops_controller.go). Reconciles are serial and the clock never runs
    backwards; the four times of a reconcile are the four readings of the clock. */
module ClawOps {
  import opened Common
  import opened Rules

  const HOUR: int := 3600

  type Counts = map<string, seq<int>>

  /** The actions younger than an hour. */
  function Recent(ts: seq<int>, cutoff: int): (r: seq<int>) {
    if ts == [] then []
    else Recent(ts[..|ts| - 1], cutoff) + if ts[|ts| - 1] > cutoff then [ts[|ts| - 1]] else []
  }

  function Of(m: Counts, claw: string): seq<int> { if claw in m then m[claw] else [] }

  /** One automatic execution: `at` is the clock when its action was due to be recorded and `ranAt` when
      its rule was. */
  datatype Execution = Execution(claw: string, rule: Rule, at: int, ranAt: int)

  /** `done` are the executions that were recorded; `loose` those whose intent was written and whose audit
      record then failed, so that they were not. */
  datatype Ops = Ops(counts: Counts, cooldowns: Cooldowns, clock: int, done: seq<Execution>, loose: seq<Execution>)

  const START := Ops(map[], map[], 0, [], [])

  /** How far an execution gets: the intent is written before the audit record is created. */
  datatype Reach = NoIntent | IntentOnly | Completed

  /** What one reconcile sees: the signals left after deduplication, the rules in force, the clock
      readings of the rate check, the match and the two records, and how far the execution gets. */
  datatype Round = Round(claw: string, signals: seq<Signal>, rules: seq<Rule>,
                         checked: int, matched: int, recorded: int, ran: int, reach: Reach)

  ghost predicate Timely(clock: int, x: Round) { clock <= x.checked <= x.matched <= x.recorded <= x.ran }

  /** What became of the signals: the one an intent was written for, the one whose execution was
      recorded, and those escalated, in order. */
  datatype Verdict = Verdict(intent: Option<Signal>, executed: Option<Signal>, escalated: seq<Signal>)

  function Others(signals: seq<Signal>, kind: string): seq<Signal> {
    if signals == [] then []
    else
      var s := signals[|signals| - 1];
      Others(signals[..|signals| - 1], kind) + if s.kind == kind then [] else [s]
  }

  function Step(max: int, s: Ops, x: Round): (Ops, Verdict) {
    if x.signals == [] then (s, Verdict(None, None, []))
    else
      var recent := Recent(Of(s.counts, x.claw), x.checked - HOUR);
      var pruned := s.counts[x.claw := recent];
      if |recent| >= max then (s.(counts := pruned, clock := x.checked), Verdict(None, None, x.signals))
      else
        var p := Pick(s.cooldowns, x.rules, x.claw, x.signals, x.matched);
        if p.None? then (s.(counts := pruned, clock := x.matched), Verdict(None, None, x.signals))
        else
          var sig := x.signals[p.value];
          var rule := FirstMatch(s.cooldowns, x.rules, x.claw, sig, x.matched).value;
          var rest := Others(x.signals, sig.kind);
          var ex := Execution(x.claw, rule, x.recorded, x.ran);
          match x.reach
          case NoIntent => (s.(counts := pruned, clock := x.matched), Verdict(None, None, [sig] + rest))
          case IntentOnly =>
            (s.(counts := pruned, clock := x.recorded, loose := s.loose + [ex]), Verdict(Some(sig), None, [sig] + rest))
          case Completed =>
            (Ops(pruned[x.claw := recent + [x.recorded]], Recorded(s.cooldowns, x.claw, rule.id, x.ran), x.ran,
                 s.done + [ex], s.loose),
             Verdict(Some(sig), Some(sig), rest))
  }

  // ---- The controller object ----

  /** The last loop: every signal but those of the kind acted on. */
  method EscalateRest(signals: seq<Signal>, matched: bool, kind: string) returns (escalated: seq<Signal>)
    ensures escalated == if matched then Others(signals, kind) else signals
  {
    escalated := [];
    var i := 0;
    while i < |signals|
      invariant 0 <= i <= |signals|
      invariant escalated == if matched then Others(signals[..i], kind) else signals[..i]
    {
      assert signals[..i + 1][..i] == signals[..i];
      if !(matched && signals[i].kind == kind) {
        escalated := escalated + [signals[i]];
      }
      i := i + 1;
    }
    assert signals[..i] == signals;
  }

  class Controller {
    const max: int
    const engine: Engine
    var counts: Counts

    constructor (max: int, engine: Engine)
      ensures this.max == max && this.engine == engine && counts == map[]
    {
      this.max, this.engine, counts := max, engine, map[];
    }

    /** Prunes the claw's list to the last hour as it answers. */
    method IsRateLimited(claw: string, now: int) returns (limited: bool)
      modifies this`counts
      ensures counts == old(counts)[claw := Recent(Of(old(counts), claw), now - HOUR)]
      ensures limited <==> |Recent(Of(old(counts), claw), now - HOUR)| >= max
    {
      var ts := Of(counts, claw);
      var recent: seq<int> := [];
      var i := 0;
      while i < |ts|
        invariant 0 <= i <= |ts| && recent == Recent(ts[..i], now - HOUR)
      {
        assert ts[..i + 1][..i] == ts[..i];
        if ts[i] > now - HOUR {
          recent := recent + [ts[i]];
        }
        i := i + 1;
      }
      assert ts[..i] == ts;
      counts := counts[claw := recent];
      limited := |recent| >= max;
    }

    method RecordAction(claw: string, now: int)
      modifies this`counts
      ensures counts == old(counts)[claw := Of(old(counts), claw) + [now]]
    {
      counts := counts[claw := Of(counts, claw) + [now]];
    }

    /** One reconcile from the deduplicated signals on. */
    method Reconcile(x: Round) returns (v: Verdict)
      requires engine.rules == x.rules
      modifies this`counts, engine`cooldowns
      ensures var (s', v') := Step(max, Ops(old(counts), old(engine.cooldowns), 0, [], []), x);
              counts == s'.counts && engine.cooldowns == s'.cooldowns && v == v'
    {
      if x.signals == [] {
        return Verdict(None, None, []);
      }
      var limited := IsRateLimited(x.claw, x.checked);
      if limited {
        return Verdict(None, None, x.signals);
      }
      var sig, rule, matched := engine.MatchHighestPriority(x.claw, x.signals, x.matched);
      var intent: Option<Signal>, executed: Option<Signal> := None, None;
      var escalated: seq<Signal> := [];
      if matched {
        if x.reach != NoIntent {
          intent := Some(sig);
        }
        if x.reach == Completed {
          RecordAction(x.claw, x.recorded);
          engine.RecordExecution(x.claw, rule.id, x.ran);
          executed := Some(sig);
        } else {
          escalated := [sig];
        }
      }
      var rest := EscalateRest(x.signals, matched, sig.kind);
      escalated := escalated + rest;
      assert !matched ==> [] + rest == rest;
      v := Verdict(intent, executed, escalated);
    }
  }

  // ---- No kind of signal is dropped ----

  lemma {:induction false} OthersAre(signals: seq<Signal>, kind: string)
    ensures forall s :: s in Others(signals, kind) <==> s in signals && s.kind != kind
  {
    if signals != [] {
      OthersAre(signals[..|signals| - 1], kind);
      assert signals == signals[..|signals| - 1] + [signals[|signals| - 1]];
    }
  }

  /** Every signal is escalated or shares its kind with the one acted on; nothing else is. A second
      signal of that kind is not escalated on its own, even when the execution failed. One whose intent
      was written and not recorded is escalated as well. */
  lemma EveryKindHandled(max: int, s: Ops, x: Round, sig: Signal)
    ensures var v := Step(max, s, x).1;
            && (sig in x.signals ==> sig in v.escalated || (v.executed.Some? && v.executed.value.kind == sig.kind)
                                     || exists e :: e in v.escalated && e.kind == sig.kind)
            && (sig in v.escalated || v.executed == Some(sig) ==> sig in x.signals)
            && (v.executed.Some? ==>
                  v.intent == v.executed && forall e | e in v.escalated :: e.kind != v.executed.value.kind)
            && (v.intent.Some? && v.executed.None? ==> v.intent.value in v.escalated)
  {
    var p := Pick(s.cooldowns, x.rules, x.claw, x.signals, x.matched);
    if x.signals != [] && p.Some? {
      OthersAre(x.signals, x.signals[p.value].kind);
    }
  }

  // ---- When a signal is acted on ----

  lemma {:induction false} RecentMeans(ts: seq<int>, cutoff: int)
    ensures forall t :: multiset(Recent(ts, cutoff))[t] == if t > cutoff then multiset(ts)[t] else 0
  {
    if ts != [] {
      RecentMeans(ts[..|ts| - 1], cutoff);
      assert ts == ts[..|ts| - 1] + [ts[|ts| - 1]];
    }
  }

  /** An intent is written exactly when fewer actions than the limit are younger than an hour, some signal
      matches a rule, and the patch goes through; then for the foremost signal, and the action is recorded
      at once exactly when the audit record is. */
  lemma ActsIff(max: int, s: Ops, x: Round)
    ensures var (s', v) := Step(max, s, x);
            var young := |Recent(Of(s.counts, x.claw), x.checked - 3600)|;
            var matches := exists j :: 0 <= j < |x.signals|
                             && FirstMatch(s.cooldowns, x.rules, x.claw, x.signals[j], x.matched).Some?;
            && (v.intent.Some? <==> young < max && matches && x.reach != NoIntent)
            && (v.executed.Some? <==> young < max && matches && x.reach == Completed)
            && (v.intent.Some? ==>
                  exists i :: && Foremost(s.cooldowns, x.rules, x.claw, x.signals, x.matched, i)
                              && v.intent == Some(x.signals[i]))
            && (v.executed.Some? ==>
                  && Of(s'.counts, x.claw) == Recent(Of(s.counts, x.claw), x.checked - 3600) + [x.recorded]
                  && var rule := FirstMatch(s.cooldowns, x.rules, x.claw, v.executed.value, x.matched).value;
                     LastRun(s'.cooldowns, x.claw, rule.id) == Some(x.ran))
  {
    var p := Pick(s.cooldowns, x.rules, x.claw, x.signals, x.matched);
    if p.Some? {
      assert Foremost(s.cooldowns, x.rules, x.claw, x.signals, x.matched, p.value);
      var rule := FirstMatch(s.cooldowns, x.rules, x.claw, x.signals[p.value], x.matched).value;
      RecordedLast(s.cooldowns, x.claw, rule.id, x.ran);
    }
  }

  // ---- Runs ----

  function Run(max: int, xs: seq<Round>): Ops {
    if xs == [] then START else Step(max, Run(max, xs[..|xs| - 1]), xs[|xs| - 1]).0
  }

  ghost predicate Chronological(max: int, xs: seq<Round>) {
    forall i | 0 <= i < |xs| :: Timely(Run(max, xs[..i]).clock, xs[i])
  }

  // ---- The sliding window ----

  /** The recorded action times of one claw, in order. */
  function Times(done: seq<Execution>, claw: string): seq<int> {
    if done == [] then []
    else
      var e := done[|done| - 1];
      Times(done[..|done| - 1], claw) + if e.claw == claw then [e.at] else []
  }

  /** How many of the times fall in the half-open window (a, a + HOUR]. */
  function InWindow(ts: seq<int>, a: int): nat {
    if ts == [] then 0
    else InWindow(ts[..|ts| - 1], a) + if a < ts[|ts| - 1] <= a + HOUR then 1 else 0
  }

  lemma {:induction false} RecentTwice(ts: seq<int>, c: int, d: int)
    requires c <= d
    ensures Recent(Recent(ts, c), d) == Recent(ts, d)
  {
    if ts != [] {
      var n := |ts| - 1;
      RecentTwice(ts[..n], c, d);
      if ts[n] > c { RecentSnoc(Recent(ts[..n], c), ts[n], d); }
      else { assert Recent(ts[..n], c) + [] == Recent(ts[..n], c); }
    }
  }

  lemma RecentSnoc(ts: seq<int>, t: int, c: int)
    ensures Recent(ts + [t], c) == Recent(ts, c) + if t > c then [t] else []
  {
    assert (ts + [t])[..|ts|] == ts;
  }

  lemma {:induction false} WindowWithinRecent(ts: seq<int>, a: int)
    ensures InWindow(ts, a) <= |Recent(ts, a)|
  {
    if ts != [] { WindowWithinRecent(ts[..|ts| - 1], a); }
  }

  lemma InWindowSnoc(ts: seq<int>, t: int, a: int)
    ensures InWindow(ts + [t], a) == InWindow(ts, a) + if a < t <= a + HOUR then 1 else 0
  {
    assert (ts + [t])[..|ts|] == ts;
  }

  lemma {:induction false} RecentShrinks(ts: seq<int>, c: int, d: int)
    requires c <= d
    ensures |Recent(ts, d)| <= |Recent(ts, c)|
  {
    if ts != [] { RecentShrinks(ts[..|ts| - 1], c, d); }
  }

  ghost predicate Agree(listed: seq<int>, ts: seq<int>, from: int) {
    forall c | c >= from :: Recent(listed, c) == Recent(ts, c)
  }

  /** The pruned list still agrees with the full record on everything that can matter. */
  ghost predicate Faithful(s: Ops, claw: string) {
    Agree(Of(s.counts, claw), Times(s.done, claw), s.clock - HOUR)
  }

  ghost predicate Limited(max: int, s: Ops, claw: string) {
    forall a :: InWindow(Times(s.done, claw), a) <= if max > 0 then max else 0
  }

  /** Adding one action after a rate check that passed. */
  lemma WindowStep(max: int, ts: seq<int>, listed: seq<int>, checked: int, t: int, a: int)
    requires checked <= t && |Recent(listed, checked - HOUR)| < max
    requires Agree(listed, ts, checked - HOUR)
    requires InWindow(ts, a) <= max
    ensures InWindow(ts + [t], a) <= max
  {
    InWindowSnoc(ts, t, a);
    if a < t <= a + HOUR {
      WindowWithinRecent(ts, a);
      RecentShrinks(listed, checked - HOUR, a);
    }
  }

  lemma FaithfulStep(ts: seq<int>, listed: seq<int>, clock: int, checked: int, c: int)
    requires clock <= checked && c >= checked - HOUR
    requires Agree(listed, ts, clock - HOUR)
    ensures Recent(Recent(listed, checked - HOUR), c) == Recent(ts, c)
  {
    RecentTwice(listed, checked - HOUR, c);
  }

  lemma TimesSnoc(done: seq<Execution>, e: Execution, claw: string)
    ensures Times(done + [e], claw) == Times(done, claw) + if e.claw == claw then [e.at] else []
  {
    assert (done + [e])[..|done|] == done;
  }

  /** Another claw's reconcile touches neither list nor record. */
  lemma OtherUntouched(max: int, s: Ops, x: Round, claw: string)
    requires x.claw != claw || x.signals == []
    ensures var s' := Step(max, s, x).0;
            Of(s'.counts, claw) == Of(s.counts, claw) && Times(s'.done, claw) == Times(s.done, claw)
  {
    var s' := Step(max, s, x).0;
    if s'.done != s.done { TimesSnoc(s.done, s'.done[|s.done|], claw); }
    assert Times(s.done, claw) + [] == Times(s.done, claw);
  }

  /** Its own prunes the list and perhaps adds one action to both. */
  lemma OwnAdvances(max: int, s: Ops, x: Round)
    requires x.signals != []
    ensures var s' := Step(max, s, x).0;
            var kept := Recent(Of(s.counts, x.claw), x.checked - HOUR);
            || (Of(s'.counts, x.claw) == kept && s'.done == s.done)
            || (Of(s'.counts, x.claw) == kept + [x.recorded]
                 && Times(s'.done, x.claw) == Times(s.done, x.claw) + [x.recorded])
  {
    var s' := Step(max, s, x).0;
    if s'.done != s.done { TimesSnoc(s.done, s'.done[|s.done|], x.claw); }
  }

  lemma ClockAdvances(max: int, s: Ops, x: Round)
    requires Timely(s.clock, x)
    ensures s.clock <= Step(max, s, x).0.clock && (x.signals != [] ==> x.checked <= Step(max, s, x).0.clock)
  {
  }

  lemma StepFaithful(max: int, s: Ops, x: Round, claw: string)
    requires Timely(s.clock, x) && Faithful(s, claw)
    ensures Faithful(Step(max, s, x).0, claw)
  {
    var ts, listed := Times(s.done, claw), Of(s.counts, claw);
    ClockAdvances(max, s, x);
    if x.claw != claw || x.signals == [] {
      OtherUntouched(max, s, x, claw);
    } else {
      var kept := Recent(listed, x.checked - HOUR);
      forall c | c >= x.checked - HOUR ensures Recent(kept, c) == Recent(ts, c) {
        FaithfulStep(ts, listed, s.clock, x.checked, c);
      }
      OwnAdvances(max, s, x);
      BothSnoc(kept, ts, x.recorded, x.checked - HOUR);
    }
  }

  lemma BothSnoc(a: seq<int>, b: seq<int>, t: int, from: int)
    requires Agree(a, b, from)
    ensures Agree(a + [t], b + [t], from)
  {
    forall c | c >= from ensures Recent(a + [t], c) == Recent(b + [t], c) {
      RecentSnoc(a, t, c);
      RecentSnoc(b, t, c);
    }
  }

  lemma StepLimited(max: int, s: Ops, x: Round, claw: string)
    requires Timely(s.clock, x) && Faithful(s, claw) && Limited(max, s, claw)
    ensures Limited(max, Step(max, s, x).0, claw)
  {
    var s' := Step(max, s, x).0;
    if s'.done != s.done {
      var e := s'.done[|s.done|];
      TimesSnoc(s.done, e, claw);
      if x.claw == claw {
        forall a ensures InWindow(Times(s'.done, claw), a) <= max {
          WindowStep(max, Times(s.done, claw), Of(s.counts, claw), x.checked, x.recorded, a);
        }
      } else {
        assert Times(s.done, claw) + [] == Times(s.done, claw);
      }
    }
  }

  /** Although the list is pruned on every check, no window of one hour ever holds more than `max`
      recorded actions of one claw. */
  lemma {:induction false} WindowLimit(max: int, xs: seq<Round>, claw: string)
    requires Chronological(max, xs)
    ensures Faithful(Run(max, xs), claw) && Limited(max, Run(max, xs), claw)
  {
    if xs != [] {
      var n := |xs| - 1;
      ChronologicalPrefix(max, xs);
      WindowLimit(max, xs[..n], claw);
      StepFaithful(max, Run(max, xs[..n]), xs[n], claw);
      StepLimited(max, Run(max, xs[..n]), xs[n], claw);
    }
  }

  lemma ChronologicalPrefix(max: int, xs: seq<Round>)
    requires xs != [] && Chronological(max, xs)
    ensures Chronological(max, xs[..|xs| - 1]) && Timely(Run(max, xs[..|xs| - 1]).clock, xs[|xs| - 1])
  {
    var p := xs[..|xs| - 1];
    forall i | 0 <= i < |p| ensures Timely(Run(max, p[..i]).clock, p[i]) {
      assert p[..i] == xs[..i] && p[i] == xs[i];
    }
  }

  // ---- Intents that were not recorded ----

  /** What the limit is about: a reconcile that writes an intent either counts it, or records nothing
      at all. */
  lemma CountedOrLoose(max: int, s: Ops, x: Round)
    ensures var (s', v) := Step(max, s, x);
            && (v.intent.Some? <==> |s'.done| + |s'.loose| == |s.done| + |s.loose| + 1)
            && (v.executed.Some? <==> |s'.done| == |s.done| + 1)
            && (v.executed.None? ==> s'.done == s.done && s'.cooldowns == s.cooldowns)
  {
  }

  const SIGNAL := Signal("OOMKilled", "Critical", 1, "")
  const RULE := Rule("r", "OOMKilled", "High", 0, "", 3600)

  /** A reconcile whose audit record cannot be created. */
  const REFUSED := Round("c", [SIGNAL], [RULE], 0, 0, 0, 0, IntentOnly)

  lemma RefusedStep(max: int, s: Ops)
    requires max >= 1 && Of(s.counts, "c") == [] && s.cooldowns == map[]
    ensures Step(max, s, REFUSED).0
            == s.(counts := s.counts["c" := []], clock := 0, loose := s.loose + [Execution("c", RULE, 0, 0)])
  {
    assert RuleMatches(s.cooldowns, "c", RULE, SIGNAL, 0);
    var p := Pick(s.cooldowns, [RULE], "c", [SIGNAL], 0);
    assert FirstMatch(s.cooldowns, [RULE], "c", [SIGNAL][0], 0) == Some(RULE);
    assert p == Some(0);
  }

  /** While creating records is refused, neither the hourly limit nor a cooldown bounds the intents: for
      every limit and every number, a run at one instant that writes that many. */
  lemma {:induction false} LooseUnbounded(max: int, n: nat) returns (xs: seq<Round>)
    requires max >= 1
    ensures Chronological(max, xs)
    ensures var s := Run(max, xs);
            && |s.loose| == n && (forall i | 0 <= i < n :: s.loose[i] == Execution("c", RULE, 0, 0))
            && s.done == [] && Of(s.counts, "c") == [] && s.cooldowns == map[] && s.clock == 0
  {
    if n == 0 {
      xs := [];
    } else {
      var before := LooseUnbounded(max, n - 1);
      xs := before + [REFUSED];
      assert xs[..|xs| - 1] == before;
      RefusedStep(max, Run(max, before));
      forall i | 0 <= i < |xs| ensures Timely(Run(max, xs[..i]).clock, xs[i]) {
        assert xs[..i] == before[..i];
      }
    }
  }

  // ---- Cooldowns ----

  ghost predicate Same(e: Execution, f: Execution) { e.claw == f.claw && e.rule.id == f.rule.id }

  /** Executions of one rule id on one claw keep the cooldown of the later one between them. */
  ghost predicate Cooled(done: seq<Execution>) {
    forall i, j | 0 <= i < j < |done| && Same(done[i], done[j]) && done[j].rule.cooldown > 0 ::
      done[j].ranAt - done[i].ranAt >= done[j].rule.cooldown
  }

  /** The cooldown table remembers the latest execution. */
  ghost predicate Remembers(cd: Cooldowns, done: seq<Execution>) {
    forall i | 0 <= i < |done| ::
      var l := LastRun(cd, done[i].claw, done[i].rule.id); l.Some? && done[i].ranAt <= l.value
  }

  ghost predicate Past(done: seq<Execution>, clock: int) { forall i | 0 <= i < |done| :: done[i].ranAt <= clock }

  lemma ExecuteCooled(cd: Cooldowns, done: seq<Execution>, e: Execution, sig: Signal, now: int, clock: int)
    requires Cooled(done) && Remembers(cd, done) && Past(done, clock) && clock <= now <= e.ranAt
    requires RuleMatches(cd, e.claw, e.rule, sig, now)
    ensures Cooled(done + [e]) && Past(done + [e], e.ranAt)
    ensures Remembers(Recorded(cd, e.claw, e.rule.id, e.ranAt), done + [e])
  {
    RecordedLast(cd, e.claw, e.rule.id, e.ranAt);
    var done' := done + [e];
    forall i, j | 0 <= i < j < |done'| && Same(done'[i], done'[j]) && done'[j].rule.cooldown > 0
      ensures done'[j].ranAt - done'[i].ranAt >= done'[j].rule.cooldown
    {
      if j == |done| { assert LastRun(cd, done[i].claw, done[i].rule.id).Some?; }
    }
  }

  lemma StepCooled(max: int, s: Ops, x: Round)
    requires Timely(s.clock, x) && Cooled(s.done) && Remembers(s.cooldowns, s.done) && Past(s.done, s.clock)
    ensures var s' := Step(max, s, x).0; Cooled(s'.done) && Remembers(s'.cooldowns, s'.done) && Past(s'.done, s'.clock)
  {
    var s' := Step(max, s, x).0;
    if s'.done != s.done {
      var e := s'.done[|s.done|];
      var sig := x.signals[Pick(s.cooldowns, x.rules, x.claw, x.signals, x.matched).value];
      FirstMatchMeans(s.cooldowns, x.rules, x.claw, sig, x.matched);
      ExecuteCooled(s.cooldowns, s.done, e, sig, x.matched, s.clock);
    }
  }

  /** Whatever rules are in force at each reconcile, two recorded executions of one rule on one claw
      are at least the later one's cooldown apart. */
  lemma {:induction false} CooldownRespected(max: int, xs: seq<Round>)
    requires Chronological(max, xs)
    ensures var s := Run(max, xs); Cooled(s.done) && Remembers(s.cooldowns, s.done) && Past(s.done, s.clock)
  {
    if xs != [] {
      var n := |xs| - 1;
      ChronologicalPrefix(max, xs);
      CooldownRespected(max, xs[..n]);
      StepCooled(max, Run(max, xs[..n]), xs[n]);
    }
  }
}
