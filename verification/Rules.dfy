/** The remediation rule engine with per-claw cooldowns (internal/rules/engine.go). Times are
    integers; one evaluation reads the clock once. */
module Rules {
  import opened Common

  datatype Signal = Signal(kind: string, severity: string, count: int, message: string)

  datatype Rule = Rule(id: string, signalType: string, minSeverity: string, minCount: int,
                       action: string, cooldown: int)

  /** claw name -> rule id -> time of the last execution */
  type Cooldowns = map<string, map<string, int>>

  function SeverityRank(s: string): (r: int)
    ensures 0 <= r <= 4
  {
    match s
    case "Critical" => 4
    case "High" => 3
    case "Medium" => 2
    case "Low" => 1
    case _ => 0
  }

  function LastRun(cd: Cooldowns, claw: string, id: string): Option<int> {
    if claw in cd && id in cd[claw] then Some(cd[claw][id]) else None
  }

  predicate RuleMatches(cd: Cooldowns, claw: string, rule: Rule, sig: Signal, now: int) {
    && rule.signalType == sig.kind
    && SeverityRank(sig.severity) >= SeverityRank(rule.minSeverity)
    && sig.count >= rule.minCount
    && (rule.cooldown > 0 && LastRun(cd, claw, rule.id).Some? ==>
          now - LastRun(cd, claw, rule.id).value >= rule.cooldown)
  }

  /** A signal of another kind never fires a rule. One of its kind with exactly the minimum severity and
      count does unless the cooldown still runs, which is over the moment it has passed; one below either
      minimum does not. */
  lemma FiresAtTheEdge(cd: Cooldowns, claw: string, rule: Rule, sig: Signal, now: int)
    ensures sig.kind != rule.signalType ==> !RuleMatches(cd, claw, rule, sig, now)
    ensures sig.kind == rule.signalType && sig.severity == rule.minSeverity && sig.count == rule.minCount ==>
              (RuleMatches(cd, claw, rule, sig, now)
               <==> || rule.cooldown <= 0 || claw !in cd || rule.id !in cd[claw]
                    || now >= cd[claw][rule.id] + rule.cooldown)
    ensures SeverityRank(sig.severity) < SeverityRank(rule.minSeverity) || sig.count < rule.minCount ==>
              !RuleMatches(cd, claw, rule, sig, now)
  {
  }

  /** The severities in order; anything else ranks below them all. */
  lemma SeveritiesInOrder(other: string)
    requires other !in {"Critical", "High", "Medium", "Low"}
    ensures SeverityRank("Critical") > SeverityRank("High") > SeverityRank("Medium") > SeverityRank("Low")
            > SeverityRank(other)
  {
  }

  /** The first rule, in order, that matches the signal. */
  function FirstMatch(cd: Cooldowns, rules: seq<Rule>, claw: string, sig: Signal, now: int): Option<Rule> {
    if rules == [] then None
    else if RuleMatches(cd, claw, rules[0], sig, now) then Some(rules[0])
    else FirstMatch(cd, rules[1..], claw, sig, now)
  }

  lemma {:induction false} FirstMatchMeans(cd: Cooldowns, rules: seq<Rule>, claw: string, sig: Signal, now: int)
    ensures var r := FirstMatch(cd, rules, claw, sig, now);
            && (r.Some? <==> exists k :: 0 <= k < |rules| && RuleMatches(cd, claw, rules[k], sig, now))
            && (r.Some? ==>
                  exists k :: && 0 <= k < |rules| && rules[k] == r.value
                              && RuleMatches(cd, claw, rules[k], sig, now)
                              && forall l | 0 <= l < k :: !RuleMatches(cd, claw, rules[l], sig, now))
  {
    if rules != [] && !RuleMatches(cd, claw, rules[0], sig, now) {
      var tail := rules[1..];
      FirstMatchMeans(cd, tail, claw, sig, now);
      assert forall l | 1 <= l < |rules| :: rules[l] == tail[l - 1];
      var r := FirstMatch(cd, rules, claw, sig, now);
      if r.Some? {
        var k :| 0 <= k < |tail| && tail[k] == r.value && RuleMatches(cd, claw, tail[k], sig, now)
                 && forall l | 0 <= l < k :: !RuleMatches(cd, claw, tail[l], sig, now);
        assert rules[k + 1] == r.value;
      }
    }
  }

  /** `i` is the earliest matching signal of maximal severity. */
  ghost predicate Foremost(cd: Cooldowns, rules: seq<Rule>, claw: string, signals: seq<Signal>, now: int, i: int) {
    && 0 <= i < |signals| && FirstMatch(cd, rules, claw, signals[i], now).Some?
    && forall j | 0 <= j < |signals| && FirstMatch(cd, rules, claw, signals[j], now).Some? ::
         && SeverityRank(signals[j].severity) <= SeverityRank(signals[i].severity)
         && (j < i ==> SeverityRank(signals[j].severity) < SeverityRank(signals[i].severity))
  }

  /** Ties go to the earlier signal, so there is one at most. */
  lemma ForemostUnique(cd: Cooldowns, rules: seq<Rule>, claw: string, signals: seq<Signal>, now: int, i: int, j: int)
    requires Foremost(cd, rules, claw, signals, now, i) && Foremost(cd, rules, claw, signals, now, j)
    ensures i == j
  {
  }

  /** The index MatchHighestPriority settles on. */
  function Pick(cd: Cooldowns, rules: seq<Rule>, claw: string, signals: seq<Signal>, now: int): (r: Option<nat>)
    ensures r.Some? ==> Foremost(cd, rules, claw, signals, now, r.value)
    ensures r.None? ==> forall j | 0 <= j < |signals| :: FirstMatch(cd, rules, claw, signals[j], now).None?
  {
    if signals == [] then None
    else
      var n := |signals| - 1;
      var r := Pick(cd, rules, claw, signals[..n], now);
      assert signals == signals[..n] + [signals[n]];
      if FirstMatch(cd, rules, claw, signals[n], now).None? then r
      else if r.None? || SeverityRank(signals[n].severity) > SeverityRank(signals[r.value].severity) then Some(n)
      else r
  }

  const NO_SIGNAL := Signal("", "", 0, "")
  const NO_RULE := Rule("", "", "", 0, "", 0)

  class Engine {
    var rules: seq<Rule>
    var cooldowns: Cooldowns

    constructor (rules: seq<Rule>)
      ensures this.rules == rules && cooldowns == map[]
    {
      this.rules, cooldowns := rules, map[];
    }

    /** The rule's criteria in turn, and its cooldown on this claw. */
    method Fires(claw: string, rule: Rule, sig: Signal, now: int) returns (b: bool)
      ensures b <==> RuleMatches(cooldowns, claw, rule, sig, now)
    {
      if rule.signalType != sig.kind {
        return false;
      }
      if SeverityRank(sig.severity) < SeverityRank(rule.minSeverity) {
        return false;
      }
      if sig.count < rule.minCount {
        return false;
      }
      if rule.cooldown > 0 {
        if claw in cooldowns {
          if rule.id in cooldowns[claw] {
            if now - cooldowns[claw][rule.id] < rule.cooldown {
              return false;
            }
          }
        }
      }
      b := true;
    }

    method Match(claw: string, sig: Signal, now: int) returns (matched: bool, rule: Rule)
      ensures matched <==> FirstMatch(cooldowns, rules, claw, sig, now).Some?
      ensures matched ==> rule == FirstMatch(cooldowns, rules, claw, sig, now).value
    {
      var i := 0;
      while i < |rules|
        invariant 0 <= i <= |rules|
        invariant FirstMatch(cooldowns, rules, claw, sig, now) == FirstMatch(cooldowns, rules[i..], claw, sig, now)
      {
        var fires := Fires(claw, rules[i], sig, now);
        if fires {
          return true, rules[i];
        }
        assert rules[i..][1..] == rules[i + 1..];
        i := i + 1;
      }
      matched, rule := false, NO_RULE;
    }

    /** Succeeds exactly when some signal matches some rule; then gives the earliest matching signal
        of maximal severity, with the rule Match gives for it. */
    method MatchHighestPriority(claw: string, signals: seq<Signal>, now: int)
      returns (bestSig: Signal, bestRule: Rule, matched: bool)
      ensures matched <==> exists j :: 0 <= j < |signals| && FirstMatch(cooldowns, rules, claw, signals[j], now).Some?
      ensures matched ==> exists i :: Foremost(cooldowns, rules, claw, signals, now, i) && bestSig == signals[i]
                                      && FirstMatch(cooldowns, rules, claw, bestSig, now) == Some(bestRule)
      ensures forall i | Foremost(cooldowns, rules, claw, signals, now, i) :: matched && bestSig == signals[i]
      ensures var p := Pick(cooldowns, rules, claw, signals, now);
              (matched <==> p.Some?) && (matched ==> bestSig == signals[p.value])
    {
      bestSig, bestRule := NO_SIGNAL, NO_RULE;
      var bestRank := -1;
      ghost var p: Option<nat> := None;
      var i := 0;
      while i < |signals|
        invariant 0 <= i <= |signals| && p == Pick(cooldowns, rules, claw, signals[..i], now)
        invariant Holds(p, signals, claw, now, bestSig, bestRule, bestRank)
      {
        var sig := signals[i];
        ghost var first := FirstMatch(cooldowns, rules, claw, sig, now);
        ghost var p' := Pick(cooldowns, rules, claw, signals[..i + 1], now);
        assert signals[..i + 1][..i] == signals[..i];
        var k := 0;
        while k < |rules|
          invariant 0 <= k <= |rules| && first == FirstMatch(cooldowns, rules[k..], claw, sig, now)
          invariant Holds(p, signals, claw, now, bestSig, bestRule, bestRank)
        {
          var fires := Fires(claw, rules[k], sig, now);
          if fires {
            break;
          }
          assert rules[k..][1..] == rules[k + 1..];
          k := k + 1;
        }
        if k < |rules| {
          var rank := SeverityRank(sig.severity);
          if rank > bestRank {
            bestRank, bestSig, bestRule := rank, sig, rules[k];
          }
        }
        p := p';
        i := i + 1;
      }
      assert signals[..i] == signals;
      matched := bestRank >= 0;
      forall i | Foremost(cooldowns, rules, claw, signals, now, i) ensures matched && bestSig == signals[i] {
        ForemostUnique(cooldowns, rules, claw, signals, now, i, p.value);
      }
    }

    /** The loop's best-so-far variables describe the pick `p`. */
    ghost predicate Holds(p: Option<nat>, signals: seq<Signal>, claw: string, now: int, bestSig: Signal,
                          bestRule: Rule, bestRank: int)
      reads this
    {
      if p.None? then bestRank == -1
      else p.value < |signals| && bestSig == signals[p.value] && bestRank == SeverityRank(bestSig.severity)
           && FirstMatch(cooldowns, rules, claw, bestSig, now) == Some(bestRule)
    }

    method RecordExecution(claw: string, ruleID: string, now: int)
      modifies this`cooldowns
      ensures cooldowns == Recorded(old(cooldowns), claw, ruleID, now)
    {
      if claw !in cooldowns {
        cooldowns := cooldowns[claw := map[]];
      }
      cooldowns := cooldowns[claw := cooldowns[claw][ruleID := now]];
    }
  }

  function Recorded(cd: Cooldowns, claw: string, id: string, now: int): Cooldowns {
    cd[claw := (if claw in cd then cd[claw] else map[])[id := now]]
  }

  lemma RecordedLast(cd: Cooldowns, claw: string, id: string, now: int)
    ensures LastRun(Recorded(cd, claw, id, now), claw, id) == Some(now)
    ensures forall c, i | c != claw || i != id :: LastRun(Recorded(cd, claw, id, now), c, i) == LastRun(cd, c, i)
  {
  }
}
