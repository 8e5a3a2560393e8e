/** CPU and memory requirements and their overlay on the adapter's defaults
    (internal/controller/claw_ops_intent_consumer.go). Quantities are integers. */
module Resources {
  import opened Common

  datatype Requirements = Requirements(limits: map<string, int>, requests: map<string, int>)

  /** What the API server demands: no request above its limit. */
  ghost predicate Ordered(r: Requirements) {
    forall k | k in r.limits && k in r.requests :: r.requests[k] <= r.limits[k]
  }

  /** Each resource is absent or has both, the request within the limit. */
  ghost predicate Paired(r: Requirements) {
    r.limits.Keys == r.requests.Keys && Ordered(r)
  }

  function Overlay(dst: Requirements, src: Requirements): Requirements {
    Requirements(dst.limits + src.limits, dst.requests + src.requests)
  }

  /** Overlaying ordered requirements stays ordered exactly when every resource the overlay gives
      only half of fits the other half it inherits. */
  lemma OverlayOrderedIff(dst: Requirements, src: Requirements)
    requires Ordered(dst) && Ordered(src)
    ensures Ordered(Overlay(dst, src)) <==>
              && (forall k | k in src.limits && k !in src.requests && k in dst.requests ::
                   dst.requests[k] <= src.limits[k])
              && (forall k | k in src.requests && k !in src.limits && k in dst.limits ::
                   src.requests[k] <= dst.limits[k])
    ensures Paired(src) ==> Ordered(Overlay(dst, src))
  {
    var o := Overlay(dst, src);
    if Ordered(o) {
      forall k | k in src.limits && k !in src.requests && k in dst.requests ensures dst.requests[k] <= src.limits[k] {
        assert k in o.limits && k in o.requests;
      }
      forall k | k in src.requests && k !in src.limits && k in dst.limits ensures src.requests[k] <= dst.limits[k] {
        assert k in o.limits && k in o.requests;
      }
    }
  }

  /** bump-memory and bump-cpu: set the limit, and pull the request down to it if need be. */
  function Bump(r: Requirements, k: string, q: int): Requirements {
    Requirements(r.limits[k := q],
                 if k !in r.requests || q < r.requests[k] then r.requests[k := q] else r.requests)
  }

  lemma BumpPaired(r: Requirements, k: string, q: int)
    requires Paired(r)
    ensures Paired(Bump(r, k, q)) && Bump(r, k, q).limits[k] == q
    ensures k in r.requests && r.requests[k] <= q ==> Bump(r, k, q).requests == r.requests
  {
  }

  datatype Container = Container(name: string, resources: Requirements)

  /** Copies one resource list over another, entry by entry in any order. */
  method MergeList(dst: map<string, int>, src: map<string, int>) returns (r: map<string, int>)
    ensures r == dst + src
  {
    r := dst;
    var left := src.Keys;
    while left != {}
      invariant left <= src.Keys && r.Keys == dst.Keys + (src.Keys - left)
      invariant forall k | k in r :: r[k] == if k in src.Keys - left then src[k] else dst[k]
    {
      var k :| k in left;
      r := r[k := src[k]];
      left := left - {k};
    }
  }

  /** Merges the overrides into the first container called "runtime" and touches no other. */
  method ApplyResourceOverrides(overrides: Option<Requirements>, containers: array<Container>)
    modifies containers
    ensures forall i | 0 <= i < containers.Length ::
              containers[i] ==
              if overrides.Some? && old(containers[i]).name == "runtime"
                 && (forall j | 0 <= j < i :: old(containers[j]).name != "runtime")
              then old(containers[i]).(resources := Overlay(old(containers[i]).resources, overrides.value))
              else old(containers[i])
  {
    if overrides.None? {
      return;
    }
    var i := 0;
    while i < containers.Length
      invariant 0 <= i <= containers.Length
      invariant forall j | 0 <= j < containers.Length :: containers[j] == old(containers[j])
      invariant forall j | 0 <= j < i :: containers[j].name != "runtime"
    {
      if containers[i].name == "runtime" {
        var res := containers[i].resources;
        var limits := MergeList(res.limits, overrides.value.limits);
        var requests := MergeList(res.requests, overrides.value.requests);
        containers[i] := containers[i].(resources := Requirements(limits, requests));
        return;
      }
      i := i + 1;
    }
  }
}

/** The ops-intent consumer: a replay-guarded command executor
    (internal/controller/claw_ops_intent_consumer.go and clawops_intent.go). */
module OpsIntent {
  import opened Common
  import opened Decimal
  import opened Resources

  const INTENT := "claw.prismer.ai/ops-intent"
  const GEN := "claw.prismer.ai/ops-intent-gen"
  const RESTARTED := "claw.prismer.ai/restartedAt"
  const MAX_REPLICAS: int := 10
  const ALLOWED: set<string> := {"bump-memory", "bump-cpu", "restart-pod", "rollout-restart", "scale-replicas"}

  datatype Intent = Intent(action: string, params: map<string, string>, generation: int,
                           source: string, escalationRef: string)

  /** JSON decoding of an intent, whose generation is a signed 64-bit number, and quantity parsing. */
  datatype Env = Env(unmarshal: string -> Option<Intent>, quantity: string -> Option<int>)

  ghost predicate Lawful(env: Env) {
    forall s :: env.unmarshal(s).Some? ==> InRange(env.unmarshal(s).value.generation, 64)
  }

  datatype Claw = Claw(annotations: map<string, string>, replicas: Option<int>, resources: Option<Requirements>)

  datatype Patch = BumpLimit(resource: string, limit: int) | RestartPod | RolloutRestart | ScaleReplicas(n: int)

  function ValidateIntent(env: Env, raw: string): (r: Option<Intent>)
    ensures r.Some? <==> env.unmarshal(raw).Some? && env.unmarshal(raw).value.action in ALLOWED
    ensures r.Some? ==> r == env.unmarshal(raw)
  {
    var i := env.unmarshal(raw);
    if i.None? || i.value.action == "" || i.value.action !in ALLOWED then None else i
  }

  /** The high-water mark: 0 when the annotation is missing or malformed. */
  function CurrentGen(c: Claw): (g: int)
    ensures InRange(g, 64)
  {
    if GEN !in c.annotations then 0
    else
      var p := ParseInt(c.annotations[GEN], 64);
      if p.Some? then p.value else 0
  }

  function Param(i: Intent, key: string): Option<string> {
    if key in i.params && i.params[key] != "" then Some(i.params[key]) else None
  }

  function Limit(env: Env, i: Intent, resource: string): Option<Patch> {
    var t := Param(i, "target");
    if t.None? || env.quantity(t.value).None? then None else Some(BumpLimit(resource, env.quantity(t.value).value))
  }

  /** The parameters an action needs are there and well-formed. */
  ghost predicate ParamsOk(env: Env, i: Intent) {
    || i.action in {"restart-pod", "rollout-restart"}
    || (i.action in {"bump-memory", "bump-cpu"}
        && "target" in i.params && i.params["target"] != "" && env.quantity(i.params["target"]).Some?)
    || (i.action == "scale-replicas" && "replicas" in i.params && i.params["replicas"] != ""
        && ParseInt(i.params["replicas"], 32).Some? && 1 <= ParseInt(i.params["replicas"], 32).value <= 10)
  }

  /** A patch is built exactly from well-formed parameters; replicas stay within 1..10. */
  function BuildIntentPatch(env: Env, i: Intent): (r: Option<Patch>)
    ensures r.Some? <==> ParamsOk(env, i)
    ensures r.Some? && r.value.ScaleReplicas? ==> 1 <= r.value.n <= MAX_REPLICAS
    ensures r.Some? ==> i.action in ALLOWED && (r.value.RestartPod? <==> i.action == "restart-pod")
  {
    match i.action
    case "bump-memory" => Limit(env, i, "memory")
    case "bump-cpu" => Limit(env, i, "cpu")
    case "restart-pod" => Some(RestartPod)
    case "rollout-restart" => Some(RolloutRestart)
    case "scale-replicas" =>
      var t := Param(i, "replicas");
      if t.None? then None
      else
        var n := ParseInt(t.value, 32);
        if n.None? || n.value < 1 || n.value > MAX_REPLICAS then None else Some(ScaleReplicas(n.value))
    case _ => None
  }

  /** Removes the intent and raises the mark, never lowering it. */
  function Clear(c: Claw, processed: int): Claw {
    var a := c.annotations - {INTENT};
    c.(annotations := if processed > CurrentGen(c) then a[GEN := FormatInt(processed)] else a)
  }

  function ApplyPatch(c: Claw, p: Patch, stamp: string): Claw {
    match p
    case BumpLimit(k, q) =>
      var r := if c.resources.Some? then c.resources.value else Requirements(map[], map[]);
      c.(resources := Some(Bump(r, k, q)))
    case ScaleReplicas(n) => c.(replicas := Some(n))
    case RolloutRestart => c.(annotations := c.annotations[RESTARTED := stamp])
    case RestartPod => c
  }

  /** What one consume did. Only an execution, a rejection of parameters and a failed restart use
      up a generation. */
  datatype Event =
    | Nothing | Stale | Malformed
    | BadParams(gen: int) | RestartFailed(gen: int) | Executed(gen: int, patch: Patch)

  /** `restartOk` is whether deleting the pod succeeds; `stamp` is the clock's text. */
  function Consume(env: Env, c: Claw, restartOk: bool, stamp: string): (Claw, Event) {
    if INTENT !in c.annotations || c.annotations[INTENT] == "" then (c, Nothing)
    else
      var i := ValidateIntent(env, c.annotations[INTENT]);
      if i.None? then (Clear(c, CurrentGen(c)), Malformed)
      else
        var g := i.value.generation;
        if g <= CurrentGen(c) then (c, Stale)
        else
          var p := BuildIntentPatch(env, i.value);
          if p.None? then (Clear(c, g), BadParams(g))
          else if p.value.RestartPod? && !restartOk then (Clear(c, g), RestartFailed(g))
          else (Clear(ApplyPatch(c, p.value, stamp), g), Executed(g, p.value))
  }

  // ---- The object, mutated in place ----

  class ClawObject {
    var annotations: map<string, string>
    var replicas: Option<int>
    var resources: Option<Requirements>

    ghost function View(): Claw
      reads this
    {
      Claw(annotations, replicas, resources)
    }

    method CurrentIntentGen() returns (g: int)
      ensures g == CurrentGen(View())
    {
      if GEN !in annotations {
        return 0;
      }
      var parsed := ParseInt(annotations[GEN], 64);
      g := if parsed.Some? then parsed.value else 0;
    }

    method ClearOpsIntentAnnotations(processedGen: int) returns (final: int)
      modifies this`annotations
      ensures View() == Clear(old(View()), processedGen)
      ensures InRange(processedGen, 64) ==> final == CurrentGen(View())
    {
      annotations := annotations - {INTENT};
      var current := CurrentIntentGen();
      assert current == old(CurrentGen(View()));
      if processedGen > current {
        if InRange(processedGen, 64) { IntRoundTrip(processedGen, 64); }
        annotations := annotations[GEN := FormatInt(processedGen)];
        return processedGen;
      }
      final := current;
    }

    method ApplyIntentPatch(p: Patch, stamp: string)
      modifies this
      ensures View() == ApplyPatch(old(View()), p, stamp)
    {
      match p {
        case BumpLimit(k, q) =>
          if resources.None? {
            resources := Some(Requirements(map[], map[]));
          }
          var res := resources.value;
          res := res.(limits := res.limits[k := q]);
          if k !in res.requests || q < res.requests[k] {
            res := res.(requests := res.requests[k := q]);
          }
          resources := Some(res);
        case ScaleReplicas(n) => replicas := Some(n);
        case RolloutRestart => annotations := annotations[RESTARTED := stamp];
        case RestartPod =>
      }
    }

    /** The in-memory half of a consume; the caller commits the object with one patch. */
    method ConsumeAndExecute(env: Env, restartOk: bool, stamp: string) returns (e: Event)
      modifies this
      ensures (View(), e) == Consume(env, old(View()), restartOk, stamp)
    {
      if INTENT !in annotations || annotations[INTENT] == "" {
        return Nothing;
      }
      var intent := ValidateIntent(env, annotations[INTENT]);
      var gen := CurrentIntentGen();
      if intent.None? {
        var _ := ClearOpsIntentAnnotations(gen);
        return Malformed;
      }
      if intent.value.generation <= gen {
        return Stale;
      }
      var p := BuildIntentPatch(env, intent.value);
      if p.None? {
        var _ := ClearOpsIntentAnnotations(intent.value.generation);
        return BadParams(intent.value.generation);
      }
      if p.value.RestartPod? && !restartOk {
        var _ := ClearOpsIntentAnnotations(intent.value.generation);
        return RestartFailed(intent.value.generation);
      }
      ApplyIntentPatch(p.value, stamp);
      var _ := ClearOpsIntentAnnotations(intent.value.generation);
      e := Executed(intent.value.generation, p.value);
    }
  }

  // ---- One consume ----

  /** The mark is the number in the annotation: zero when it is missing, not a number or outside 64 bits. */
  lemma MarkIs(c: Claw, n: int)
    ensures GEN !in c.annotations ==> CurrentGen(c) == 0
    ensures GEN in c.annotations && c.annotations[GEN] in {"", "x", "-"} ==> CurrentGen(c) == 0
    ensures GEN in c.annotations && c.annotations[GEN] == FormatInt(n) ==>
              CurrentGen(c) == if -0x8000_0000_0000_0000 <= n <= 0x7fff_ffff_ffff_ffff then n else 0
  {
    ReadBackIff(n);
    if GEN in c.annotations && c.annotations[GEN] == "x" { assert !AllDigits("x") by { assert !IsDigit("x"[0]); } }
  }

  predicate UsesGen(e: Event) { e.BadParams? || e.RestartFailed? || e.Executed? }

  lemma ClearMark(c: Claw, g: int)
    requires InRange(g, 64)
    ensures CurrentGen(Clear(c, g)) == if g > CurrentGen(c) then g else CurrentGen(c)
    ensures INTENT !in Clear(c, g).annotations
  {
    IntRoundTrip(g, 64);
  }

  /** What each event leaves behind. */
  ghost predicate Outcome(c: Claw, c': Claw, e: Event, stamp: string) {
    match e
    case Nothing => c' == c
    case Stale => c' == c
    case Malformed => c' == Clear(c, CurrentGen(c))
    case BadParams(g) => InRange(g, 64) && g > CurrentGen(c) && c' == Clear(c, g)
    case RestartFailed(g) => InRange(g, 64) && g > CurrentGen(c) && c' == Clear(c, g)
    case Executed(g, p) => InRange(g, 64) && g > CurrentGen(c) && c' == Clear(ApplyPatch(c, p, stamp), g)
  }

  lemma ConsumeOutcome(env: Env, c: Claw, restartOk: bool, stamp: string)
    requires Lawful(env)
    ensures var (c', e) := Consume(env, c, restartOk, stamp); Outcome(c, c', e, stamp)
  {
  }

  /** The mark moves exactly when a generation is used, and then up to it. */
  ghost predicate MarkMoved(c: Claw, c': Claw, e: Event) {
    && (UsesGen(e) ==> e.gen > CurrentGen(c) && CurrentGen(c') == e.gen)
    && (!UsesGen(e) ==> CurrentGen(c') == CurrentGen(c))
    && (!e.Nothing? && !e.Stale? ==> INTENT !in c'.annotations)
    && (!e.Executed? ==> c'.replicas == c.replicas && c'.resources == c.resources)
  }

  lemma OutcomeMark(c: Claw, c': Claw, e: Event, stamp: string)
    requires Outcome(c, c', e, stamp)
    ensures MarkMoved(c, c', e)
  {
    if e.Executed? {
      assert CurrentGen(ApplyPatch(c, e.patch, stamp)) == CurrentGen(c);
      ClearMark(ApplyPatch(c, e.patch, stamp), e.gen);
    } else if UsesGen(e) {
      ClearMark(c, e.gen);
    }
  }

  /** Malformed and stale intents leave the mark alone; every other one moves it up to its generation. */
  lemma ConsumeMark(env: Env, c: Claw, restartOk: bool, stamp: string)
    requires Lawful(env)
    ensures var (c', e) := Consume(env, c, restartOk, stamp); MarkMoved(c, c', e)
  {
    ConsumeOutcome(env, c, restartOk, stamp);
    var (c', e) := Consume(env, c, restartOk, stamp);
    OutcomeMark(c, c', e, stamp);
  }

  /** Consuming again at once changes nothing and executes nothing. */
  lemma ConsumeTwice(env: Env, c: Claw, ok1: bool, stamp1: string, ok2: bool, stamp2: string)
    requires Lawful(env)
    ensures var once := Consume(env, c, ok1, stamp1).0;
            var (twice, e) := Consume(env, once, ok2, stamp2);
            twice == once && (e.Nothing? || e.Stale?)
  {
    ConsumeMark(env, c, ok1, stamp1);
  }

  lemma PatchMeans(env: Env, i: Intent)
    requires ParamsOk(env, i)
    ensures var p := BuildIntentPatch(env, i).value;
              && (i.action == "bump-memory" ==> p == BumpLimit("memory", env.quantity(i.params["target"]).value))
              && (i.action == "bump-cpu" ==> p == BumpLimit("cpu", env.quantity(i.params["target"]).value))
              && (i.action == "scale-replicas" ==> p == ScaleReplicas(ParseInt(i.params["replicas"], 32).value))
  {
  }

  /** What a consume answers, from the annotation alone: nothing without an intent; malformed, and the
      intent removed, when it does not decode or its action is not one of the five; stale, and nothing
      changed, when it is valid and not above the mark. */
  lemma ConsumeAnswers(env: Env, c: Claw, restartOk: bool, stamp: string)
    ensures var (c', e) := Consume(env, c, restartOk, stamp);
            var missing := INTENT !in c.annotations || c.annotations[INTENT] == "";
            var i := if missing then None else env.unmarshal(c.annotations[INTENT]);
            var valid := i.Some? && i.value.action in {"bump-memory", "bump-cpu", "restart-pod", "rollout-restart",
                                                       "scale-replicas"};
            && (e.Nothing? <==> missing)
            && (e.Malformed? <==> !missing && !valid)
            && (e.Stale? <==> valid && i.value.generation <= CurrentGen(c))
            && (UsesGen(e) <==> valid && i.value.generation > CurrentGen(c))
            && (e.Nothing? || e.Stale? ==> c' == c)
            && (e.Malformed? ==> c' == c.(annotations := c.annotations - {INTENT}))
  {
  }

  /** The annotations once a generation is used up. */
  function Spent(annotations: map<string, string>, gen: int): map<string, string> {
    (annotations - {INTENT})[GEN := FormatInt(gen)]
  }

  /** The whole object after an action. */
  ghost predicate Took(env: Env, i: Intent, c: Claw, c': Claw, stamp: string)
    requires ParamsOk(env, i)
  {
    && c'.replicas == (if i.action == "scale-replicas" then ParseInt(i.params["replicas"], 32) else c.replicas)
    && c'.annotations
       == Spent(if i.action == "rollout-restart" then c.annotations[RESTARTED := stamp] else c.annotations,
                i.generation)
    && (i.action in {"bump-memory", "bump-cpu"} ==>
          var k, q := if i.action == "bump-memory" then "memory" else "cpu", env.quantity(i.params["target"]).value;
          var r := if c.resources.Some? then c.resources.value else Requirements(map[], map[]);
          && c'.resources.Some? && c'.resources.value.limits == r.limits[k := q]
          && c'.resources.value.requests
             == r.requests[k := if k in r.requests && r.requests[k] <= q then r.requests[k] else q])
    && (i.action !in {"bump-memory", "bump-cpu"} ==> c'.resources == c.resources)
  }

  /** From the annotation to the spec: a fresh, valid intent with good parameters is executed and
      changes exactly what its action names; with bad parameters it only uses up its generation. */
  lemma IntentTakesEffect(env: Env, c: Claw, i: Intent, restartOk: bool, stamp: string)
    requires INTENT in c.annotations && c.annotations[INTENT] != ""
             && ValidateIntent(env, c.annotations[INTENT]) == Some(i)
    requires i.generation > CurrentGen(c)
    ensures var (c', e) := Consume(env, c, restartOk, stamp);
            && (e.Executed? <==> ParamsOk(env, i) && (i.action == "restart-pod" ==> restartOk))
            && (e.Executed? ==> e.gen == i.generation && Took(env, i, c, c', stamp))
            && (!ParamsOk(env, i) ==> e == BadParams(i.generation))
            && (!e.Executed? ==> c' == c.(annotations := Spent(c.annotations, i.generation)))
  {
    if ParamsOk(env, i) {
      PatchMeans(env, i);
      var p := BuildIntentPatch(env, i).value;
      assert CurrentGen(ApplyPatch(c, p, stamp)) == CurrentGen(c);
    }
  }

  // ---- The commit ----

  ghost predicate Agree<V>(a: map<string, V>, b: map<string, V>, k: string) {
    (k in a <==> k in b) && (k in a ==> a[k] == b[k])
  }

  /** A JSON merge patch made from `base` to `result`, applied to `now`: only the keys the two
      differ in are touched. */
  ghost function PatchMap<V>(now: map<string, V>, base: map<string, V>, result: map<string, V>): map<string, V> {
    map k | k in now.Keys + result.Keys && (if Agree(base, result, k) then k in now else k in result)
      :: if Agree(base, result, k) then now[k] else result[k]
  }

  ghost function PatchClaw(now: Claw, base: Claw, result: Claw): Claw {
    var none := Requirements(map[], map[]);
    var n := if now.resources.Some? then now.resources.value else none;
    var b := if base.resources.Some? then base.resources.value else none;
    Claw(PatchMap(now.annotations, base.annotations, result.annotations),
         if base.replicas == result.replicas then now.replicas else result.replicas,
         if base.resources == result.resources || result.resources.None? then now.resources
         else Some(Requirements(PatchMap(n.limits, b.limits, result.resources.value.limits),
                                PatchMap(n.requests, b.requests, result.resources.value.requests))))
  }

  /** The same object but for the intent it carries. */
  ghost predicate SameButIntent(a: Claw, b: Claw) {
    a.annotations - {INTENT} == b.annotations - {INTENT} && a.replicas == b.replicas && a.resources == b.resources
  }

  lemma SameMark(a: Claw, b: Claw)
    requires SameButIntent(a, b)
    ensures CurrentGen(a) == CurrentGen(b)
  {
    assert GEN in a.annotations <==> GEN in a.annotations - {INTENT};
    assert GEN in b.annotations <==> GEN in b.annotations - {INTENT};
    if GEN in a.annotations { assert (a.annotations - {INTENT})[GEN] == (b.annotations - {INTENT})[GEN]; }
  }

  lemma PatchMapSame<V>(m: map<string, V>, result: map<string, V>)
    ensures PatchMap(m, m, result) == result
  {
  }

  lemma PatchAnnotations(now: map<string, string>, base: map<string, string>, result: map<string, string>)
    requires now - {INTENT} == base - {INTENT} && INTENT in base && INTENT !in result
    ensures PatchMap(now, base, result) == result
  {
    var m := PatchMap(now, base, result);
    forall k ensures Agree(m, result, k) {
      if k != INTENT {
        assert k in now <==> k in now - {INTENT};
        assert k in base <==> k in base - {INTENT};
        if k in now { assert (now - {INTENT})[k] == (base - {INTENT})[k]; }
      }
    }
    assert forall k :: k in m <==> k in result by {
      forall k ensures k in m <==> k in result { assert Agree(m, result, k); }
    }
    assert forall k | k in m :: m[k] == result[k] by {
      forall k | k in m ensures m[k] == result[k] { assert Agree(m, result, k); }
    }
  }

  /** Committed over an object that differs at most in its intent, the patch gives exactly what the
      consume computed, and any newer intent is gone. */
  lemma PatchFresh(now: Claw, base: Claw, result: Claw)
    requires SameButIntent(now, base) && INTENT in base.annotations && INTENT !in result.annotations
    requires base.resources != result.resources ==> result.resources.Some?
    ensures PatchClaw(now, base, result) == result
  {
    PatchAnnotations(now.annotations, base.annotations, result.annotations);
    if base.resources != result.resources {
      var b := if base.resources.Some? then base.resources.value else Requirements(map[], map[]);
      PatchMapSame(b.limits, result.resources.value.limits);
      PatchMapSame(b.requests, result.resources.value.requests);
    }
  }

  lemma PatchDrops(now: Claw, base: Claw)
    requires INTENT in base.annotations
    ensures PatchClaw(now, base, base.(annotations := base.annotations - {INTENT}))
            == now.(annotations := now.annotations - {INTENT})
  {
    var result := base.annotations - {INTENT};
    var m := PatchMap(now.annotations, base.annotations, result);
    forall k | k != INTENT ensures Agree(base.annotations, result, k) {}
    assert m == now.annotations - {INTENT};
  }

  // ---- Runs ----

  /** A consume between its read and its commit. */
  datatype Flight = Flight(base: Claw, restartOk: bool, stamp: string)

  /** Every version of the object, the consume in flight, the generations whose execution was
      committed and those for which a pod was deleted. */
  datatype Sys = Sys(history: seq<Claw>, flight: Option<Flight>, committed: seq<int>, restarts: seq<int>)

  /** Anybody may write any intent at any time. The reconciler reads some version from its cache,
      consumes it and deletes a pod if told to, and later commits with one patch, which may fail. */
  datatype Action = Write(raw: string) | Read(v: nat, restartOk: bool, stamp: string) | Commit(ok: bool)

  function Now(s: Sys): Claw
    requires s.history != []
  {
    s.history[|s.history| - 1]
  }

  function Result(env: Env, f: Flight): (Claw, Event) { Consume(env, f.base, f.restartOk, f.stamp) }

  predicate Commits(e: Event) { !e.Nothing? && !e.Stale? }

  predicate DeletesPod(e: Event) { e.Executed? && e.patch.RestartPod? }

  predicate Enabled(s: Sys, a: Action) {
    match a
    case Write(_) => true
    case Read(v, _, _) => s.flight.None? && v < |s.history|
    case Commit(_) => s.flight.Some?
  }

  function WithIntent(c: Claw, raw: string): Claw { c.(annotations := c.annotations[INTENT := raw]) }

  ghost function Next(env: Env, s: Sys, a: Action): (t: Sys)
    requires s.history != []
    ensures s.history <= t.history
  {
    if !Enabled(s, a) then s
    else match a
      case Write(raw) => s.(history := s.history + [WithIntent(Now(s), raw)])
      case Read(v, ok, stamp) =>
        var f := Flight(s.history[v], ok, stamp);
        var e := Result(env, f).1;
        s.(flight := if Commits(e) then Some(f) else None,
           restarts := s.restarts + (if DeletesPod(e) then [e.gen] else []))
      case Commit(ok) =>
        var f := s.flight.value;
        var (c, e) := Result(env, f);
        if !ok then s.(flight := None)
        else Sys(s.history + [PatchClaw(Now(s), f.base, c)], None,
                 s.committed + (if e.Executed? then [e.gen] else []), s.restarts)
  }

  ghost function Run(env: Env, c: Claw, acts: seq<Action>): (s: Sys)
    ensures s.history != []
  {
    if acts == [] then Sys([c], None, [], []) else Next(env, Run(env, c, acts[..|acts| - 1]), acts[|acts| - 1])
  }

  lemma RunSnoc(env: Env, c: Claw, acts: seq<Action>, a: Action)
    ensures Run(env, c, acts + [a]) == Next(env, Run(env, c, acts), a)
  {
    assert (acts + [a])[..|acts|] == acts;
  }

  /** A read that uses up a generation sees the current mark. */
  ghost predicate Trusted(env: Env, s: Sys, a: Action)
    requires s.history != []
  {
    a.Read? && Enabled(s, a) && UsesGen(Consume(env, s.history[a.v], a.restartOk, a.stamp).1) ==>
      CurrentGen(s.history[a.v]) == CurrentGen(Now(s))
  }

  ghost predicate TrustedRun(env: Env, c: Claw, acts: seq<Action>) {
    forall i | 0 <= i < |acts| :: Trusted(env, Run(env, c, acts[..i]), acts[i])
  }

  lemma TrustedPrefix(env: Env, c: Claw, acts: seq<Action>, n: nat)
    requires n <= |acts| && TrustedRun(env, c, acts)
    ensures TrustedRun(env, c, acts[..n])
  {
    forall i | 0 <= i < n ensures Trusted(env, Run(env, c, acts[..n][..i]), acts[..n][i]) {
      assert acts[..n][..i] == acts[..i];
    }
  }

  // ---- The mark and the history ----

  lemma ConsumeShape(env: Env, c: Claw, ok: bool, stamp: string)
    ensures var (c', e) := Consume(env, c, ok, stamp);
            Commits(e) ==>
              && INTENT in c.annotations && INTENT !in c'.annotations
              && (c'.resources != c.resources ==> c'.resources.Some?)
              && (e.Malformed? ==> c' == c.(annotations := c.annotations - {INTENT}))
  {
  }

  /** No version is ahead of the mark, and versions at the mark differ only in their intent. */
  ghost predicate Coherent(s: Sys)
    requires s.history != []
  {
    forall v | 0 <= v < |s.history| ::
      CurrentGen(s.history[v]) <= CurrentGen(Now(s))
      && (CurrentGen(s.history[v]) == CurrentGen(Now(s)) ==> SameButIntent(s.history[v], Now(s)))
  }

  ghost predicate FlightOk(env: Env, s: Sys)
    requires s.history != []
  {
    s.flight.Some? ==>
      var e := Result(env, s.flight.value).1;
      Commits(e) && (UsesGen(e) ==> SameButIntent(s.flight.value.base, Now(s)))
  }

  ghost predicate Inv(env: Env, s: Sys) { s.history != [] && Coherent(s) && FlightOk(env, s) }

  /** What a landed commit makes of the object. */
  lemma CommitGives(env: Env, s: Sys)
    requires Lawful(env) && Inv(env, s) && s.flight.Some?
    ensures var (c, e) := Result(env, s.flight.value);
            var now := PatchClaw(Now(s), s.flight.value.base, c);
            && INTENT !in now.annotations
            && (UsesGen(e) ==> now == c && CurrentGen(now) == e.gen > CurrentGen(Now(s)))
            && (e.Malformed? ==> now == Now(s).(annotations := Now(s).annotations - {INTENT}))
  {
    var f := s.flight.value;
    var (c, e) := Result(env, f);
    ConsumeShape(env, f.base, f.restartOk, f.stamp);
    if UsesGen(e) {
      PatchFresh(Now(s), f.base, c);
      ConsumeMark(env, f.base, f.restartOk, f.stamp);
      SameMark(f.base, Now(s));
    } else {
      PatchDrops(Now(s), f.base);
    }
  }

  lemma AppendSame(env: Env, s: Sys, c: Claw)
    requires Inv(env, s) && SameButIntent(c, Now(s))
    ensures Inv(env, s.(history := s.history + [c])) && Inv(env, s.(history := s.history + [c], flight := None))
  {
    SameMark(c, Now(s));
  }

  lemma ReadInv(env: Env, s: Sys, v: nat, ok: bool, stamp: string)
    requires Inv(env, s) && s.flight.None? && v < |s.history| && Trusted(env, s, Read(v, ok, stamp))
    ensures Inv(env, Next(env, s, Read(v, ok, stamp)))
  {
    var t := Next(env, s, Read(v, ok, stamp));
    assert t.history == s.history;
    assert t.flight.Some? ==> t.flight.value == Flight(s.history[v], ok, stamp);
  }

  lemma CommitInv(env: Env, s: Sys)
    requires Lawful(env) && Inv(env, s) && s.flight.Some?
    ensures Inv(env, Next(env, s, Commit(true)))
  {
    CommitGives(env, s);
    var (c, e) := Result(env, s.flight.value);
    var now := PatchClaw(Now(s), s.flight.value.base, c);
    if e.Malformed? { AppendSame(env, s, now); } else { Raises(env, s, now); }
  }

  lemma NextInv(env: Env, s: Sys, a: Action)
    requires Lawful(env) && Inv(env, s) && Trusted(env, s, a)
    ensures Inv(env, Next(env, s, a))
  {
    if Enabled(s, a) {
      match a
      case Write(raw) => AppendSame(env, s, WithIntent(Now(s), raw));
      case Read(v, ok, stamp) => ReadInv(env, s, v, ok, stamp);
      case Commit(ok) => if ok { CommitInv(env, s); }
    }
  }

  lemma Raises(env: Env, s: Sys, c: Claw)
    requires Inv(env, s) && CurrentGen(c) > CurrentGen(Now(s))
    ensures Coherent(s.(history := s.history + [c], flight := None))
  {
  }

  lemma {:induction false} RunInv(env: Env, c: Claw, acts: seq<Action>)
    requires Lawful(env) && TrustedRun(env, c, acts)
    ensures Inv(env, Run(env, c, acts))
  {
    if acts != [] {
      var n := |acts| - 1;
      TrustedPrefix(env, c, acts, n);
      RunInv(env, c, acts[..n]);
      NextInv(env, Run(env, c, acts[..n]), acts[n]);
    }
  }

  /** Reads and commits apart behave as one step: in a trusted run a landed commit of a used
      generation makes the object exactly what the consume computed, whatever was written in
      between. */
  lemma CommitIsConsume(env: Env, c: Claw, acts: seq<Action>)
    requires Lawful(env) && TrustedRun(env, c, acts)
    ensures var s := Run(env, c, acts);
            s.flight.Some? && UsesGen(Result(env, s.flight.value).1) ==>
              Now(Next(env, s, Commit(true))) == Result(env, s.flight.value).0
  {
    RunInv(env, c, acts);
    var s := Run(env, c, acts);
    if s.flight.Some? { CommitGives(env, s); }
  }

  // ---- The mark, whatever was read ----

  lemma WriteKeepsMark(c: Claw, raw: string)
    ensures CurrentGen(WithIntent(c, raw)) == CurrentGen(c)
  {
  }

  lemma MarkFromGen(a: Claw, b: Claw)
    requires Agree(a.annotations, b.annotations, GEN)
    ensures CurrentGen(a) == CurrentGen(b)
  {
  }

  /** Whatever it read, a landed commit of a used generation leaves the mark at that generation. */
  lemma CommitSetsMark(env: Env, now: Claw, f: Flight)
    requires Lawful(env) && UsesGen(Result(env, f).1)
    ensures CurrentGen(PatchClaw(now, f.base, Result(env, f).0)) == Result(env, f).1.gen
  {
    ConsumeMark(env, f.base, f.restartOk, f.stamp);
    var c := Result(env, f).0;
    assert !Agree(f.base.annotations, c.annotations, GEN) by {
      if Agree(f.base.annotations, c.annotations, GEN) { MarkFromGen(f.base, c); }
    }
    assert GEN in c.annotations;
    MarkFromGen(PatchClaw(now, f.base, c), c);
  }

  ghost predicate FlightCommits(env: Env, s: Sys) { s.flight.Some? ==> Commits(Result(env, s.flight.value).1) }

  lemma {:induction false} RunFlight(env: Env, c: Claw, acts: seq<Action>)
    ensures FlightCommits(env, Run(env, c, acts))
  {
    if acts != [] { RunFlight(env, c, acts[..|acts| - 1]); }
  }

  /** The step commits a consume that used up a generation, and the patch lands. */
  ghost predicate LandsUse(env: Env, s: Sys, a: Action) {
    a == Commit(true) && s.flight.Some? && UsesGen(Result(env, s.flight.value).1)
  }

  /** Nothing else moves the mark. */
  lemma NextMark(env: Env, s: Sys, a: Action)
    requires Lawful(env) && s.history != [] && FlightCommits(env, s)
    ensures CurrentGen(Now(Next(env, s, a)))
            == if LandsUse(env, s, a) then Result(env, s.flight.value).1.gen else CurrentGen(Now(s))
  {
    if Enabled(s, a) && !a.Read? {
      if a.Write? { WriteKeepsMark(Now(s), a.raw); }
      else if a.ok {
        var f := s.flight.value;
        ConsumeShape(env, f.base, f.restartOk, f.stamp);
        if LandsUse(env, s, a) { CommitSetsMark(env, Now(s), f); }
        else {
          PatchDrops(Now(s), f.base);
          SameMark(Now(s).(annotations := Now(s).annotations - {INTENT}), Now(s));
        }
      }
    }
  }

  // ---- Reads ahead of the mark ----

  /** A read that uses up a generation uses one above the current mark. */
  ghost predicate ReadAhead(env: Env, s: Sys, a: Action)
    requires s.history != []
  {
    a.Read? && Enabled(s, a) ==>
      var e := Consume(env, s.history[a.v], a.restartOk, a.stamp).1;
      UsesGen(e) ==> e.gen > CurrentGen(Now(s))
  }

  ghost predicate AheadRun(env: Env, c: Claw, acts: seq<Action>) {
    forall i | 0 <= i < |acts| :: ReadAhead(env, Run(env, c, acts[..i]), acts[i])
  }

  lemma AheadPrefix(env: Env, c: Claw, acts: seq<Action>, n: nat)
    requires n <= |acts| && AheadRun(env, c, acts)
    ensures AheadRun(env, c, acts[..n])
  {
    forall i | 0 <= i < n ensures ReadAhead(env, Run(env, c, acts[..n][..i]), acts[..n][i]) {
      assert acts[..n][..i] == acts[..i];
    }
  }

  /** Seeing the current mark is enough; a stale read of a newer intent is ahead as well. */
  lemma TrustedIsAhead(env: Env, c: Claw, acts: seq<Action>)
    requires Lawful(env) && TrustedRun(env, c, acts)
    ensures AheadRun(env, c, acts)
  {
    forall i | 0 <= i < |acts| ensures ReadAhead(env, Run(env, c, acts[..i]), acts[i]) {
      var s, a := Run(env, c, acts[..i]), acts[i];
      assert Trusted(env, s, a);
      if a.Read? && Enabled(s, a) { ConsumeMark(env, s.history[a.v], a.restartOk, a.stamp); }
    }
  }

  /** The read that the consume in flight began with. */
  ghost function TakeOff(env: Env, c: Claw, acts: seq<Action>): (j: nat)
    requires Run(env, c, acts).flight.Some?
    ensures j < |acts|
  {
    if Run(env, c, acts[..|acts| - 1]).flight.Some? then TakeOff(env, c, acts[..|acts| - 1]) else |acts| - 1
  }

  /** What is in flight is what that read found, and the mark has not moved since. */
  lemma {:induction false} TakeOffMeans(env: Env, c: Claw, acts: seq<Action>)
    requires Lawful(env) && Run(env, c, acts).flight.Some?
    ensures var s, j := Run(env, c, acts), TakeOff(env, c, acts);
            var r, a := Run(env, c, acts[..j]), acts[j];
            && a.Read? && Enabled(r, a) && s.flight == Some(Flight(r.history[a.v], a.restartOk, a.stamp))
            && CurrentGen(Now(r)) == CurrentGen(Now(s))
  {
    var n := |acts| - 1;
    var before := acts[..n];
    RunFlight(env, c, before);
    NextMark(env, Run(env, c, before), acts[n]);
    if Run(env, c, before).flight.Some? {
      TakeOffMeans(env, c, before);
      assert before[..TakeOff(env, c, before)] == acts[..TakeOff(env, c, before)];
    }
  }

  /** The read that began what is in flight after `acts` was ahead of the mark. */
  ghost predicate TookOffAhead(env: Env, c: Claw, acts: seq<Action>)
    requires Run(env, c, acts).flight.Some?
  {
    var j := TakeOff(env, c, acts);
    ReadAhead(env, Run(env, c, acts[..j]), acts[j])
  }

  ghost predicate AheadIfLanded(env: Env, c: Claw, before: seq<Action>, a: Action) {
    LandsUse(env, Run(env, c, before), a) ==> TookOffAhead(env, c, before)
  }

  /** Every read that used up a generation and landed was ahead of the mark. */
  ghost predicate LandedAhead(env: Env, c: Claw, acts: seq<Action>) {
    forall i | 0 <= i < |acts| :: AheadIfLanded(env, c, acts[..i], acts[i])
  }

  lemma AheadLands(env: Env, c: Claw, acts: seq<Action>)
    requires AheadRun(env, c, acts)
    ensures LandedAhead(env, c, acts)
  {
    forall i | 0 <= i < |acts| ensures AheadIfLanded(env, c, acts[..i], acts[i]) {
      if LandsUse(env, Run(env, c, acts[..i]), acts[i]) {
        var j := TakeOff(env, c, acts[..i]);
        assert acts[..i][..j] == acts[..j] && ReadAhead(env, Run(env, c, acts[..j]), acts[j]);
      }
    }
  }

  lemma TookOffAheadIff(env: Env, c: Claw, acts: seq<Action>, a: Action)
    requires Lawful(env) && LandsUse(env, Run(env, c, acts), a)
    ensures var s := Run(env, c, acts);
            TookOffAhead(env, c, acts) <==> Result(env, s.flight.value).1.gen > CurrentGen(Now(s))
  {
    TakeOffMeans(env, c, acts);
  }

  lemma LandedAheadSnoc(env: Env, c: Claw, before: seq<Action>, a: Action)
    ensures LandedAhead(env, c, before + [a]) <==> LandedAhead(env, c, before) && AheadIfLanded(env, c, before, a)
  {
    var acts, n := before + [a], |before|;
    assert acts[..n] == before && acts[n] == a;
    assert forall i | 0 <= i < n :: acts[..i] == before[..i] && acts[i] == before[i];
    if LandedAhead(env, c, acts) {
      assert AheadIfLanded(env, c, acts[..n], acts[n]);
      forall i | 0 <= i < n ensures AheadIfLanded(env, c, before[..i], before[i]) {
        assert AheadIfLanded(env, c, acts[..i], acts[i]);
      }
    } else {
      var i :| 0 <= i < |acts| && !AheadIfLanded(env, c, acts[..i], acts[i]);
      assert i < n ==> !AheadIfLanded(env, c, before[..i], before[i]);
    }
  }

  // ---- The replay guard over runs ----

  /** Strictly increasing, above `from` and up to `to`. */
  ghost predicate Climbs(from: int, s: seq<int>, to: int) {
    && from <= to
    && (forall i | 0 <= i < |s| :: from < s[i] <= to)
    && (forall i, j | 0 <= i < j < |s| :: s[i] < s[j])
  }

  lemma ClimbsOn(from: int, s: seq<int>, to: int, g: int)
    requires Climbs(from, s, to) && g > to
    ensures Climbs(from, s + [g], g)
  {
  }

  function LastOf(from: int, s: seq<int>): int { if s == [] then from else s[|s| - 1] }

  lemma ClimbsSnocIff(from: int, s: seq<int>, g: int)
    ensures Climbs(from, s + [g], g) <==> Climbs(from, s, LastOf(from, s)) && g > LastOf(from, s)
  {
    var s' := s + [g];
    if Climbs(from, s', g) {
      assert s'[|s|] == g;
      if s != [] { assert s'[|s| - 1] < s'[|s|]; }
      forall i | 0 <= i < |s| ensures from < s[i] <= LastOf(from, s) {
        assert s'[i] == s[i] && s'[|s| - 1] == LastOf(from, s);
        if i < |s| - 1 { assert s'[i] < s'[|s| - 1]; }
      }
      forall i, j | 0 <= i < j < |s| ensures s[i] < s[j] { assert s'[i] < s'[j]; }
    }
  }

  /** The generations whose use landed, in order. */
  ghost function Used(env: Env, c: Claw, acts: seq<Action>): seq<int> {
    if acts == [] then []
    else
      var n := |acts| - 1;
      var s := Run(env, c, acts[..n]);
      Used(env, c, acts[..n]) + if LandsUse(env, s, acts[n]) then [Result(env, s.flight.value).1.gen] else []
  }

  lemma {:induction false} MarkIsLastUsed(env: Env, c: Claw, acts: seq<Action>)
    requires Lawful(env)
    ensures CurrentGen(Now(Run(env, c, acts))) == LastOf(CurrentGen(c), Used(env, c, acts))
  {
    if acts != [] {
      var n := |acts| - 1;
      MarkIsLastUsed(env, c, acts[..n]);
      RunFlight(env, c, acts[..n]);
      NextMark(env, Run(env, c, acts[..n]), acts[n]);
      assert Used(env, c, acts[..n]) + [] == Used(env, c, acts[..n]);
    }
  }

  /** The generations used up climb, ending at the last of them. */
  ghost predicate UsedClimb(env: Env, c: Claw, acts: seq<Action>) {
    Climbs(CurrentGen(c), Used(env, c, acts), LastOf(CurrentGen(c), Used(env, c, acts)))
  }

  lemma UsedSnoc(env: Env, c: Claw, before: seq<Action>, a: Action)
    ensures var s := Run(env, c, before);
            Used(env, c, before + [a])
            == Used(env, c, before) + if LandsUse(env, s, a) then [Result(env, s.flight.value).1.gen] else []
  {
    assert (before + [a])[..|before|] == before;
  }

  lemma UsedClimbSnoc(env: Env, c: Claw, before: seq<Action>, a: Action)
    requires Lawful(env)
    ensures UsedClimb(env, c, before + [a]) <==> UsedClimb(env, c, before) && AheadIfLanded(env, c, before, a)
  {
    var s, used := Run(env, c, before), Used(env, c, before);
    UsedSnoc(env, c, before, a);
    if LandsUse(env, s, a) {
      MarkIsLastUsed(env, c, before);
      TookOffAheadIff(env, c, before, a);
      ClimbsSnocIff(CurrentGen(c), used, Result(env, s.flight.value).1.gen);
    } else {
      assert used + [] == used;
    }
  }

  lemma {:induction false} UsedClimbIff(env: Env, c: Claw, acts: seq<Action>)
    requires Lawful(env)
    ensures UsedClimb(env, c, acts) <==> LandedAhead(env, c, acts)
  {
    if acts != [] {
      var before, a := acts[..|acts| - 1], acts[|acts| - 1];
      assert acts == before + [a];
      UsedClimbIff(env, c, before);
      UsedClimbSnoc(env, c, before, a);
      LandedAheadSnoc(env, c, before, a);
    }
  }

  /** The guard reads a cached object and the patch carries no version. Over a whole run the
      generations used up climb, and the mark with them, exactly when every read whose use landed was
      ahead of the mark of its moment. */
  lemma ClimbsIff(env: Env, c: Claw, acts: seq<Action>)
    requires Lawful(env)
    ensures Climbs(CurrentGen(c), Used(env, c, acts), CurrentGen(Now(Run(env, c, acts)))) <==> LandedAhead(env, c, acts)
  {
    MarkIsLastUsed(env, c, acts);
    UsedClimbIff(env, c, acts);
  }

  lemma NextClimbs(env: Env, from: int, s: Sys, a: Action)
    requires Lawful(env) && s.history != [] && FlightCommits(env, s) && Climbs(from, s.committed, CurrentGen(Now(s)))
    requires LandsUse(env, s, a) ==> Result(env, s.flight.value).1.gen > CurrentGen(Now(s))
    ensures var t := Next(env, s, a);
            Climbs(from, t.committed, CurrentGen(Now(t))) && CurrentGen(Now(s)) <= CurrentGen(Now(t))
  {
    NextMark(env, s, a);
    if LandsUse(env, s, a) && Result(env, s.flight.value).1.Executed? {
      ClimbsOn(from, s.committed, CurrentGen(Now(s)), Result(env, s.flight.value).1.gen);
    }
  }

  /** In every such run the mark never falls, and committed executions have strictly increasing
      generations, so each happens at most once. */
  lemma {:induction false} ReplaySafe(env: Env, c: Claw, acts: seq<Action>)
    requires Lawful(env) && LandedAhead(env, c, acts)
    ensures var s := Run(env, c, acts); Climbs(CurrentGen(c), s.committed, CurrentGen(Now(s)))
    ensures acts != [] ==> CurrentGen(Now(Run(env, c, acts[..|acts| - 1]))) <= CurrentGen(Now(Run(env, c, acts)))
  {
    if acts != [] {
      var n := |acts| - 1;
      assert acts == acts[..n] + [acts[n]];
      LandedAheadSnoc(env, c, acts[..n], acts[n]);
      ReplaySafe(env, c, acts[..n]);
      RunFlight(env, c, acts[..n]);
      var s := Run(env, c, acts[..n]);
      if LandsUse(env, s, acts[n]) { TookOffAheadIff(env, c, acts[..n], acts[n]); }
      NextClimbs(env, CurrentGen(c), s, acts[n]);
    }
  }

  // ---- Stale reads ----

  /** A read and its commit with nothing in between. */
  ghost function Turn(env: Env, s: Sys, v: nat, ok: bool, stamp: string): Sys
    requires s.history != [] && s.flight.None? && v < |s.history|
  {
    Next(env, Next(env, s, Read(v, ok, stamp)), Commit(true))
  }

  lemma TurnGives(env: Env, s: Sys, v: nat, ok: bool, stamp: string)
    requires s.history != [] && s.flight.None? && v < |s.history|
    requires UsesGen(Consume(env, s.history[v], ok, stamp).1)
    ensures var (c, e) := Consume(env, s.history[v], ok, stamp);
            Turn(env, s, v, ok, stamp) == Sys(s.history + [PatchClaw(Now(s), s.history[v], c)], None,
                                              s.committed + (if e.Executed? then [e.gen] else []),
                                              s.restarts + (if DeletesPod(e) then [e.gen] else []))
  {
    var (c, e) := Consume(env, s.history[v], ok, stamp);
    var s1 := Next(env, s, Read(v, ok, stamp));
    assert s1 == Sys(s.history, Some(Flight(s.history[v], ok, stamp)), s.committed,
                     s.restarts + (if DeletesPod(e) then [e.gen] else []));
  }

  lemma SameReadAgain(env: Env, s: Sys, v: nat, stamp: string)
    requires s.history != [] && s.flight.None? && v < |s.history|
    requires Consume(env, s.history[v], true, stamp).1.Executed?
    ensures var g := Consume(env, s.history[v], true, stamp).1.gen;
            var t := Turn(env, s, v, true, stamp);
            && t.flight.None? && v < |t.history|
            && Turn(env, t, v, true, stamp).committed == s.committed + [g, g]
  {
    TurnGives(env, s, v, true, stamp);
    var t := Turn(env, s, v, true, stamp);
    assert t.history[v] == s.history[v];
    TurnGives(env, t, v, true, stamp);
  }

  lemma Published(env: Env, c: Claw, raw: string, i: Intent, stamp: string)
    requires raw != "" && ValidateIntent(env, raw) == Some(i) && i.generation > CurrentGen(c) && ParamsOk(env, i)
    ensures Run(env, c, [Write(raw)]) == Sys([c, WithIntent(c, raw)], None, [], [])
    ensures var e := Consume(env, WithIntent(c, raw), true, stamp).1; e.Executed? && e.gen == i.generation
  {
    var w := Write(raw);
    assert [w][..0] == [] && Run(env, c, [w]) == Next(env, Run(env, c, []), w);
    WriteKeepsMark(c, raw);
    IntentTakesEffect(env, WithIntent(c, raw), i, true, stamp);
  }

  /** So a cache that lags behind the reconciler's own commit executes one generation twice. */
  lemma StaleReadExecutesTwice(env: Env, c: Claw, raw: string, i: Intent, stamp: string)
    requires raw != "" && ValidateIntent(env, raw) == Some(i) && i.generation > CurrentGen(c) && ParamsOk(env, i)
    ensures Run(env, c, [Write(raw), Read(1, true, stamp), Commit(true), Read(1, true, stamp), Commit(true)]).committed
            == [i.generation, i.generation]
  {
    Published(env, c, raw, i, stamp);
    var w, turn := [Write(raw)], [Read(1, true, stamp), Commit(true)];
    assert Run(env, c, w).history[1] == WithIntent(c, raw);
    SameReadAgain(env, Run(env, c, w), 1, stamp);
    RunTwoTurns(env, c, w, 1, stamp);
    assert w + turn + turn == [Write(raw), Read(1, true, stamp), Commit(true), Read(1, true, stamp), Commit(true)];
  }

  lemma RunTwoTurns(env: Env, c: Claw, acts: seq<Action>, v: nat, stamp: string)
    requires var s := Run(env, c, acts);
             s.flight.None? && v < |s.history| && Consume(env, s.history[v], true, stamp).1.Executed?
    ensures var s := Run(env, c, acts);
            var t, turn := Turn(env, s, v, true, stamp), [Read(v, true, stamp), Commit(true)];
            && t.flight.None? && t.history != [] && v < |t.history|
            && Run(env, c, acts + turn + turn) == Turn(env, t, v, true, stamp)
  {
    SameReadAgain(env, Run(env, c, acts), v, stamp);
    RunTurn(env, c, acts, v, true, stamp);
    RunTurn(env, c, acts + [Read(v, true, stamp), Commit(true)], v, true, stamp);
  }

  lemma RunTurn(env: Env, c: Claw, acts: seq<Action>, v: nat, ok: bool, stamp: string)
    requires Run(env, c, acts).flight.None? && v < |Run(env, c, acts).history|
    ensures Run(env, c, acts + [Read(v, ok, stamp), Commit(true)]) == Turn(env, Run(env, c, acts), v, ok, stamp)
  {
    RunSnoc(env, c, acts, Read(v, ok, stamp));
    RunSnoc(env, c, acts + [Read(v, ok, stamp)], Commit(true));
    assert acts + [Read(v, ok, stamp), Commit(true)] == (acts + [Read(v, ok, stamp)]) + [Commit(true)];
  }

  // ---- Intents written meanwhile ----

  lemma PatchIgnoresIntent(now: Claw, raw: string, base: Claw, result: Claw)
    requires INTENT in base.annotations && INTENT !in result.annotations
    ensures PatchClaw(WithIntent(now, raw), base, result) == PatchClaw(now, base, result)
    ensures INTENT !in PatchClaw(now, base, result).annotations
  {
    var a := PatchMap(WithIntent(now, raw).annotations, base.annotations, result.annotations);
    var b := PatchMap(now.annotations, base.annotations, result.annotations);
    assert !Agree(base.annotations, result.annotations, INTENT);
    assert a.Keys == b.Keys;
    assert a == b;
  }

  /** An intent written between a read and its commit is deleted unseen: the object ends as if it
      had never been written. It survives exactly when nothing is in flight or the patch fails. */
  lemma WriteSurvivesIff(env: Env, s: Sys, raw: string, ok: bool)
    requires s.history != [] && FlightCommits(env, s)
    ensures var t := Next(env, Next(env, s, Write(raw)), Commit(ok));
            && (INTENT in Now(t).annotations && Now(t).annotations[INTENT] == raw <==> s.flight.None? || !ok)
            && (s.flight.Some? && ok ==> Now(t) == Now(Next(env, s, Commit(true))))
  {
    if s.flight.Some? && ok {
      var f := s.flight.value;
      ConsumeShape(env, f.base, f.restartOk, f.stamp);
      PatchIgnoresIntent(Now(s), raw, f.base, Result(env, f).0);
    }
  }

  // ---- Restarts ----

  /** A patch that would record a pod deletion lands. */
  ghost predicate RestartLands(env: Env, s: Sys, a: Action) {
    a == Commit(false) && s.flight.Some? ==> !DeletesPod(Result(env, s.flight.value).1)
  }

  ghost predicate RestartsLand(env: Env, c: Claw, acts: seq<Action>) {
    forall i | 0 <= i < |acts| :: RestartLands(env, Run(env, c, acts[..i]), acts[i])
  }

  /** The last generation a pod was deleted for counts even before its commit. */
  ghost predicate RestartsClimb(env: Env, from: int, s: Sys)
    requires s.history != []
  {
    if s.flight.Some? && DeletesPod(Result(env, s.flight.value).1) then
      var g := Result(env, s.flight.value).1.gen;
      s.restarts != [] && s.restarts[|s.restarts| - 1] == g > CurrentGen(Now(s)) && Climbs(from, s.restarts, g)
    else Climbs(from, s.restarts, CurrentGen(Now(s)))
  }

  /** The consume in flight, if it uses up a generation, is ahead of the mark. */
  ghost predicate FlightAhead(env: Env, s: Sys)
    requires s.history != []
  {
    s.flight.Some? ==>
      var e := Result(env, s.flight.value).1; Commits(e) && (UsesGen(e) ==> e.gen > CurrentGen(Now(s)))
  }

  lemma NextAhead(env: Env, s: Sys, a: Action)
    requires Lawful(env) && s.history != [] && FlightAhead(env, s) && ReadAhead(env, s, a)
    ensures FlightAhead(env, Next(env, s, a))
  {
    NextMark(env, s, a);
  }

  lemma ReadRestart(env: Env, from: int, s: Sys, v: nat, ok: bool, stamp: string)
    requires s.history != [] && RestartsClimb(env, from, s) && ReadAhead(env, s, Read(v, ok, stamp))
    requires s.flight.None? && v < |s.history|
    ensures RestartsClimb(env, from, Next(env, s, Read(v, ok, stamp)))
  {
    var e := Consume(env, s.history[v], ok, stamp).1;
    if DeletesPod(e) { ClimbsOn(from, s.restarts, CurrentGen(Now(s)), e.gen); }
  }

  lemma NextRestarts(env: Env, from: int, s: Sys, a: Action)
    requires Lawful(env) && s.history != [] && FlightAhead(env, s) && ReadAhead(env, s, a)
    requires RestartLands(env, s, a) && RestartsClimb(env, from, s)
    ensures RestartsClimb(env, from, Next(env, s, a))
  {
    NextMark(env, s, a);
    if Enabled(s, a) && a.Read? { ReadRestart(env, from, s, a.v, a.restartOk, a.stamp); }
  }

  lemma RestartsLandPrefix(env: Env, c: Claw, acts: seq<Action>, n: nat)
    requires n <= |acts| && RestartsLand(env, c, acts)
    ensures RestartsLand(env, c, acts[..n])
  {
    forall i | 0 <= i < n ensures RestartLands(env, Run(env, c, acts[..n][..i]), acts[..n][i]) {
      assert acts[..n][..i] == acts[..i];
    }
  }

  /** Pod deletions happen before the commit. They too happen once per generation when reads that use
      one are ahead of the mark and the patches that follow a deletion land. */
  lemma {:induction false} RestartsOnce(env: Env, c: Claw, acts: seq<Action>)
    requires Lawful(env) && AheadRun(env, c, acts) && RestartsLand(env, c, acts)
    ensures FlightAhead(env, Run(env, c, acts)) && RestartsClimb(env, CurrentGen(c), Run(env, c, acts))
  {
    if acts != [] {
      var n := |acts| - 1;
      AheadPrefix(env, c, acts, n);
      RestartsLandPrefix(env, c, acts, n);
      RestartsOnce(env, c, acts[..n]);
      NextAhead(env, Run(env, c, acts[..n]), acts[n]);
      NextRestarts(env, CurrentGen(c), Run(env, c, acts[..n]), acts[n]);
    }
  }

  /** The newest version read, its pod deleted, and the patch landed or not. */
  ghost function Restarted(env: Env, s: Sys, stamp: string, ok: bool): (t: Sys)
    requires s.history != []
    ensures t.history != []
  {
    Next(env, Next(env, s, Read(|s.history| - 1, true, stamp)), Commit(ok))
  }

  lemma RestartedIs(env: Env, s: Sys, g: int, stamp: string, ok: bool)
    requires s.history != [] && s.flight.None? && Consume(env, Now(s), true, stamp).1 == Executed(g, RestartPod)
    ensures var t := Restarted(env, s, stamp, ok);
            && t.flight.None? && t.restarts == s.restarts + [g]
            && t.history == s.history + (if ok then [Consume(env, Now(s), true, stamp).0] else [])
  {
    var s1 := Next(env, s, Read(|s.history| - 1, true, stamp));
    assert s1 == s.(flight := Some(Flight(Now(s), true, stamp)), restarts := s.restarts + [g]);
    if ok {
      ConsumeShape(env, Now(s), true, stamp);
      PatchFresh(Now(s), Now(s), Consume(env, Now(s), true, stamp).0);
    }
  }

  /** After a pod was deleted for a generation, the next read of that version or a later one deletes
      another exactly when it finds that version again: because the patch did not land and it is still
      the newest, or because the cache lags behind a patch that did. */
  lemma RestartRepeatsIff(env: Env, s: Sys, g: int, stamp: string, ok: bool, v: nat)
    requires Lawful(env) && s.history != [] && s.flight.None?
    requires Consume(env, Now(s), true, stamp).1 == Executed(g, RestartPod)
    requires |s.history| - 1 <= v < |Restarted(env, s, stamp, ok).history|
    ensures var t := Restarted(env, s, stamp, ok);
            && t.restarts == s.restarts + [g] && |t.history| == |s.history| + (if ok then 1 else 0)
            && Next(env, t, Read(v, true, stamp)).restarts
               == t.restarts + (if v == |s.history| - 1 then [g] else [])
  {
    RestartedIs(env, s, g, stamp, ok);
    var t := Restarted(env, s, stamp, ok);
    assert Enabled(t, Read(v, true, stamp));
    if v == |s.history| - 1 {
      assert t.history[v] == Now(s);
    } else {
      assert t.history[v] == Consume(env, Now(s), true, stamp).0;
      ConsumeTwice(env, Now(s), true, stamp, true, stamp);
    }
  }

  // ---- Resource well-formedness ----

  ghost predicate SpecOk(c: Claw) { c.resources.Some? ==> Paired(c.resources.value) }

  /** Replicas as they were, or within the range the consumer allows. */
  ghost predicate ReplicasOk(from: Claw, c: Claw) {
    c.replicas == from.replicas || (c.replicas.Some? && 1 <= c.replicas.value <= MAX_REPLICAS)
  }

  lemma ConsumeSpec(env: Env, c: Claw, ok: bool, stamp: string)
    requires Lawful(env) && SpecOk(c)
    ensures var c' := Consume(env, c, ok, stamp).0; SpecOk(c') && ReplicasOk(c, c')
  {
    ConsumeMark(env, c, ok, stamp);
    var (c', e) := Consume(env, c, ok, stamp);
    if e.Executed? && e.patch.BumpLimit? {
      var r := if c.resources.Some? then c.resources.value else Requirements(map[], map[]);
      BumpPaired(r, e.patch.resource, e.patch.limit);
    }
  }

  lemma NextSpec(env: Env, c: Claw, s: Sys, a: Action)
    requires Lawful(env) && Inv(env, s) && SpecOk(Now(s)) && ReplicasOk(c, Now(s))
    ensures var now := Now(Next(env, s, a)); SpecOk(now) && ReplicasOk(c, now)
  {
    if s.flight.Some? && a == Commit(true) {
      CommitGives(env, s);
      var f := s.flight.value;
      if UsesGen(Result(env, f).1) { ConsumeSpec(env, f.base, f.restartOk, f.stamp); }
    }
  }

  /** From a spec where each resource is absent or paired, every trusted run keeps that and
      replicas either untouched or within 1..10; and laid over adapter defaults whose requests are
      within their limits, the spec gives a runtime container whose requests are within theirs. */
  lemma {:induction false} RunSpecOk(env: Env, c: Claw, acts: seq<Action>, defaults: Requirements)
    requires Lawful(env) && TrustedRun(env, c, acts) && SpecOk(c) && Ordered(defaults)
    ensures var now := Now(Run(env, c, acts));
            && SpecOk(now) && ReplicasOk(c, now)
            && (now.resources.Some? ==> Ordered(Overlay(defaults, now.resources.value)))
  {
    if acts != [] {
      var n := |acts| - 1;
      TrustedPrefix(env, c, acts, n);
      RunSpecOk(env, c, acts[..n], defaults);
      RunInv(env, c, acts[..n]);
      NextSpec(env, c, Run(env, c, acts[..n]), acts[n]);
    }
    var now := Now(Run(env, c, acts));
    if now.resources.Some? { OverlayOrderedIff(defaults, now.resources.value); }
  }

  /** A spec that gives only a limit can undercut the adapter's request: the pairing is needed. */
  lemma LimitOnlySpecUndercuts(k: string)
    ensures var dst, src := Requirements(map[k := 2], map[k := 2]), Requirements(map[k := 1], map[]);
            Ordered(dst) && Ordered(src) && !Ordered(Overlay(dst, src))
  {
    var dst, src := Requirements(map[k := 2], map[k := 2]), Requirements(map[k := 1], map[]);
    OverlayOrderedIff(dst, src);
    assert k in src.limits && k in dst.requests;
  }
}
