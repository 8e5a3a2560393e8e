/** The auto-update state machine: version check, health-check phase, rollback, the list of
    failed versions and the circuit breaker (internal/controller/autoupdate_controller.go). */
module AutoUpdate {
  import opened Common
  import opened Semver

  const HEALTH_CHECK := "HealthCheck"
  const DEFAULT_MAX_ROLLBACKS: int := 3
  const MAX_VERSION_HISTORY: nat := 50

  // ---- Image references ----

  function LastIndex(s: string, c: char): (i: int)
    ensures -1 <= i < |s|
    ensures i >= 0 ==> s[i] == c
    ensures forall j | i < j < |s| :: s[j] != c
  {
    if s == "" then -1 else if s[|s| - 1] == c then |s| - 1 else LastIndex(s[..|s| - 1], c)
  }

  function ExtractVersion(image: string): string {
    var search := image[LastIndex(image, '/') + 1..];
    var i := LastIndex(search, ':');
    if i >= 0 then search[i + 1..] else ""
  }

  /** A tag that can follow a colon: no separators of its own. */
  predicate Plain(tag: string) { tag != "" && ':' !in tag && '/' !in tag }

  /** The tag comes back from an image reference, whatever the repository, ports included. */
  lemma ExtractRoundTrip(repo: string, tag: string)
    requires Plain(tag)
    ensures ExtractVersion(repo + ":" + tag) == tag
  {
    var image := repo + ":" + tag;
    LastIn(repo, tag, '/');
    var cut := LastIndex(image, '/') + 1;
    assert cut <= |repo| && image[cut..] == repo[cut..] + ":" + tag;
    LastIn(repo[cut..], tag, ':');
    assert (repo[cut..] + ":" + tag)[|repo[cut..]| + 1..] == tag;
  }

  lemma {:induction false} LastIn(r: string, tag: string, c: char)
    requires c !in tag
    ensures var i := LastIndex(r + ":" + tag, c); i <= |r| && (c == ':' <==> i == |r|)
    decreases |tag|
  {
    var s := r + ":" + tag;
    if tag == "" {
      assert s[..|s| - 1] == r;
    } else {
      assert s[..|s| - 1] == r + ":" + tag[..|tag| - 1];
      LastIn(r, tag[..|tag| - 1], c);
    }
  }

  function ImageForRuntime(runtime: string): string {
    match runtime
    case "openclaw" => "ghcr.io/prismer-ai/k8s4claw-openclaw"
    case "hermesclaw" => "ghcr.io/nousresearch/hermes-agent"
    case "hermesrs" => "ghcr.io/prismer-ai/hermes-agent-rs"
    case "k8sops" => "ghcr.io/prismer-ai/claw4k8s"
    case _ => ""
  }

  predicate Contains(s: string, sub: string) {
    |s| >= |sub| && (s[..|sub|] == sub || (s != "" && Contains(s[1..], sub)))
  }

  predicate IsDigestPinned(image: string) { Contains(image, "@sha256:") }

  lemma {:induction false} ContainsAt(s: string, sub: string) returns (i: nat)
    requires Contains(s, sub)
    ensures i + |sub| <= |s| && s[i..i + |sub|] == sub
  {
    if s[..|sub|] == sub {
      i := 0;
    } else {
      var j := ContainsAt(s[1..], sub);
      i := j + 1;
      assert s[1..][j..j + |sub|] == s[i..i + |sub|];
    }
  }

  lemma {:induction false} ContainsFrom(s: string, sub: string, i: nat)
    requires i + |sub| <= |s| && s[i..i + |sub|] == sub
    ensures Contains(s, sub)
  {
    if i > 0 {
      assert s[1..][i - 1..i - 1 + |sub|] == s[i..i + |sub|];
      ContainsFrom(s[1..], sub, i - 1);
    }
  }

  ghost predicate Occurs(sub: string, s: string, i: nat) { i + |sub| <= |s| && s[i..i + |sub|] == sub }

  /** An image is pinned exactly when the digest marker occurs somewhere in it. */
  lemma PinnedIff(image: string)
    ensures IsDigestPinned(image) <==> exists i :: Occurs("@sha256:", image, i)
  {
    if IsDigestPinned(image) {
      var i := ContainsAt(image, "@sha256:");
      assert Occurs("@sha256:", image, i);
    }
    if i :| Occurs("@sha256:", image, i) { ContainsFrom(image, "@sha256:", i); }
  }

  lemma PinnedAt(image: string) returns (i: nat)
    requires IsDigestPinned(image)
    ensures i + 8 <= |image| && image[i] == '@' && image[i + 7] == ':'
  {
    i := ContainsAt(image, "@sha256:");
    assert image[i] == image[i..i + 8][0] && image[i + 7] == image[i..i + 8][7];
  }

  /** A reference the updater builds itself never passes for a pinned digest. */
  lemma BuiltIsNotPinned(repo: string, tag: string)
    requires Plain(tag) && ':' !in repo && '@' !in repo
    ensures !IsDigestPinned(repo + ":" + tag)
  {
    if IsDigestPinned(repo + ":" + tag) {
      var i := PinnedAt(repo + ":" + tag);
      assert false;
    }
  }

  // ---- State and inputs ----

  datatype Outcome = Healthy | RolledBack

  datatype HistoryEntry = HistoryEntry(version: string, at: int, outcome: Outcome)

  datatype Status = Status(
    current: string, available: string, lastCheck: Option<int>, lastUpdate: Option<int>,
    rollbacks: int, circuitOpen: bool, failed: seq<string>, history: seq<HistoryEntry>)

  /** The three annotations ("" when absent) and the auto-update status. */
  datatype Claw = Claw(target: string, phase: string, started: string, status: Status)

  datatype Replicas = NotFound | Unreadable | Found(desired: Option<int>, updated: int, ready: int)

  /** What one reconcile observes. `tags` is None when the registry cannot be listed;
      `statusLands` is false when the status write that follows the annotation write is lost. */
  datatype Input = Input(
    enabled: bool, runtime: string, constraint: Option<Version -> bool>, maxRollbacks: int, due: bool,
    tags: Option<seq<string>>, now: int, timeout: int, sts: Replicas, statusLands: bool)

  /** The libraries: semver and time parsing, time formatting. */
  datatype Env = Env(parse: Parser, parseTime: string -> Option<int>, formatTime: int -> string)

  datatype Event = Quiet | Checked | Initiated(tag: string) | Succeeded(tag: string) | Failed(tag: string)

  function Threshold(maxRollbacks: int): int { if maxRollbacks > 0 then maxRollbacks else DEFAULT_MAX_ROLLBACKS }

  function Trim(h: seq<HistoryEntry>): seq<HistoryEntry> {
    if |h| > MAX_VERSION_HISTORY then h[|h| - MAX_VERSION_HISTORY..] else h
  }

  // ---- One reconcile ----

  function Rollback(c: Claw, x: Input): Claw {
    var st := c.status;
    var bad := st.available;
    Claw("", "", "", st.(
      failed := if bad in st.failed then st.failed else st.failed + [bad],
      rollbacks := st.rollbacks + 1,
      history := Trim(st.history + [HistoryEntry(bad, x.now, RolledBack)]),
      circuitOpen := st.circuitOpen || st.rollbacks + 1 >= Threshold(x.maxRollbacks)))
  }

  function Promote(c: Claw, x: Input): Claw {
    var v := ExtractVersion(c.target);
    c.(phase := "", started := "", status := c.status.(
      current := v, rollbacks := 0, circuitOpen := false,
      history := Trim(c.status.history + [HistoryEntry(v, x.now, Healthy)])))
  }

  function HealthCheck(env: Env, c: Claw, x: Input): (Claw, Event) {
    var start := env.parseTime(c.started);
    if start.None? then (Rollback(c, x), Failed(c.status.available))
    else
      var late := x.now - start.value > x.timeout;
      match x.sts
      case Unreadable => (c, Quiet)
      case NotFound => if late then (Rollback(c, x), Failed(c.status.available)) else (c, Quiet)
      case Found(d, updated, ready) =>
        var desired := if d.Some? then d.value else 1;
        if updated >= desired && ready >= desired then (Promote(c, x), Succeeded(ExtractVersion(c.target)))
        else if late then (Rollback(c, x), Failed(c.status.available))
        else (c, Quiet)
  }

  function Check(env: Env, c: Claw, x: Input): (Claw, Event)
    requires x.tags.Some?
  {
    var st := c.status.(lastCheck := Some(x.now));
    match Resolve(env.parse, x.tags.value, x.constraint, st.current, st.failed)
    case None => (c.(status := st), Checked)
    case Some(v) =>
      var st := st.(available := v);
      if st.circuitOpen then (c.(status := st), Checked)
      else
        (Claw(ImageForRuntime(x.runtime) + ":" + v, HEALTH_CHECK, env.formatTime(x.now),
              st.(lastUpdate := Some(x.now))),
         Initiated(v))
  }

  function Plan(env: Env, c: Claw, x: Input): (Claw, Event) {
    if !x.enabled then (c, Quiet)
    else if c.phase == HEALTH_CHECK then HealthCheck(env, c, x)
    else if c.target != "" && IsDigestPinned(c.target) then (c, Quiet)
    else if c.status.lastCheck.Some? && !x.due then (c, Quiet)
    else if ImageForRuntime(x.runtime) == "" || x.tags.None? then (c, Quiet)
    else Check(env, c, x)
  }

  /** What reaches the API server: annotations first, then the status. */
  function Reconcile(env: Env, c: Claw, x: Input): (Claw, Event) {
    var (c', e) := Plan(env, c, x);
    (if x.statusLands then c' else c'.(status := c.status), e)
  }

  // ---- The reconciler, updating the object in place ----

  method ContainsString(xs: seq<string>, s: string) returns (found: bool)
    ensures found <==> s in xs
  {
    var i := 0;
    while i < |xs|
      invariant 0 <= i <= |xs| && s !in xs[..i]
    {
      if xs[i] == s {
        return true;
      }
      i := i + 1;
    }
    assert xs[..i] == xs;
    found := false;
  }

  class ClawObject {
    var target: string
    var phase: string
    var started: string
    var status: Status

    ghost function View(): Claw
      reads this
    {
      Claw(target, phase, started, status)
    }

    method TrimVersionHistory()
      modifies this`status
      ensures var h := old(status).history;
              status == old(status).(history := h[if |h| <= 50 then 0 else |h| - 50..])
    {
      if |status.history| > MAX_VERSION_HISTORY {
        status := status.(history := status.history[|status.history| - MAX_VERSION_HISTORY..]);
      }
    }

    method RollBack(x: Input)
      modifies this
      ensures View() == Rollback(old(View()), x)
    {
      var failedVersion := status.available;
      var known := ContainsString(status.failed, failedVersion);
      if !known {
        status := status.(failed := status.failed + [failedVersion]);
      }
      status := status.(rollbacks := status.rollbacks + 1,
                        history := status.history + [HistoryEntry(failedVersion, x.now, RolledBack)]);
      TrimVersionHistory();
      var maxRollbacks := DEFAULT_MAX_ROLLBACKS;
      if x.maxRollbacks > 0 {
        maxRollbacks := x.maxRollbacks;
      }
      if status.rollbacks >= maxRollbacks {
        status := status.(circuitOpen := true);
      }
      target, phase, started := "", "", "";
    }

    method ReconcileHealthCheck(env: Env, x: Input) returns (e: Event)
      modifies this
      ensures (View(), e) == HealthCheck(env, old(View()), x)
    {
      e := Failed(status.available);
      var startedAt := env.parseTime(started);
      if startedAt.None? {
        RollBack(x);
        return;
      }
      if x.sts.Unreadable? {
        return Quiet;
      }
      if x.sts.NotFound? {
        if x.now - startedAt.value > x.timeout {
          RollBack(x);
          return;
        }
        return Quiet;
      }
      var desired := 1;
      if x.sts.desired.Some? {
        desired := x.sts.desired.value;
      }
      if x.sts.updated >= desired && x.sts.ready >= desired {
        var version := ExtractVersion(target);
        status := status.(current := version, rollbacks := 0, circuitOpen := false,
                          history := status.history + [HistoryEntry(version, x.now, Healthy)]);
        TrimVersionHistory();
        phase, started := "", "";
        return Succeeded(version);
      }
      if x.now - startedAt.value > x.timeout {
        RollBack(x);
        return;
      }
      e := Quiet;
    }

    /** One reconcile in memory; its annotations and status are then written out. */
    method ReconcileObject(env: Env, x: Input) returns (e: Event)
      modifies this
      ensures (View(), e) == Plan(env, old(View()), x)
    {
      if !x.enabled {
        return Quiet;
      }
      if phase == HEALTH_CHECK {
        e := ReconcileHealthCheck(env, x);
        return;
      }
      if target != "" && IsDigestPinned(target) {
        return Quiet;
      }
      if status.lastCheck.Some? && !x.due {
        return Quiet;
      }
      var baseImage := ImageForRuntime(x.runtime);
      if baseImage == "" || x.tags.None? {
        return Quiet;
      }
      status := status.(lastCheck := Some(x.now));
      var newVersion := ResolveBestVersion(env.parse, x.tags.value, x.constraint, status.current, status.failed);
      if newVersion.None? {
        return Checked;
      }
      status := status.(available := newVersion.value);
      if status.circuitOpen {
        return Checked;
      }
      target := baseImage + ":" + newVersion.value;
      phase := HEALTH_CHECK;
      started := env.formatTime(x.now);
      status := status.(lastUpdate := Some(x.now));
      e := Initiated(newVersion.value);
    }
  }

  // ---- Runs ----

  function Run(env: Env, c: Claw, xs: seq<Input>): Claw {
    if xs == [] then c else Reconcile(env, Run(env, c, xs[..|xs| - 1]), xs[|xs| - 1]).0
  }

  function EventAt(env: Env, c: Claw, xs: seq<Input>, i: nat): Event
    requires i < |xs|
  {
    Reconcile(env, Run(env, c, xs[..i]), xs[i]).1
  }

  // ---- Which status writes matter ----

  /** The version whose image is out on trial. */
  function Trial(c: Claw): string { ExtractVersion(c.target) }

  predicate IsVerdict(e: Event) { e.Succeeded? || e.Failed? }

  /** No status write of a promotion or a rollback is lost. */
  ghost predicate VerdictsLand(env: Env, c: Claw, xs: seq<Input>) {
    forall i | 0 <= i < |xs| :: IsVerdict(EventAt(env, c, xs, i)) ==> xs[i].statusLands
  }

  /** The reconcile that initiated last, or -1. */
  function LastInitiation(env: Env, c: Claw, xs: seq<Input>): (j: int)
    ensures -1 <= j < |xs|
  {
    if xs == [] then -1
    else if EventAt(env, c, xs, |xs| - 1).Initiated? then |xs| - 1
    else LastInitiation(env, c, xs[..|xs| - 1])
  }

  /** The status write of an initiation is lost only if its trial is not rolled back. */
  ghost predicate RolledBackTrialsLand(env: Env, c: Claw, xs: seq<Input>) {
    forall i | 0 <= i < |xs| && EventAt(env, c, xs, i).Failed? ::
      var j := LastInitiation(env, c, xs[..i]); j >= 0 ==> xs[j].statusLands
  }

  lemma SameEvents(env: Env, c: Claw, xs: seq<Input>, n: nat, i: nat)
    requires i < n <= |xs|
    ensures xs[..n][..i] == xs[..i] && EventAt(env, c, xs[..n], i) == EventAt(env, c, xs, i)
  {
    assert xs[..n][..i] == xs[..i];
  }

  lemma EarlierVerdictsLand(env: Env, c: Claw, xs: seq<Input>, n: nat)
    requires n <= |xs| && VerdictsLand(env, c, xs)
    ensures VerdictsLand(env, c, xs[..n])
  {
    forall i | 0 <= i < n ensures IsVerdict(EventAt(env, c, xs[..n], i)) ==> xs[..n][i].statusLands {
      SameEvents(env, c, xs, n, i);
    }
  }

  lemma EarlierTrialsLand(env: Env, c: Claw, xs: seq<Input>, n: nat)
    requires n <= |xs| && RolledBackTrialsLand(env, c, xs)
    ensures RolledBackTrialsLand(env, c, xs[..n])
  {
    forall i | 0 <= i < n && EventAt(env, c, xs[..n], i).Failed?
      ensures var j := LastInitiation(env, c, xs[..n][..i]); j >= 0 ==> xs[..n][j].statusLands
    {
      SameEvents(env, c, xs, n, i);
    }
  }

  /** A reconcile without a verdict may lose its status write: unless it initiates, it is then as if it
      had not happened. */
  lemma HarmlessLoss(env: Env, c: Claw, x: Input)
    requires !x.statusLands && !IsVerdict(Reconcile(env, c, x).1)
    ensures var (c', e) := Reconcile(env, c, x); c'.status == c.status && (!e.Initiated? ==> c' == c)
  {
  }

  /** The tags initiated by a run, and those promoted, in order. */
  function Initiations(env: Env, c: Claw, xs: seq<Input>): seq<string> {
    if xs == [] then []
    else
      var e := EventAt(env, c, xs, |xs| - 1);
      Initiations(env, c, xs[..|xs| - 1]) + if e.Initiated? then [e.tag] else []
  }

  function Promotions(env: Env, c: Claw, xs: seq<Input>): seq<string> {
    if xs == [] then []
    else
      var e := EventAt(env, c, xs, |xs| - 1);
      Promotions(env, c, xs[..|xs| - 1]) + if e.Succeeded? then [e.tag] else []
  }

  // ---- No tag twice, versions only upwards ----

  /** A semver tag is plain, and the status holds a parsable version if any. */
  ghost predicate Lawful(env: Env) { forall s :: env.parse(s).Some? ==> Plain(s) }

  ghost predicate Startable(env: Env, c: Claw) {
    c.phase != HEALTH_CHECK && (c.status.current != "" ==> env.parse(c.status.current).Some?)
  }

  /** In the health-check phase the target image carries a version that may be tried. */
  ghost predicate OnTrial(env: Env, c: Claw) {
    c.phase == HEALTH_CHECK ==>
      && env.parse(Trial(c)).Some? && Trial(c) !in c.status.failed
      && Above(env.parse, c.status.current, env.parse(Trial(c)).value)
  }

  /** Why a tag initiated before cannot come up again. */
  ghost predicate Spent(env: Env, c: Claw, t: string) {
    && env.parse(t).Some?
    && (|| t in c.status.failed
        || (c.phase == HEALTH_CHECK && t == Trial(c))
        || (c.status.current != "" && env.parse(c.status.current).Some?
            && Cmp(env.parse(t).value, env.parse(c.status.current).value) <= 0))
  }

  ghost predicate Rising(env: Env, s: seq<string>) {
    && (forall i | 0 <= i < |s| :: env.parse(s[i]).Some?)
    && (forall i, j | 0 <= i < j < |s| :: Cmp(env.parse(s[i]).value, env.parse(s[j]).value) < 0)
  }

  ghost predicate Inv(env: Env, c: Claw) {
    OnTrial(env, c) && (c.status.current != "" ==> env.parse(c.status.current).Some?)
  }

  /** What a step owes the invariant, event by event. */
  ghost predicate StepOk(env: Env, c: Claw, c': Claw, e: Event) {
    && Inv(env, c')
    && (e.Initiated? ==> env.parse(e.tag).Some? && c.phase != HEALTH_CHECK && e.tag !in c.status.failed
                         && Above(env.parse, c.status.current, env.parse(e.tag).value)
                         && c'.phase == HEALTH_CHECK && Trial(c') == e.tag)
    && (e.Succeeded? ==> c.phase == HEALTH_CHECK && e.tag == Trial(c) == c'.status.current && e.tag != "")
    && (!e.Succeeded? ==> c'.status.current == c.status.current)
    && (forall t | t in c.status.failed :: t in c'.status.failed)
    && (c.phase == HEALTH_CHECK && !e.Succeeded? ==>
          Trial(c) in c'.status.failed || (c'.phase == HEALTH_CHECK && Trial(c') == Trial(c)))
  }

  /** The version on trial is the one the status names. */
  predicate Named(c: Claw) { c.status.available == Trial(c) }

  lemma HealthInv(env: Env, c: Claw, x: Input)
    requires Lawful(env) && Inv(env, c) && c.phase == HEALTH_CHECK && (HealthCheck(env, c, x).1.Failed? ==> Named(c))
    ensures var (c', e) := HealthCheck(env, c, x); StepOk(env, c, c', e)
  {
    var (c', e) := HealthCheck(env, c, x);
    if e.Failed? { RollbackOk(env, c, x); } else { PromoteOk(env, c, x); }
    assert c' == c || c' == Rollback(c, x) || (c' == Promote(c, x) && e == Succeeded(Trial(c)));
  }

  lemma RollbackOk(env: Env, c: Claw, x: Input)
    requires Inv(env, c) && c.phase == HEALTH_CHECK && Named(c)
    ensures StepOk(env, c, Rollback(c, x), Failed(c.status.available))
  {
  }

  lemma PromoteOk(env: Env, c: Claw, x: Input)
    requires Lawful(env) && Inv(env, c) && c.phase == HEALTH_CHECK
    ensures StepOk(env, c, Promote(c, x), Succeeded(Trial(c)))
  {
  }

  lemma CheckInv(env: Env, c: Claw, x: Input)
    requires Lawful(env) && Inv(env, c) && c.phase != HEALTH_CHECK && x.tags.Some?
    ensures var (c', e) := Check(env, c, x);
            StepOk(env, c, c', e) && (e.Initiated? ==> Named(c') && StepOk(env, c, c'.(status := c.status), e))
  {
    var (c', e) := Check(env, c, x);
    if e.Initiated? { ExtractRoundTrip(ImageForRuntime(x.runtime), e.tag); }
  }

  /** The writes this reconcile must not lose, and the blame it must not misplace. */
  ghost predicate Kept(env: Env, c: Claw, x: Input) {
    var e := Reconcile(env, c, x).1; (IsVerdict(e) ==> x.statusLands) && (e.Failed? ==> Named(c))
  }

  lemma StayOk(env: Env, c: Claw, e: Event)
    requires Inv(env, c) && (e.Quiet? || e.Checked?)
    ensures StepOk(env, c, c, e)
  {
  }

  lemma PlanInv(env: Env, c: Claw, x: Input)
    requires Lawful(env) && Inv(env, c) && (Plan(env, c, x).1.Failed? ==> Named(c))
    ensures var (c', e) := Plan(env, c, x);
            StepOk(env, c, c', e) && (e.Initiated? ==> StepOk(env, c, c'.(status := c.status), e))
  {
    StayOk(env, c, Quiet);
    if x.enabled && c.phase == HEALTH_CHECK { HealthInv(env, c, x); }
    else if c.phase != HEALTH_CHECK && x.tags.Some? { CheckInv(env, c, x); }
  }

  lemma StepInv(env: Env, c: Claw, x: Input)
    requires Lawful(env) && Inv(env, c) && Kept(env, c, x)
    ensures var (c', e) := Reconcile(env, c, x); StepOk(env, c, c', e)
  {
    PlanInv(env, c, x);
    var e := Reconcile(env, c, x).1;
    if !x.statusLands && !e.Initiated? {
      HarmlessLoss(env, c, x);
      StayOk(env, c, e);
    }
  }

  lemma StepNames(env: Env, c: Claw, x: Input)
    requires Lawful(env) && (c.phase == HEALTH_CHECK && !Reconcile(env, c, x).1.Initiated? ==> Named(c))
    requires Reconcile(env, c, x).1.Initiated? ==> x.statusLands
    ensures var c' := Reconcile(env, c, x).0; c'.phase == HEALTH_CHECK ==> Named(c')
  {
    var (c', e) := Plan(env, c, x);
    if e.Initiated? { ExtractRoundTrip(ImageForRuntime(x.runtime), e.tag); }
    else if c.phase == HEALTH_CHECK { assert c' == c || c' == Rollback(c, x) || c' == Promote(c, x); }
  }

  /** A trial whose initiation landed is named in the status. */
  lemma {:induction false} LandedTrialNamed(env: Env, c0: Claw, xs: seq<Input>)
    requires Lawful(env) && c0.phase != HEALTH_CHECK
    ensures var c, j := Run(env, c0, xs), LastInitiation(env, c0, xs);
            c.phase == HEALTH_CHECK && (j >= 0 ==> xs[j].statusLands) ==> Named(c)
  {
    if xs != [] {
      var n := |xs| - 1;
      var j := LastInitiation(env, c0, xs);
      if j >= 0 ==> xs[j].statusLands {
        LandedTrialNamed(env, c0, xs[..n]);
        StepNames(env, Run(env, c0, xs[..n]), xs[n]);
      }
    }
  }

  lemma StaysSpent(env: Env, c: Claw, c': Claw, e: Event, t: string)
    requires Inv(env, c) && StepOk(env, c, c', e) && Spent(env, c, t)
    ensures Spent(env, c', t)
    ensures e.Initiated? ==> e.tag != t
  {
    if e.Succeeded? {
      var v := env.parse(Trial(c)).value;
      CmpOrder(v, v, v);
      if c.status.current != "" {
        var w := env.parse(c.status.current).value;
        CmpOrder(w, v, v);
        CmpOrder(env.parse(t).value, w, v);
      }
    }
  }

  /** Everything a run promises about versions: `ts` were initiated and `ps` promoted, in order, on
      the way from running version `start` to state `c`. */
  ghost predicate VersionsOk(env: Env, start: string, c: Claw, ts: seq<string>, ps: seq<string>) {
    && Inv(env, c)
    && (forall t | t in ts :: Spent(env, c, t)) && NoRepeats(ts)
    && Rising(env, ps)
    && if ps == [] then c.status.current == start
       else c.status.current == ps[|ps| - 1] != "" && Above(env.parse, start, env.parse(ps[0]).value)
  }

  lemma AddInitiation(env: Env, c: Claw, c': Claw, e: Event, ts: seq<string>)
    requires Inv(env, c) && StepOk(env, c, c', e) && NoRepeats(ts) && forall t | t in ts :: Spent(env, c, t)
    ensures var ts' := ts + if e.Initiated? then [e.tag] else [];
            NoRepeats(ts') && forall t | t in ts' :: Spent(env, c', t)
  {
    forall t | t in ts ensures Spent(env, c', t) && (e.Initiated? ==> t != e.tag) {
      StaysSpent(env, c, c', e, t);
    }
    if e.Initiated? { NoRepeatsSnoc(ts, e.tag); } else { assert ts + [] == ts; }
  }

  lemma AddPromotion(env: Env, c: Claw, c': Claw, e: Event, start: string, ps: seq<string>)
    requires Inv(env, c) && StepOk(env, c, c', e) && Rising(env, ps)
    requires if ps == [] then c.status.current == start
             else c.status.current == ps[|ps| - 1] != "" && Above(env.parse, start, env.parse(ps[0]).value)
    ensures var ps' := ps + if e.Succeeded? then [e.tag] else [];
            && Rising(env, ps')
            && if ps' == [] then c'.status.current == start
               else c'.status.current == ps'[|ps'| - 1] != "" && Above(env.parse, start, env.parse(ps'[0]).value)
  {
    if e.Succeeded? && ps != [] {
      var v, w := env.parse(e.tag).value, env.parse(ps[|ps| - 1]).value;
      CmpOrder(v, w, w);
      forall i | 0 <= i < |ps| ensures Cmp(env.parse(ps[i]).value, v) < 0 {
        CmpOrder(env.parse(ps[i]).value, w, v);
      }
    }
  }

  lemma VersionsStep(env: Env, start: string, c: Claw, c': Claw, e: Event, ts: seq<string>, ps: seq<string>)
    requires VersionsOk(env, start, c, ts, ps) && StepOk(env, c, c', e)
    ensures VersionsOk(env, start, c', ts + if e.Initiated? then [e.tag] else [],
                       ps + if e.Succeeded? then [e.tag] else [])
  {
    AddInitiation(env, c, c', e, ts);
    AddPromotion(env, c, c', e, start, ps);
  }

  /** In every run that loses no status write of a verdict, nor of an initiation rolled back later, no
      tag is initiated twice and the versions that become current strictly rise in precedence, each
      being the one that was on trial. */
  lemma {:induction false} NoTagTwiceVersionsRise(env: Env, c0: Claw, xs: seq<Input>)
    requires Lawful(env) && Startable(env, c0)
    requires VerdictsLand(env, c0, xs) && RolledBackTrialsLand(env, c0, xs)
    ensures VersionsOk(env, c0.status.current, Run(env, c0, xs), Initiations(env, c0, xs), Promotions(env, c0, xs))
  {
    if xs != [] {
      var n := |xs| - 1;
      var before := xs[..n];
      EarlierVerdictsLand(env, c0, xs, n);
      EarlierTrialsLand(env, c0, xs, n);
      NoTagTwiceVersionsRise(env, c0, before);
      var c, x := Run(env, c0, before), xs[n];
      assert EventAt(env, c0, xs, n) == Reconcile(env, c, x).1;
      LandedTrialNamed(env, c0, before);
      OnlyTrialsFail(env, c, x);
      StepInv(env, c, x);
      RunUnfolds(env, c0, xs);
      var (c', e) := Reconcile(env, c, x);
      VersionsStep(env, c0.status.current, c, c', e, Initiations(env, c0, before), Promotions(env, c0, before));
    }
  }

  lemma OnlyTrialsFail(env: Env, c: Claw, x: Input)
    ensures Reconcile(env, c, x).1.Failed? ==> c.phase == HEALTH_CHECK
  {
  }

  lemma RunUnfolds(env: Env, c0: Claw, xs: seq<Input>)
    requires xs != []
    ensures var before, x := xs[..|xs| - 1], xs[|xs| - 1];
            var (c', e) := Reconcile(env, Run(env, c0, before), x);
            && Run(env, c0, xs) == c'
            && Initiations(env, c0, xs) == Initiations(env, c0, before) + (if e.Initiated? then [e.tag] else [])
            && Promotions(env, c0, xs) == Promotions(env, c0, before) + (if e.Succeeded? then [e.tag] else [])
  {
  }

  // ---- The circuit breaker ----

  ghost predicate Breaker(c: Claw, threshold: int) {
    && 0 <= c.status.rollbacks <= threshold
    && (c.status.circuitOpen <==> c.status.rollbacks >= threshold)
    && (c.status.circuitOpen ==> c.phase != HEALTH_CHECK)
  }

  lemma HealthBreaker(env: Env, c: Claw, x: Input)
    requires Breaker(c, Threshold(x.maxRollbacks)) && c.phase == HEALTH_CHECK
    ensures Breaker(HealthCheck(env, c, x).0, Threshold(x.maxRollbacks))
  {
    var c' := HealthCheck(env, c, x).0;
    assert c' == c || c' == Rollback(c, x) || c' == Promote(c, x);
  }

  /** With a fixed threshold: open exactly when the count has reached it, never beyond it, and
      never open while a version is on trial. */
  lemma {:induction false} BreakerHolds(env: Env, c0: Claw, xs: seq<Input>, maxRollbacks: int)
    requires Breaker(c0, Threshold(maxRollbacks))
    requires VerdictsLand(env, c0, xs) && forall i | 0 <= i < |xs| :: xs[i].maxRollbacks == maxRollbacks
    ensures Breaker(Run(env, c0, xs), Threshold(maxRollbacks))
  {
    if xs != [] {
      var n := |xs| - 1;
      EarlierVerdictsLand(env, c0, xs, n);
      BreakerHolds(env, c0, xs[..n], maxRollbacks);
      var c := Run(env, c0, xs[..n]);
      assert EventAt(env, c0, xs, n) == Reconcile(env, c, xs[n]).1;
      if !xs[n].statusLands { HarmlessLoss(env, c, xs[n]); }
      else if c.phase == HEALTH_CHECK { HealthBreaker(env, c, xs[n]); }
    }
  }

  /** Once open the breaker never closes by itself: whatever the later inputs, thresholds and
      lost writes, the image, the phase, the running version, the failed list and the count stay. */
  lemma {:induction false} OpenForever(env: Env, c0: Claw, xs: seq<Input>)
    requires c0.status.circuitOpen && c0.phase != HEALTH_CHECK
    ensures var c := Run(env, c0, xs);
            && c.target == c0.target && c.phase == c0.phase && c.started == c0.started && c.status.circuitOpen
            && c.status.current == c0.status.current && c.status.failed == c0.status.failed
            && c.status.rollbacks == c0.status.rollbacks && c.status.history == c0.status.history
  {
    if xs != [] {
      var n := |xs| - 1;
      OpenForever(env, c0, xs[..n]);
      var c, x := Run(env, c0, xs[..n]), xs[n];
      var c' := Plan(env, c, x).0;
      assert c' == c || (x.tags.Some? && c' == Check(env, c, x).0);
    }
  }

  // ---- History ----

  function Attempts(env: Env, c: Claw, xs: seq<Input>): seq<HistoryEntry> {
    if xs == [] then []
    else
      var n := |xs| - 1;
      Attempts(env, c, xs[..n]) +
      match EventAt(env, c, xs, n)
      case Succeeded(t) => [HistoryEntry(t, xs[n].now, Healthy)]
      case Failed(t) => [HistoryEntry(t, xs[n].now, RolledBack)]
      case _ => []
  }

  lemma TrimTwice(a: seq<HistoryEntry>, e: HistoryEntry)
    ensures Trim(Trim(a) + [e]) == Trim(a + [e])
  {
  }

  lemma HistoryStep(env: Env, c: Claw, x: Input, log: seq<HistoryEntry>)
    requires c.status.history == Trim(log)
    ensures var (c', e) := Plan(env, c, x);
            c'.status.history == Trim(log + match e
              case Succeeded(t) => [HistoryEntry(t, x.now, Healthy)]
              case Failed(t) => [HistoryEntry(t, x.now, RolledBack)]
              case _ => [])
  {
    var (c', e) := Plan(env, c, x);
    match e
    case Succeeded(t) => TrimTwice(log, HistoryEntry(t, x.now, Healthy));
    case Failed(t) => TrimTwice(log, HistoryEntry(t, x.now, RolledBack));
    case _ => assert log + [] == log;
  }

  lemma {:induction false} HistoryTrimmed(env: Env, c0: Claw, xs: seq<Input>)
    requires |c0.status.history| <= MAX_VERSION_HISTORY && VerdictsLand(env, c0, xs)
    ensures Run(env, c0, xs).status.history == Trim(c0.status.history + Attempts(env, c0, xs))
  {
    if xs == [] {
      assert c0.status.history + [] == c0.status.history;
    } else {
      var n := |xs| - 1;
      var log := c0.status.history + Attempts(env, c0, xs[..n]);
      EarlierVerdictsLand(env, c0, xs, n);
      HistoryTrimmed(env, c0, xs[..n]);
      var c := Run(env, c0, xs[..n]);
      assert EventAt(env, c0, xs, n) == Reconcile(env, c, xs[n]).1;
      if !xs[n].statusLands { HarmlessLoss(env, c, xs[n]); }
      HistoryStep(env, c, xs[n], log);
      var e := match EventAt(env, c0, xs, n)
        case Succeeded(t) => [HistoryEntry(t, xs[n].now, Healthy)]
        case Failed(t) => [HistoryEntry(t, xs[n].now, RolledBack)]
        case _ => [];
      assert c0.status.history + Attempts(env, c0, xs) == log + e;
    }
  }

  function LastFifty(h: seq<HistoryEntry>): seq<HistoryEntry> { h[if |h| <= 50 then 0 else |h| - 50..] }

  lemma TrimIsLastFifty(h: seq<HistoryEntry>)
    ensures Trim(h) == LastFifty(h)
  {
  }

  /** The history is always exactly the last fifty attempts. */
  lemma HistoryIsLastFifty(env: Env, c0: Claw, xs: seq<Input>)
    requires |c0.status.history| <= 50 && VerdictsLand(env, c0, xs)
    ensures var log := c0.status.history + Attempts(env, c0, xs);
            Run(env, c0, xs).status.history == log[if |log| <= 50 then 0 else |log| - 50..]
  {
    HistoryTrimmed(env, c0, xs);
    TrimIsLastFifty(c0.status.history + Attempts(env, c0, xs));
  }

  // ---- The answer from the inputs ----

  /** Every replica asked for, one when unset, is updated and ready. */
  predicate AllReady(r: Replicas) {
    && r.Found?
    && var desired := if r.desired.Some? then r.desired.value else 1;
       r.updated >= desired && r.ready >= desired
  }

  /** How a trial goes on, for every claw in the health-check phase. */
  lemma VerdictIff(env: Env, c: Claw, x: Input)
    requires x.enabled && c.phase == HEALTH_CHECK
    ensures var (c', e) := Plan(env, c, x);
            var start := env.parseTime(c.started);
            && (e.Succeeded? <==> start.Some? && AllReady(x.sts))
            && (e.Failed? <==>
                  || start.None?
                  || (!x.sts.Unreadable? && !AllReady(x.sts) && x.now - start.value > x.timeout))
            && (!e.Succeeded? && !e.Failed? ==> e == Quiet && c' == c)
  {
  }

  /** What a verdict leaves behind: a promotion makes the trial current, forgets the rollbacks and closes
      the breaker; a rollback blames the version named in the status, counts it, and opens the breaker
      from the configured number of rollbacks on, three when it is not positive. */
  lemma VerdictEffects(env: Env, c: Claw, x: Input)
    requires x.enabled && c.phase == HEALTH_CHECK
    ensures var (c', e) := Plan(env, c, x);
            var st := c.status;
            && (e.Succeeded? ==>
                  && e.tag == Trial(c)
                  && c' == Claw(c.target, "", "", st.(
                       current := e.tag, rollbacks := 0, circuitOpen := false,
                       history := LastFifty(st.history + [HistoryEntry(e.tag, x.now, Healthy)]))))
            && (e.Failed? ==>
                  && e.tag == st.available
                  && c' == Claw("", "", "", st.(
                       rollbacks := st.rollbacks + 1,
                       circuitOpen := st.circuitOpen
                                      || st.rollbacks + 1 >= (if x.maxRollbacks > 0 then x.maxRollbacks else 3),
                       failed := if e.tag in st.failed then st.failed else st.failed + [e.tag],
                       history := LastFifty(st.history + [HistoryEntry(e.tag, x.now, RolledBack)]))))
  {
    VerdictIff(env, c, x);
    TrimIsLastFifty(c.status.history + [HistoryEntry(Trial(c), x.now, Healthy)]);
    TrimIsLastFifty(c.status.history + [HistoryEntry(c.status.available, x.now, RolledBack)]);
    var e := Plan(env, c, x).1;
    assert e.Succeeded? ==> Plan(env, c, x).0 == Promote(c, x);
    assert e.Failed? ==> Plan(env, c, x).0 == Rollback(c, x);
  }

  /** Outside the health check a version is initiated exactly when updates are on, the image is not
      pinned, a check is due or none was made, the runtime and the registry are known, the breaker is
      closed and some tag is eligible; it is the best such tag, on the runtime's own image. */
  lemma InitiatedIff(env: Env, c: Claw, x: Input)
    requires c.phase != HEALTH_CHECK
    ensures var (c', e) := Plan(env, c, x);
            && (e.Initiated? <==> && x.enabled && !(c.target != "" && IsDigestPinned(c.target))
                                  && (c.status.lastCheck.None? || x.due)
                                  && x.runtime in {"openclaw", "hermesclaw", "hermesrs", "k8sops"} && x.tags.Some?
                                  && !c.status.circuitOpen && x.constraint.Some?
                                  && exists t :: t in x.tags.value
                                       && Eligible(env.parse, x.constraint.value, c.status.current, c.status.failed, t))
            && (e.Initiated? ==>
                  && (exists b ::
                        && Best(env.parse, x.constraint.value, c.status.current, c.status.failed, x.tags.value, b)
                        && x.tags.value[b] == e.tag)
                  && c' == Claw(ImageForRuntime(x.runtime) + ":" + e.tag, "HealthCheck", env.formatTime(x.now),
                                c.status.(available := e.tag, lastCheck := Some(x.now), lastUpdate := Some(x.now))))
            && !e.Succeeded? && !e.Failed?
  {
    KnownRuntimes(x.runtime);
    if x.tags.Some? && x.constraint.Some? {
      ResolveMeans(env.parse, x.tags.value, x.constraint.value, c.status.current, c.status.failed);
    }
  }

  lemma KnownRuntimes(runtime: string)
    ensures ImageForRuntime(runtime) != "" <==> runtime in {"openclaw", "hermesclaw", "hermesrs", "k8sops"}
  {
    assert |ImageForRuntime("openclaw")| > 0 && |ImageForRuntime("hermesclaw")| > 0;
    assert |ImageForRuntime("hermesrs")| > 0 && |ImageForRuntime("k8sops")| > 0;
  }

  lemma ResolveMeans(parse: Parser, tags: seq<string>, allows: Version -> bool, current: string, failed: seq<string>)
    ensures var r := Resolve(parse, tags, Some(allows), current, failed);
            && (r.Some? <==> exists t :: t in tags && Eligible(parse, allows, current, failed, t))
            && (r.Some? ==> exists b :: Best(parse, allows, current, failed, tags, b) && tags[b] == r.value)
  {
    var b := BestIndex(parse, allows, current, failed, tags);
    if b.Some? {
      assert tags[b.value] in tags;
    } else {
      forall t | t in tags ensures !Eligible(parse, allows, current, failed, t) {
        var j :| 0 <= j < |tags| && tags[j] == t;
      }
    }
  }

  /** Over every run, whatever is promoted was seen with all its replicas updated and ready, and whatever
      is rolled back was not. */
  lemma PromotedWereReady(env: Env, c0: Claw, xs: seq<Input>, i: nat)
    requires i < |xs|
    ensures var e := EventAt(env, c0, xs, i);
            var c := Run(env, c0, xs[..i]);
            && (e.Succeeded? ==> c.phase == HEALTH_CHECK && AllReady(xs[i].sts) && e.tag == Trial(c))
            && (e.Failed? ==> c.phase == HEALTH_CHECK && (env.parseTime(c.started).Some? ==> !AllReady(xs[i].sts)))
  {
    var c := Run(env, c0, xs[..i]);
    if xs[i].enabled {
      if c.phase == HEALTH_CHECK { VerdictIff(env, c, xs[i]); } else { InitiatedIff(env, c, xs[i]); }
    }
  }

  // ---- A lost status write ----

  const FRESH := Claw("", "", "", Status("", "", None, None, 0, false, [], []))

  const ANY_VERSION: Version -> bool := _ => true

  /** One tag on offer, nothing running yet. */
  function Offer(tag: string, now: int, lands: bool): Input {
    Input(true, "openclaw", Some(ANY_VERSION), 0, true, Some([tag]), now, 0, NotFound, lands)
  }

  /** The trial ends: every replica ready, or none found in time. */
  function Verdict(healthy: bool, now: int, lands: bool): Input {
    Offer("", now, lands).(sts := if healthy then Found(None, 1, 1) else NotFound)
  }

  /** With one tag on offer, a check initiates it exactly when it is above the running version and
      has not failed. */
  lemma OfferInitiatesIff(env: Env, c: Claw, tag: string, v: Version, now: int, lands: bool)
    requires env.parse(tag) == Some(v) && c.phase == "" && !c.status.circuitOpen && !IsDigestPinned(c.target)
    ensures var e := Reconcile(env, c, Offer(tag, now, lands)).1;
            if tag !in c.status.failed && Above(env.parse, c.status.current, v) then e == Initiated(tag)
            else e == Checked
  {
    OnlyOffer(env, tag, v, c.status.current, c.status.failed);
    assert |ImageForRuntime("openclaw")| > 0;
  }

  lemma OnlyOffer(env: Env, tag: string, v: Version, current: string, failed: seq<string>)
    requires env.parse(tag) == Some(v)
    ensures Resolve(env.parse, [tag], Some(ANY_VERSION), current, failed)
            == if tag !in failed && Above(env.parse, current, v) then Some(tag) else None
  {
    assert [tag][..0] == [];
  }

  /** The claw after the tag was initiated at time zero and the status write landed or not. */
  function Trying(env: Env, tag: string, now: int, landed: bool): Claw {
    var c := Claw(ImageForRuntime("openclaw") + ":" + tag, HEALTH_CHECK, env.formatTime(now), FRESH.status);
    if landed then c.(status := c.status.(available := tag, lastCheck := Some(now), lastUpdate := Some(now))) else c
  }

  lemma FirstOffer(env: Env, tag: string, v: Version, lands: bool)
    requires env.parse(tag) == Some(v)
    ensures Reconcile(env, FRESH, Offer(tag, 0, lands)) == (Trying(env, tag, 0, lands), Initiated(tag))
  {
    OnlyOffer(env, tag, v, "", []);
    assert |ImageForRuntime("openclaw")| > 0;
  }

  lemma TryingTarget(env: Env, tag: string, landed: bool)
    requires Plain(tag)
    ensures var target := Trying(env, tag, 0, landed).target; !IsDigestPinned(target) && ExtractVersion(target) == tag
  {
    var repo := ImageForRuntime("openclaw");
    assert ':' !in repo && '@' !in repo;
    BuiltIsNotPinned(repo, tag);
    ExtractRoundTrip(repo, tag);
  }

  lemma VerdictGiven(env: Env, c: Claw, healthy: bool, lands: bool)
    requires c.phase == HEALTH_CHECK && env.parseTime(c.started) == Some(0)
    ensures var x := Verdict(healthy, 1, lands);
            Plan(env, c, x) == if healthy then (Promote(c, x), Succeeded(ExtractVersion(c.target)))
                               else (Rollback(c, x), Failed(c.status.available))
  {
  }

  lemma VerdictEnds(env: Env, c: Claw, tag: string, healthy: bool, lands: bool)
    requires c.phase == HEALTH_CHECK && env.parseTime(c.started) == Some(0)
    requires !IsDigestPinned(c.target) && ExtractVersion(c.target) == tag != ""
    requires c.status.current == "" && c.status.failed == [] && c.status.rollbacks == 0 && !c.status.circuitOpen
    ensures var (c', e) := Reconcile(env, c, Verdict(healthy, 1, lands));
            && !e.Initiated? && c'.phase == "" && !c'.status.circuitOpen && !IsDigestPinned(c'.target)
            && c'.status.current == (if healthy && lands then tag else "")
            && (tag in c'.status.failed <==> !healthy && lands && c.status.available == tag)
  {
    var x := Verdict(healthy, 1, lands);
    VerdictGiven(env, c, healthy, lands);
    var c' := if healthy then Promote(c, x) else Rollback(c, x);
    assert Reconcile(env, c, x).0 == if lands then c' else c'.(status := c.status);
  }

  lemma TriedOnce(env: Env, tag: string, v: Version, healthy: bool, first: bool, second: bool)
    requires Lawful(env) && env.parse(tag) == Some(v) && env.parseTime(env.formatTime(0)) == Some(0)
    ensures var xs := [Offer(tag, 0, first), Verdict(healthy, 1, second)];
            var c := Run(env, FRESH, xs);
            && Initiations(env, FRESH, xs) == [tag]
            && c.phase == "" && !c.status.circuitOpen && !IsDigestPinned(c.target)
            && c.status.current == (if healthy && second then tag else "")
            && (tag in c.status.failed <==> !healthy && second && first)
  {
    var x, y := Offer(tag, 0, first), Verdict(healthy, 1, second);
    assert [x, y][..1] == [x] && [x][..0] == [];
    FirstOffer(env, tag, v, first);
    RunUnfolds(env, FRESH, [x]);
    var c := Run(env, FRESH, [x]);
    assert Initiations(env, FRESH, [x]) == [tag];
    TryingTarget(env, tag, first);
    VerdictEnds(env, c, tag, healthy, second);
    RunUnfolds(env, FRESH, [x, y]);
  }

  /** A lost status write after an initiation, a promotion or a rollback makes the same tag be
      initiated again. Exactly: the tag is tried twice if the write after the verdict is lost, or
      if the one after the initiation is lost and the verdict is a rollback, which then blames the
      version recorded before. */
  lemma LostStatusWriteRepeatsIff(env: Env, tag: string, v: Version, healthy: bool, first: bool, second: bool)
    requires Lawful(env) && env.parse(tag) == Some(v) && env.parseTime(env.formatTime(0)) == Some(0)
    ensures Initiations(env, FRESH, [Offer(tag, 0, first), Verdict(healthy, 1, second), Offer(tag, 2, true)])
            == if !second || (!first && !healthy) then [tag, tag] else [tag]
  {
    var before, z := [Offer(tag, 0, first), Verdict(healthy, 1, second)], Offer(tag, 2, true);
    TriedOnce(env, tag, v, healthy, first, second);
    OfferInitiatesIff(env, Run(env, FRESH, before), tag, v, 2, true);
    CmpOrder(v, v, v);
    var xs := before + [z];
    assert xs[..2] == before && xs == [before[0], before[1], z];
    RunUnfolds(env, FRESH, xs);
  }
}
