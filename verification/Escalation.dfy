/** The life of one escalation object, written by three independent programs: the controller
    (internal/controller/clawops_controller.go), the watcher (cmd/claw4k8s/watcher.go) and the
    command line (cmd/kubectl-claw/main.go). Each works on a snapshot that may be stale; the API
    server's resourceVersion check is the only synchronisation. */
module Escalation {
  import opened Common

  datatype Phase =
    | Unset | Pending | AutoExecuted | Analyzing | Proposed | AwaitingApproval | Approved | Executed | Rejected | Failed

  predicate IsTerminal(p: Phase) { p == AutoExecuted || p == Executed || p == Rejected || p == Failed }

  function Rank(p: Phase): nat {
    match p
    case Unset => 0
    case Pending => 1
    case Analyzing => 2
    case Proposed => 2
    case AwaitingApproval => 3
    case Approved => 4
    case _ => 5
  }

  datatype Status = Status(
    phase: Phase, matchedRule: string, analysis: string, proposedAction: string, executedAction: string,
    approvedBy: string, rejectionReason: string)

  const NEW := Status(Unset, "", "", "", "", "", "")

  // ---- What each program writes over its snapshot ----

  /** What the program will do next, with the data it needs. */
  datatype Job =
    | Publish                       // controller.escalate, after Create
    | PublishAuto(rule: string, intent: string)  // controller.autoExecute, after Create
    | Claim                         // watcher: Pending -> Analyzing
    | Report                        // watcher, after its own claim: result of the analysis
    | Approve(who: string)
    | Reject(reason: string)
    | WriteIntent                   // controller: annotate the Claw with the approved action
    | RecordExecuted                // controller, after that: Approved -> Executed
    | Collect                       // controller: delete

  /** The analysis pipeline's answer, whether the Claw patch went through, and the clock. */
  datatype Answer = Answer(hardError: bool, text: string, action: string, patchOk: bool, now: int)

  /** The guard each program checks on its snapshot before acting. */
  predicate Allowed(j: Job, st: Status) {
    match j
    case Publish => st == NEW
    case PublishAuto(_, _) => st == NEW
    case Claim => st.phase == Pending
    case Report => st.phase == Analyzing
    case Approve(_) => st.phase == AwaitingApproval && st.proposedAction != ""
    case Reject(_) => !IsTerminal(st.phase)
    case WriteIntent => st.phase == Approved && st.proposedAction != ""
    case RecordExecuted => st.phase == Approved && st.proposedAction != ""
    case Collect => IsTerminal(st.phase)
  }

  function Updated(j: Job, st: Status, a: Answer): Status {
    match j
    case Publish => st.(phase := Pending)
    case PublishAuto(r, i) => st.(phase := AutoExecuted, matchedRule := r, executedAction := i)
    case Claim => st.(phase := Analyzing)
    case Report =>
      if a.hardError then st.(phase := Failed, analysis := a.text)
      else st.(phase := AwaitingApproval, analysis := a.text, proposedAction := a.action)
    case Approve(who) => st.(phase := Approved, approvedBy := who)
    case Reject(reason) => st.(phase := Rejected, rejectionReason := reason)
    case RecordExecuted => st.(phase := Executed, executedAction := st.proposedAction)
    case WriteIntent => st
    case Collect => st
  }

  // ---- The protocol ----

  /** A program holding the snapshot numbered `version`. */
  datatype Task = Task(job: Job, version: nat)

  /** `versions` is the object's history: the status after each status write, the first one being
      the creation, and `times` says when each was stored. `intents` are the actions written to the
      Claw by the approval path. */
  datatype Sys = Sys(
    versions: seq<Status>, times: seq<int>, clock: int, deleted: bool, deletedAt: int,
    tasks: map<nat, Task>, intents: seq<string>)

  datatype Action =
    | Read(t: nat, job: Job, version: nat)  // start a program on any version ever stored
    | Act(t: nat, answer: Answer)

  /** Creation time and time to live of the object. */
  datatype Object = Object(created: int, ttl: int)

  /** Jobs a program can start with; the others follow from its own earlier step. */
  predicate Starts(j: Job) { j.Claim? || j.Approve? || j.Reject? || j.WriteIntent? || j.Collect? }

  function Last(s: Sys): Status
    requires s.versions != []
  {
    s.versions[|s.versions| - 1]
  }

  function Drop(s: Sys, t: nat): Sys { s.(tasks := s.tasks - {t}) }

  /** Status().Update: refused unless the snapshot is the stored version. */
  function Write(s: Sys, t: nat, st: Status): Sys
    requires t in s.tasks && s.versions != []
  {
    if s.deleted || s.tasks[t].version != |s.versions| - 1 then Drop(s, t)
    else
      var s' := s.(versions := s.versions + [st], times := s.times + [s.clock]);
      if s.tasks[t].job.Claim? then s'.(tasks := s.tasks[t := Task(Report, |s.versions|)]) else Drop(s', t)
  }

  /** One API call of a program. The expiry test counts from creation. */
  function StepTask(o: Object, s: Sys, t: nat, a: Answer): Sys
    requires t in s.tasks && s.versions != [] && s.tasks[t].version < |s.versions|
  {
    var j, st := s.tasks[t].job, s.versions[s.tasks[t].version];
    match j
    case WriteIntent =>
      if !a.patchOk then Drop(s, t)
      else s.(intents := s.intents + [st.proposedAction], tasks := s.tasks[t := s.tasks[t].(job := RecordExecuted)])
    case Collect =>
      if a.now - o.created > o.ttl && !s.deleted then Drop(s, t).(deleted := true, deletedAt := a.now) else Drop(s, t)
    case _ => Write(s, t, Updated(j, st, a))
  }

  function Next(o: Object, s: Sys, a: Action): Sys
    requires Wellformed(s)
  {
    match a
    case Read(t, j, v) =>
      if t !in s.tasks && Starts(j) && v < |s.versions| && Allowed(j, s.versions[v])
      then s.(tasks := s.tasks[t := Task(j, v)]) else s
    case Act(t, ans) => if t in s.tasks && ans.now >= s.clock then StepTask(o, s.(clock := ans.now), t, ans) else s
  }

  predicate Wellformed(s: Sys) {
    s.versions != [] && forall t | t in s.tasks :: s.tasks[t].version < |s.versions|
  }

  lemma NextWellformed(o: Object, s: Sys, a: Action)
    requires Wellformed(s)
    ensures Wellformed(Next(o, s, a))
  {
  }

  /** The object has been created and its creator is about to write the first status. */
  function Start(o: Object, creator: Job): Sys {
    Sys([NEW], [o.created], o.created, false, o.created, map[0 := Task(creator, 0)], [])
  }

  ghost function Run(o: Object, creator: Job, acts: seq<Action>): (s: Sys)
    ensures Wellformed(s)
  {
    if acts == [] then Start(o, creator)
    else
      var s := Run(o, creator, acts[..|acts| - 1]);
      NextWellformed(o, s, acts[|acts| - 1]);
      Next(o, s, acts[|acts| - 1])
  }

  // ---- Safety ----

  /** Every program's guard holds of the version it holds. */
  ghost predicate Guarded(s: Sys) {
    Wellformed(s) && forall t | t in s.tasks :: Allowed(s.tasks[t].job, s.versions[s.tasks[t].version])
  }

  ghost predicate Ranked(vs: seq<Status>) {
    forall i, j | 0 <= i < j < |vs| :: Rank(vs[i].phase) < Rank(vs[j].phase)
  }

  /** Each stored version is what some program's guard allowed it to make of the previous one. */
  ghost predicate Lawful(vs: seq<Status>) {
    forall i | 0 < i < |vs| :: Follows(vs[i - 1], vs[i])
  }

  ghost predicate Follows(st: Status, st': Status) { exists j, a :: Makes(j, a, st, st') }

  ghost predicate Makes(j: Job, a: Answer, st: Status, st': Status) {
    !j.WriteIntent? && !j.Collect? && Allowed(j, st) && st' == Updated(j, st, a)
  }

  /** The action was approved: some version is the approval of exactly this non-empty proposal. */
  ghost predicate WasApproved(vs: seq<Status>, action: string) {
    action != "" && exists i :: 0 < i < |vs| && ApprovalAt(vs, i, action)
  }

  ghost predicate ApprovalAt(vs: seq<Status>, i: nat, action: string)
    requires 0 < i < |vs|
  {
    && vs[i].phase == Approved && vs[i].proposedAction == action
    && vs[i - 1].phase == AwaitingApproval && vs[i - 1].proposedAction == action
  }

  ghost predicate HistoryOk(vs: seq<Status>) { vs != [] && vs[0] == NEW && Ranked(vs) && Lawful(vs) }

  ghost predicate IntentsOk(vs: seq<Status>, intents: seq<string>) {
    forall k | 0 <= k < |intents| :: WasApproved(vs, intents[k])
  }

  ghost predicate Safe(s: Sys) {
    && Guarded(s) && HistoryOk(s.versions) && IntentsOk(s.versions, s.intents)
    && (s.deleted ==> IsTerminal(Last(s).phase))
  }

  /** A permitted write raises the rank. */
  lemma WritesRaise(j: Job, a: Answer, st: Status)
    requires Allowed(j, st) && !j.WriteIntent? && !j.Collect?
    ensures Rank(st.phase) < Rank(Updated(j, st, a).phase)
  {
  }

  /** Only an approval produces the Approved phase, and it keeps the proposal it saw. */
  lemma ApprovedFromAwaiting(vs: seq<Status>, i: nat)
    requires HistoryOk(vs) && i < |vs| && vs[i].phase == Approved
    ensures i > 0 && ApprovalAt(vs, i, vs[i].proposedAction)
  {
    assert i > 0 && Follows(vs[i - 1], vs[i]);
    var j, a :| Makes(j, a, vs[i - 1], vs[i]);
  }

  /** Appending a permitted write keeps the history and the approvals in order. */
  lemma HistorySnoc(vs: seq<Status>, j: Job, a: Answer, intents: seq<string>)
    requires HistoryOk(vs) && IntentsOk(vs, intents)
    requires Allowed(j, vs[|vs| - 1]) && !j.WriteIntent? && !j.Collect?
    ensures var vs' := vs + [Updated(j, vs[|vs| - 1], a)]; HistoryOk(vs') && IntentsOk(vs', intents)
  {
    var n := |vs|;
    var st := Updated(j, vs[n - 1], a);
    var vs' := vs + [st];
    WritesRaise(j, a, vs[n - 1]);
    assert Makes(j, a, vs'[n - 1], vs'[n]);
    forall k | 0 <= k < |intents| ensures WasApproved(vs', intents[k]) {
      var i :| 0 < i < |vs| && ApprovalAt(vs, i, intents[k]);
      assert ApprovalAt(vs', i, intents[k]);
    }
  }

  lemma WriteGuarded(s: Sys, t: nat, a: Answer)
    requires Guarded(s) && t in s.tasks
    ensures Guarded(Write(s, t, Updated(s.tasks[t].job, s.versions[s.tasks[t].version], a)))
  {
    var s' := Write(s, t, Updated(s.tasks[t].job, s.versions[s.tasks[t].version], a));
    assert s.versions <= s'.versions;
    forall g | g in s'.tasks && g != t ensures Allowed(s'.tasks[g].job, s'.versions[s'.tasks[g].version]) {
      assert s'.tasks[g] == s.tasks[g];
    }
  }

  lemma WriteSafe(s: Sys, t: nat, a: Answer)
    requires Safe(s) && t in s.tasks && !s.tasks[t].job.WriteIntent? && !s.tasks[t].job.Collect?
    ensures Safe(Write(s, t, Updated(s.tasks[t].job, s.versions[s.tasks[t].version], a)))
  {
    var j, v := s.tasks[t].job, s.tasks[t].version;
    WriteGuarded(s, t, a);
    if !s.deleted && v == |s.versions| - 1 {
      HistorySnoc(s.versions, j, a, s.intents);
      assert Write(s, t, Updated(j, s.versions[v], a)).versions == s.versions + [Updated(j, s.versions[v], a)];
    }
  }

  lemma GuardedSet(s: Sys, t: nat, job: Job)
    requires Guarded(s) && t in s.tasks && Allowed(job, s.versions[s.tasks[t].version])
    ensures Guarded(s.(tasks := s.tasks[t := s.tasks[t].(job := job)]))
  {
  }

  lemma IntentsSnoc(vs: seq<Status>, intents: seq<string>, p: string)
    requires IntentsOk(vs, intents) && WasApproved(vs, p)
    ensures IntentsOk(vs, intents + [p])
  {
  }

  lemma IntentSafe(o: Object, s: Sys, t: nat, a: Answer)
    requires Safe(s) && t in s.tasks && s.tasks[t].job.WriteIntent?
    ensures Safe(StepTask(o, s, t, a))
  {
    var v := s.tasks[t].version;
    var p := s.versions[v].proposedAction;
    ApprovedFromAwaiting(s.versions, v);
    assert WasApproved(s.versions, p);
    IntentsSnoc(s.versions, s.intents, p);
    GuardedSet(s, t, RecordExecuted);
    if a.patchOk { assert StepTask(o, s, t, a).versions == s.versions; }
  }

  lemma CollectSafe(o: Object, s: Sys, t: nat, a: Answer)
    requires Safe(s) && t in s.tasks && s.tasks[t].job.Collect?
    ensures Safe(StepTask(o, s, t, a))
  {
    TerminalIsLast(s.versions, s.tasks[t].version);
  }

  /** Nothing outranks a terminal phase, so it can only be the last version. */
  lemma TerminalIsLast(vs: seq<Status>, i: nat)
    requires Ranked(vs) && i < |vs| && IsTerminal(vs[i].phase)
    ensures i == |vs| - 1
  {
    assert i < |vs| - 1 ==> Rank(vs[i].phase) < Rank(vs[|vs| - 1].phase);
  }

  lemma ReadGuarded(o: Object, s: Sys, t: nat, j: Job, v: nat)
    requires Guarded(s)
    ensures var s' := Next(o, s, Read(t, j, v));
            Guarded(s') && s'.versions == s.versions && s'.intents == s.intents && s'.deleted == s.deleted
  {
  }

  lemma SameHistorySafe(s: Sys, s': Sys)
    requires Safe(s) && Guarded(s') && s'.versions == s.versions && s'.intents == s.intents && s'.deleted == s.deleted
    ensures Safe(s')
  {
  }

  lemma NextSafe(o: Object, s: Sys, a: Action)
    requires Safe(s)
    ensures Safe(Next(o, s, a))
  {
    match a
    case Read(t, j, v) =>
      ReadGuarded(o, s, t, j, v);
      SameHistorySafe(s, Next(o, s, a));
    case Act(t, ans) =>
      if t in s.tasks && ans.now >= s.clock {
        var s1 := s.(clock := ans.now);
        SameHistorySafe(s, s1);
        if s.tasks[t].job.WriteIntent? { IntentSafe(o, s1, t, ans); }
        else if s.tasks[t].job.Collect? { CollectSafe(o, s1, t, ans); }
        else { WriteSafe(s1, t, ans); }
      }
  }

  lemma {:induction false} RunSafe(o: Object, creator: Job, acts: seq<Action>)
    requires creator.Publish? || creator.PublishAuto?
    ensures Safe(Run(o, creator, acts))
  {
    if acts != [] {
      RunSafe(o, creator, acts[..|acts| - 1]);
      NextSafe(o, Run(o, creator, acts[..|acts| - 1]), acts[|acts| - 1]);
    }
  }

  lemma {:induction false} RankBoundsLength(vs: seq<Status>)
    requires Ranked(vs) && vs != [] && vs[0] == NEW
    ensures |vs| <= Rank(vs[|vs| - 1].phase) + 1 <= 6
  {
    if |vs| > 1 {
      RankBoundsLength(vs[..|vs| - 1]);
      assert Rank(vs[|vs| - 2].phase) < Rank(vs[|vs| - 1].phase);
    }
  }

  /** In every interleaving on arbitrarily stale snapshots: each status write raises the rank, so
      there are at most five; a terminal phase is final; only terminal objects are deleted; and
      every intent of the approval path is the one non-empty proposal that was approved. */
  lemma ProtocolSafe(o: Object, creator: Job, acts: seq<Action>)
    requires creator.Publish? || creator.PublishAuto?
    ensures var s := Run(o, creator, acts);
            && Ranked(s.versions) && |s.versions| - 1 <= 5
            && (forall i | 0 <= i < |s.versions| :: IsTerminal(s.versions[i].phase) ==> i == |s.versions| - 1)
            && (s.deleted ==> IsTerminal(Last(s).phase))
            && (forall k | 0 <= k < |s.intents| :: WasApproved(s.versions, s.intents[k]))
            && (forall k, l | 0 <= k < l < |s.intents| :: s.intents[k] == s.intents[l])
  {
    RunSafe(o, creator, acts);
    var s := Run(o, creator, acts);
    RankBoundsLength(s.versions);
    forall i | 0 <= i < |s.versions| && IsTerminal(s.versions[i].phase) ensures i == |s.versions| - 1 {
      TerminalIsLast(s.versions, i);
    }
    forall k, l | 0 <= k < l < |s.intents| ensures s.intents[k] == s.intents[l] {
      var i :| 0 < i < |s.versions| && ApprovalAt(s.versions, i, s.intents[k]);
      var j :| 0 < j < |s.versions| && ApprovalAt(s.versions, j, s.intents[l]);
      assert i == j;
    }
  }

  /** The documented life of an escalation, spelled out: what one version may turn into, field by field. */
  ghost predicate Transition(st: Status, st': Status) {
    || (st.phase == Unset && st' == st.(phase := Pending))
    || (st.phase == Unset && st'.phase == AutoExecuted
        && st' == st.(phase := AutoExecuted, matchedRule := st'.matchedRule, executedAction := st'.executedAction))
    || (st.phase == Pending && st' == st.(phase := Analyzing))
    || (st.phase == Analyzing && st' == st.(phase := Failed, analysis := st'.analysis))
    || (st.phase == Analyzing
        && st' == st.(phase := AwaitingApproval, analysis := st'.analysis, proposedAction := st'.proposedAction))
    || (st.phase == AwaitingApproval && st.proposedAction != ""
        && st' == st.(phase := Approved, approvedBy := st'.approvedBy))
    || (st.phase == Approved && st.proposedAction != ""
        && st' == st.(phase := Executed, executedAction := st.proposedAction))
    || (st.phase !in {AutoExecuted, Executed, Rejected, Failed}
        && st' == st.(phase := Rejected, rejectionReason := st'.rejectionReason))
  }

  /** Every stored version of every run is one such transition away from the one before it. */
  lemma DocumentedLife(o: Object, creator: Job, acts: seq<Action>, i: nat)
    requires creator.Publish? || creator.PublishAuto?
    requires 0 < i < |Run(o, creator, acts).versions|
    ensures var vs := Run(o, creator, acts).versions; vs[0] == NEW && Transition(vs[i - 1], vs[i])
  {
    RunSafe(o, creator, acts);
    var vs := Run(o, creator, acts).versions;
    assert Follows(vs[i - 1], vs[i]);
    var j, a :| Makes(j, a, vs[i - 1], vs[i]);
  }

  /** What one call does: a report on the newest version writes the pipeline's own words, Failed on a hard
      error and else the proposal to approve; a write on an older version, or on a deleted object, writes
      nothing; an intent is written exactly when its patch goes through, and then the execution follows. */
  lemma CallDoes(o: Object, s: Sys, t: nat, a: Answer)
    requires Guarded(s) && t in s.tasks && a.now >= s.clock
    ensures var s', task := Next(o, s, Act(t, a)), s.tasks[t];
            var st, newest := s.versions[task.version], !s.deleted && task.version == |s.versions| - 1;
            && (task.job.Report? && newest ==>
                  s'.versions == s.versions + [if a.hardError then st.(phase := Failed, analysis := a.text)
                                               else st.(phase := AwaitingApproval, analysis := a.text,
                                                        proposedAction := a.action)])
            && (!newest ==> s'.versions == s.versions)
            && (task.job.WriteIntent? ==>
                  && s'.intents == s.intents + (if a.patchOk then [st.proposedAction] else [])
                  && (t in s'.tasks <==> a.patchOk) && (a.patchOk ==> s'.tasks[t].job == RecordExecuted))
            && (!task.job.WriteIntent? ==> s'.intents == s.intents)
  {
  }

  ghost predicate OnlyHardErrors(acts: seq<Action>) {
    forall i | 0 <= i < |acts| && acts[i].Act? :: acts[i].answer.hardError
  }

  ghost predicate NeverProposed(s: Sys) {
    forall i | 0 <= i < |s.versions| :: s.versions[i].phase != AwaitingApproval && s.versions[i].phase != Approved
  }

  /** While the analysis pipeline only fails, nothing is ever proposed, approved or carried out. */
  lemma {:induction false} HardErrorsProposeNothing(o: Object, creator: Job, acts: seq<Action>)
    requires (creator.Publish? || creator.PublishAuto?) && OnlyHardErrors(acts)
    ensures var s := Run(o, creator, acts); NeverProposed(s) && s.intents == []
  {
    RunSafe(o, creator, acts);
    if acts != [] {
      var before := acts[..|acts| - 1];
      RunSafe(o, creator, before);
      HardErrorsProposeNothing(o, creator, before);
      NextProposesNothing(o, Run(o, creator, before), acts[|acts| - 1]);
    }
  }

  lemma NextProposesNothing(o: Object, s: Sys, a: Action)
    requires Guarded(s) && NeverProposed(s) && s.intents == [] && (a.Act? ==> a.answer.hardError)
    ensures var s' := Next(o, s, a); NeverProposed(s') && s'.intents == []
  {
  }

  /** What the terminal records say happened did happen: Executed only after the proposal was
      written to the Claw, and AutoExecuted with the creator's rule and intent. */
  ghost predicate RecordOk(creator: Job, st: Status, intents: seq<string>) {
    && (st.phase == Executed ==> st.executedAction == st.proposedAction && st.executedAction in intents)
    && (st.phase == AutoExecuted ==> creator == PublishAuto(st.matchedRule, st.executedAction))
  }

  ghost predicate Truthful(creator: Job, s: Sys) {
    && (forall i | 0 <= i < |s.versions| :: RecordOk(creator, s.versions[i], s.intents))
    && (forall t | t in s.tasks :: TaskOk(creator, s, s.tasks[t]))
  }

  ghost predicate TaskOk(creator: Job, s: Sys, t: Task) {
    && t.version < |s.versions|
    && (t.job.PublishAuto? ==> t.job == creator)
    && (t.job.RecordExecuted? ==> s.versions[t.version].proposedAction in s.intents)
  }

  lemma UpdateTruthful(creator: Job, j: Job, st: Status, a: Answer, intents: seq<string>)
    requires RecordOk(creator, st, intents) && Allowed(j, st)
    requires j.PublishAuto? ==> j == creator
    requires j.RecordExecuted? ==> st.proposedAction in intents
    ensures RecordOk(creator, Updated(j, st, a), intents)
  {
  }

  /** Old versions, tasks and intents carry over; only what is new needs checking. */
  lemma CarryTruth(creator: Job, s: Sys, s': Sys)
    requires Truthful(creator, s) && s.versions <= s'.versions && s.intents <= s'.intents
    requires forall i | |s.versions| <= i < |s'.versions| :: RecordOk(creator, s'.versions[i], s'.intents)
    requires forall t | t in s'.tasks :: (t in s.tasks && s'.tasks[t] == s.tasks[t]) || TaskOk(creator, s', s'.tasks[t])
    ensures Truthful(creator, s')
  {
    assert forall x | x in s.intents :: x in s'.intents;
    forall i | 0 <= i < |s.versions| ensures RecordOk(creator, s'.versions[i], s'.intents) {
      assert RecordOk(creator, s.versions[i], s.intents);
    }
    forall t | t in s'.tasks && t in s.tasks && s'.tasks[t] == s.tasks[t] ensures TaskOk(creator, s', s'.tasks[t]) {
      assert TaskOk(creator, s, s.tasks[t]);
    }
  }

  lemma WriteTruthful(creator: Job, s: Sys, t: nat, a: Answer)
    requires Guarded(s) && Truthful(creator, s) && t in s.tasks
    ensures Truthful(creator, Write(s, t, Updated(s.tasks[t].job, s.versions[s.tasks[t].version], a)))
  {
    var j, st := s.tasks[t].job, s.versions[s.tasks[t].version];
    var s' := Write(s, t, Updated(j, st, a));
    assert TaskOk(creator, s, s.tasks[t]) && RecordOk(creator, st, s.intents);
    UpdateTruthful(creator, j, st, a, s.intents);
    CarryTruth(creator, s, s');
  }

  lemma IntentTruthful(o: Object, creator: Job, s: Sys, t: nat, a: Answer)
    requires Guarded(s) && Truthful(creator, s) && t in s.tasks && s.tasks[t].job.WriteIntent?
    ensures Truthful(creator, StepTask(o, s, t, a))
  {
    var s' := StepTask(o, s, t, a);
    if a.patchOk {
      var p := s.versions[s.tasks[t].version].proposedAction;
      assert s'.intents == s.intents + [p] && p in s'.intents;
    }
    CarryTruth(creator, s, s');
  }

  lemma NextTruthful(o: Object, creator: Job, s: Sys, a: Action)
    requires Guarded(s) && Truthful(creator, s)
    ensures Truthful(creator, Next(o, s, a))
  {
    match a
    case Read(_, _, _) => CarryTruth(creator, s, Next(o, s, a));
    case Act(t, ans) =>
      if t in s.tasks && ans.now >= s.clock {
        var s1 := s.(clock := ans.now);
        CarryTruth(creator, s, s1);
        if s.tasks[t].job.WriteIntent? { IntentTruthful(o, creator, s1, t, ans); }
        else if s.tasks[t].job.Collect? { CarryTruth(creator, s1, StepTask(o, s1, t, ans)); }
        else { WriteTruthful(creator, s1, t, ans); }
      }
  }

  lemma {:induction false} RecordsTruthful(o: Object, creator: Job, acts: seq<Action>)
    requires creator.Publish? || creator.PublishAuto?
    ensures Truthful(creator, Run(o, creator, acts))
  {
    if acts != [] {
      var before := acts[..|acts| - 1];
      RunSafe(o, creator, before);
      RecordsTruthful(o, creator, before);
      NextTruthful(o, creator, Run(o, creator, before), acts[|acts| - 1]);
    }
  }

  /** Nothing removes or rewrites a stored version: a terminal status stays as it is. */
  lemma {:induction false} HistoryGrows(o: Object, creator: Job, acts: seq<Action>, more: seq<Action>)
    ensures Run(o, creator, acts).versions <= Run(o, creator, acts + more).versions
  {
    if more == [] {
      assert acts + more == acts;
    } else {
      var rest, a := more[..|more| - 1], more[|more| - 1];
      HistoryGrows(o, creator, acts, rest);
      assert acts + more == (acts + rest) + [a];
      RunSnoc(o, creator, acts + rest, a);
      NextGrows(o, Run(o, creator, acts + rest), a);
    }
  }

  lemma NextGrows(o: Object, s: Sys, a: Action)
    requires Wellformed(s)
    ensures s.versions <= Next(o, s, a).versions
  {
  }

  /** Terminal phases are absorbing. */
  lemma TerminalAbsorbs(o: Object, creator: Job, acts: seq<Action>, more: seq<Action>)
    requires creator.Publish? || creator.PublishAuto?
    requires IsTerminal(Last(Run(o, creator, acts)).phase)
    ensures Run(o, creator, acts + more).versions == Run(o, creator, acts).versions
  {
    HistoryGrows(o, creator, acts, more);
    RunSafe(o, creator, acts + more);
    var vs := Run(o, creator, acts).versions;
    TerminalIsLast(Run(o, creator, acts + more).versions, |vs| - 1);
  }

  // ---- What the check does not give ----

  lemma RunSnoc(o: Object, creator: Job, acts: seq<Action>, a: Action)
    ensures Run(o, creator, acts + [a]) == Next(o, Run(o, creator, acts), a)
  {
    assert (acts + [a])[..|acts|] == acts;
  }

  function At(p: Phase, action: string): Status { NEW.(phase := p, proposedAction := action) }

  /** A state whose writes all happened at the moment of creation. */
  function Early(o: Object, vs: seq<Status>, tasks: map<nat, Task>, intents: seq<string>): Sys {
    Sys(vs, seq(|vs|, _ => o.created), o.created, false, o.created, tasks, intents)
  }

  function Now(o: Object, action: string): Answer { Answer(false, "", action, true, o.created) }

  lemma PublishedRun(o: Object) returns (acts: seq<Action>)
    ensures Run(o, Publish, acts) == Early(o, [NEW, At(Pending, "")], map[], [])
  {
    var a := Act(0, Now(o, ""));
    acts := [a];
    RunSnoc(o, Publish, [], a);
    assert [] + [a] == [a];
    assert Start(o, Publish).tasks - {0} == map[];
    assert seq(2, _ => o.created) == [o.created] + [o.created];
  }

  lemma ClaimedRun(o: Object) returns (acts: seq<Action>)
    ensures Run(o, Publish, acts)
            == Early(o, [NEW, At(Pending, ""), At(Analyzing, "")], map[1 := Task(Report, 2)], [])
  {
    var a1 := PublishedRun(o);
    RunSnoc(o, Publish, a1, Read(1, Claim, 1));
    var a2 := a1 + [Read(1, Claim, 1)];
    assert Run(o, Publish, a2) == Early(o, [NEW, At(Pending, "")], map[1 := Task(Claim, 1)], []);
    var a := Act(1, Now(o, ""));
    RunSnoc(o, Publish, a2, a);
    acts := a2 + [a];
    assert [NEW, At(Pending, "")] + [At(Analyzing, "")] == [NEW, At(Pending, ""), At(Analyzing, "")];
    assert seq(2, _ => o.created) + [o.created] == seq(3, _ => o.created);
  }

  lemma AwaitingRun(o: Object, action: string) returns (acts: seq<Action>)
    ensures Run(o, Publish, acts)
            == Early(o, [NEW, At(Pending, ""), At(Analyzing, ""), At(AwaitingApproval, action)], map[], [])
  {
    var a1 := ClaimedRun(o);
    var a := Act(1, Now(o, action));
    RunSnoc(o, Publish, a1, a);
    acts := a1 + [a];
    assert [NEW, At(Pending, ""), At(Analyzing, "")] + [At(AwaitingApproval, action)]
        == [NEW, At(Pending, ""), At(Analyzing, ""), At(AwaitingApproval, action)];
    assert seq(3, _ => o.created) + [o.created] == seq(4, _ => o.created);
    assert map[1 := Task(Report, 2)] - {1} == map[];
  }

  function ApprovedHistory(action: string): seq<Status> {
    [NEW, At(Pending, ""), At(Analyzing, ""), At(AwaitingApproval, action), At(Approved, action)]
  }

  /** One published escalation, analysed and approved. */
  lemma ApprovedRun(o: Object, action: string) returns (acts: seq<Action>)
    requires action != ""
    ensures Run(o, Publish, acts) == Early(o, ApprovedHistory(action), map[], [])
  {
    var a1 := AwaitingRun(o, action);
    var h := [NEW, At(Pending, ""), At(Analyzing, ""), At(AwaitingApproval, action)];
    RunSnoc(o, Publish, a1, Read(2, Approve(""), 3));
    var a2 := a1 + [Read(2, Approve(""), 3)];
    assert Run(o, Publish, a2) == Early(o, h, map[2 := Task(Approve(""), 3)], []);
    var a := Act(2, Now(o, ""));
    RunSnoc(o, Publish, a2, a);
    acts := a2 + [a];
    assert h + [At(Approved, action)] == ApprovedHistory(action);
    assert seq(4, _ => o.created) + [o.created] == seq(5, _ => o.created);
    assert map[2 := Task(Approve(""), 3)] - {2} == map[];
  }

  lemma BothRead(o: Object, action: string) returns (acts: seq<Action>)
    requires action != ""
    ensures Run(o, Publish, acts)
            == Early(o, ApprovedHistory(action), map[3 := Task(WriteIntent, 4), 4 := Task(Reject(""), 4)], [])
  {
    var h := ApprovedHistory(action);
    var a1 := ApprovedRun(o, action);
    var a2 := a1 + [Read(3, WriteIntent, 4)];
    RunSnoc(o, Publish, a1, Read(3, WriteIntent, 4));
    assert Run(o, Publish, a2) == Early(o, h, map[3 := Task(WriteIntent, 4)], []);
    acts := a2 + [Read(4, Reject(""), 4)];
    RunSnoc(o, Publish, a2, Read(4, Reject(""), 4));
  }

  lemma RacingRun(o: Object, action: string) returns (acts: seq<Action>)
    requires action != ""
    ensures Run(o, Publish, acts)
            == Early(o, ApprovedHistory(action), map[3 := Task(RecordExecuted, 4), 4 := Task(Reject(""), 4)], [action])
  {
    var before := BothRead(o, action);
    var a := Act(3, Now(o, action));
    RunSnoc(o, Publish, before, a);
    acts := before + [a];
    assert map[3 := Task(WriteIntent, 4), 4 := Task(Reject(""), 4)][3 := Task(RecordExecuted, 4)]
        == map[3 := Task(RecordExecuted, 4), 4 := Task(Reject(""), 4)];
  }

  lemma IntentRun(o: Object, action: string) returns (acts: seq<Action>)
    requires action != ""
    ensures Run(o, Publish, acts) == Early(o, ApprovedHistory(action), map[3 := Task(RecordExecuted, 4)], [action])
  {
    var a1 := ApprovedRun(o, action);
    var a2 := a1 + [Read(3, WriteIntent, 4)];
    RunSnoc(o, Publish, a1, Read(3, WriteIntent, 4));
    assert Run(o, Publish, a2) == Early(o, ApprovedHistory(action), map[3 := Task(WriteIntent, 4)], []);
    var a := Act(3, Now(o, action));
    RunSnoc(o, Publish, a2, a);
    acts := a2 + [a];
  }

  /** The intended ending: approved, carried out once, and recorded as executed with its own action. */
  lemma CarriedOutRun(o: Object, action: string) returns (acts: seq<Action>)
    requires action != ""
    ensures var s := Run(o, Publish, acts);
            && s.versions == ApprovedHistory(action) + [At(Executed, action).(executedAction := action)]
            && s.intents == [action] && s.tasks == map[] && !s.deleted
  {
    var before := IntentRun(o, action);
    var a := Act(3, Now(o, action));
    RunSnoc(o, Publish, before, a);
    acts := before + [a];
    assert Run(o, Publish, before).tasks - {3} == map[];
  }

  /** The intent is written before the status: an escalation can be rejected after its approval
      and still have had its action carried out. */
  lemma RejectedYetCarriedOut(o: Object, action: string) returns (acts: seq<Action>)
    requires action != ""
    ensures var s := Run(o, Publish, acts);
            && |s.versions| == 6 && Last(s).phase == Rejected && s.versions[4].phase == Approved
            && s.intents == [action] && s.tasks == map[]
  {
    var ans := Now(o, action);
    var a1 := RacingRun(o, action);
    RunSnoc(o, Publish, a1, Act(4, ans));
    var a2 := a1 + [Act(4, ans)];
    var s := Run(o, Publish, a2);
    assert s.tasks == map[3 := Task(RecordExecuted, 4)] && |s.versions| == 6 && Last(s).phase == Rejected;
    RunSnoc(o, Publish, a2, Act(3, ans));
    acts := a2 + [Act(3, ans)];
  }

  /** An escalation that was never approved has had nothing carried out. */
  lemma NoApprovalNoIntent(o: Object, creator: Job, acts: seq<Action>)
    requires creator.Publish? || creator.PublishAuto?
    requires forall i | 0 <= i < |Run(o, creator, acts).versions| :: Run(o, creator, acts).versions[i].phase != Approved
    ensures Run(o, creator, acts).intents == []
  {
    RunSafe(o, creator, acts);
    var s := Run(o, creator, acts);
    assert s.intents == [] || WasApproved(s.versions, s.intents[0]);
  }

  /** The run ends rejected, with the action carried out, and the rejection landed on phase `p`. */
  ghost predicate RejectedFrom(o: Object, acts: seq<Action>, p: Phase) {
    var s := Run(o, Publish, acts);
    |s.versions| >= 2 && Last(s).phase == Rejected && s.intents != [] && s.versions[|s.versions| - 2].phase == p
  }

  /** A rejection can come after the action was carried out exactly when it lands on Approved. */
  lemma CarriedOutRejectionIff(o: Object, p: Phase)
    ensures (exists acts :: RejectedFrom(o, acts, p)) <==> p == Approved
  {
    if p == Approved {
      var acts := RejectedYetCarriedOut(o, "x");
      assert RejectedFrom(o, acts, p);
    }
    forall acts | RejectedFrom(o, acts, p) ensures p == Approved {
      RunSafe(o, Publish, acts);
      var s := Run(o, Publish, acts);
      assert WasApproved(s.versions, s.intents[0]);
      var i :| 0 < i < |s.versions| && ApprovalAt(s.versions, i, s.intents[0]);
      assert Rank(s.versions[i].phase) == 4;
    }
  }

  // ---- Collection and the time to live ----

  /** Versions are stored in the order of the clock, from creation on. */
  ghost predicate Timed(o: Object, s: Sys) {
    && |s.times| == |s.versions| >= 1 && s.times[0] == o.created && o.created <= s.clock
    && (forall i | 0 <= i < |s.times| :: o.created <= s.times[i] <= s.clock)
    && (forall i, j | 0 <= i < j < |s.times| :: s.times[i] <= s.times[j])
    && (s.deleted ==> s.deletedAt > o.created + o.ttl)
  }

  lemma NextTimed(o: Object, s: Sys, a: Action)
    requires Wellformed(s) && Timed(o, s)
    ensures Timed(o, Next(o, s, a))
  {
  }

  lemma {:induction false} RunTimed(o: Object, creator: Job, acts: seq<Action>)
    ensures Timed(o, Run(o, creator, acts))
  {
    if acts != [] {
      RunTimed(o, creator, acts[..|acts| - 1]);
      NextTimed(o, Run(o, creator, acts[..|acts| - 1]), acts[|acts| - 1]);
    }
  }

  /** When the object reached its last version. */
  function Finished(s: Sys): int
    requires s.times != []
  {
    s.times[|s.times| - 1]
  }

  /** The collector deletes at this reading of the clock. */
  ghost predicate Deletes(o: Object, s: Sys, t: nat, now: int)
    requires Wellformed(s)
  {
    now >= s.clock && Next(o, s, Act(t, Answer(false, "", "", true, now))).deleted
  }

  /** No reading of the clock makes the collector delete before the time to live after the finish is over. */
  ghost predicate KeepsTtl(o: Object, s: Sys, t: nat)
    requires Wellformed(s) && s.times != []
  {
    forall now | Deletes(o, s, t, now) :: now > Finished(s) + o.ttl
  }

  /** The documented time to live runs from the terminal phase; the code counts from creation. A
      collector that holds a terminal object keeps the documented promise, whenever it gets to run,
      exactly when the promised time is already over or the object finished the moment it was
      created. */
  lemma KeepsFinishedTtlIff(o: Object, creator: Job, acts: seq<Action>, t: nat)
    requires creator.Publish? || creator.PublishAuto?
    requires var s := Run(o, creator, acts); !s.deleted && t in s.tasks && s.tasks[t].job == Collect
    ensures var s := Run(o, creator, acts);
            && s.times != [] && IsTerminal(Last(s).phase)
            && (KeepsTtl(o, s, t) <==> s.clock > Finished(s) + o.ttl || Finished(s) == o.created)
  {
    var s := Run(o, creator, acts);
    RunSafe(o, creator, acts);
    CollectedIsTerminal(s, t);
    RunTimed(o, creator, acts);
    FinishedLater(o, s);
    KeepsTtlAt(o, s, t);
  }

  lemma CollectedIsTerminal(s: Sys, t: nat)
    requires Safe(s) && t in s.tasks && s.tasks[t].job == Collect
    ensures IsTerminal(Last(s).phase)
  {
    TerminalIsLast(s.versions, s.tasks[t].version);
  }

  lemma FinishedLater(o: Object, s: Sys)
    requires Timed(o, s)
    ensures s.times != [] && o.created <= Finished(s)
  {
  }

  lemma KeepsTtlAt(o: Object, s: Sys, t: nat)
    requires Wellformed(s) && !s.deleted && t in s.tasks && s.tasks[t].job == Collect && s.times != []
             && o.created <= Finished(s)
    ensures KeepsTtl(o, s, t) <==> s.clock > Finished(s) + o.ttl || Finished(s) == o.created
  {
    var f := Finished(s);
    if s.clock > f + o.ttl || f == o.created {
      forall now | Deletes(o, s, t, now) ensures now > f + o.ttl { DeletesWhen(o, s, t, now); }
    } else {
      var now := if s.clock > o.created + o.ttl then s.clock else o.created + o.ttl + 1;
      DeletesWhen(o, s, t, now);
      assert Deletes(o, s, t, now) && now <= f + o.ttl;
    }
  }

  lemma DeletesWhen(o: Object, s: Sys, t: nat, now: int)
    requires Wellformed(s) && !s.deleted && t in s.tasks && s.tasks[t].job == Collect
    ensures Deletes(o, s, t, now) <==> now >= s.clock && now > o.created + o.ttl
  {
  }

  /** An escalation that takes longer than its time to live is deleted the moment it finishes. */
  lemma DeletedAtOnce(o: Object) returns (acts: seq<Action>)
    requires o.ttl >= 0
    ensures var s := Run(o, Publish, acts);
            && s.times != [] && s.deleted && IsTerminal(Last(s).phase)
            && s.deletedAt == Finished(s) > o.created + o.ttl
  {
    var late := Answer(false, "", "", true, o.created + o.ttl + 1);
    acts := RejectedLate(o, late);
    RunSnoc(o, Publish, acts, Read(2, Collect, 2));
    var more := acts + [Read(2, Collect, 2)];
    RunSnoc(o, Publish, more, Act(2, late));
    CollectsNow(o, Run(o, Publish, acts), late);
    acts := more + [Act(2, late)];
  }

  lemma CollectsNow(o: Object, s: Sys, late: Answer)
    requires Wellformed(s) && |s.versions| == |s.times| == 3 && s.versions[2].phase == Rejected && s.clock == late.now
    requires s.tasks == map[] && !s.deleted && late.now > o.created + o.ttl
    ensures var s1 := Next(o, s, Read(2, Collect, 2));
            && Wellformed(s1)
            && var s2 := Next(o, s1, Act(2, late));
               s2.deleted && s2.deletedAt == late.now && s2.versions == s.versions && s2.times == s.times
  {
  }

  lemma RejectedLate(o: Object, late: Answer) returns (acts: seq<Action>)
    requires late.now >= o.created
    ensures var s := Run(o, Publish, acts);
            && |s.versions| == |s.times| == 3 && s.versions[2].phase == Rejected && s.times[2] == s.clock == late.now
            && s.tasks == map[] && !s.deleted
  {
    var a1 := PublishedRun(o);
    RunSnoc(o, Publish, a1, Read(1, Reject(""), 1));
    var a2 := a1 + [Read(1, Reject(""), 1)];
    assert Run(o, Publish, a2) == Early(o, [NEW, At(Pending, "")], map[1 := Task(Reject(""), 1)], []);
    RunSnoc(o, Publish, a2, Act(1, late));
    acts := a2 + [Act(1, late)];
  }

  // ---- The programs, run without interference ----

  datatype Snapshot = Snapshot(version: nat, status: Status)

  class ApiObject {
    var versions: seq<Status>
    var deleted: bool

    method Get() returns (r: Option<Snapshot>)
      requires versions != []
      ensures r == if deleted then None else Some(Snapshot(|versions| - 1, versions[|versions| - 1]))
    {
      r := if deleted then None else Some(Snapshot(|versions| - 1, versions[|versions| - 1]));
    }

    method StatusUpdate(version: nat, st: Status) returns (ok: bool)
      requires versions != []
      modifies this`versions
      ensures ok <==> !deleted && version == |old(versions)| - 1
      ensures versions == if ok then old(versions) + [st] else old(versions)
    {
      ok := !deleted && version == |versions| - 1;
      if ok {
        versions := versions + [st];
      }
    }
  }

  method RunApprove(api: ApiObject, who: string) returns (code: int)
    requires api.versions != []
    modifies api`versions
    ensures var last := old(api.versions)[|old(api.versions)| - 1];
            code == 0 <==> !api.deleted && last.phase == AwaitingApproval && last.proposedAction != ""
    ensures api.versions ==
            if code == 0 then
              old(api.versions) + [old(api.versions[|api.versions| - 1]).(phase := Approved, approvedBy := who)]
            else old(api.versions)
  {
    var esc := api.Get();
    if esc.None? {
      return 1;
    }
    var st := esc.value.status;
    if st.phase != AwaitingApproval {
      return 1;
    }
    if st.proposedAction == "" {
      return 1;
    }
    st := st.(phase := Approved, approvedBy := who);
    var ok := api.StatusUpdate(esc.value.version, st);
    code := if ok then 0 else 1;
  }

  method RunReject(api: ApiObject, reason: string) returns (code: int)
    requires api.versions != []
    modifies api`versions
    ensures var last := old(api.versions)[|old(api.versions)| - 1];
            code == 0 <==> !api.deleted && last.phase !in {AutoExecuted, Executed, Rejected, Failed}
    ensures api.versions ==
            if code == 0 then old(api.versions)
              + [old(api.versions[|api.versions| - 1]).(phase := Rejected,
                   rejectionReason := if reason == "" then "rejected via kubectl-claw" else reason)]
            else old(api.versions)
  {
    var why := reason;
    if why == "" {
      why := "rejected via kubectl-claw";
    }
    var esc := api.Get();
    if esc.None? {
      return 1;
    }
    var st := esc.value.status;
    if IsTerminal(st.phase) {
      return 1;
    }
    st := st.(phase := Rejected, rejectionReason := why);
    var ok := api.StatusUpdate(esc.value.version, st);
    code := if ok then 0 else 1;
  }

  /** The watcher on a listed, possibly stale, item: claim it, analyse it, report. A lost claim
      writes nothing at all. */
  method ProcessEscalation(api: ApiObject, item: Snapshot, a: Answer) returns (ok: bool)
    requires api.versions != []
    modifies api`versions
    ensures var live := item.status.phase == Pending && !api.deleted && item.version == |old(api.versions)| - 1;
            && (ok <==> item.status.phase != Pending || (live && !a.hardError))
            && api.versions ==
               if !live then old(api.versions)
               else old(api.versions)
                    + [item.status.(phase := Analyzing),
                       if a.hardError then item.status.(phase := Failed, analysis := a.text)
                       else item.status.(phase := AwaitingApproval, analysis := a.text, proposedAction := a.action)]
  {
    if item.status.phase != Pending {
      return true;
    }
    var st := item.status.(phase := Analyzing);
    ok := api.StatusUpdate(item.version, st);
    if !ok {
      return false;
    }
    if a.hardError {
      st := st.(phase := Failed, analysis := a.text);
      var _ := api.StatusUpdate(item.version + 1, st);
      return false;
    }
    st := st.(analysis := a.text, proposedAction := a.action);
    st := st.(phase := AwaitingApproval);
    ok := api.StatusUpdate(item.version + 1, st);
  }
}
