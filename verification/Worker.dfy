/** The worker as it runs: the runs table and the current delivery are objects that change in place,
    statement by statement. A delivery is shown to be a run of the events of module Lifecycle, so that
    what holds over all their interleavings holds of the code. */
module Worker {
  import opened Text
  import opened Intent
  import opened Validation
  import opened Protocol
  import opened Policy
  import opened Lifecycle
  import opened Findings
  import ReviewPipeline
  import SanitiseProofs
  import Sanitise
  import Executor

  // ---------- what a delivery meets ----------

  /** What the agent reports: the summary of a blocked verdict, if it is one, and its intents. */
  datatype AgentResult = AgentResult(blocked: Option<string>, intents: seq<Envelope>)

  /** Everything outside the worker that one delivery depends on. */
  datatype Delivery = Delivery(
    loads: bool, runtime: bool, sandbox: bool, readOnly: bool,
    clock: int, validates: int, executes: int,
    findings: Option<seq<Finding>>, agent: Option<AgentResult>,
    git: Git, greeting: Fates, execution: Fates,
    begin: Fate, place: Fate, complete: Fate, failStatus: Fate, failReason: Fate, handler: Fate)

  // ---------- what each pipeline hands to the executor ----------

  function FirstOpenPR(es: seq<Envelope>): (r: Option<Envelope>)
    ensures r.Some? ==> r.value in es && r.value.kind == OpenPR
    ensures r.None? ==> forall e :: e in es ==> e.kind != OpenPR
  {
    if es == [] then None else if es[0].kind == OpenPR then Some(es[0]) else FirstOpenPR(es[1..])
  }

  function UpgradePlan(g: Grant, d: Delivery): (r: Option<Envelope>)
    ensures r.Some? ==> r.value.kind == OpenPR
  {
    if d.begin != Done || d.clock > g.expiresAt || !d.sandbox || d.agent.None? then None else FirstOpenPR(d.agent.value.intents)
  }

  const BLOCKED := "**Bothos is blocked.**\n\n"
  const BLOCKED_REPLY := "\n\nNo pull request was opened. Please reply with one answer that resolves the blocker, then trigger a new labeled run."

  function BlockedBody(summary: string): string {
    BLOCKED
    + (if TrimSpace(summary) == "" then "The agent could not identify a safe complete change." else TrimSpace(summary))
    + BLOCKED_REPLY
  }

  function BlockedEnvelope(id: string, summary: string): Envelope {
    Envelope(SCHEMA_VERSION, id, PostComment, PostCommentPayload(BlockedBody(summary)))
  }

  predicate DraftPR(es: seq<Envelope>) { |es| == 1 && es[0].kind == OpenPR && es[0].payload.OpenPRPayload? && es[0].payload.draft }

  function IssuePlan(id: string, g: Grant, d: Delivery): Option<Envelope> {
    if d.begin != Done || g.scope.kind != Issue || g.scope.number < 1 || d.clock > g.expiresAt || !d.sandbox || d.agent.None? then None
    else if d.agent.value.blocked.Some? then Some(BlockedEnvelope(id, d.agent.value.blocked.value))
    else if DraftPR(d.agent.value.intents) then Some(d.agent.value.intents[0])
    else None
  }

  predicate ReviewScope(s: Scope) { s.kind == PullRequest && s.number != 0 && !Blank(s.baseSHA) && !Blank(s.headSHA) }

  /** The agent's own review, validated, once everything before it went well. */
  function ModelReview(g: Grant, d: Delivery): (r: Option<Payload>)
    ensures r.Some? ==> r.value.PostReviewPayload? && d.findings.Some?
  {
    if d.begin != Done || !ReviewScope(g.scope) || d.clock > g.expiresAt || !d.sandbox || d.findings.None? || d.agent.None? || !d.readOnly then None
    else if |d.agent.value.intents| != 1 || d.agent.value.intents[0].kind != PostReview then None
    else match Validate(d.agent.value.intents[0], g, d.validates)
      case Err(_) => None
      case Ok(p) => if p.PostReviewPayload? then Some(p) else None
  }

  function TrustedEnvelope(id: string, g: Grant, model: Payload, ordered: seq<Finding>): (r: Envelope)
    requires model.PostReviewPayload?
    ensures r.kind == PostReview
  {
    Envelope(SCHEMA_VERSION, id, PostReview, ReviewPipeline.Trusted(ordered, model, g.limits.maxComments))
  }

  /** The review a pipeline hands over is one the executor accepts, while the grant lasts: with findings a
      review can carry, in whatever order, no review run fails on its own validation. */
  lemma HandedReviewIsAccepted(g: Grant, d: Delivery, ordered: seq<Finding>)
    requires ModelReview(g, d).Some? && d.executes <= g.expiresAt && forall f :: f in ordered ==> Presentable(f)
    ensures var r := Validate(TrustedEnvelope(g.runId, g, ModelReview(g, d).value, ordered), g, d.executes);
      r.Ok? && r.value.PostReviewPayload?
      && ReviewPipeline.Faithful(r.value.comments, ordered, ModelReview(g, d).value.comments, g.limits.maxComments, g.scope)
  {
    hide Validate, ReviewPipeline.Faithful, ReviewPipeline.Trusted, Presentable, Blank, ReviewScope;
    var env2 := TrustedEnvelope(g.runId, g, ModelReview(g, d).value, ordered);
    ReviewPipeline.TrustedReviewIsAccepted(env2, ordered, d.agent.value.intents[0], ModelReview(g, d).value, g, d.validates, d.executes);
  }

  lemma BlockedBodyIsVisible(summary: string)
    ensures BlockedBody(summary) != "" && IsGraphic(BlockedBody(summary)[0])
  {
    assert BLOCKED[0] == '*';
    hide BLOCKED, BLOCKED_REPLY, TrimSpace;
  }

  /** So is the comment of a blocked issue run, whatever the agent said, under the grant that policy gave
      the run, unless the grant has expired. */
  lemma BlockedCommentIsAccepted(tr: Trigger, r: Rules, id: string, issued: int, summary: string, now: int)
    requires tr.kind == IssueLabeledTrigger && tr.number != 0 && Decide(tr, r, id, issued).Ok?
    ensures var g := Decide(tr, r, id, issued).value;
      Validate(BlockedEnvelope(id, summary), g, now).Ok? <==> now <= issued + HOUR
  {
    hide BlockedBody, Sanitise.SanitiseBody, Blank;
    var g := Decide(tr, r, id, issued).value;
    BlockedBodyIsVisible(summary);
    SanitiseProofs.GraphicHeadSurvives(BlockedBody(summary), g.limits.maxBodyBytes, Own(g.scope));
  }

  /** The executor answers with a reference. */
  predicate Executes(w: World, g: Grant, env: Envelope, d: Delivery) { Performed(w, g, env, d.executes, d.git, d.execution).result.Ok? }

  /** The world when the pipeline comes to the executor: a manual review has been acknowledged. */
  function Greeted(w: World, g: Grant, t: RunTrigger, d: Delivery): World {
    if t == WebhookPullRequest && g.manual then Protocol.Acknowledge(w, g, d.greeting).0 else w
  }

  /** The executor accepts, and both statements after it are answered. */
  predicate Concludes(w: World, g: Grant, t: RunTrigger, env: Envelope, d: Delivery) {
    Executes(Greeted(w, g, t, d), g, env, d) && d.place == Done && d.complete == Done
  }

  /** What was handed over is carried through to its final status. */
  predicate Completes(w: World, g: Grant, t: RunTrigger, handed: seq<Envelope>, d: Delivery) {
    handed != [] && Concludes(w, g, t, handed[0], d)
  }

  function StatusFor(handed: seq<Envelope>): Status { if handed != [] && handed[0].kind == PostComment then NeedsInput else Succeeded }

  /** What a delivery hands to the executor: what its pipeline plans, and nothing where it does not get there. */
  ghost predicate Hands(id: string, t: RunTrigger, g: Grant, d: Delivery, handed: seq<Envelope>) {
    if !d.loads || !d.runtime then handed == []
    else match t
      case Upgrade => handed == Listed(UpgradePlan(g, d))
      case WebhookIssueLabeled => handed == Listed(IssuePlan(id, g, d))
      case WebhookPullRequest =>
        if ModelReview(g, d).None? then handed == []
        else exists ordered :: ReviewPipeline.InOrder(ordered, d.findings.value) && handed == [TrustedEnvelope(id, g, ModelReview(g, d).value, ordered)]
  }

  /** The handoff of a blocked run: it says so, and gives the agent's reason where there is one. */
  ghost predicate SaysBlocked(text: string, reason: string) {
    && HasPrefix(text, "**Bothos is blocked.**\n\n")
    && (TrimSpace(reason) != "" ==> OccursAt(text, TrimSpace(reason), |BLOCKED|))
    && HasSuffix(text, "then trigger a new labeled run.")
  }

  lemma BlockedBodySays(reason: string)
    ensures SaysBlocked(BlockedBody(reason), reason)
  {
    var t, words := BlockedBody(reason), if TrimSpace(reason) == "" then "The agent could not identify a safe complete change." else TrimSpace(reason);
    assert t == BLOCKED + words + BLOCKED_REPLY;
    assert t[|t| - |BLOCKED_REPLY|..] == BLOCKED_REPLY;
    ReplyEnds();
    hide TrimSpace, BlockedBody, BLOCKED_REPLY;
    assert t[..|BLOCKED|] == BLOCKED;
    assert t[|BLOCKED|..|BLOCKED| + |words|] == words;
    SuffixOfSuffix(t, BLOCKED_REPLY, "then trigger a new labeled run.");
  }

  lemma ReplyEnds()
    ensures HasSuffix(BLOCKED_REPLY, "then trigger a new labeled run.")
  {
  }

  lemma SuffixOfSuffix(s: string, t: string, u: string)
    requires HasSuffix(s, t) && HasSuffix(t, u)
    ensures HasSuffix(s, u)
  {
    assert s[|s| - |t|..][|t| - |u|..] == s[|s| - |u|..];
  }

  /** An issue run hands over one draft pull request, the agent's only intent, or says that it is blocked. */
  ghost predicate IssueHandover(env: Envelope, g: Grant, d: Delivery) {
    && d.begin == Done && g.scope.kind == Issue && g.scope.number >= 1 && d.clock <= g.expiresAt && d.agent.Some?
    && (if d.agent.value.blocked.Some? then env.kind == PostComment && env.payload.PostCommentPayload? && SaysBlocked(env.payload.text, d.agent.value.blocked.value)
        else d.agent.value.intents == [env] && env.kind == OpenPR && env.payload.OpenPRPayload? && env.payload.draft)
  }

  /** A review is handed over for a pull request at two known commits, where the findings are there, the agent was
      kept from writing and its only intent, a review, was accepted. */
  ghost predicate ReviewHandover(env: Envelope, g: Grant, d: Delivery) {
    && d.begin == Done && d.clock <= g.expiresAt && d.agent.Some? && d.findings.Some? && d.readOnly
    && g.scope.kind == PullRequest && g.scope.number != 0 && !Blank(g.scope.baseSHA) && !Blank(g.scope.headSHA)
    && |d.agent.value.intents| == 1 && d.agent.value.intents[0].kind == PostReview
    && Validate(d.agent.value.intents[0], g, d.validates).Ok? && env.kind == PostReview
  }

  /** An upgrade run hands over the first pull request of the agent's intents. */
  ghost predicate UpgradeHandover(env: Envelope, g: Grant, d: Delivery) {
    && d.begin == Done && d.clock <= g.expiresAt && d.agent.Some? && env.kind == OpenPR
    && exists i :: 0 <= i < |d.agent.value.intents| && d.agent.value.intents[i] == env
        && forall j :: 0 <= j < i ==> d.agent.value.intents[j].kind != OpenPR
  }

  lemma {:induction false} FirstOpenPRIsFirst(es: seq<Envelope>)
    requires FirstOpenPR(es).Some?
    ensures exists i :: 0 <= i < |es| && es[i] == FirstOpenPR(es).value && forall j :: 0 <= j < i ==> es[j].kind != OpenPR
  {
    if es[0].kind != OpenPR {
      FirstOpenPRIsFirst(es[1..]);
      var i :| 0 <= i < |es[1..]| && es[1..][i] == FirstOpenPR(es).value && forall j :: 0 <= j < i ==> es[1..][j].kind != OpenPR;
      assert es[i + 1] == es[1..][i];
      forall j | 0 <= j < i + 1 ensures es[j].kind != OpenPR { if j > 0 { assert es[j] == es[1..][j - 1]; } }
    }
  }

  /** A delivery hands over at most one envelope, and only where its run is in order. */
  lemma HandedInOrder(id: string, t: RunTrigger, g: Grant, d: Delivery, handed: seq<Envelope>)
    requires Hands(id, t, g, d, handed)
    ensures |handed| <= 1 && (handed != [] ==> d.loads && d.runtime && d.sandbox)
    ensures handed != [] ==> match t
      case WebhookIssueLabeled => IssueHandover(handed[0], g, d)
      case WebhookPullRequest => ReviewHandover(handed[0], g, d)
      case Upgrade => UpgradeHandover(handed[0], g, d)
  {
    hide Validate, SaysBlocked, BlockedBody, Blank;
    if t == WebhookIssueLabeled && d.agent.Some? && d.agent.value.blocked.Some? { BlockedBodySays(d.agent.value.blocked.value); }
    if t == Upgrade && d.agent.Some? && FirstOpenPR(d.agent.value.intents).Some? { FirstOpenPRIsFirst(d.agent.value.intents); }
  }

  // ---------- reading a trace ----------

  /** The envelopes handed to the executor, in order. */
  function Handed(trace: seq<Event>): seq<Envelope> {
    if trace == [] then []
    else Handed(trace[..|trace| - 1]) + (if trace[|trace| - 1].Perform? then [trace[|trace| - 1].env] else [])
  }

  lemma Traced(s0: System, trace: seq<Event>, e: Event)
    ensures Later(s0, trace + [e]) == Happens(Later(s0, trace), e)
    ensures Handed(trace + [e]) == if e.Perform? then Handed(trace) + [e.env] else Handed(trace)
  {
    assert (trace + [e])[..|trace|] == trace;
    hide Happens;
  }

  lemma AdvanceHappens(s: System, id: string, e: Event)
    requires Advances(e) && e.id == id && id in s.jobs && id in s.runs && s.runs[id].decision.Allow?
    ensures var (row, p) := Advance(s.runs[id], PhaseOf(s, id), e); Happens(s, e) == Put(s, id, row, p)
  {
    hide Advance, Put, Execute, Validate, Next, Protocol.Acknowledge, Decide, AlreadyScheduled;
  }

  lemma CompleteHappens(s: System, id: string, f: Fate, ref: string, k: Kind)
    requires id in s.jobs && id in s.runs && s.runs[id].decision.Allow? && PhaseOf(s, id) == Some(Placed(ref, k))
    ensures Happens(s, Complete(id, f))
      == Put(s, id, SetStatus(s.runs[id], if k == PostComment then NeedsInput else Succeeded, f), if f == Done then None else Some(Failing))
  {
    AdvanceHappens(s, id, Complete(id, f));
    hide Happens, Put, SetStatus;
  }

  // ---------- the runs table ----------

  class RunStore {
    var runs: map<string, Row>
    var jobs: seq<string>

    method InsertRun(id: string, row: Row, f: Fate) returns (ok: bool)
      modifies this`runs
      ensures runs == Lifecycle.InsertRun(old(runs), id, row, f)
      ensures ok <==> f == Done && id !in old(runs)
    {
      ok := f == Done && id !in runs;
      if TookEffect(f) && id !in runs { runs := runs[id := row]; }
    }

    /** The transaction of `InsertRunTx` and `EnqueueTx`: both take effect or neither does. */
    method InsertWithJob(id: string, row: Row, f: Fate) returns (ok: bool)
      modifies this
      ensures runs == Lifecycle.InsertRun(old(runs), id, row, f)
      ensures jobs == if TookEffect(f) && id !in old(runs) then old(jobs) + [id] else old(jobs)
      ensures ok <==> f == Done && id !in old(runs)
    {
      ok := f == Done && id !in runs;
      if TookEffect(f) && id !in runs { runs, jobs := runs[id := row], jobs + [id]; }
    }

    method SetRunStatus(id: string, status: Status, f: Fate) returns (ok: bool)
      modifies this`runs
      ensures runs == if id in old(runs) then old(runs)[id := SetStatus(old(runs)[id], status, f)] else old(runs)
      ensures ok <==> f == Done
    {
      ok := f == Done;
      if TookEffect(f) && id in runs { runs := runs[id := runs[id].(status := status)]; }
      else if id in runs { assert runs[id := runs[id]] == runs; }
    }

    method SetRunRef(id: string, ref: string, f: Fate) returns (ok: bool)
      modifies this`runs
      ensures runs == if id in old(runs) then old(runs)[id := SetRef(old(runs)[id], ref, f)] else old(runs)
      ensures ok <==> f == Done
    {
      ok := f == Done;
      if TookEffect(f) && id in runs { runs := runs[id := runs[id].(ref := Some(ref))]; }
      else if id in runs { assert runs[id := runs[id]] == runs; }
    }
  }

  // ---------- where runs come from ----------

  /** `HandleEvent`, for a trigger; `r` is None if the rules could not be loaded. */
  method HandleEvent(store: RunStore, t: Trigger, r: Option<Rules>, id: string, now: int, f: Fate,
                     ghost w: World, ghost active: map<string, Phase>, ghost scheduling: map<string, Target>)
    returns (ok: bool)
    modifies store
    ensures var s := System(w, old(store.runs), old(store.jobs), active, scheduling);
      System(w, store.runs, store.jobs, active, scheduling) == if r.None? then s else Dispatched(s, t, r.value, id, now, f)
  {
    hide Decide;
    var trigger;
    match t.kind {
      case PullRequestTrigger => trigger := WebhookPullRequest;
      case IssueLabeledTrigger => trigger := WebhookIssueLabeled;
      case _ => return true;
    }
    if r.None? { return false; }
    var repoId := t.owner + "/" + t.name;
    match Decide(t, r.value, id, now) {
      case Err(reason) => ok := store.InsertRun(id, Row(repoId, trigger, Deny(reason), DeniedRun, None), f);
      case Ok(g) => ok := store.InsertWithJob(id, Row(repoId, trigger, Allow(g), Queued, None), f);
    }
  }

  /** `Schedule` up to the count of `alreadyScheduled`: whether to go on. */
  method CountOutstanding(store: RunStore, call: string, t: Target, enabled: bool, counted: bool,
                          ghost w: World, ghost active: map<string, Phase>, ghost scheduling: map<string, Target>)
    returns (go: bool)
    requires call !in scheduling
    ensures Counted(System(w, store.runs, store.jobs, active, scheduling), call, t, enabled, counted)
      == System(w, store.runs, store.jobs, active, if go then scheduling[call := t] else scheduling)
    ensures go <==> enabled && counted && forall id :: id in store.runs ==>
      !(store.runs[id].trigger == Upgrade && store.runs[id].repoId == t.owner + "/" + t.name && (store.runs[id].status == Queued || store.runs[id].status == Running))
  {
    if !enabled { return false; }
    if !counted { return false; }
    go := !AlreadyScheduled(store.runs, t.owner + "/" + t.name);
  }

  /** And from there on, whatever has happened in between. */
  method InsertUpgrade(store: RunStore, call: string, t: Target, base: Option<string>, id: string, now: int, f: Fate,
                       ghost w: World, ghost active: map<string, Phase>, ghost scheduling: map<string, Target>)
    returns (queued: nat)
    requires call in scheduling && scheduling[call] == t
    modifies store
    ensures System(w, store.runs, store.jobs, active, scheduling - {call})
      == Inserted(System(w, old(store.runs), old(store.jobs), active, scheduling), call, base, id, now, f)
    ensures queued <= 1 && (queued == 1 ==> store.jobs == old(store.jobs) + [id])
  {
    if base.None? { return 0; }
    var ok := store.InsertWithJob(id, UpgradeRow(t, base.value, id, now), f);
    queued := if ok then 1 else 0;
  }

  /** `Schedule`, where nothing comes between: one event after the other. */
  method ScheduleUpgrade(store: RunStore, call: string, t: Target, base: Option<string>, enabled: bool, counted: bool, id: string, now: int, f: Fate,
                         ghost w: World, ghost active: map<string, Phase>, ghost scheduling: map<string, Target>)
    returns (queued: nat)
    requires call !in scheduling
    modifies store
    ensures System(w, store.runs, store.jobs, active, scheduling)
      == Inserted(Counted(System(w, old(store.runs), old(store.jobs), active, scheduling), call, t, enabled, counted), call, base, id, now, f)
    ensures queued <= 1 && (queued == 1 ==> store.jobs == old(store.jobs) + [id])
  {
    hide AlreadyScheduled, UpgradeRow;
    var go := CountOutstanding(store, call, t, enabled, counted, w, active, scheduling);
    if !go { return 0; }
    hide Counted, Inserted;
    queued := InsertUpgrade(store, call, t, base, id, now, f, w, active, scheduling[call := t]);
    assert scheduling[call := t] - {call} == scheduling;
  }

  // ---------- the worker ----------

  class Worker {
    const store: RunStore
    const exec: Executor.Executor
    ghost var active: map<string, Phase>
    ghost var scheduling: map<string, Target> // calls of the scheduler, which runs elsewhere

    constructor (store: RunStore, exec: Executor.Executor)
      ensures this.store == store && this.exec == exec && active == map[] && scheduling == map[]
    {
      this.store, this.exec, active, scheduling := store, exec, map[], map[];
    }

    ghost function State(): System
      reads this, store, exec, exec.gh, exec.ledger
    {
      System(exec.State(), store.runs, store.jobs, active, scheduling)
    }

    /** The run has a job, was allowed with this grant, and its delivery has come this far. */
    ghost predicate On(id: string, g: Grant, t: RunTrigger, p: Option<Phase>)
      reads this, store
    {
      && id in store.jobs && id in store.runs && store.runs[id].decision == Allow(g) && store.runs[id].trigger == t
      && p == if id in active then Some(active[id]) else None
    }

    ghost method Enter(id: string, g: Grant, t: RunTrigger)
      requires On(id, g, t, None)
      modifies this`active
      ensures On(id, g, t, Some(Claimed)) && State() == Happens(old(State()), Claim(id))
    {
      AdvanceHappens(State(), id, Claim(id));
      hide Happens;
      active := active[id := Claimed];
      assert store.runs[id := store.runs[id]] == store.runs;
    }

    ghost method Abandon(id: string, g: Grant, t: RunTrigger, p: Phase)
      requires On(id, g, t, Some(p))
      modifies this`active
      ensures On(id, g, t, Some(Failing)) && State() == Happens(old(State()), GiveUp(id))
    {
      AdvanceHappens(State(), id, GiveUp(id));
      hide Happens;
      active := active[id := Failing];
      assert store.runs[id := store.runs[id]] == store.runs;
    }

    ghost method Exit(id: string, g: Grant, t: RunTrigger)
      requires On(id, g, t, Some(Failing))
      modifies this`active
      ensures On(id, g, t, None) && State() == Happens(old(State()), Leave(id))
    {
      AdvanceHappens(State(), id, Leave(id));
      hide Happens;
      active := active - {id};
      assert store.runs[id := store.runs[id]] == store.runs;
    }

    method MarkRunning(id: string, f: Fate, ghost g: Grant, ghost t: RunTrigger) returns (ok: bool)
      requires On(id, g, t, Some(Claimed))
      modifies this`active, store`runs
      ensures On(id, g, t, Some(if ok then Working else Failing)) && State() == Happens(old(State()), Begin(id, f))
      ensures ok <==> f == Done
    {
      AdvanceHappens(State(), id, Begin(id, f));
      hide Happens;
      ok := store.SetRunStatus(id, Running, f);
      active := active[id := if ok then Working else Failing];
    }

    method RecordRef(id: string, ref: string, f: Fate, ghost k: Kind, ghost g: Grant, ghost t: RunTrigger) returns (ok: bool)
      requires On(id, g, t, Some(Wrote(ref, k)))
      modifies this`active, store`runs
      ensures On(id, g, t, Some(if ok then Placed(ref, k) else Failing)) && State() == Happens(old(State()), Place(id, f))
      ensures ok <==> f == Done
    {
      AdvanceHappens(State(), id, Place(id, f));
      hide Happens;
      ok := store.SetRunRef(id, ref, f);
      active := active[id := if ok then Placed(ref, k) else Failing];
    }

    /** `SetRunStatus(succeeded)`, or `SetRunNeedsInput` after a blocked comment. */
    method Conclude(id: string, status: Status, f: Fate, ghost ref: string, ghost k: Kind, ghost g: Grant, ghost t: RunTrigger) returns (ok: bool)
      requires On(id, g, t, Some(Placed(ref, k))) && status == if k == PostComment then NeedsInput else Succeeded
      modifies this`active, store`runs
      ensures On(id, g, t, if ok then None else Some(Failing)) && State() == Happens(old(State()), Complete(id, f))
      ensures ok <==> f == Done
      ensures ok ==> store.runs[id].status == status
    {
      ghost var s := State();
      CompleteHappens(s, id, f, ref, k);
      hide Happens, Advance;
      ok := store.SetRunStatus(id, status, f);
      active := if ok then active - {id} else active[id := Failing];
      assert State() == Put(s, id, SetStatus(s.runs[id], status, f), if ok then None else Some(Failing));
      hide Put;
    }

    /** `SetRunStatus(failed)`, or the status that `SetRunFailure` sets. */
    method Mark(id: string, f: Fate, ghost g: Grant, ghost t: RunTrigger)
      requires On(id, g, t, Some(Failing))
      modifies store`runs
      ensures On(id, g, t, Some(Failing)) && State() == Happens(old(State()), MarkFailed(id, f))
      ensures TookEffect(f) ==> store.runs[id].status == FailedRun
    {
      AdvanceHappens(State(), id, MarkFailed(id, f));
      hide Happens;
      assert active[id := Failing] == active;
      var ok := store.SetRunStatus(id, FailedRun, f);
    }

    /** The acknowledgement of a manual review; that it fails is only logged. */
    method Welcome(id: string, g: Grant, f: Fates, ghost t: RunTrigger)
      requires On(id, g, t, Some(Working))
      modifies exec.gh, exec.ledger
      ensures On(id, g, t, Some(Working)) && State() == Happens(old(State()), Greet(id, f))
      ensures exec.State() == Protocol.Acknowledge(old(exec.State()), g, f).0
    {
      hide Protocol.Acknowledge, Advance, Put, Execute, Validate, Next, Decide, AlreadyScheduled;
      var ok := exec.AcknowledgeReview(g, f);
    }

    method HandToExecutor(id: string, env: Envelope, g: Grant, now: int, git: Git, f: Fates, ghost t: RunTrigger) returns (r: Result<Outcome, Failure>)
      requires On(id, g, t, Some(Working)) && Fits(t, env.kind)
      modifies this`active, exec.gh, exec.ledger
      ensures On(id, g, t, Some(if r.Ok? then Wrote(r.value.ref, env.kind) else Failing))
      ensures State() == Happens(old(State()), Perform(id, env, now, git, f))
      ensures r == Performed(old(exec.State()), g, env, now, git, f).result
    {
      ghost var s := State();
      PerformHappens(s, id, env, now, git, f, g, t);
      hide Happens, Protocol.Execute, Validate, Fits;
      r := exec.Execute(env, g, git, now, f);
      active := active[id := if r.Ok? then Wrote(r.value.ref, env.kind) else Failing];
    }

    // ---------- the pipelines ----------

    /** The `fail` closure of a pipeline. */
    method Fail(id: string, d: Delivery, ghost g: Grant, ghost t: RunTrigger, ghost s0: System, ghost before: seq<Event>) returns (ghost trace: seq<Event>)
      requires On(id, g, t, Some(Failing)) && State() == Later(s0, before)
      modifies store`runs
      ensures On(id, g, t, Some(Failing)) && State() == Later(s0, trace) && Handed(trace) == Handed(before)
    {
      hide Later, Happens, Handed;
      Mark(id, d.failStatus, g, t);
      Traced(s0, before, MarkFailed(id, d.failStatus));
      trace := before + [MarkFailed(id, d.failStatus)];
      Mark(id, d.failReason, g, t);
      Traced(s0, trace, MarkFailed(id, d.failReason));
      trace := trace + [MarkFailed(id, d.failReason)];
    }

    /** `fail` before the executor is called. */
    method FailEarly(id: string, d: Delivery, ghost g: Grant, ghost t: RunTrigger, ghost p: Phase, ghost s0: System, ghost before: seq<Event>) returns (ghost trace: seq<Event>)
      requires On(id, g, t, Some(p)) && State() == Later(s0, before)
      modifies this`active, store`runs
      ensures On(id, g, t, Some(Failing)) && State() == Later(s0, trace) && Handed(trace) == Handed(before)
    {
      hide Later, Happens, Handed;
      Traced(s0, before, GiveUp(id));
      Abandon(id, g, t, p);
      trace := Fail(id, d, g, t, s0, before + [GiveUp(id)]);
    }

    /** What the pipelines share: hand over, record the reference, conclude. */
    method Finish(id: string, env: Envelope, d: Delivery, g: Grant, status: Status, ghost t: RunTrigger, ghost s0: System, ghost before: seq<Event>)
      returns (executed: bool, placed: bool, ok: bool, ghost trace: seq<Event>)
      requires On(id, g, t, Some(Working)) && Fits(t, env.kind) && State() == Later(s0, before)
      requires status == if env.kind == PostComment then NeedsInput else Succeeded
      modifies this`active, store`runs, exec.gh, exec.ledger
      ensures State() == Later(s0, trace) && Handed(trace) == Handed(before) + [env]
      ensures On(id, g, t, if ok then None else Some(Failing))
      ensures executed <==> Executes(old(exec.State()), g, env, d)
      ensures placed <==> executed && d.place == Done
      ensures ok <==> placed && d.complete == Done
      ensures ok ==> store.runs[id].status == status
    {
      hide Later, Happens, Handed, Fits, Performed;
      var r := HandToExecutor(id, env, g, d.executes, d.git, d.execution, t);
      Traced(s0, before, Perform(id, env, d.executes, d.git, d.execution));
      trace := before + [Perform(id, env, d.executes, d.git, d.execution)];
      if r.Err? { return false, false, false, trace; }
      placed := RecordRef(id, r.value.ref, d.place, env.kind, g, t);
      Traced(s0, trace, Place(id, d.place));
      trace := trace + [Place(id, d.place)];
      if !placed { return true, false, false, trace; }
      ok := Conclude(id, status, d.complete, r.value.ref, env.kind, g, t);
      Traced(s0, trace, Complete(id, d.complete));
      trace := trace + [Complete(id, d.complete)];
      executed := true;
    }

    /** `Pipeline.Run`, after the run is loaded. */
    method RunUpgrade(id: string, g: Grant, d: Delivery, ghost s0: System, ghost before: seq<Event>) returns (ok: bool, ghost trace: seq<Event>)
      requires On(id, g, Upgrade, Some(Claimed)) && State() == Later(s0, before) && Handed(before) == []
      modifies this`active, store`runs, exec.gh, exec.ledger
      ensures State() == Later(s0, trace) && Handed(trace) == Listed(UpgradePlan(g, d))
      ensures var plan := UpgradePlan(g, d); var done := plan.Some? && Concludes(old(exec.State()), g, Upgrade, plan.value, d);
        && On(id, g, Upgrade, if done then None else Some(Failing))
        && (done ==> ok && store.runs[id].status == Succeeded)
        && (ok && !done ==> store.runs[id].status == FailedRun)
    {
      hide Later, Happens, Handed, Performed, Executes;
      var running := MarkRunning(id, d.begin, g, Upgrade);
      Traced(s0, before, Begin(id, d.begin));
      trace := before + [Begin(id, d.begin)];
      if !running { return false, trace; }
      if d.clock > g.expiresAt || !d.sandbox || d.agent.None? {
        trace := FailEarly(id, d, g, Upgrade, Working, s0, trace);
        return false, trace;
      }
      var openPR := None;
      var es := d.agent.value.intents;
      for i := 0 to |es|
        invariant openPR == None && FirstOpenPR(es) == FirstOpenPR(es[i..])
      {
        assert es[i..][1..] == es[i + 1..];
        if es[i].kind == OpenPR {
          openPR := Some(es[i]);
          break;
        }
      }
      if openPR.None? {
        if d.agent.value.blocked.Some? {
          // a stand-down: the reason is recorded and the job is done
          Traced(s0, trace, GiveUp(id));
          Abandon(id, g, Upgrade, Working);
          trace := trace + [GiveUp(id)];
          Mark(id, d.failReason, g, Upgrade);
          Traced(s0, trace, MarkFailed(id, d.failReason));
          return d.failReason == Done, trace + [MarkFailed(id, d.failReason)];
        }
        trace := FailEarly(id, d, g, Upgrade, Working, s0, trace);
        return false, trace;
      }
      var executed, placed;
      executed, placed, ok, trace := Finish(id, openPR.value, d, g, Succeeded, Upgrade, s0, trace);
      if !executed { trace := Fail(id, d, g, Upgrade, s0, trace); }
    }

    /** `IssuePipeline.Run`, after the run is loaded. */
    method RunIssue(id: string, g: Grant, d: Delivery, ghost s0: System, ghost before: seq<Event>) returns (ok: bool, ghost trace: seq<Event>)
      requires On(id, g, WebhookIssueLabeled, Some(Claimed)) && State() == Later(s0, before) && Handed(before) == []
      modifies this`active, store`runs, exec.gh, exec.ledger
      ensures State() == Later(s0, trace) && Handed(trace) == Listed(IssuePlan(id, g, d))
      ensures On(id, g, WebhookIssueLabeled, if ok then None else Some(Failing))
      ensures var plan := IssuePlan(id, g, d);
        && (ok <==> plan.Some? && Concludes(old(exec.State()), g, WebhookIssueLabeled, plan.value, d))
        && (ok ==> store.runs[id].status == if plan.value.kind == PostComment then NeedsInput else Succeeded)
    {
      hide Later, Happens, Handed, BlockedBody, Performed, Executes;
      var running := MarkRunning(id, d.begin, g, WebhookIssueLabeled);
      Traced(s0, before, Begin(id, d.begin));
      trace := before + [Begin(id, d.begin)];
      if !running { return false, trace; }
      if g.scope.kind != Issue || g.scope.number < 1 || d.clock > g.expiresAt || !d.sandbox || d.agent.None? {
        trace := FailEarly(id, d, g, WebhookIssueLabeled, Working, s0, trace);
        return false, trace;
      }
      var executed, placed;
      if d.agent.value.blocked.Some? {
        // the handoff: errors go straight back to the handler
        executed, placed, ok, trace := Finish(id, BlockedEnvelope(id, d.agent.value.blocked.value), d, g, NeedsInput, WebhookIssueLabeled, s0, trace);
        return ok, trace;
      }
      if !DraftPR(d.agent.value.intents) {
        trace := FailEarly(id, d, g, WebhookIssueLabeled, Working, s0, trace);
        return false, trace;
      }
      executed, placed, ok, trace := Finish(id, d.agent.value.intents[0], d, g, Succeeded, WebhookIssueLabeled, s0, trace);
      if !executed { trace := Fail(id, d, g, WebhookIssueLabeled, s0, trace); }
    }

    /** `ReviewPipeline.Run`, after the run is loaded. */
    method RunReview(id: string, g: Grant, d: Delivery, ghost s0: System, ghost before: seq<Event>)
      returns (ok: bool, ghost trace: seq<Event>, ghost ordered: seq<Finding>)
      requires On(id, g, WebhookPullRequest, Some(Claimed)) && State() == Later(s0, before) && Handed(before) == []
      modifies this`active, store`runs, exec.gh, exec.ledger
      ensures State() == Later(s0, trace)
      ensures Handed(trace) == match ModelReview(g, d) case None => [] case Some(model) => [TrustedEnvelope(id, g, model, ordered)]
      ensures ModelReview(g, d).Some? ==> ReviewPipeline.InOrder(ordered, d.findings.value)
      ensures On(id, g, WebhookPullRequest, if ok then None else Some(Failing))
      ensures ok <==> (
        ModelReview(g, d).Some? && Concludes(old(exec.State()), g, WebhookPullRequest, TrustedEnvelope(id, g, ModelReview(g, d).value, ordered), d))
      ensures ok ==> store.runs[id].status == Succeeded
    {
      hide Later, Happens, Handed, Validate, ReviewPipeline.Trusted, ReviewPipeline.InOrder, Blank, Performed, Executes, Protocol.Acknowledge, ReviewScope;
      ordered := [];
      var running := MarkRunning(id, d.begin, g, WebhookPullRequest);
      Traced(s0, before, Begin(id, d.begin));
      trace := before + [Begin(id, d.begin)];
      if !running { return false, trace, ordered; }
      if !ReviewScope(g.scope) || d.clock > g.expiresAt {
        trace := FailEarly(id, d, g, WebhookPullRequest, Working, s0, trace);
        return false, trace, ordered;
      }
      if g.manual {
        Welcome(id, g, d.greeting, WebhookPullRequest);
        Traced(s0, trace, Greet(id, d.greeting));
        trace := trace + [Greet(id, d.greeting)];
      }
      if !d.sandbox || d.findings.None? || d.agent.None? || !d.readOnly || |d.agent.value.intents| != 1 || d.agent.value.intents[0].kind != PostReview {
        trace := FailEarly(id, d, g, WebhookPullRequest, Working, s0, trace);
        return false, trace, ordered;
      }
      var decoded := Validate(d.agent.value.intents[0], g, d.validates);
      if decoded.Err? || !decoded.value.PostReviewPayload? {
        trace := FailEarly(id, d, g, WebhookPullRequest, Working, s0, trace);
        return false, trace, ordered;
      }
      var trusted := ReviewPipeline.BuildTrusted(d.findings.value, decoded.value, g.limits.maxComments);
      ordered :| ReviewPipeline.InOrder(ordered, d.findings.value) && trusted == ReviewPipeline.Trusted(ordered, decoded.value, g.limits.maxComments);
      var executed, placed;
      executed, placed, ok, trace := Finish(id, Envelope(SCHEMA_VERSION, id, PostReview, trusted), d, g, Succeeded, WebhookPullRequest, s0, trace);
      if !executed || !placed { trace := Fail(id, d, g, WebhookPullRequest, s0, trace); }
    }

    /** The pipeline of the run's trigger. */
    method RunPipeline(id: string, g: Grant, t: RunTrigger, d: Delivery, ghost s0: System, ghost before: seq<Event>) returns (ok: bool, ghost trace: seq<Event>)
      requires On(id, g, t, Some(Claimed)) && State() == Later(s0, before) && Handed(before) == [] && d.loads && d.runtime
      modifies this`active, store`runs, exec.gh, exec.ledger
      ensures State() == Later(s0, trace) && Hands(id, t, g, d, Handed(trace))
      ensures var done := Completes(old(exec.State()), g, t, Handed(trace), d);
        && On(id, g, t, if done then None else Some(Failing))
        && (done ==> ok && store.runs[id].status == StatusFor(Handed(trace)))
        && (ok && !done ==> store.runs[id].status == FailedRun)
    {
      hide Later, Happens, Handed, UpgradePlan, IssuePlan, ModelReview, TrustedEnvelope, Concludes;
      match t {
        case Upgrade => ok, trace := RunUpgrade(id, g, d, s0, before);
        case WebhookPullRequest =>
          ghost var ordered;
          ok, trace, ordered := RunReview(id, g, d, s0, before);
        case WebhookIssueLabeled => ok, trace := RunIssue(id, g, d, s0, before);
      }
    }

    /** The worker's handler. Unless the run cannot be loaded, the job is over when it returns: with the
        final status of what was handed over if that was carried through, and as failed otherwise. */
    method HandleRun(id: string, d: Delivery) returns (ghost trace: seq<Event>)
      requires id in store.jobs && id in store.runs && store.runs[id].decision.Allow? && id !in active
      modifies this`active, store`runs, exec.gh, exec.ledger
      ensures State() == Later(old(State()), trace)
      ensures id !in active && id in store.runs
      ensures var row := old(store.runs[id]); var g := row.decision.grant; var handed := Handed(trace);
        && Hands(id, row.trigger, g, d, handed)
        && if Completes(old(exec.State()), g, row.trigger, handed, d) then store.runs[id].status == StatusFor(handed)
           else d.loads && d.handler == Done ==> store.runs[id].status == FailedRun
    {
      ghost var s0 := State();
      trace := [];
      Unmoved(s0);
      hide Later, Happens, Handed, Hands, Concludes, StatusFor;
      var row := store.runs[id];
      var g := row.decision.grant;
      NothingHanded(id, row.trigger, g, d);
      if !d.loads { return; }
      Enter(id, g, row.trigger);
      Traced(s0, trace, Claim(id));
      trace := trace + [Claim(id)];
      var ok := false;
      if !d.runtime {
        Traced(s0, trace, GiveUp(id));
        Abandon(id, g, row.trigger, Claimed);
        trace := trace + [GiveUp(id)];
      } else {
        ok, trace := RunPipeline(id, g, row.trigger, d, s0, trace);
      }
      if !ok {
        Mark(id, d.handler, g, row.trigger); // failRun
        Traced(s0, trace, MarkFailed(id, d.handler));
        trace := trace + [MarkFailed(id, d.handler)];
      }
      if id in active {
        Traced(s0, trace, Leave(id));
        Exit(id, g, row.trigger);
        trace := trace + [Leave(id)];
      }
    }
  }

  lemma NothingHanded(id: string, t: RunTrigger, g: Grant, d: Delivery)
    ensures !d.loads || !d.runtime ==> Hands(id, t, g, d, [])
  {
  }

  function Listed<T>(o: Option<T>): seq<T> { if o.None? then [] else [o.value] }

  lemma Unmoved(s: System)
    ensures Later(s, []) == s && Handed([]) == []
  {
  }

  lemma PerformHappens(s: System, id: string, env: Envelope, now: int, git: Git, f: Fates, g: Grant, t: RunTrigger)
    requires id in s.jobs && id in s.runs && s.runs[id].decision == Allow(g) && s.runs[id].trigger == t && PhaseOf(s, id) == Some(Working) && Fits(t, env.kind)
    ensures var a := Protocol.Execute(s.world, IdempotencyKey(env, g), Validate(env, g, now), g, git, f);
      Happens(s, Perform(id, env, now, git, f)) == s.(world := a.world, active := s.active[id := PhaseAfter(a, env.kind)])
  {
    hide Execute, Validate, Next, Protocol.Acknowledge, Decide, AlreadyScheduled, Fits;
    assert s.runs[id := s.runs[id]] == s.runs;
  }
}
