/** The life of a run, from the webhook or the schedule to its final status: internal/dispatch,
    internal/upgrade/schedule.go, the runs table of internal/ledger, the worker's handler and the three
    pipelines of internal/runpipe. One event is one transaction, one statement, one query or one call of the
    executor, so deliveries of different runs and calls of the scheduler interleave freely, a worker may
    crash between any two events, and a job may be delivered again at any time; only attempts of one run do
    not overlap. */
module Lifecycle {
  import opened Text
  import opened Intent
  import opened Validation
  import opened Protocol
  import opened Policy

  datatype Status = Queued | Running | Succeeded | FailedRun | DeniedRun | NeedsInput

  datatype RunTrigger = Upgrade | WebhookPullRequest | WebhookIssueLabeled

  datatype Decision = Allow(grant: Grant) | Deny(reason: string)

  /** A row of the runs table. */
  datatype Row = Row(repoId: string, trigger: RunTrigger, decision: Decision, status: Status, ref: Option<string>)

  /** How far the current delivery of a run has come. */
  datatype Phase =
    | Claimed
    | Working
    | Wrote(ref: string, kind: Kind)   // the executor returned a reference
    | Placed(ref: string, kind: Kind)  // and the row carries it
    | Failing

  /** The repository a call of the scheduler is about. */
  datatype Target = Target(owner: string, name: string) {
    function Slug(): string { owner + "/" + name }
  }

  /** `scheduling` holds the calls of the scheduler that have counted no outstanding run and not yet inserted
      theirs. */
  datatype System = System(world: World, runs: map<string, Row>, jobs: seq<string>, active: map<string, Phase>, scheduling: map<string, Target>)

  const START := System(EMPTY, map[], [], map[], map[])

  datatype Event =
    | Dispatch(trigger: Trigger, rules: Rules, id: string, now: int, fate: Fate)
    | Count(call: string, target: Target, enabled: bool, counted: bool)
    | Insert(call: string, base: Option<string>, id: string, now: int, fate: Fate)
    | Claim(id: string)
    | Begin(id: string, fate: Fate)
    | Greet(id: string, fates: Fates)
    | Perform(id: string, env: Envelope, now: int, git: Git, fates: Fates)
    | Place(id: string, fate: Fate)
    | Complete(id: string, fate: Fate)
    | GiveUp(id: string)
    | MarkFailed(id: string, fate: Fate)
    | Leave(id: string)
    | Crash(id: string)
    | Outside(interference: Step)

  // ---------- the runs table ----------

  function InsertRun(runs: map<string, Row>, id: string, row: Row, f: Fate): map<string, Row> {
    if TookEffect(f) && id !in runs then runs[id := row] else runs
  }

  /** `SetRunStatus`, and the status part of `SetRunFailure` and `SetRunNeedsInput`. */
  function SetStatus(row: Row, status: Status, f: Fate): Row { if TookEffect(f) then row.(status := status) else row }

  function SetRef(row: Row, ref: string, f: Fate): Row { if TookEffect(f) then row.(ref := Some(ref)) else row }

  /** The transaction that inserts a row and its job; a taken id rolls it back. */
  function Enqueue(s: System, id: string, row: Row, f: Fate): System {
    if TookEffect(f) && id !in s.runs then s.(runs := s.runs[id := row], jobs := s.jobs + [id]) else s
  }

  // ---------- where runs come from ----------

  /** The row of a webhook event; other events are not handled. */
  function RowFor(t: Trigger, r: Rules, id: string, now: int): Option<Row> {
    match t.kind
    case PullRequestTrigger => Some(DecidedRow(t, r, id, now, WebhookPullRequest))
    case IssueLabeledTrigger => Some(DecidedRow(t, r, id, now, WebhookIssueLabeled))
    case _ => None
  }

  function DecidedRow(t: Trigger, r: Rules, id: string, now: int, trigger: RunTrigger): Row {
    var repoId := t.owner + "/" + t.name;
    match Decide(t, r, id, now)
    case Err(reason) => Row(repoId, trigger, Deny(reason), DeniedRun, None)
    case Ok(g) => Row(repoId, trigger, Allow(g), Queued, None)
  }

  /** `HandleEvent`. */
  function Dispatched(s: System, t: Trigger, r: Rules, id: string, now: int, f: Fate): System {
    match RowFor(t, r, id, now)
    case None => s
    case Some(row) => if row.decision.Deny? then s.(runs := InsertRun(s.runs, id, row, f)) else Enqueue(s, id, row, f)
  }

  predicate Outstanding(row: Row, repoId: string) { row.repoId == repoId && row.trigger == Upgrade && row.status in {Queued, Running} }

  predicate AlreadyScheduled(runs: map<string, Row>, repoId: string) { exists id :: id in runs && Outstanding(runs[id], repoId) }

  function UpgradeRow(t: Target, base: string, id: string, now: int): Row {
    Row(t.Slug(), Upgrade, Allow(GrantForUpgrade(id, Repo(t.owner, t.name, t.owner), base, now)), Queued, None)
  }

  /** `Schedule` up to its count; `counted` says that the count could be read. */
  function Counted(s: System, call: string, t: Target, enabled: bool, counted: bool): System {
    if !enabled || !counted || AlreadyScheduled(s.runs, t.Slug()) || call in s.scheduling then s
    else s.(scheduling := s.scheduling[call := t])
  }

  /** And from there on; `base` is the base branch, if it was found. */
  function Inserted(s: System, call: string, base: Option<string>, id: string, now: int, f: Fate): System {
    if call !in s.scheduling then s
    else
      var s' := s.(scheduling := s.scheduling - {call});
      if base.None? then s' else Enqueue(s', id, UpgradeRow(s.scheduling[call], base.value, id, now), f)
  }

  // ---------- one delivery ----------

  /** The intent that completes a run. */
  function FinalKind(t: RunTrigger): Kind { if t == WebhookPullRequest then PostReview else OpenPR }

  /** What a pipeline hands to the executor: the run's own kind, or an issue run's blocked comment. */
  predicate Fits(t: RunTrigger, k: Kind) { k == FinalKind(t) || (t == WebhookIssueLabeled && k == PostComment) }

  /** A row and the phase of its delivery, after an event that concerns these two alone. */
  function Advance(row: Row, p: Option<Phase>, e: Event): (Row, Option<Phase>) {
    match (e, p)
    case (Claim(_), None) => (row, Some(Claimed))
    case (Begin(_, f), Some(Claimed)) => (SetStatus(row, Running, f), Some(if f == Done then Working else Failing))
    case (Place(_, f), Some(Wrote(ref, kind))) => (SetRef(row, ref, f), Some(if f == Done then Placed(ref, kind) else Failing))
    case (Complete(_, f), Some(Placed(_, kind))) =>
      (SetStatus(row, if kind == PostComment then NeedsInput else Succeeded, f), if f == Done then None else Some(Failing))
    case (GiveUp(_), Some(_)) => (row, Some(Failing))
    case (MarkFailed(_, f), Some(Failing)) => (SetStatus(row, FailedRun, f), p)
    case (Leave(_), Some(Failing)) => (row, None)
    case (Crash(_), _) => (row, None)
    case _ => (row, p)
  }

  predicate Advances(e: Event) { e.Claim? || e.Begin? || e.Place? || e.Complete? || e.GiveUp? || e.MarkFailed? || e.Leave? || e.Crash? }

  function PhaseOf(s: System, id: string): Option<Phase> { if id in s.active then Some(s.active[id]) else None }

  function Put(s: System, id: string, row: Row, p: Option<Phase>): System {
    s.(runs := s.runs[id := row], active := if p.Some? then s.active[id := p.value] else s.active - {id})
  }

  /** `Executor.Execute` on behalf of a run. */
  function Performed(w: World, g: Grant, env: Envelope, now: int, git: Git, f: Fates): Attempt {
    Execute(w, IdempotencyKey(env, g), Validate(env, g, now), g, git, f)
  }

  function PhaseAfter(a: Attempt, k: Kind): Phase { if a.result.Ok? then Wrote(a.result.value.ref, k) else Failing }

  /** An event of the delivery of run `id`, which has a job. */
  function Delivered(s: System, id: string, e: Event): System
    requires id in s.runs && s.runs[id].decision.Allow?
  {
    var row, p, g := s.runs[id], PhaseOf(s, id), s.runs[id].decision.grant;
    match e
    case Greet(_, f) => if p == Some(Working) then s.(world := Protocol.Acknowledge(s.world, g, f).0) else s
    case Perform(_, env, now, git, f) =>
      if p == Some(Working) && Fits(row.trigger, env.kind) then
        var a := Performed(s.world, g, env, now, git, f);
        Put(s.(world := a.world), id, row, Some(PhaseAfter(a, env.kind)))
      else s
    case _ => var (row', p') := Advance(row, p, e); Put(s, id, row', p')
  }

  function Happens(s: System, e: Event): System {
    match e
    case Dispatch(t, r, id, now, f) => Dispatched(s, t, r, id, now, f)
    case Count(call, target, enabled, counted) => Counted(s, call, target, enabled, counted)
    case Insert(call, base, id, now, f) => Inserted(s, call, base, id, now, f)
    case Outside(step) => if step.Deleted? || step.Foreign? then s.(world := Next(s.world, step)) else s
    case _ => if e.id in s.jobs && e.id in s.runs && s.runs[e.id].decision.Allow? then Delivered(s, e.id, e) else s
  }

  /** The system after a run of events, newest last. */
  function Later(s: System, run: seq<Event>): System {
    if run == [] then s else Happens(Later(s, run[..|run| - 1]), run[|run| - 1])
  }
}
