/** internal/policy/policy.go: the grant of a run is fixed before its agent starts. */
module Policy {
  import opened Text
  import opened Intent
  import opened Validation

  datatype TriggerKind = ScheduledTrigger | PullRequestTrigger | IssueLabeledTrigger | UnknownTrigger

  datatype Trigger = Trigger(
    kind: TriggerKind,
    accountId: string,
    owner: string,
    name: string,
    number: int,
    baseRef: string,
    baseSHA: string,
    headSHA: string,
    defaultBranch: string,
    actor: string,
    actorHasWrite: bool,
    manual: bool,
    reviewLabel: bool,
    labelsApplied: seq<string>)

  datatype Rules = Rules(enabled: bool, allowedLabels: seq<string>, actorAllowlist: seq<string>, autoReview: bool, deniedPaths: seq<string>)

  const HOUR := 3600

  function Decide(t: Trigger, r: Rules, runId: string, now: int): Result<Grant, string> {
    if !r.enabled then Err("repo disabled")
    else
      var repo := Repo(t.owner, t.name, t.accountId);
      var base := (scope: Scope, kinds: seq<Kind>, token: TokenScope) =>
        Grant(runId, repo, scope, kinds, token, DefaultLimits(), t.manual, r.deniedPaths, now, now + HOUR);
      match t.kind
      case ScheduledTrigger =>
        Ok(base(Scope(Scheduled, 0, t.defaultBranch, "", ""), [OpenPR], ContentsWrite))
      case PullRequestTrigger =>
        if t.manual && !t.actorHasWrite then Err("manual review actor lacks write permission")
        else if t.reviewLabel && t.actor !in r.actorAllowlist then Err("review-label actor is not configured")
        else if !t.manual && !r.autoReview then Err("automatic review disabled")
        else Ok(base(Scope(PullRequest, t.number, t.baseRef, t.baseSHA, t.headSHA), [PostReview], ReadOnly))
      case IssueLabeledTrigger =>
        if !exists l :: l in t.labelsApplied && l in r.allowedLabels then Err("label not allowed")
        else if t.actor !in r.actorAllowlist then Err("actor is not configured for labeled issues")
        else if !t.actorHasWrite then Err("labeled-issue actor lacks write permission")
        else Ok(base(Scope(Issue, t.number, t.defaultBranch, "", ""), [OpenPR, PostComment], ContentsWrite))
      case UnknownTrigger => Err("unknown trigger")
  }

  /** The grant of a scheduled dependency run (internal/upgrade/schedule.go). */
  function GrantForUpgrade(runId: string, repo: Repo, baseRef: string, now: int): Grant {
    Grant(runId, repo, Scope(Scheduled, 0, baseRef, "", ""), [OpenPR], ContentsWrite,
          Limits(1, 50, 2000, 8000, 0, 0), false,
          [".env", ".env.*", "deploy/.env", "**/secrets/**", "**/*.pem", "**/*.key"], now, now + 45 * 60)
  }

  /** The rules let this trigger start a run. */
  predicate Permitted(t: Trigger, r: Rules) {
    && r.enabled
    && match t.kind
       case ScheduledTrigger => true
       case PullRequestTrigger =>
         && (t.manual ==> t.actorHasWrite) && (t.reviewLabel ==> t.actor in r.actorAllowlist) && (t.manual || r.autoReview)
       case IssueLabeledTrigger =>
         && (exists i :: 0 <= i < |t.labelsApplied| && t.labelsApplied[i] in r.allowedLabels)
         && t.actor in r.actorAllowlist && t.actorHasWrite
       case UnknownTrigger => false
  }

  /** The scope is the trigger's: its pull request at its commits, its issue, or the default branch alone. */
  predicate ScopedBy(s: Scope, t: Trigger) {
    match t.kind
    case ScheduledTrigger => s.kind == Scheduled && s.baseRef == t.defaultBranch
    case PullRequestTrigger => s.kind == PullRequest && s.number == t.number && s.baseRef == t.baseRef && s.baseSHA == t.baseSHA && s.headSHA == t.headSHA
    case IssueLabeledTrigger => s.kind == Issue && s.number == t.number && s.baseRef == t.defaultBranch
    case UnknownTrigger => false
  }

  /** A review may only be posted, with a read-only credential for the agent; other runs open pull requests, and
      an issue run may also comment. */
  ghost predicate EmpoweredBy(g: Grant, t: Trigger) {
    match t.kind
    case ScheduledTrigger => g.tokenScope == ContentsWrite && forall k :: k in g.allowedKinds <==> k == OpenPR
    case PullRequestTrigger => g.tokenScope == ReadOnly && forall k :: k in g.allowedKinds <==> k == PostReview
    case IssueLabeledTrigger => g.tokenScope == ContentsWrite && forall k :: k in g.allowedKinds <==> k == OpenPR || k == PostComment
    case UnknownTrigger => false
  }

  /** The grant of a run that this trigger started under these rules: for one hour, on the trigger's
      repository, and nothing that the rules deny. */
  ghost predicate GrantedFor(g: Grant, t: Trigger, r: Rules, runId: string, now: int) {
    && g.runId == runId && g.repo.owner == t.owner && g.repo.name == t.name && g.repo.accountId == t.accountId
    && ScopedBy(g.scope, t) && EmpoweredBy(g, t)
    && g.deniedPaths == r.deniedPaths && g.manual == t.manual
    && g.issuedAt == now && g.expiresAt == now + 3600
    && g.limits.maxFiles == 40 && g.limits.maxDiffLines == 2000 && g.limits.maxBodyBytes == 16384
    && g.limits.maxComments == 25 && g.limits.maxLabelsAdded == 5
  }

  /** A trigger starts a run exactly if the rules permit it, and the grant is then its own. */
  lemma DecidesExactly(t: Trigger, r: Rules, runId: string, now: int)
    ensures Decide(t, r, runId, now).Ok? <==> Permitted(t, r)
    ensures Decide(t, r, runId, now).Ok? ==> GrantedFor(Decide(t, r, runId, now).value, t, r, runId, now)
  {
    if l :| l in t.labelsApplied && l in r.allowedLabels {
      var i :| 0 <= i < |t.labelsApplied| && t.labelsApplied[i] == l;
    }
  }

  /** The scheduler's own grant: for three quarters of an hour, to open one pull request in the repository. */
  ghost predicate GrantedForUpgrade(g: Grant, runId: string, owner: string, name: string, now: int) {
    && g.runId == runId && g.repo.owner == owner && g.repo.name == name && g.scope.kind == Scheduled
    && g.tokenScope == ContentsWrite && (forall k :: k in g.allowedKinds <==> k == OpenPR)
    && g.issuedAt == now && g.expiresAt == now + 2700
    && g.limits.maxFiles == 50 && g.limits.maxDiffLines == 2000 && g.limits.maxBodyBytes == 8000
  }

  /** A grant lists exactly the kinds it can be used for: before it expires, an envelope of its run with
      the right schema version passes every capability, token and scope gate just when its kind is listed. */
  ghost predicate ListsWhatItAllows(g: Grant) {
    forall env: Envelope, now: int :: env.schemaVersion == SCHEMA_VERSION && env.runId == g.runId && now <= g.expiresAt ==>
      (Gates(env, g, now).None? <==> env.kind in g.allowedKinds)
  }

  /** A decided grant lists what it allows exactly when the run is about something: outside a scheduled
      run the trigger has to carry a number, or no kind passes at all. */
  lemma DecidedGrantsListWhatTheyAllow(t: Trigger, r: Rules, runId: string, now: int)
    requires Decide(t, r, runId, now).Ok?
    ensures var g := Decide(t, r, runId, now).value;
      && (ListsWhatItAllows(g) <==> t.kind == ScheduledTrigger || t.number != 0)
      && g.runId == runId
      && (PostComment in g.allowedKinds ==> g.scope.kind == Issue)
      && (g.tokenScope == ContentsWrite <==> OpenPR in g.allowedKinds)
  {
    var g := Decide(t, r, runId, now).value;
    if t.kind != ScheduledTrigger && t.number == 0 {
      var env := Envelope(SCHEMA_VERSION, runId, g.allowedKinds[0], Malformed(""));
      assert env.kind in g.allowedKinds && Gates(env, g, now) == Some(MalformedError);
    }
  }

  lemma UpgradeGrantsListWhatTheyAllow(runId: string, repo: Repo, baseRef: string, now: int)
    ensures ListsWhatItAllows(GrantForUpgrade(runId, repo, baseRef, now))
  {
  }

  /** `r2` switches on at least what `r1` does. */
  ghost predicate Widens(r1: Rules, r2: Rules) {
    && (r1.enabled ==> r2.enabled)
    && (r1.autoReview ==> r2.autoReview)
    && (forall l :: l in r1.allowedLabels ==> l in r2.allowedLabels)
    && (forall a :: a in r1.actorAllowlist ==> a in r2.actorAllowlist)
  }

  /** Widening the rules never takes an allowed trigger back and never gives the run more than it had:
      the same scope, kinds, credential tier, limits and lifetime. */
  lemma WideningNeverDeniesNorEscalates(t: Trigger, r1: Rules, r2: Rules, runId: string, now: int)
    requires Widens(r1, r2) && Decide(t, r1, runId, now).Ok?
    ensures Decide(t, r2, runId, now).Ok?
    ensures var g1, g2 := Decide(t, r1, runId, now).value, Decide(t, r2, runId, now).value;
      g2 == g1.(deniedPaths := r2.deniedPaths)
  {
    if t.kind == IssueLabeledTrigger {
      var l :| l in t.labelsApplied && l in r1.allowedLabels;
      assert l in r2.allowedLabels;
    }
  }
}
