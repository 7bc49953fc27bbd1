/** What one executor attempt does to GitHub and to the ledger: internal/executor/executor.go and
    github_writer.go, with the tables of internal/ledger/ledger.go that they touch. A call may take
    effect and still look failed to the caller, and a crash is the same as every later call being
    refused, so the fate of each call is an input. */
module Protocol {
  import opened Text
  import opened Intent
  import opened Validation
  import Render

  /** `Lost`: the call took effect, but the caller saw an error. */
  datatype Fate = Done | Refused | Lost

  predicate TookEffect(f: Fate) { f != Refused }

  /** An issue or pull request. */
  datatype Thread = Thread(slug: string, number: int)

  /** An issue comment; `ours` if the authenticated login wrote it. */
  datatype Comment = Comment(id: int, thread: Thread, ours: bool, body: string)

  /** A write with its resolved placement. */
  datatype Write =
    | OpenPRWrite(repo: Repo, tier: TokenScope, branch: string, base: string, title: string, body: string, draft: bool)
    | UpdatePRWrite(repo: Repo, tier: TokenScope, number: int, newBody: Option<string>, newDraft: Option<bool>)
    | PostReviewWrite(repo: Repo, tier: TokenScope, number: int, commentId: int, headSHA: string, verdict: Verdict, summary: string, comments: seq<ReviewComment>)
    | PostCommentWrite(repo: Repo, tier: TokenScope, number: int, text: string)
    | SetLabelsWrite(repo: Repo, tier: TokenScope, number: int, add: seq<string>, remove: seq<string>)

  /** A final write that took effect on GitHub, and the key of the attempt that made it. */
  datatype Entry = Entry(key: Key, write: Write)

  /** A row of the intents table. */
  datatype Recorded = Recorded(run: string, ref: string)

  datatype World = World(
    comments: seq<Comment>,
    nextId: int,
    writes: seq<Entry>,
    mapping: map<Thread, int>,
    intents: map<Key, Recorded>)

  const EMPTY := World([], 1, [], map[], map[])

  /** What the sandbox's git repository says. `worktree` is false when no worktree is passed. */
  datatype Git = Git(worktree: bool, diff: Option<Diff>, branch: Option<string>, base: Option<string>)

  /** The fate of every outside call of one attempt. Reads either answer or fail. */
  datatype Fates = Fates(
    lookup: bool, readMapping: bool, resolve: bool, search: bool,
    push: Fate, inline: Fate, edit: Fate, create: Fate, write: Fate, upsert: Fate, record: Fate,
    newNumber: int)

  /** Every call succeeds. */
  const ALL_WELL := Fates(true, true, true, true, Done, Done, Done, Done, Done, Done, Done, 1)

  function Ref(repo: Repo, number: int): string { repo.Slug() + "#" + Itoa(number) }

  function ThreadOf(g: Grant): Thread { Thread(g.repo.Slug(), g.scope.number) }

  // ---------- the ledger's tables ----------

  /** INSERT ... ON CONFLICT (idempotency_key) DO NOTHING */
  function Record(w: World, k: Key, run: string, ref: string, f: Fate): World {
    if TookEffect(f) && k !in w.intents then w.(intents := w.intents[k := Recorded(run, ref)]) else w
  }

  /** INSERT ... ON CONFLICT (repo_id, pr_number) DO UPDATE */
  function Upsert(w: World, t: Thread, id: int, f: Fate): World {
    if TookEffect(f) then w.(mapping := w.mapping[t := id]) else w
  }

  // ---------- the GitHub writer ----------

  predicate Owned(c: Comment, t: Thread) { c.thread == t && c.ours && Contains(c.body, Render.MARKER) }

  /** The first comment of the thread that is ours and carries the marker, or 0. */
  function FindOwned(cs: seq<Comment>, t: Thread): int {
    if cs == [] then 0 else if Owned(cs[0], t) then cs[0].id else FindOwned(cs[1..], t)
  }

  /** Whether a comment exists in the repository. */
  predicate Has(cs: seq<Comment>, slug: string, id: int) { exists c :: c in cs && c.thread.slug == slug && c.id == id }

  function Edited(cs: seq<Comment>, slug: string, id: int, body: string): seq<Comment> {
    seq(|cs|, i requires 0 <= i < |cs| => if cs[i].thread.slug == slug && cs[i].id == id then cs[i].(body := body) else cs[i])
  }

  function Created(w: World, t: Thread, body: string): World {
    w.(comments := w.comments + [Comment(w.nextId, t, true, body)], nextId := w.nextId + 1)
  }

  /** `effect` says whether GitHub changed, `id` is the comment the caller was told about. */
  datatype Posted = Posted(world: World, effect: bool, id: Option<int>)

  function CreateComment(w: World, t: Thread, body: string, f: Fate): Posted {
    if TookEffect(f) then Posted(Created(w, t, body), true, if f == Done then Some(w.nextId) else None)
    else Posted(w, false, None)
  }

  /** `PostReview`: edit the mapped or else a recovered comment, create one if there is none or it is gone. */
  function WriterPostReview(w: World, t: Thread, mapped: int, body: string, f: Fates): Posted {
    if mapped == 0 && !f.search then Posted(w, false, None)
    else
      var id := if mapped != 0 then mapped else FindOwned(w.comments, t);
      if id == 0 then CreateComment(w, t, body, f.create)
      else if Has(w.comments, t.slug, id) then
        if TookEffect(f.edit) then
          Posted(w.(comments := Edited(w.comments, t.slug, id, body)), true, if f.edit == Done then Some(id) else None)
        else Posted(w, false, None)
      else if f.edit == Done then CreateComment(w, t, body, f.create) // 404
      else Posted(w, false, None)
  }

  function WriterAcknowledge(w: World, t: Thread, f: Fates): Posted {
    if !f.search then Posted(w, false, None)
    else if FindOwned(w.comments, t) != 0 then Posted(w, false, Some(FindOwned(w.comments, t)))
    else CreateComment(w, t, Render.QUEUED_BODY, f.create)
  }

  // ---------- the executor ----------

  datatype Outcome = Outcome(ref: string, deduped: bool)

  datatype Failure = Invalid(error: Error) | BadDiff | BadBranch | CallFailed

  /** `started` says whether the final write was attempted. */
  datatype Attempt = Attempt(world: World, started: bool, result: Result<Outcome, Failure>)

  /** The credential tier a kind is written with. */
  function Tier(k: Kind, g: Grant): TokenScope { if k == Kind.PostReview then IssuesWrite else g.tokenScope }

  /** Placement comes from the grant, git and the ledger; only content comes from the payload. */
  function Resolve(p: Payload, g: Grant, git: Git, mapped: int): Write
    requires !p.Malformed?
    requires p.OpenPRPayload? ==> git.branch.Some? && git.base.Some?
  {
    match p
    case OpenPRPayload(title, body, draft) => OpenPRWrite(g.repo, Tier(OpenPR, g), git.branch.value, git.base.value, title, body, draft)
    case UpdatePRPayload(body, draft) => UpdatePRWrite(g.repo, Tier(UpdatePR, g), g.scope.number, body, draft)
    case PostReviewPayload(v, s, cs) => PostReviewWrite(g.repo, Tier(PostReview, g), g.scope.number, mapped, g.scope.headSHA, v, s, cs)
    case PostCommentPayload(text) => PostCommentWrite(g.repo, Tier(PostComment, g), g.scope.number, text)
    case SetLabelsPayload(add, remove) => SetLabelsWrite(g.repo, Tier(SetLabels, g), g.scope.number, add, remove)
  }

  function CheckDiff(g: Grant, git: Git): Option<Failure> {
    match git.diff
    case None => Some(CallFailed)
    case Some(d) => match ValidateDiff(d, g)
      case Some(e) => Some(Invalid(e))
      case None => None
  }

  /** What has to hold before the final write of a kind is attempted. */
  function Preflight(p: Payload, g: Grant, git: Git, f: Fates): Option<Failure> {
    match p
    case OpenPRPayload(_, _, _) =>
      if CheckDiff(g, git).Some? then CheckDiff(g, git)
      else if git.branch.None? then Some(CallFailed)
      else if !HasPrefix(git.branch.value, "bot/" + g.runId + "-") then Some(BadBranch)
      else if git.base.None? || f.push != Done then Some(CallFailed)
      else None
    case UpdatePRPayload(_, _) => if git.worktree then CheckDiff(g, git) else None
    case PostReviewPayload(_, _, _) => if f.inline != Done then Some(CallFailed) else None
    case _ => None
  }

  /** The number in the reference of a written artifact. */
  function WrittenNumber(p: Payload, g: Grant, f: Fates): int { if p.OpenPRPayload? then f.newNumber else g.scope.number }

  function LogWrite(w: World, e: Entry, effect: bool): World { if effect then w.(writes := w.writes + [e]) else w }

  /** The final write: a review edits or creates the summary comment, a comment creates one. */
  function FinalWrite(w: World, p: Payload, g: Grant, mapped: int, e: Entry, f: Fates): Posted {
    match p
    case PostReviewPayload(v, s, cs) =>
      var r := WriterPostReview(w, ThreadOf(g), mapped, Render.Rendered(v, s, cs), f);
      r.(world := LogWrite(r.world, e, r.effect))
    case PostCommentPayload(text) =>
      var r := CreateComment(w, ThreadOf(g), text, f.write);
      r.(world := LogWrite(r.world, e, r.effect))
    case _ =>
      Posted(LogWrite(w, e, TookEffect(f.write)), TookEffect(f.write), if f.write == Done then Some(0) else None)
  }

  /** `Execute`, given the idempotency key and what `Validate` made of the envelope. */
  function Execute(w: World, key: Key, accepted: Result<Payload, Error>, g: Grant, git: Git, f: Fates): Attempt {
    match accepted
    case Err(e) => Attempt(w, false, Err(Invalid(e)))
    case Ok(p) =>
      if !f.lookup then Attempt(w, false, Err(CallFailed))
      else if key in w.intents then Attempt(w, false, Ok(Outcome(w.intents[key].ref, true)))
      else if (p.PostReviewPayload? && !f.readMapping) || !f.resolve then Attempt(w, false, Err(CallFailed))
      else if p.Malformed? then Attempt(w, false, Err(Invalid(UnknownKindError)))
      else match Preflight(p, g, git, f)
        case Some(failure) => Attempt(w, false, Err(failure))
        case None => Finish(w, key, p, g, git, f)
  }

  function Mapped(w: World, t: Thread): int { if t in w.mapping then w.mapping[t] else 0 }

  /** The write of an attempt that passed every check, and the bookkeeping after it. */
  function Finish(w: World, key: Key, p: Payload, g: Grant, git: Git, f: Fates): Attempt
    requires !p.Malformed? && Preflight(p, g, git, f).None?
  {
    var t := ThreadOf(g);
    var mapped := Mapped(w, t);
    var r := FinalWrite(w, p, g, mapped, Entry(key, Resolve(p, g, git, mapped)), f);
    if r.id.None? then Attempt(r.world, true, Err(CallFailed))
    else
      var w1 := if p.PostReviewPayload? then Upsert(r.world, t, r.id.value, f.upsert) else r.world;
      if p.PostReviewPayload? && f.upsert != Done then Attempt(w1, true, Err(CallFailed))
      else
        var ref := Ref(g.repo, WrittenNumber(p, g, f));
        var w2 := Record(w1, key, g.runId, ref, f.record);
        Attempt(w2, true, if f.record == Done then Ok(Outcome(ref, false)) else Err(CallFailed))
  }

  /** `AcknowledgeReview` of the executor. */
  function Acknowledge(w: World, g: Grant, f: Fates): (World, bool) {
    if g.scope.kind != PullRequest || g.scope.number == 0 || !f.resolve then (w, false)
    else
      var r := WriterAcknowledge(w, ThreadOf(g), f);
      if r.id.None? then (r.world, false)
      else (Upsert(r.world, ThreadOf(g), r.id.value, f.upsert), f.upsert == Done)
  }

  // ---------- runs ----------

  /** One thing that happens to the world. Attempts do not overlap. An execution carries the key and
      the validation result of its envelope; what is proved holds for any such pair. */
  datatype Step =
    | Execution(key: Key, accepted: Result<Payload, Error>, grant: Grant, git: Git, fates: Fates)
    | Acknowledgement(grant: Grant, fates: Fates)
    | Deleted(id: int)                          // somebody deletes a comment
    | Foreign(thread: Thread, body: string)     // somebody else writes a comment

  function Next(w: World, s: Step): World {
    match s
    case Execution(key, accepted, g, git, f) => Execute(w, key, accepted, g, git, f).world
    case Acknowledgement(g, f) => Acknowledge(w, g, f).0
    case Deleted(id) => w.(comments := Without(w.comments, id))
    case Foreign(t, body) => w.(comments := w.comments + [Comment(w.nextId, t, false, body)], nextId := w.nextId + 1)
  }

  function Without(cs: seq<Comment>, id: int): seq<Comment> {
    if cs == [] then [] else (if cs[0].id == id then [] else [cs[0]]) + Without(cs[1..], id)
  }

  /** The world after a run, newest step last. */
  function After(w: World, run: seq<Step>): World {
    if run == [] then w else Next(After(w, run[..|run| - 1]), run[|run| - 1])
  }
}
