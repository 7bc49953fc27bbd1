/** The validation pipeline of internal/intent/validate.go. */
module Validation {
  import opened Text
  import opened Intent
  import opened Sanitise
  import SanitiseProofs

  datatype Error = SchemaVersion | UnknownKindError | CapabilityMissing | GrantExpired | ScopeMismatch | DeniedPath | LimitExceeded | MalformedError

  // ---------- gates ----------

  function Rank(t: TokenScope): int {
    match t
    case IssuesWrite => 1
    case ContentsWrite => 2
    case _ => 0
  }

  function Need(k: Kind): TokenScope {
    match k
    case OpenPR | UpdatePR => ContentsWrite
    case _ => IssuesWrite
  }

  /** A review may also run under a read-only grant: its comments go out with a separate credential. */
  predicate TokenCovers(k: Kind, t: TokenScope) {
    (k == PostReview && t == ReadOnly) || Rank(Need(k)) <= Rank(t)
  }

  predicate ScopePairs(k: Kind, s: ScopeKind) {
    match k
    case OpenPR => s == Issue || s == Scheduled
    case UpdatePR | PostReview => s == PullRequest
    case PostComment | SetLabels => s == Issue || s == PullRequest
    case UnknownKind(_) => false
  }

  function Gates(env: Envelope, g: Grant, now: int): Option<Error> {
    if env.schemaVersion != SCHEMA_VERSION then Some(SchemaVersion)
    else if env.runId != g.runId then Some(ScopeMismatch)
    else if env.kind.UnknownKind? then Some(UnknownKindError)
    else if now > g.expiresAt then Some(GrantExpired)
    else if env.kind !in g.allowedKinds then Some(CapabilityMissing)
    else if !TokenCovers(env.kind, g.tokenScope) then Some(CapabilityMissing)
    else if !ScopePairs(env.kind, g.scope.kind) then Some(ScopeMismatch)
    else if g.scope.kind != Scheduled && g.scope.number == 0 then Some(MalformedError)
    else None
  }

  // ---------- payloads ----------

  /** The issue number a closing keyword may name: the run's own, under an issue scope. */
  function Own(s: Scope): Option<string> { if s.kind == Issue then Some(Itoa(s.number)) else None }

  function Body(s: string, g: Grant): string { SanitiseBody(s, g.limits.maxBodyBytes, Own(g.scope)) }

  const COMMENT_BYTES := 4096

  function SanitiseComment(c: ReviewComment, scope: Scope): Result<ReviewComment, Error> {
    var side := if c.side != "LEFT" && c.side != "RIGHT" then "RIGHT" else c.side;
    if c.line < 1 then Err(MalformedError)
    else
      var body := SanitiseBody(c.body, COMMENT_BYTES, Own(scope));
      if c.verified then
        var evidence := SanitiseBody(c.evidence, COMMENT_BYTES, Own(scope));
        if Blank(evidence) then Err(MalformedError) else Ok(ReviewComment(c.path, c.line, side, body, true, evidence))
      else Ok(ReviewComment(c.path, c.line, side, body, false, ""))
  }

  function SanitiseComments(cs: seq<ReviewComment>, scope: Scope): Result<seq<ReviewComment>, Error> {
    if cs == [] then Ok([])
    else match SanitiseComment(cs[0], scope)
      case Err(e) => Err(e)
      case Ok(c) => match SanitiseComments(cs[1..], scope)
        case Err(e) => Err(e)
        case Ok(rest) => Ok([c] + rest)
  }

  function Behind(done: seq<ReviewComment>, r: Result<seq<ReviewComment>, Error>): Result<seq<ReviewComment>, Error> {
    match r case Err(e) => Err(e) case Ok(rest) => Ok(done + rest)
  }

  lemma NothingBehind(r: Result<seq<ReviewComment>, Error>)
    ensures Behind([], r) == r
  {
    if r.Ok? { assert [] + r.value == r.value; }
  }

  lemma OneBehind(done: seq<ReviewComment>, c: ReviewComment, r: Result<seq<ReviewComment>, Error>)
    ensures Behind(done, Behind([c], r)) == Behind(done + [c], r)
  {
    if r.Ok? { assert done + ([c] + r.value) == done + [c] + r.value; }
  }

  lemma SanitiseNext(cs: seq<ReviewComment>, scope: Scope, i: nat)
    requires i < |cs|
    ensures SanitiseComments(cs[i..], scope)
      == match SanitiseComment(cs[i], scope) case Err(e) => Err(e) case Ok(c) => Behind([c], SanitiseComments(cs[i + 1..], scope))
  {
    hide SanitiseComment;
    assert cs[i..][1..] == cs[i + 1..];
  }

  /** The loop of `decodeAndSanitise` over a review's comments: rewritten in place, left at the first bad one. */
  method SanitiseCommentsInPlace(cs: seq<ReviewComment>, scope: Scope) returns (r: Result<seq<ReviewComment>, Error>)
    ensures r == SanitiseComments(cs, scope)
  {
    hide SanitiseComment;
    var comments := cs;
    var i := 0;
    assert cs[0..] == cs && comments[..0] == [];
    NothingBehind(SanitiseComments(cs, scope));
    while i < |comments|
      invariant 0 <= i <= |comments| == |cs|
      invariant comments[i..] == cs[i..]
      invariant SanitiseComments(cs, scope) == Behind(comments[..i], SanitiseComments(cs[i..], scope))
    {
      hide SanitiseComments, Behind;
      SanitiseNext(cs, scope, i);
      assert comments[i] == comments[i..][0] == cs[i..][0] == cs[i];
      match SanitiseComment(comments[i], scope) {
        case Err(e) => return Err(e);
        case Ok(c) =>
          OneBehind(comments[..i], c, SanitiseComments(cs[i + 1..], scope));
          comments := comments[i := c];
          i := i + 1;
          assert comments[..i] == comments[..i - 1] + [c];
      }
    }
    r := Ok(comments);
    assert comments[..i] + [] == comments;
  }

  function DecodeAndSanitise(env: Envelope, g: Grant): Result<Payload, Error> {
    match (env.kind, env.payload)
    case (OpenPR, OpenPRPayload(title, body, draft)) =>
      if Blank(title) then Err(MalformedError) else Ok(OpenPRPayload(SanitiseLine(title, 120), Body(body, g), draft))
    case (UpdatePR, UpdatePRPayload(body, draft)) =>
      Ok(UpdatePRPayload(if body.Some? then Some(Body(body.value, g)) else None, draft))
    case (PostReview, PostReviewPayload(verdict, summary, comments)) =>
      if verdict.UnknownVerdict? then Err(MalformedError)
      else if |comments| > g.limits.maxComments then Err(LimitExceeded)
      else (match SanitiseComments(comments, g.scope)
        case Err(e) => Err(e)
        case Ok(cs) => Ok(PostReviewPayload(verdict, Body(summary, g), cs)))
    case (PostComment, PostCommentPayload(text)) =>
      if Blank(Body(text, g)) then Err(MalformedError) else Ok(PostCommentPayload(Body(text, g)))
    case (SetLabels, SetLabelsPayload(add, remove)) =>
      if |add| > g.limits.maxLabelsAdded then Err(LimitExceeded) else Ok(SetLabelsPayload(add, remove))
    case (UnknownKind(_), _) => Err(UnknownKindError)
    case _ => Err(MalformedError)
  }

  function Validate(env: Envelope, g: Grant, now: int): Result<Payload, Error> {
    match Gates(env, g, now)
    case Some(e) => Err(e)
    case None => DecodeAndSanitise(env, g)
  }

  function KindOf(p: Payload): Kind {
    match p
    case OpenPRPayload(_, _, _) => OpenPR
    case UpdatePRPayload(_, _) => UpdatePR
    case PostReviewPayload(_, _, _) => PostReview
    case PostCommentPayload(_) => PostComment
    case SetLabelsPayload(_, _) => SetLabels
    case Malformed(_) => UnknownKind("")
  }

  /** An accepted payload belongs to a known kind that the grant lists, of the scope and tier it needs. */
  lemma AcceptedKind(env: Envelope, g: Grant, now: int)
    requires Validate(env, g, now).Ok?
    ensures var k := KindOf(Validate(env, g, now).value);
      && k == env.kind && !k.UnknownKind? && k in g.allowedKinds
      && TokenCovers(k, g.tokenScope) && ScopePairs(k, g.scope.kind)
      && env.runId == g.runId && now <= g.expiresAt
  {
    hide SanitiseBody, SanitiseComments, SanitiseLine, Blank;
  }

  // ---------- the diff ----------

  const DEFAULT_DENIED: seq<string> := [
    ".github/workflows/**", ".github/actions/**", ".git/**", "CODEOWNERS", ".github/CODEOWNERS",
    "docs/CODEOWNERS", ".gitattributes", "**/.npmrc", "**/.pypirc", ".bot/**"]

  /** `path.Match`, for patterns whose only wildcard is the star, which stands for any run of bytes without
      a slash. */
  predicate Wild(pattern: string, name: string)
    decreases |pattern| + |name|
  {
    if pattern == "" then name == ""
    else if pattern[0] == '*' then Wild(pattern[1..], name) || (name != "" && name[0] != '/' && Wild(pattern, name[1..]))
    else name != "" && name[0] == pattern[0] && Wild(pattern[1..], name[1..])
  }

  /** The two forms with two stars have a meaning of their own; other patterns go to `path.Match`. */
  predicate GlobMatch(pattern: string, name: string) {
    if HasSuffix(pattern, "/**") then HasPrefix(name, pattern[..|pattern| - 2])
    else if HasPrefix(pattern, "**/") then name == pattern[3..] || HasSuffix(name, "/" + pattern[3..])
    else Wild(pattern, name)
  }

  function ValidateDiff(d: Diff, g: Grant): Option<Error> {
    if |d.files| == 0 then Some(MalformedError)
    else if |d.files| > g.limits.maxFiles then Some(LimitExceeded)
    else if d.addedLines + d.deletedLines > g.limits.maxDiffLines then Some(LimitExceeded)
    else if exists f, p :: f in d.files && p in DEFAULT_DENIED + g.deniedPaths && GlobMatch(p, f) then Some(DeniedPath)
    else None
  }

  // ---------- the idempotency key ----------

  /** What the key hashes, in place of its SHA-256 digest, which is taken to be injective. */
  datatype Key = Key(run: string, repo: Repo, scope: Scope, kind: Kind, payload: Payload)

  function IdempotencyKey(env: Envelope, g: Grant): Key { Key(g.runId, g.repo, g.scope, env.kind, env.payload) }

  /** Two attempts share a key exactly if they are the same payload of the same kind for the same run and place. */
  lemma SameKey(e1: Envelope, g1: Grant, e2: Envelope, g2: Grant)
    ensures IdempotencyKey(e1, g1) == IdempotencyKey(e2, g2) <==>
      g1.runId == g2.runId && g1.repo == g2.repo && g1.scope == g2.scope && e1.kind == e2.kind && e1.payload == e2.payload
  {
  }

  // ---------- what an accepted review looks like ----------

  /** A comment that is anchored on a line, on a known side, with evidence exactly if verified. */
  ghost predicate WellFormedComment(c: ReviewComment) {
    && c.line >= 1
    && (c.side == "LEFT" || c.side == "RIGHT")
    && (if c.verified then !Blank(c.evidence) else c.evidence == "")
    && SanitiseProofs.MentionsGuarded(c.body)
    && SanitiseProofs.MentionsGuarded(c.evidence)
  }

  /** The accepted form of a comment: its anchor, its tag, and its words, defused. */
  ghost predicate Accepts(c: ReviewComment, scope: Scope, out: ReviewComment) {
    && WellFormedComment(out) && out.path == c.path && out.line == c.line && out.verified == c.verified
    && out.side == (if c.side == "LEFT" then "LEFT" else "RIGHT")
    && out.body == SanitiseBody(c.body, COMMENT_BYTES, Own(scope))
    && (c.verified ==> out.evidence == SanitiseBody(c.evidence, COMMENT_BYTES, Own(scope)))
  }

  lemma SanitisedComment(c: ReviewComment, scope: Scope)
    ensures SanitiseComment(c, scope).Ok? ==> Accepts(c, scope, SanitiseComment(c, scope).value)
  {
    SanitiseProofs.SanitisedMentionsGuarded(c.body, COMMENT_BYTES, Own(scope));
    SanitiseProofs.SanitisedMentionsGuarded(c.evidence, COMMENT_BYTES, Own(scope));
    hide SanitiseProofs.MentionsGuarded, SanitiseBody, Blank;
  }

  /** Acceptance of a list of comments, decided one by one; an accepted comment keeps its anchor and
      its tag, and everything it says is defused. */
  lemma {:induction false} SanitisedComments(cs: seq<ReviewComment>, scope: Scope)
    ensures SanitiseComments(cs, scope).Ok? <==> forall i :: 0 <= i < |cs| ==> SanitiseComment(cs[i], scope).Ok?
    ensures match SanitiseComments(cs, scope)
      case Err(e) => e == MalformedError
      case Ok(out) => |out| == |cs| && forall i :: 0 <= i < |cs| ==> Accepts(cs[i], scope, out[i])
  {
    hide SanitiseComment, Accepts, SanitiseBody, Blank;
    if cs != [] {
      var rest := SanitiseComments(cs[1..], scope);
      SanitisedComments(cs[1..], scope);
      SanitisedComment(cs[0], scope);
      RefusedComment(cs[0], scope);
      assert forall i :: 0 <= i < |cs| - 1 ==> cs[1..][i] == cs[i + 1];
      assert (forall i :: 0 <= i < |cs| ==> SanitiseComment(cs[i], scope).Ok?) <==> SanitiseComment(cs[0], scope).Ok? && rest.Ok?;
      if rest.Ok? && SanitiseComment(cs[0], scope).Ok? {
        var out := [SanitiseComment(cs[0], scope).value] + rest.value;
        assert SanitiseComments(cs, scope) == Ok(out);
        forall i | 0 <= i < |cs| ensures Accepts(cs[i], scope, out[i]) {
          if i > 0 { assert cs[1..][i - 1] == cs[i] && rest.value[i - 1] == out[i]; }
        }
      }
    }
  }

  lemma RefusedComment(c: ReviewComment, scope: Scope)
    ensures SanitiseComment(c, scope).Err? ==> SanitiseComment(c, scope).error == MalformedError
  {
    hide SanitiseBody, Blank;
  }
}
