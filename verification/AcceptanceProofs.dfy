/** What validation accepts, exactly, and what it makes of it, up to the write that reaches GitHub. */
module AcceptanceProofs {
  import opened Text
  import opened Intent
  import opened Sanitise
  import opened Validation
  import opened Protocol
  import opened IdempotencyProofs
  import opened SanitiseProofs
  import opened SanitiseMeaning

  // ---------- what is accepted ----------

  /** The issue a text of this scope may close. */
  function OwnIssue(s: Scope): Option<string> { if s.kind == Issue then Some(Itoa(s.number)) else None }

  predicate HasTitle(p: Payload) { p.OpenPRPayload? && !Blank(p.title) }

  /** A review with a known verdict whose comments stand on lines and bring evidence where they claim it. */
  predicate Reviewable(p: Payload, g: Grant) {
    && p.PostReviewPayload? && (p.verdict == CommentVerdict || p.verdict == RequestChanges)
    && |p.comments| <= g.limits.maxComments
    && forall c :: c in p.comments ==> c.line >= 1 && (c.verified ==> !Blank(SanitiseBody(c.evidence, 4096, OwnIssue(g.scope))))
  }

  /** The credential tier is enough to write this kind with; reviews are written with another one. */
  predicate Suffices(t: TokenScope, k: Kind) {
    match k
    case OpenPR | UpdatePR => t == ContentsWrite
    case PostReview => t == ReadOnly || t == IssuesWrite || t == ContentsWrite
    case PostComment | SetLabels => t == IssuesWrite || t == ContentsWrite
    case UnknownKind(_) => false
  }

  /** A run of this scope has something that the kind can be written to. */
  predicate HasPlace(s: ScopeKind, k: Kind) {
    match k
    case OpenPR => s == Issue || s == Scheduled
    case UpdatePR | PostReview => s == PullRequest
    case PostComment | SetLabels => s == Issue || s == PullRequest
    case UnknownKind(_) => false
  }

  /** The envelope is the run's own and in time, and the grant lists its kind, covers it with its credential and has a
      place for it. */
  predicate Entitled(env: Envelope, g: Grant, now: int) {
    && env.schemaVersion == 2 && env.runId == g.runId && now <= g.expiresAt
    && env.kind in g.allowedKinds && Suffices(g.tokenScope, env.kind) && HasPlace(g.scope.kind, env.kind)
    && (g.scope.kind == Scheduled || g.scope.number != 0)
  }

  /** The payload is of its kind, complete and within the grant's limits. */
  predicate Whole(k: Kind, p: Payload, g: Grant) {
    match k
    case OpenPR => HasTitle(p)
    case UpdatePR => p.UpdatePRPayload?
    case PostReview => Reviewable(p, g)
    case PostComment => p.PostCommentPayload? && !Blank(SanitiseBody(p.text, g.limits.maxBodyBytes, OwnIssue(g.scope)))
    case SetLabels => p.SetLabelsPayload? && |p.add| <= g.limits.maxLabelsAdded
    case UnknownKind(_) => false
  }

  lemma CommentAccepted(c: ReviewComment, s: Scope)
    ensures SanitiseComment(c, s).Ok? <==> c.line >= 1 && (c.verified ==> !Blank(SanitiseBody(c.evidence, 4096, OwnIssue(s))))
  {
    hide SanitiseBody, Blank;
  }

  lemma CommentsAccepted(cs: seq<ReviewComment>, s: Scope)
    ensures SanitiseComments(cs, s).Ok? <==> forall c :: c in cs ==> c.line >= 1 && (c.verified ==> !Blank(SanitiseBody(c.evidence, 4096, OwnIssue(s))))
  {
    SanitisedComments(cs, s);
    forall c ensures SanitiseComment(c, s).Ok? <==> c.line >= 1 && (c.verified ==> !Blank(SanitiseBody(c.evidence, 4096, OwnIssue(s)))) {
      CommentAccepted(c, s);
    }
    hide SanitiseComment, SanitiseComments, SanitiseBody, Blank, OwnIssue, Accepts;
  }

  lemma EntitledExactly(env: Envelope, g: Grant, now: int)
    ensures Gates(env, g, now).None? <==> Entitled(env, g, now)
  {
  }

  /** Why an envelope is refused before its payload is looked at; the first reason counts. */
  lemma RefusedBecause(env: Envelope, g: Grant, now: int)
    ensures var e := Gates(env, g, now);
      var own := env.schemaVersion == 2 && env.runId == g.runId;
      var live := own && !env.kind.UnknownKind? && now <= g.expiresAt;
      var able := live && env.kind in g.allowedKinds && Suffices(g.tokenScope, env.kind);
      && (e == Some(SchemaVersion) <==> env.schemaVersion != 2)
      && (e == Some(UnknownKindError) <==> own && env.kind.UnknownKind?)
      && (e == Some(GrantExpired) <==> own && !env.kind.UnknownKind? && now > g.expiresAt)
      && (e == Some(CapabilityMissing) <==> live && !able)
      && (e == Some(ScopeMismatch) <==> (env.schemaVersion == 2 && env.runId != g.runId) || (able && !HasPlace(g.scope.kind, env.kind)))
      && (e == Some(MalformedError) <==> able && HasPlace(g.scope.kind, env.kind) && g.scope.kind != Scheduled && g.scope.number == 0)
  {
  }

  lemma ReviewableExactly(p: Payload, g: Grant)
    ensures Reviewable(p, g) <==>
      p.PostReviewPayload? && !p.verdict.UnknownVerdict? && |p.comments| <= g.limits.maxComments && SanitiseComments(p.comments, g.scope).Ok?
  {
    if p.PostReviewPayload? { CommentsAccepted(p.comments, g.scope); }
    hide SanitiseBody, SanitiseComments, Blank, OwnIssue;
  }

  lemma CompleteExactly(env: Envelope, g: Grant)
    ensures DecodeAndSanitise(env, g).Ok? <==> Whole(env.kind, env.payload, g)
  {
    ReviewableExactly(env.payload, g);
    hide SanitiseBody, SanitiseComments, SanitiseLine, Blank, Itoa, Reviewable;
  }

  lemma OverTheLimit(env: Envelope, g: Grant)
    ensures DecodeAndSanitise(env, g) == Err(LimitExceeded) <==>
      || (env.kind == SetLabels && env.payload.SetLabelsPayload? && |env.payload.add| > g.limits.maxLabelsAdded)
      || (env.kind == PostReview && env.payload.PostReviewPayload? && !env.payload.verdict.UnknownVerdict? && |env.payload.comments| > g.limits.maxComments)
  {
    if env.payload.PostReviewPayload? { BadCommentsAreMalformed(env.payload.comments, g.scope); }
    hide SanitiseBody, SanitiseComments, SanitiseLine, Blank, Itoa;
  }

  lemma BadCommentsAreMalformed(cs: seq<ReviewComment>, s: Scope)
    ensures SanitiseComments(cs, s).Err? ==> SanitiseComments(cs, s).error == MalformedError
  {
    SanitisedComments(cs, s);
    hide Accepts, SanitiseComment, SanitiseComments;
  }

  /** `Validate` accepts exactly the complete envelopes that are entitled. */
  lemma AcceptsExactly(env: Envelope, g: Grant, now: int)
    ensures Validate(env, g, now).Ok? <==> Entitled(env, g, now) && Whole(env.kind, env.payload, g)
  {
    EntitledExactly(env, g, now);
    CompleteExactly(env, g);
    hide Gates, DecodeAndSanitise, Entitled, Whole;
  }

  // ---------- what becomes of it ----------

  /** The text is the sanitised one: it holds no control characters, its mentions are in backticks, it is at most the
      truncation mark over its cap, and where it was not cut it closes no issue but the run's own and has lost nothing
      but control characters and keyword letters; a harmless text is as it was. */
  ghost predicate Defanged(t: string, raw: string, cap: nat, s: Scope) {
    && t == SanitiseBody(raw, cap, OwnIssue(s))
    && (WellEncoded(raw) ==> ControlFree(t))
    && MentionsGuarded(t) && |t| <= cap + 15 && (|t| > cap ==> |t| == cap + 15 && HasSuffix(t, "\n\n_[truncated]_"))
    && (|t| <= cap ==> ClosesOnly(t, OwnIssue(s)) && Lastings(t) == Lastings(raw))
    && (ControlFree(raw) && MentionsNobody(raw) && ClosesOnly(raw, OwnIssue(s)) && |raw| <= cap ==> t == raw)
  }

  /** The title on one line of at most 120 bytes; where they fit, its words. */
  ghost predicate OneLine(t: string, raw: string) {
    var line := Join(Fields(raw), " ");
    t <= line && |t| == (if |line| < 120 then |line| else 120) && '\n' !in t
  }

  ghost predicate AcceptedComment(out: ReviewComment, c: ReviewComment, s: Scope) {
    && out.path == c.path && out.line == c.line && out.side == (if c.side == "LEFT" then "LEFT" else "RIGHT") && out.verified == c.verified
    && Defanged(out.body, c.body, 4096, s)
    && (if c.verified then Defanged(out.evidence, c.evidence, 4096, s) else out.evidence == "")
  }

  /** What the agent sent, with every text defanged and everything else as it was. */
  ghost predicate AcceptedAs(p: Payload, raw: Payload, g: Grant) {
    var cap, s := g.limits.maxBodyBytes, g.scope;
    match raw
    case OpenPRPayload(title, body, draft) => p.OpenPRPayload? && OneLine(p.title, title) && Defanged(p.body, body, cap, s) && p.draft == draft
    case UpdatePRPayload(body, draft) =>
      && p.UpdatePRPayload? && p.newDraft == draft && p.newBody.Some? == body.Some?
      && (body.Some? ==> Defanged(p.newBody.value, body.value, cap, s))
    case PostReviewPayload(verdict, summary, comments) =>
      && p.PostReviewPayload? && p.verdict == verdict && Defanged(p.summary, summary, cap, s)
      && |p.comments| == |comments| && forall i :: 0 <= i < |comments| ==> AcceptedComment(p.comments[i], comments[i], s)
    case PostCommentPayload(text) => p.PostCommentPayload? && Defanged(p.text, text, cap, s)
    case SetLabelsPayload(_, _) => p == raw
    case Malformed(_) => false
  }

  lemma SanitisedIsDefanged(raw: string, cap: nat, s: Scope)
    ensures Defanged(SanitiseBody(raw, cap, OwnIssue(s)), raw, cap, s)
  {
    SanitisedMentionsGuarded(raw, cap, OwnIssue(s));
    if WellEncoded(raw) { SanitisedIsControlFree(raw, cap, OwnIssue(s)); }
    if ControlFree(raw) && MentionsNobody(raw) && ClosesOnly(raw, OwnIssue(s)) && |raw| <= cap { HarmlessTextStays(raw, cap, OwnIssue(s)); }
    var t := SanitiseBody(raw, cap, OwnIssue(s));
    if |t| <= cap { UncutText(raw, cap, OwnIssue(s)); } else { CutText(raw, cap, OwnIssue(s)); }
    hide Defused, MentionsGuarded, ClosesOnly, OwnIssue, ControlFree, MentionsNobody, WellEncoded, Lastings;
  }

  lemma CutText(raw: string, cap: nat, own: Option<string>)
    requires |SanitiseBody(raw, cap, own)| > cap
    ensures var t := SanitiseBody(raw, cap, own); |t| == cap + 15 && HasSuffix(t, "\n\n_[truncated]_")
  {
    hide Defused;
    var t := SanitiseBody(raw, cap, own);
    assert |Defused(raw, own)| > cap;
    assert t == Defused(raw, own)[..cap] + TRUNCATED;
    assert t[|t| - 15..] == TRUNCATED;
  }

  lemma UncutText(raw: string, cap: nat, own: Option<string>)
    requires |SanitiseBody(raw, cap, own)| <= cap
    ensures var t := SanitiseBody(raw, cap, own); ClosesOnly(t, own) && Lastings(t) == Lastings(raw)
  {
    DefusedIsClean(raw, own);
    ClosesOnlyMeans(Defused(raw, own), own);
    SanitisingKeepsTheRest(raw, own);
    hide Defused, NoForeignClosing, ClosesOnly, Lastings;
    assert |TRUNCATED| > 0;
  }

  lemma LineIsOneLine(raw: string)
    ensures OneLine(SanitiseLine(raw, 120), raw)
  {
    FieldsKeepNoSpace(raw);
  }

  /** White space parts the words and is in none of them. */
  lemma {:induction false} FieldsKeepNoSpace(s: string)
    ensures '\n' !in Join(Fields(s), " ")
    decreases |s|
  {
    if s != "" {
      if SpaceLen(s) > 0 {
        FieldsKeepNoSpace(s[SpaceLen(s)..]);
      } else {
        FieldsKeepNoSpace(s[FieldLen(s)..]);
        FieldHasNoSpace(s);
      }
    }
  }

  lemma {:induction false} FieldHasNoSpace(s: string)
    ensures '\n' !in s[..FieldLen(s)]
  {
    if s != "" && SpaceLen(s) == 0 {
      FieldHasNoSpace(s[1..]);
      assert s[..FieldLen(s)] == [s[0]] + s[1..][..FieldLen(s[1..])];
    }
  }

  lemma CommentIsAccepted(c: ReviewComment, s: Scope)
    requires SanitiseComment(c, s).Ok?
    ensures AcceptedComment(SanitiseComment(c, s).value, c, s)
  {
    SanitisedIsDefanged(c.body, 4096, s);
    SanitisedIsDefanged(c.evidence, 4096, s);
    hide Defanged, SanitiseBody, Blank;
  }

  lemma {:induction false} CommentsAreAccepted(cs: seq<ReviewComment>, s: Scope)
    requires SanitiseComments(cs, s).Ok?
    ensures var out := SanitiseComments(cs, s).value;
      |out| == |cs| && forall i :: 0 <= i < |cs| ==> AcceptedComment(out[i], cs[i], s)
  {
    hide SanitiseComment, AcceptedComment;
    if cs != [] {
      CommentIsAccepted(cs[0], s);
      CommentsAreAccepted(cs[1..], s);
      assert forall i :: 0 <= i < |cs| - 1 ==> cs[1..][i] == cs[i + 1];
    }
  }

  /** Whatever `Validate` accepts is what the agent sent, defanged. */
  lemma AcceptedIsDefanged(env: Envelope, g: Grant, now: int)
    requires Validate(env, g, now).Ok?
    ensures AcceptedAs(Validate(env, g, now).value, env.payload, g)
  {
    hide SanitiseBody, SanitiseLine, Blank, Defanged, OneLine, AcceptedComment, SanitiseComments, Gates;
    var cap := g.limits.maxBodyBytes;
    match env.payload
    case OpenPRPayload(title, body, _) => LineIsOneLine(title); SanitisedIsDefanged(body, cap, g.scope);
    case UpdatePRPayload(body, _) => if body.Some? { SanitisedIsDefanged(body.value, cap, g.scope); }
    case PostReviewPayload(_, summary, comments) =>
      SanitisedIsDefanged(summary, cap, g.scope);
      if SanitiseComments(comments, g.scope).Ok? { CommentsAreAccepted(comments, g.scope); }
    case PostCommentPayload(text) => SanitisedIsDefanged(text, cap, g.scope);
    case _ =>
  }

  // ---------- what reaches GitHub ----------

  /** The words of a write. */
  function Content(w: Write): Payload {
    match w
    case OpenPRWrite(_, _, _, _, title, body, draft) => OpenPRPayload(title, body, draft)
    case UpdatePRWrite(_, _, _, body, draft) => UpdatePRPayload(body, draft)
    case PostReviewWrite(_, _, _, _, _, verdict, summary, comments) => PostReviewPayload(verdict, summary, comments)
    case PostCommentWrite(_, _, _, text) => PostCommentPayload(text)
    case SetLabelsWrite(_, _, _, add, remove) => SetLabelsPayload(add, remove)
  }

  /** Where it goes: the grant's repository and number, or the run's own branch. */
  ghost predicate WellPlaced(w: Write, g: Grant) {
    && w.repo == g.repo
    && (if w.OpenPRWrite? then HasPrefix(w.branch, "bot/" + g.runId + "-") else w.number == g.scope.number)
    && (w.PostReviewWrite? ==> w.headSHA == g.scope.headSHA)
    && w.tier == if w.PostReviewWrite? then IssuesWrite else g.tokenScope
  }

  lemma ResolvedIsPlaced(p: Payload, g: Grant, git: Git, mapped: int)
    requires !p.Malformed? && (p.OpenPRPayload? ==> git.branch.Some? && git.base.Some? && HasPrefix(git.branch.value, "bot/" + g.runId + "-"))
    ensures Content(Resolve(p, g, git, mapped)) == p && WellPlaced(Resolve(p, g, git, mapped), g)
  {
    hide HasPrefix;
  }

  /** Every write that an attempt makes is the agent's payload, defanged, in the place that the grant says. */
  lemma WrittenIsDefanged(w: World, env: Envelope, g: Grant, now: int, git: Git, f: Fates)
    ensures var key := IdempotencyKey(env, g);
      var w' := Execute(w, key, Validate(env, g, now), g, git, f).world;
      w'.writes != w.writes ==>
        && |w'.writes| == |w.writes| + 1 && w'.writes[..|w.writes|] == w.writes
        && var e := w'.writes[|w.writes|]; e.key == key && AcceptedAs(Content(e.write), env.payload, g) && WellPlaced(e.write, g)
  {
    var key, r := IdempotencyKey(env, g), Validate(env, g, now);
    var w' := Execute(w, key, r, g, git, f).world;
    if r.Ok? {
      AcceptedIsDefanged(env, g, now);
      hide Execute, Validate, AcceptedAs, WellPlaced, Content, Resolve, HasPrefix;
      if w'.writes != w.writes {
        WrittenEntry(w, key, r.value, g, git, f);
        ResolvedIsPlaced(r.value, g, git, Mapped(w, ThreadOf(g)));
      }
    } else {
      hide Validate, AcceptedAs;
    }
  }
}
