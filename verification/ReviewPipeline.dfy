/** The middle of `ReviewPipeline.Run` (internal/runpipe/review.go): the model's review is demoted to
    opinions, the deterministic findings go in front, the list is cut, and the result has to pass the
    executor's validation again. */
module ReviewPipeline {
  import opened Text
  import opened Intent
  import opened Validation
  import opened Sanitise
  import SanitiseProofs
  import opened Findings
  import Sorting

  // ---------- classification tokens ----------

  /** `[verified]` or `[opinion]` at the head of `s`, without regard to case: its length, or 0. */
  function TokenLen(s: string): (n: nat)
    ensures n <= |s|
  {
    if |s| >= 10 && LowerAll(s[..10]) == "[verified]" then 10
    else if |s| >= 9 && LowerAll(s[..9]) == "[opinion]" then 9
    else 0
  }

  function LowerAll(s: string): (r: string)
    ensures |r| == |s|
  {
    seq(|s|, i requires 0 <= i < |s| => Lower(s[i]))
  }

  function StripTokens(s: string): string
    decreases |s|
  {
    if s == "" then ""
    else if TokenLen(s) > 0 then StripTokens(s[TokenLen(s)..])
    else [s[0]] + StripTokens(s[1..])
  }

  // ---------- the order of findings ----------

  predicate FindingLeq(a: Finding, b: Finding) {
    if a.rule != b.rule then StringLeq(a.rule, b.rule)
    else if a.path != b.path then StringLeq(a.path, b.path)
    else if a.line != b.line then a.line <= b.line
    else StringLeq(a.detail, b.detail)
  }

  /** By rule, then by path, then by line, then by detail; texts in byte order. */
  ghost predicate ComesFirst(a: Finding, b: Finding) {
    || Below(a.rule, b.rule)
    || (a.rule == b.rule && (
      || Below(a.path, b.path)
      || (a.path == b.path && (
        || a.line < b.line
        || (a.line == b.line && (Below(a.detail, b.detail) || a.detail == b.detail))))))
  }

  lemma FindingLeqMeans(a: Finding, b: Finding)
    ensures FindingLeq(a, b) <==> ComesFirst(a, b)
  {
    StringLeqMeans(a.rule, b.rule);
    StringLeqMeans(a.path, b.path);
    StringLeqMeans(a.detail, b.detail);
    hide StringLeq, Below;
    BelowIsStrict(a.rule);
    BelowIsStrict(a.path);
  }

  lemma BelowIsStrict(a: string)
    ensures !Below(a, a)
  {
  }

  lemma FindingLeqIsPreorder()
    ensures Sorting.Preorder(FindingLeq)
  {
    hide StringLeq;
    forall a, b ensures FindingLeq(a, b) || FindingLeq(b, a) {
      Sorting.LexStep(a.rule, b.rule, a.rule);
      Sorting.LexStep(a.path, b.path, a.path);
      Sorting.LexStep(a.detail, b.detail, a.detail);
    }
    forall a, b, c | FindingLeq(a, b) && FindingLeq(b, c) ensures FindingLeq(a, c) {
      Sorting.LexStep(a.rule, b.rule, c.rule);
      Sorting.LexStep(a.path, b.path, c.path);
      Sorting.LexStep(a.detail, b.detail, c.detail);
    }
  }

  // ---------- the trusted review ----------

  function Verified(f: Finding): ReviewComment { ReviewComment(f.path, f.line, "RIGHT", f.rule + ": " + f.detail, true, f.evidence) }

  function Demoted(c: ReviewComment): ReviewComment { c.(body := StripTokens(c.body), verified := false, evidence := "") }

  function Map<A, B>(s: seq<A>, f: A -> B): (r: seq<B>)
    ensures |r| == |s| && forall i :: 0 <= i < |s| ==> r[i] == f(s[i])
  {
    seq(|s|, i requires 0 <= i < |s| => f(s[i]))
  }

  function Cut<T>(s: seq<T>, limit: int): seq<T> { if 0 <= limit < |s| then s[..limit] else s }

  /** The comments the pipeline hands to the executor, for findings already in order. */
  function TrustedComments(findings: seq<Finding>, model: seq<ReviewComment>, limit: int): seq<ReviewComment> {
    Cut(Map(findings, Verified) + Map(model, Demoted), limit)
  }

  function Trusted(findings: seq<Finding>, model: Payload, limit: int): Payload
    requires model.PostReviewPayload?
  {
    PostReviewPayload(model.verdict, StripTokens(model.summary), TrustedComments(findings, model.comments, limit))
  }

  ghost predicate InOrder(ordered: seq<Finding>, findings: seq<Finding>) {
    Sorting.Sorted(ordered, FindingLeq) && multiset(ordered) == multiset(findings)
  }

  /** Demotes the model's comments in place, sorts the findings, appends and cuts. */
  method BuildTrusted(findings: seq<Finding>, model: Payload, limit: int) returns (trusted: Payload)
    requires model.PostReviewPayload?
    ensures exists ordered :: InOrder(ordered, findings) && trusted == Trusted(ordered, model, limit)
  {
    hide StripTokens, FindingLeq;
    var opinions := model.comments;
    for i := 0 to |opinions|
      invariant |opinions| == |model.comments|
      invariant forall k :: 0 <= k < i ==> opinions[k] == Demoted(model.comments[k])
      invariant forall k :: i <= k < |opinions| ==> opinions[k] == model.comments[k]
    {
      var body := StripTokens(opinions[i].body);
      opinions := opinions[i := opinions[i].(body := body, verified := false, evidence := "")];
    }
    assert opinions == Map(model.comments, Demoted);
    var sorted := Sorting.Sort(findings, FindingLeq);
    FindingLeqIsPreorder();
    Sorting.SortSorts(findings, FindingLeq);
    Sorting.SortPermutes(findings, FindingLeq);
    assert InOrder(sorted, findings);
    var comments: seq<ReviewComment> := [];
    for i := 0 to |sorted|
      invariant |comments| == i && forall k :: 0 <= k < i ==> comments[k] == Verified(sorted[k])
    {
      var f := sorted[i];
      comments := comments + [ReviewComment(f.path, f.line, "RIGHT", f.rule + ": " + f.detail, true, f.evidence)];
    }
    assert comments == Map(sorted, Verified);
    comments := comments + opinions;
    if limit >= 0 && |comments| > limit { comments := comments[..limit]; }
    trusted := PostReviewPayload(model.verdict, StripTokens(model.summary), comments);
  }

  /** A finding's comment passes the comment check. */
  lemma VerifiedPasses(f: Finding, scope: Scope)
    requires Presentable(f)
    ensures SanitiseComment(Verified(f), scope).Ok?
  {
    hide SanitiseBody, Blank;
    SanitiseProofs.GraphicHeadSurvives(f.evidence, COMMENT_BYTES, Own(scope));
  }

  /** A demoted comment passes it if it stands on a line. */
  lemma DemotedPasses(c: ReviewComment, scope: Scope)
    requires c.line >= 1
    ensures SanitiseComment(Demoted(c), scope).Ok?
  {
    hide SanitiseBody, Blank, StripTokens;
  }

  lemma TrustedCommentsPass(findings: seq<Finding>, model: seq<ReviewComment>, limit: int, scope: Scope)
    requires forall f :: f in findings ==> Presentable(f)
    requires forall c :: c in model ==> c.line >= 1
    ensures SanitiseComments(TrustedComments(findings, model, limit), scope).Ok?
  {
    hide SanitiseComment, Presentable, Verified, Demoted, SanitiseComments;
    var cs := TrustedComments(findings, model, limit);
    forall i | 0 <= i < |cs| ensures SanitiseComment(cs[i], scope).Ok? {
      if i < |findings| {
        assert findings[i] in findings && cs[i] == Verified(findings[i]);
        VerifiedPasses(findings[i], scope);
      } else {
        var c := model[i - |findings|];
        assert c in model && cs[i] == Demoted(c);
        DemotedPasses(c, scope);
      }
    }
    SanitisedComments(cs, scope);
  }

  /** The model's own review, as the first validation left it. */
  lemma ModelCommentsAnchored(env: Envelope, g: Grant, now: int)
    requires Validate(env, g, now).Ok? && env.kind == PostReview
    ensures var p := Validate(env, g, now).value;
      && p.PostReviewPayload? && !p.verdict.UnknownVerdict? && |p.comments| <= g.limits.maxComments
      && forall c :: c in p.comments ==> c.line >= 1
  {
    hide SanitiseBody, SanitiseComments, Blank, SanitiseLine;
    SanitisedComments(env.payload.comments, g.scope);
  }

  /** The second envelope of a review: what the model said passed validation, every finding is
      presentable, the run is the grant's and the grant has not expired. */
  ghost predicate SecondEnvelope(env2: Envelope, findings: seq<Finding>, env: Envelope, model: Payload, g: Grant, now: int) {
    && env.kind == PostReview && Validate(env, g, now) == Ok(model) && model.PostReviewPayload?
    && (forall f :: f in findings ==> Presentable(f))
    && env2 == Envelope(SCHEMA_VERSION, g.runId, PostReview, Trusted(findings, model, g.limits.maxComments))
  }

  /** The comment is the finding, sanitised, with its evidence. */
  predicate Carries(c: ReviewComment, f: Finding, scope: Scope) {
    && c.verified && c.path == f.path && c.line == f.line && c.side == "RIGHT"
    && c.body == SanitiseBody(f.rule + ": " + f.detail, COMMENT_BYTES, Own(scope))
    && c.evidence == SanitiseBody(f.evidence, COMMENT_BYTES, Own(scope))
  }

  /** The comment is the model's, stripped and sanitised, and claims nothing. */
  predicate Opines(c: ReviewComment, m: ReviewComment, scope: Scope) {
    && !c.verified && c.evidence == "" && c.path == m.path && c.line == m.line
    && c.side == (if m.side == "LEFT" then "LEFT" else "RIGHT")
    && c.body == SanitiseBody(StripTokens(m.body), COMMENT_BYTES, Own(scope))
  }

  lemma SameGates(env: Envelope, env2: Envelope, g: Grant, now: int, later: int)
    requires Validate(env, g, now).Ok? && env2.kind == env.kind && env2.schemaVersion == SCHEMA_VERSION && env2.runId == g.runId
    requires later <= g.expiresAt
    ensures Gates(env2, g, later) == None
  {
    hide DecodeAndSanitise;
  }

  /** What the executor writes for these findings and this model: the findings first, each as a verified
      comment, then the model's opinions, cut to the limit and no shorter. */
  ghost predicate Faithful(out: seq<ReviewComment>, findings: seq<Finding>, model: seq<ReviewComment>, limit: int, scope: Scope) {
    && |out| == (if |findings| + |model| <= limit then |findings| + |model| else limit)
    && (forall i :: 0 <= i < |out| ==> WellFormedComment(out[i]))
    && (forall i :: 0 <= i < |out| && i < |findings| ==> Carries(out[i], findings[i], scope))
    && (forall i :: |findings| <= i < |out| ==> Opines(out[i], model[i - |findings|], scope))
  }

  lemma VerifiedCarries(f: Finding, scope: Scope, out: ReviewComment)
    requires Accepts(Verified(f), scope, out)
    ensures WellFormedComment(out) && Carries(out, f, scope)
  {
    hide SanitiseBody, WellFormedComment;
  }

  lemma DemotedOpines(m: ReviewComment, scope: Scope, out: ReviewComment)
    requires Accepts(Demoted(m), scope, out)
    ensures WellFormedComment(out) && Opines(out, m, scope)
  {
    hide SanitiseBody, SanitiseProofs.MentionsGuarded, Blank, StripTokens;
  }

  lemma TrustedCommentsAreFaithful(findings: seq<Finding>, model: seq<ReviewComment>, limit: int, scope: Scope)
    requires |model| <= limit && SanitiseComments(TrustedComments(findings, model, limit), scope).Ok?
    ensures Faithful(SanitiseComments(TrustedComments(findings, model, limit), scope).value, findings, model, limit, scope)
  {
    hide SanitiseComment, SanitiseComments, Accepts, Verified, Demoted, WellFormedComment, Carries, Opines;
    var cs := TrustedComments(findings, model, limit);
    SanitisedComments(cs, scope);
    var out := SanitiseComments(cs, scope).value;
    forall i | 0 <= i < |out|
      ensures WellFormedComment(out[i])
      ensures if i < |findings| then Carries(out[i], findings[i], scope) else Opines(out[i], model[i - |findings|], scope)
    {
      if i < |findings| {
        assert cs[i] == Verified(findings[i]);
        VerifiedCarries(findings[i], scope, out[i]);
      } else {
        assert cs[i] == Demoted(model[i - |findings|]);
        DemotedOpines(model[i - |findings|], scope, out[i]);
      }
    }
  }

  /** The executor accepts the pipeline's review, whatever the model wrote and however many findings
      there are, as long as the grant lasts, and what it writes is faithful: the verified comments are
      exactly the findings, a finding is dropped only when no opinion is left, and nothing beyond the limit
      remains. */
  lemma TrustedReviewIsAccepted(env2: Envelope, findings: seq<Finding>, env: Envelope, model: Payload, g: Grant, now: int, later: int)
    requires SecondEnvelope(env2, findings, env, model, g, now) && later <= g.expiresAt
    ensures var r := Validate(env2, g, later);
      && r.Ok? && r.value.PostReviewPayload? && Faithful(r.value.comments, findings, model.comments, g.limits.maxComments, g.scope)
      && r.value.verdict == model.verdict && r.value.summary == Body(StripTokens(model.summary), g)
  {
    ModelCommentsAnchored(env, g, now);
    SameGates(env, env2, g, now, later);
    hide Validate, Gates, Presentable, StripTokens, SanitiseComments, Faithful;
    TrustedCommentsPass(findings, model.comments, g.limits.maxComments, g.scope);
    TrustedCommentsAreFaithful(findings, model.comments, g.limits.maxComments, g.scope);
    AcceptedReview(env2, g, later);
  }

  lemma AcceptedReview(env: Envelope, g: Grant, now: int)
    requires Gates(env, g, now) == None && env.kind == PostReview && env.payload.PostReviewPayload?
    requires !env.payload.verdict.UnknownVerdict? && |env.payload.comments| <= g.limits.maxComments
    requires SanitiseComments(env.payload.comments, g.scope).Ok?
    ensures Validate(env, g, now)
      == Ok(PostReviewPayload(env.payload.verdict, Body(env.payload.summary, g), SanitiseComments(env.payload.comments, g.scope).value))
  {
    hide Gates, SanitiseComments, SanitiseBody;
  }

  // ---------- when the strip leaves a token ----------

  const VERIFIED := "[verified]"
  const OPINION := "[opinion]"

  /** `s` starts with `word`, without regard to case. */
  predicate Spells(word: string, s: string) { |word| <= |s| && LowerAll(s[..|word|]) == word }

  /** No classification token is left anywhere. */
  ghost predicate TokenFree(s: string) { forall i :: 0 <= i < |s| ==> TokenLen(s[i..]) == 0 }

  /** `s` starts with `word` once whole tokens that stand in between are passed over. */
  predicate SpellsThrough(word: string, s: string)
    decreases |s|
  {
    word == "" ||
    if s == "" then false
    else if TokenLen(s) > 0 then SpellsThrough(word, s[TokenLen(s)..])
    else Lower(s[0]) == word[0] && SpellsThrough(word[1..], s[1..])
  }

  /** A bracket at `i` that opens no token itself, but spells one around whole tokens. */
  predicate Wraps(s: string, i: int) {
    0 <= i < |s| && s[i] == '[' && TokenLen(s[i..]) == 0 && (SpellsThrough(VERIFIED, s[i..]) || SpellsThrough(OPINION, s[i..]))
  }

  lemma TokenSpelled(s: string)
    ensures TokenLen(s) > 0 <==> Spells(VERIFIED, s) || Spells(OPINION, s)
    ensures TokenLen(s) > 0 ==> s[0] == '[' && Spells(if TokenLen(s) == 10 then VERIFIED else OPINION, s)
  {
    if Spells(VERIFIED, s) { assert LowerAll(s[..10])[0] == Lower(s[0]); }
    if Spells(OPINION, s) { assert LowerAll(s[..9])[0] == Lower(s[0]); }
  }

  lemma SpellsHead(word: string, s: string)
    requires word != "" && s != ""
    ensures Spells(word, s) <==> Lower(s[0]) == word[0] && Spells(word[1..], s[1..])
  {
    if |word| <= |s| {
      assert s[..|word|] == [s[0]] + s[1..][..|word| - 1];
      assert LowerAll(s[..|word|]) == [Lower(s[0])] + LowerAll(s[1..][..|word| - 1]);
      assert word == [word[0]] + word[1..];
    }
  }

  lemma SpellsNothing(s: string)
    ensures Spells("", s)
  {
    assert s[..0] == "" && LowerAll("") == "";
  }

  /** Matching through tokens is matching what the strip leaves. */
  lemma {:induction false} SpellsThroughStripped(word: string, s: string)
    ensures SpellsThrough(word, s) <==> Spells(word, StripTokens(s))
    decreases |s|
  {
    hide TokenLen, Spells;
    if word == "" {
      SpellsNothing(StripTokens(s));
    } else if s == "" {
      NothingSpells(word);
    } else if TokenLen(s) > 0 {
      SpellsThroughStripped(word, s[TokenLen(s)..]);
    } else {
      SpellsThroughStripped(word[1..], s[1..]);
      SpellsHead(word, StripTokens(s));
      assert StripTokens(s)[1..] == StripTokens(s[1..]);
    }
  }

  lemma NothingSpells(word: string)
    requires word != ""
    ensures !Spells(word, "")
  {
  }

  /** Inside a token there is no second bracket to open one. */
  lemma TokenInside(s: string, i: int)
    requires 0 < i < TokenLen(s)
    ensures s[i] != '['
  {
    TokenSpelled(s);
    var n := TokenLen(s);
    assert LowerAll(s[..n])[i] == Lower(s[i]);
  }

  lemma WrapsShift(s: string, n: nat)
    requires n <= |s|
    ensures forall i :: n <= i < |s| ==> (Wraps(s, i) <==> Wraps(s[n..], i - n))
  {
    hide TokenLen, SpellsThrough;
    forall i | n <= i < |s| ensures Wraps(s, i) <==> Wraps(s[n..], i - n) { assert s[n..][i - n..] == s[i..]; }
  }

  lemma TokenFreeCons(c: char, s: string)
    ensures TokenFree([c] + s) <==> TokenLen([c] + s) == 0 && TokenFree(s)
  {
    hide TokenLen;
    var t := [c] + s;
    assert t[0..] == t;
    forall i | 0 <= i < |s| ensures s[i..] == t[i + 1..] {}
    if TokenFree(t) {
      forall i | 0 <= i < |s| ensures TokenLen(s[i..]) == 0 { assert TokenLen(t[i + 1..]) == 0; }
    }
    if TokenLen(t) == 0 && TokenFree(s) {
      forall i | 0 <= i < |t| ensures TokenLen(t[i..]) == 0 { if i > 0 { assert TokenLen(s[i - 1..]) == 0; } }
    }
  }

  /** The head of what is left starts a token exactly when it wrapped one. */
  lemma HeadWraps(s: string)
    requires s != "" && TokenLen(s) == 0
    ensures TokenLen(StripTokens(s)) > 0 <==> Wraps(s, 0)
  {
    var out := StripTokens(s);
    TokenSpelled(out);
    SpellsThroughStripped(VERIFIED, s);
    SpellsThroughStripped(OPINION, s);
    hide TokenLen, Spells, SpellsThrough;
    assert s[0..] == s && out[0] == s[0];
  }

  /** Stripping is one pass, and it leaves no token exactly when no bracket of the text spells a token
      around whole tokens: a removed token brings a new one together only inside such brackets. */
  lemma {:induction false} StripLeavesNoToken(s: string)
    ensures TokenFree(StripTokens(s)) <==> forall i :: 0 <= i < |s| ==> !Wraps(s, i)
    decreases |s|
  {
    hide TokenLen, SpellsThrough, Wraps, TokenFree;
    if s == "" {
      NothingIsTokenFree();
    } else if TokenLen(s) > 0 {
      var n := TokenLen(s);
      StripLeavesNoToken(s[n..]);
      WrapsShift(s, n);
      TokenHidesNothing(s);
      assert forall i :: 0 <= i < |s[n..]| ==> (Wraps(s[n..], i) <==> Wraps(s, n + i));
    } else {
      StripLeavesNoToken(s[1..]);
      WrapsShift(s, 1);
      HeadWraps(s);
      TokenFreeCons(s[0], StripTokens(s[1..]));
      assert forall i :: 0 <= i < |s[1..]| ==> (Wraps(s[1..], i) <==> Wraps(s, 1 + i));
    }
  }

  lemma NothingIsTokenFree()
    ensures TokenFree("")
  {
  }

  lemma TokenHidesNothing(s: string)
    ensures forall i :: 0 <= i < TokenLen(s) ==> !Wraps(s, i)
  {
    hide SpellsThrough, TokenLen;
    forall i | 0 <= i < TokenLen(s) ensures !Wraps(s, i) {
      if i > 0 { TokenInside(s, i); } else { assert s[0..] == s; }
    }
  }

  /** `out` is `s` without some whole tokens. */
  ghost predicate DropsTokens(s: string, out: string)
    decreases |s|
  {
    if s == "" then out == ""
    else
      || (Spells(VERIFIED, s) && DropsTokens(s[|VERIFIED|..], out))
      || (Spells(OPINION, s) && DropsTokens(s[|OPINION|..], out))
      || (out != "" && out[0] == s[0] && DropsTokens(s[1..], out[1..]))
  }

  /** Nothing but whole tokens is removed, and nothing at all from a text without one. */
  lemma {:induction false} StripRemovesOnlyTokens(s: string)
    ensures DropsTokens(s, StripTokens(s))
    ensures TokenFree(s) <==> StripTokens(s) == s
    decreases |s|
  {
    hide Spells, TokenLen;
    if s != "" {
      TokenSpelled(s);
      var n := TokenLen(s);
      assert s[0..] == s;
      if n > 0 {
        StripRemovesOnlyTokens(s[n..]);
        StripShortens(s[n..]);
        TokenIsWhole(s);
      } else {
        StripRemovesOnlyTokens(s[1..]);
        assert s == [s[0]] + s[1..];
        TokenFreeCons(s[0], s[1..]);
        assert StripTokens(s)[1..] == StripTokens(s[1..]);
      }
    }
  }

  lemma TokenIsWhole(s: string)
    ensures TokenLen(s) > 0 ==> TokenLen(s) == |VERIFIED| || TokenLen(s) == |OPINION|
    ensures TokenLen(s) == |VERIFIED| ==> Spells(VERIFIED, s)
    ensures TokenLen(s) == |OPINION| ==> Spells(OPINION, s)
  {
  }

  lemma {:induction false} StripShortens(s: string)
    ensures |StripTokens(s)| <= |s|
    decreases |s|
  {
    if s != "" { StripShortens(s[if TokenLen(s) > 0 then TokenLen(s) else 1..]); }
  }

  /** A token is removed in whatever case it is written. */
  lemma TokensInAnyCase(token: string, rest: string)
    requires |token| == |VERIFIED| && forall i :: 0 <= i < |VERIFIED| ==> Lower(token[i]) == VERIFIED[i]
    ensures StripTokens(token + rest) == StripTokens(rest)
  {
    var s := token + rest;
    assert s[..10] == token;
    assert LowerAll(token) == VERIFIED;
    assert TokenLen(s) == 10 && s[10..] == rest;
    hide TokenLen;
  }

  lemma OpinionTokensInAnyCase(token: string, rest: string)
    requires |token| == |OPINION| && forall i :: 0 <= i < |OPINION| ==> Lower(token[i]) == OPINION[i]
    ensures StripTokens(token + rest) == StripTokens(rest)
  {
    var s := token + rest;
    assert s[..9] == token;
    assert LowerAll(token) == OPINION;
    if |s| >= 10 { assert LowerAll(s[..10])[1] == Lower(token[1]) == 'o'; }
    assert TokenLen(s) == 9 && s[9..] == rest;
    hide TokenLen;
  }

  /** No bracket opens before the last one is closed. */
  ghost predicate FlatBrackets(s: string) {
    forall i, j :: 0 <= i < j < |s| && s[i] == '[' && s[j] == '[' ==> ']' in s[i..j]
  }

  /** A word closed only at its end is spelled either outright or past a bracket that opens first. */
  lemma {:induction false} SpelledOrOpened(word: string, s: string)
    requires SpellsThrough(word, s) && word != "" && ']' !in word[..|word| - 1]
    ensures Spells(word, s) || exists j :: 0 <= j < |s| && s[j] == '[' && ']' !in s[..j]
    decreases |s|
  {
    hide TokenLen, Spells;
    if TokenLen(s) > 0 {
      TokenSpelled(s);
      assert s[0] == '[' && ']' !in s[..0];
    } else {
      SpellsHead(word, s);
      if |word| == 1 {
        SpellsNothing(s[1..]);
      } else {
        assert word[1..][..|word[1..]| - 1] == word[..|word| - 1][1..];
        SpelledOrOpened(word[1..], s[1..]);
        if j :| 0 <= j < |s[1..]| && s[1..][j] == '[' && ']' !in s[1..][..j] {
          assert s[..j + 1] == [s[0]] + s[1..][..j];
          assert word[0] == word[..|word| - 1][0] && Lower(s[0]) != ']';
          assert s[j + 1] == '[' && ']' !in s[..j + 1];
        }
      }
    }
  }

  /** Where brackets are not nested the strip leaves no token, whatever else the text says. */
  lemma FlatTextIsStrippedClean(s: string)
    requires FlatBrackets(s)
    ensures TokenFree(StripTokens(s))
  {
    StripLeavesNoToken(s);
    hide StripTokens, TokenFree;
    forall i | 0 <= i < |s| ensures !Wraps(s, i) {
      if Wraps(s, i) { WrapNests(s, i); }
    }
  }

  lemma WrapNests(s: string, i: int)
    requires Wraps(s, i)
    ensures !FlatBrackets(s)
  {
    var t := s[i..];
    TokenSpelled(t);
    var word := if SpellsThrough(VERIFIED, t) then VERIFIED else OPINION;
    assert SpellsThrough(word, t) && !Spells(word, t) && word[0] == '[' && ']' !in word[..|word| - 1];
    SpellsHead(word, t);
    hide TokenLen, Spells;
    assert word[1..][..|word[1..]| - 1] == word[..|word| - 1][1..];
    SpelledOrOpened(word[1..], t[1..]);
    var j :| 0 <= j < |t[1..]| && t[1..][j] == '[' && ']' !in t[1..][..j];
    assert s[i..i + 1 + j] == [s[i]] + t[1..][..j];
    assert s[i + 1 + j] == '[';
  }

  /** Text without brackets is passed over. */
  lemma {:induction false} StripPasses(a: string, rest: string)
    requires '[' !in a
    ensures StripTokens(a + rest) == a + StripTokens(rest)
    decreases |a|
  {
    hide TokenLen;
    if a == "" {
      assert a + rest == rest;
    } else {
      var s := a + rest;
      assert s[0] == a[0] && a[0] in a && s[1..] == a[1..] + rest;
      NotAToken(s);
      StripOne(s);
      hide StripTokens;
      StripPasses(a[1..], rest);
      assert [a[0]] + (a[1..] + StripTokens(rest)) == ([a[0]] + a[1..]) + StripTokens(rest);
      assert [a[0]] + a[1..] == a;
    }
  }

  lemma StripOne(s: string)
    requires s != "" && TokenLen(s) == 0
    ensures StripTokens(s) == [s[0]] + StripTokens(s[1..])
  {
  }

  lemma NotAToken(s: string)
    requires s != "" && s[0] != '['
    ensures TokenLen(s) == 0
  {
    if |s| >= 10 { assert LowerAll(s[..10])[0] == Lower(s[0]); }
    if |s| >= 9 { assert LowerAll(s[..9])[0] == Lower(s[0]); }
  }

  lemma BracketInside(s: string)
    requires |s| > 5 && s[5] == '['
    ensures TokenLen(s) == 0
  {
    if |s| >= 10 { assert LowerAll(s[..10])[5] == '['; }
    if |s| >= 9 { assert LowerAll(s[..9])[5] == '['; }
  }

  lemma OpinionToken(rest: string)
    ensures TokenLen("[opinion]" + rest) == 9
  {
    var s := "[opinion]" + rest;
    assert s[..9] == "[opinion]";
    assert LowerAll("[opinion]") == "[opinion]";
    if |s| >= 10 { assert LowerAll(s[..10])[1] == s[1] == 'o'; }
  }

  lemma WrappedToken(a: string, b: string)
    requires |a| == 4 && '[' !in a && '[' !in b
    ensures StripTokens("[" + a + "[opinion]" + b) == "[" + a + b
  {
    hide TokenLen;
    var t := "[opinion]" + b;
    var s := "[" + a + t;
    BracketInside(s);
    assert s[1..] == a + t;
    StripPasses(a, t);
    OpinionToken(b);
    assert t[9..] == b + "";
    StripPasses(b, "");
    assert b + "" == b;
    assert "[" + a + "[opinion]" + b == s;
  }

  /** The strip is one pass, so a token wrapped in a token comes out whole; that the comment is an opinion
      is carried by its flag, not by its text. */
  lemma NestedTokenSurvives()
    ensures StripTokens("[opin[opinion]ion]") == "[opinion]"
  {
    hide StripTokens;
    WrappedToken("opin", "ion]");
    assert "[" + "opin" + "[opinion]" + "ion]" == "[opin[opinion]ion]";
    assert "[" + "opin" + "ion]" == "[opinion]";
  }
}
