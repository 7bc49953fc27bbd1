/** When an attempt gets to its write: the executor's own checks, above all which diffs it lets through. */
module AttemptProofs {
  import opened Text
  import opened Intent
  import opened Validation
  import opened Protocol
  import opened IdempotencyProofs
  import Policy

  // ---------- which files a pattern covers ----------

  /** The last part of the path, or the last few, as the pattern has them. */
  predicate NamedAnywhere(path: string, name: string) { path == name || HasSuffix(path, "/" + name) }

  /** The pattern's first star stands at `a` and is read as `path[a..b]`. */
  predicate StarFits(pattern: string, path: string, a: int, b: int) {
    && 0 <= a < |pattern| && pattern[a] == '*' && '*' !in pattern[..a]
    && a <= b <= |path| && path[..a] == pattern[..a] && '/' !in path[a..b]
  }

  /** `path` is the pattern with each star read as some run of bytes without a slash. */
  ghost predicate Fills(pattern: string, path: string)
    decreases |pattern|
  {
    if '*' !in pattern then path == pattern
    else exists a, b :: StarFits(pattern, path, a, b) && Fills(pattern[a + 1..], path[b..])
  }

  /** What a pattern of a grant refuses: everything below a directory, a name at any depth, or a path that
      fills the pattern. */
  ghost predicate Covers(pattern: string, path: string) {
    if HasSuffix(pattern, "/**") then HasPrefix(path, pattern[..|pattern| - 3] + "/")
    else if HasPrefix(pattern, "**/") then NamedAnywhere(path, pattern[3..])
    else Fills(pattern, path)
  }

  lemma StarShifts(p: string, n: string, a: int, b: int)
    requires p != "" && n != "" && p[0] == n[0] && p[0] != '*'
    ensures StarFits(p, n, a + 1, b + 1) <==> StarFits(p[1..], n[1..], a, b)
  {
    if 0 <= a < |p| - 1 && a <= b <= |n| - 1 {
      HeadSplit(p, a);
      HeadSplit(n, a);
      InCons(p[0], p[1..][..a], '*');
      EqualCons(p[0], n[1..][..a], p[1..][..a]);
      SliceShift(n, a, b);
      assert p[a + 1] == p[1..][a];
    }
  }

  lemma InCons(x: char, s: string, c: char)
    ensures c in [x] + s <==> c == x || c in s
  {
    if c in s {
      var i :| 0 <= i < |s| && s[i] == c;
      assert ([x] + s)[i + 1] == c;
    }
    assert ([x] + s)[0] == x;
  }

  lemma EqualCons(x: char, s: string, t: string)
    ensures [x] + s == [x] + t <==> s == t
  {
    assert ([x] + s)[1..] == s && ([x] + t)[1..] == t;
  }

  lemma SliceShift(s: string, a: nat, b: nat)
    requires a <= b < |s|
    ensures s[a + 1..b + 1] == s[1..][a..b]
  {
    var x, y := s[a + 1..b + 1], s[1..][a..b];
    assert |x| == |y| && forall i :: 0 <= i < |x| ==> x[i] == y[i];
  }

  lemma HeadSplit(s: string, a: nat)
    requires a < |s|
    ensures s[..a + 1] == [s[0]] + s[1..][..a] && s[..a + 1][1..] == s[1..][..a]
  {
  }

  lemma StarBehindHead(p: string, n: string, a: int, b: int)
    requires StarFits(p, n, a, b) && p[0] != '*'
    ensures a > 0 && b > 0 && n != "" && n[0] == p[0]
  {
    assert a > 0 && n[..a][0] == p[..a][0];
  }

  lemma FillsTail(p: string, n: string)
    requires p != "" && p[0] != '*' && '*' in p && Fills(p, n)
    ensures n != "" && n[0] == p[0] && Fills(p[1..], n[1..])
  {
    var a, b :| StarFits(p, n, a, b) && Fills(p[a + 1..], n[b..]);
    StarBehindHead(p, n, a, b);
    StarShifts(p, n, a - 1, b - 1);
    assert a < |p| && b <= |n|;
    hide StarFits;
    assert p[1..][a..] == p[a + 1..] && n[1..][b - 1..] == n[b..];
    assert '*' in p[1..] by { assert p == [p[0]] + p[1..]; }
  }

  lemma FillsBack(p: string, n: string)
    requires p != "" && p[0] != '*' && '*' in p && n != "" && n[0] == p[0] && Fills(p[1..], n[1..])
    ensures Fills(p, n)
  {
    assert p == [p[0]] + p[1..];
    var a, b :| StarFits(p[1..], n[1..], a, b) && Fills(p[1..][a + 1..], n[1..][b..]);
    StarShifts(p, n, a, b);
    assert 0 <= a && a <= b;
    hide StarFits;
    assert p[a + 2..] == p[1..][a + 1..] && n[b + 1..] == n[1..][b..];
  }

  lemma FillsHead(p: string, n: string)
    requires p != "" && p[0] != '*'
    ensures Fills(p, n) <==> n != "" && n[0] == p[0] && Fills(p[1..], n[1..])
  {
    if '*' in p {
      hide Fills;
      if Fills(p, n) { FillsTail(p, n); }
      if n != "" && n[0] == p[0] && Fills(p[1..], n[1..]) { FillsBack(p, n); }
    } else {
      assert p == [p[0]] + p[1..];
      if n != "" { assert n == [n[0]] + n[1..]; }
    }
  }

  lemma FillsStar(p: string, n: string)
    requires p != "" && p[0] == '*'
    ensures Fills(p, n) <==> Fills(p[1..], n) || (n != "" && n[0] != '/' && Fills(p, n[1..]))
  {
    forall k | 0 < k <= |p| ensures '*' in p[..k] { assert p[..k][0] == p[0]; }
    if Fills(p, n) {
      var a, b :| StarFits(p, n, a, b) && Fills(p[a + 1..], n[b..]);
      assert a == 0;
      if b == 0 {
        assert n[0..] == n;
      } else {
        assert n[0] == n[0..b][0];
        StarOn(p, n, b);
        assert n[1..][b - 1..] == n[b..];
      }
    }
    if Fills(p[1..], n) {
      assert n[0..] == n && StarFits(p, n, 0, 0);
    }
    if n != "" && n[0] != '/' && Fills(p, n[1..]) {
      var a, b :| StarFits(p, n[1..], a, b) && Fills(p[a + 1..], n[1..][b..]);
      assert a == 0;
      StarOn(p, n, b + 1);
      assert n[b + 1..] == n[1..][b..];
    }
  }

  lemma StarOn(p: string, n: string, b: int)
    requires p != "" && p[0] == '*' && 0 < b <= |n| && n[0] != '/'
    ensures StarFits(p, n, 0, b) <==> StarFits(p, n[1..], 0, b - 1)
  {
    assert n[0..b] == [n[0]] + n[1..][0..b - 1];
  }

  /** The matching that the model gives `path.Match` reads every star as such a run. */
  lemma {:induction false} WildFills(p: string, n: string)
    ensures Wild(p, n) <==> Fills(p, n)
    decreases |p| + |n|
  {
    hide Fills;
    if p == "" {
      NothingFills(n);
    } else if p[0] == '*' {
      FillsStar(p, n);
      WildFills(p[1..], n);
      if n != "" { WildFills(p, n[1..]); }
    } else {
      FillsHead(p, n);
      if n != "" { WildFills(p[1..], n[1..]); }
    }
  }

  lemma NothingFills(n: string)
    ensures Fills("", n) <==> n == ""
  {
  }

  lemma CoversMeans(pattern: string, path: string)
    ensures GlobMatch(pattern, path) <==> Covers(pattern, path)
  {
    WildFills(pattern, path);
    hide Wild, Fills;
    if HasSuffix(pattern, "/**") { assert pattern[..|pattern| - 2] == pattern[..|pattern| - 3] + "/"; }
  }

  /** The forms a pattern can have, read one by one. */
  lemma PatternForms(dir: string, name: string, plain: string, path: string)
    requires !HasSuffix("**/" + name, "/**") && '*' !in plain
    ensures Covers(dir + "/**", path) <==> HasPrefix(path, dir + "/")
    ensures Covers("**/" + name, path) <==> NamedAnywhere(path, name)
    ensures Covers(plain, path) <==> path == plain
  {
    DirectoryForm(dir, path);
    NameForm(name, path);
    PlainForm(plain, path);
    hide Covers;
  }

  lemma DirectoryForm(dir: string, path: string)
    ensures Covers(dir + "/**", path) <==> HasPrefix(path, dir + "/")
  {
    var p := dir + "/**";
    assert p[|p| - 3..] == "/**" && p[..|p| - 3] == dir;
    hide Fills;
  }

  lemma NameForm(name: string, path: string)
    requires !HasSuffix("**/" + name, "/**")
    ensures Covers("**/" + name, path) <==> NamedAnywhere(path, name)
  {
    var p := "**/" + name;
    assert p[..3] == "**/" && p[3..] == name;
    hide Fills;
  }

  lemma PlainForm(plain: string, path: string)
    requires '*' !in plain
    ensures Covers(plain, path) <==> path == plain
  {
    StarredForms(plain);
  }

  lemma StarredForms(p: string)
    ensures HasSuffix(p, "/**") || HasPrefix(p, "**/") ==> '*' in p
  {
    if HasSuffix(p, "/**") { assert p[|p| - 3..][1] == '*'; }
    if HasPrefix(p, "**/") { assert p[..3][0] == '*'; }
  }

  // ---------- which diffs are let through ----------

  /** What no run may change, whatever its grant says. */
  ghost predicate AlwaysDenied(path: string) {
    || HasPrefix(path, ".github/workflows/") || HasPrefix(path, ".github/actions/")
    || HasPrefix(path, ".git/") || HasPrefix(path, ".bot/")
    || path in {"CODEOWNERS", ".github/CODEOWNERS", "docs/CODEOWNERS", ".gitattributes"}
    || NamedAnywhere(path, ".npmrc") || NamedAnywhere(path, ".pypirc")
  }

  ghost predicate Forbidden(path: string, g: Grant) { AlwaysDenied(path) || exists p :: p in g.deniedPaths && Covers(p, path) }

  ghost predicate TouchesForbidden(d: Diff, g: Grant) { exists f :: f in d.files && Forbidden(f, g) }

  /** The diff changes something, within the grant's limits, and nothing that it may not. */
  ghost predicate Admissible(d: Diff, g: Grant) {
    && 0 < |d.files| <= g.limits.maxFiles
    && d.addedLines + d.deletedLines <= g.limits.maxDiffLines
    && !TouchesForbidden(d, g)
  }

  lemma DirectoryDefaults(path: string)
    ensures GlobMatch(".github/workflows/**", path) <==> HasPrefix(path, ".github/workflows/")
    ensures GlobMatch(".github/actions/**", path) <==> HasPrefix(path, ".github/actions/")
    ensures GlobMatch(".git/**", path) <==> HasPrefix(path, ".git/")
    ensures GlobMatch(".bot/**", path) <==> HasPrefix(path, ".bot/")
  {
    forall dir ensures GlobMatch(dir + "/**", path) <==> HasPrefix(path, dir + "/") {
      CoversMeans(dir + "/**", path);
      DirectoryForm(dir, path);
    }
    hide GlobMatch, HasPrefix;
    assert ".github/workflows" + "/**" == ".github/workflows/**" && ".github/workflows" + "/" == ".github/workflows/";
    assert ".github/actions" + "/**" == ".github/actions/**" && ".github/actions" + "/" == ".github/actions/";
    assert ".git" + "/**" == ".git/**" && ".git" + "/" == ".git/";
    assert ".bot" + "/**" == ".bot/**" && ".bot" + "/" == ".bot/";
  }

  lemma PlainDefaults(path: string)
    ensures GlobMatch("CODEOWNERS", path) <==> path == "CODEOWNERS"
    ensures GlobMatch(".github/CODEOWNERS", path) <==> path == ".github/CODEOWNERS"
    ensures GlobMatch("docs/CODEOWNERS", path) <==> path == "docs/CODEOWNERS"
    ensures GlobMatch(".gitattributes", path) <==> path == ".gitattributes"
  {
    hide GlobMatch;
    PlainMatch("CODEOWNERS", path);
    PlainMatch(".github/CODEOWNERS", path);
    PlainMatch("docs/CODEOWNERS", path);
    PlainMatch(".gitattributes", path);
  }

  lemma PlainMatch(plain: string, path: string)
    requires '*' !in plain
    ensures GlobMatch(plain, path) <==> path == plain
  {
    CoversMeans(plain, path);
    PlainForm(plain, path);
    hide GlobMatch;
  }

  lemma NameDefaults(path: string)
    ensures GlobMatch("**/.npmrc", path) <==> NamedAnywhere(path, ".npmrc")
    ensures GlobMatch("**/.pypirc", path) <==> NamedAnywhere(path, ".pypirc")
  {
    CoversMeans("**/.npmrc", path);
    CoversMeans("**/.pypirc", path);
    assert "**/" + ".npmrc" == "**/.npmrc" && "**/" + ".pypirc" == "**/.pypirc";
    NameForm(".npmrc", path);
    NameForm(".pypirc", path);
    hide GlobMatch, NamedAnywhere;
  }

  lemma DefaultsMean(path: string)
    ensures (exists p :: p in DEFAULT_DENIED && GlobMatch(p, path)) <==> AlwaysDenied(path)
  {
    DirectoryDefaults(path);
    PlainDefaults(path);
    NameDefaults(path);
    hide GlobMatch, HasPrefix, NamedAnywhere;
    assert DEFAULT_DENIED[0] == ".github/workflows/**" && DEFAULT_DENIED[1] == ".github/actions/**" && DEFAULT_DENIED[2] == ".git/**"
      && DEFAULT_DENIED[3] == "CODEOWNERS" && DEFAULT_DENIED[4] == ".github/CODEOWNERS" && DEFAULT_DENIED[5] == "docs/CODEOWNERS"
      && DEFAULT_DENIED[6] == ".gitattributes" && DEFAULT_DENIED[7] == "**/.npmrc" && DEFAULT_DENIED[8] == "**/.pypirc"
      && DEFAULT_DENIED[9] == ".bot/**";
  }

  /** The diff check lets a diff through exactly if it is admissible, and says why not otherwise. */
  lemma DiffDecision(d: Diff, g: Grant)
    ensures ValidateDiff(d, g).None? <==> Admissible(d, g)
    ensures ValidateDiff(d, g) == Some(MalformedError) <==> d.files == []
    ensures ValidateDiff(d, g) == Some(DeniedPath) <==>
      0 < |d.files| <= g.limits.maxFiles && d.addedLines + d.deletedLines <= g.limits.maxDiffLines && TouchesForbidden(d, g)
  {
    forall f ensures (exists p :: p in DEFAULT_DENIED && GlobMatch(p, f)) <==> AlwaysDenied(f) { DefaultsMean(f); }
    forall p, f ensures GlobMatch(p, f) <==> Covers(p, f) { CoversMeans(p, f); }
    hide GlobMatch, Covers, AlwaysDenied, DEFAULT_DENIED;
    forall f ensures (exists p :: p in DEFAULT_DENIED + g.deniedPaths && GlobMatch(p, f)) <==> Forbidden(f, g) {}
  }

  // ---------- the scheduler's patterns ----------

  /** What the scheduler's own patterns forbid beyond the standing list. A pattern with stars at both ends is not read
      as one of a gitignore file: the stars at one end are taken literally. */
  lemma UpgradePatterns(path: string, runId: string, repo: Repo, baseRef: string, now: int)
    ensures var g := Policy.GrantForUpgrade(runId, repo, baseRef, now);
      Forbidden(path, g) <==>
        || AlwaysDenied(path) || path == ".env" || path == "deploy/.env"
        || (HasPrefix(path, ".env.") && '/' !in path)
        || HasPrefix(path, "**/secrets/") || NamedAnywhere(path, "*.pem") || NamedAnywhere(path, "*.key")
  {
    PlainForm(".env", path);
    PlainForm("deploy/.env", path);
    DotEnvForm(path);
    LiteralForms(path);
    hide AlwaysDenied, Covers, HasPrefix, NamedAnywhere;
    var ps := [".env", ".env.*", "deploy/.env", "**/secrets/**", "**/*.pem", "**/*.key"];
    assert Policy.GrantForUpgrade(runId, repo, baseRef, now).deniedPaths == ps;
    assert ps[0] == ".env" && ps[1] == ".env.*" && ps[2] == "deploy/.env" && ps[3] == "**/secrets/**" && ps[4] == "**/*.pem" && ps[5] == "**/*.key";
  }

  lemma LiteralForms(path: string)
    ensures Covers("**/secrets/**", path) <==> HasPrefix(path, "**/secrets/")
    ensures Covers("**/*.pem", path) <==> NamedAnywhere(path, "*.pem")
    ensures Covers("**/*.key", path) <==> NamedAnywhere(path, "*.key")
  {
    assert "**/secrets" + "/**" == "**/secrets/**" && "**/secrets" + "/" == "**/secrets/";
    DirectoryForm("**/secrets", path);
    assert "**/" + "*.pem" == "**/*.pem" && "**/" + "*.key" == "**/*.key";
    NameForm("*.pem", path);
    NameForm("*.key", path);
    hide Covers, HasPrefix, NamedAnywhere;
  }

  const DOT_ENV := ".env.*"

  lemma DotEnvParts()
    ensures |DOT_ENV| == 6 && DOT_ENV[..5] == ".env." && DOT_ENV[6..] == "" && DOT_ENV[5] == '*' && '*' in DOT_ENV && '*' !in DOT_ENV[..5]
    ensures !HasSuffix(DOT_ENV, "/**") && !HasPrefix(DOT_ENV, "**/")
  {
    assert DOT_ENV[3..] == "v.*" && DOT_ENV[..3] == ".en";
    assert DOT_ENV[5] == '*';
  }

  lemma DotEnvForm(path: string)
    ensures Covers(".env.*", path) <==> HasPrefix(path, ".env.") && '/' !in path
  {
    DotEnvParts();
    if Fills(DOT_ENV, path) { DotEnvFilled(path); }
    if HasPrefix(path, ".env.") && '/' !in path { FillsDotEnv(path); }
    hide Fills, HasPrefix, HasSuffix;
  }

  lemma DotEnvFilled(path: string)
    requires Fills(DOT_ENV, path)
    ensures HasPrefix(path, ".env.") && '/' !in path
  {
    DotEnvParts();
    hide DOT_ENV;
    var a, b :| StarFits(DOT_ENV, path, a, b) && Fills(DOT_ENV[a + 1..], path[b..]);
    OnlyStar(DOT_ENV, a);
    NothingFills(path[b..]);
    hide Fills;
    assert path[b..] == "" && b == |path|;
    assert path[..5] == ".env.";
    assert path == ".env." + path[5..b];
  }

  lemma FillsDotEnv(path: string)
    requires HasPrefix(path, ".env.") && '/' !in path
    ensures Fills(DOT_ENV, path)
  {
    DotEnvParts();
    hide DOT_ENV;
    assert path[|path|..] == "";
    NothingFills(path[|path|..]);
    assert StarFits(DOT_ENV, path, 5, |path|);
  }

  lemma OnlyStar(p: string, a: int)
    requires |p| == 6 && '*' !in p[..5] && 0 <= a < |p| && p[a] == '*'
    ensures a == 5
  {
    forall i | 0 <= i < 5 ensures p[i] != '*' { assert p[..5][i] == p[i]; }
  }

  /** So none of the usual places of a secret is among them, but for the two environment files. */
  lemma NestedSecretsAreNotCovered(runId: string, repo: Repo, baseRef: string, now: int)
    ensures var g := Policy.GrantForUpgrade(runId, repo, baseRef, now);
      !Forbidden("deploy/secrets/token", g) && !Forbidden("certs/server.pem", g) && !Forbidden("certs/server.key", g)
  {
    UpgradePatterns("deploy/secrets/token", runId, repo, baseRef, now);
    UpgradePatterns("certs/server.pem", runId, repo, baseRef, now);
    UpgradePatterns("certs/server.key", runId, repo, baseRef, now);
    hide Forbidden;
    NotListed("deploy/secrets/token");
    NotListed("certs/server.pem");
    NotListed("certs/server.key");
  }

  lemma NotListed(path: string)
    requires path in {"deploy/secrets/token", "certs/server.pem", "certs/server.key"}
    ensures !AlwaysDenied(path) && !HasPrefix(path, ".env.") && !HasPrefix(path, "**/secrets/")
    ensures !NamedAnywhere(path, "*.pem") && !NamedAnywhere(path, "*.key")
  {
    NotPrefixed(path, ".github/workflows/");
    NotPrefixed(path, ".github/actions/");
    NotPrefixed(path, ".git/");
    NotPrefixed(path, ".bot/");
    NotPrefixed(path, ".env.");
    NotPrefixed(path, "**/secrets/");
    NotNamed(path, ".npmrc");
    NotNamed(path, ".pypirc");
    NotNamed(path, "*.pem");
    NotNamed(path, "*.key");
  }

  lemma NotPrefixed(path: string, p: string)
    requires path != "" && p != "" && path[0] != p[0]
    ensures !HasPrefix(path, p)
  {
    if |p| <= |path| { assert path[..|p|][0] == path[0]; }
  }

  lemma NotNamed(path: string, name: string)
    requires |path| > |name| > 0 && (path[|path| - |name|] != name[0] || path[|path| - |name| - 1] != '/' || path[|path| - 1] != name[|name| - 1])
    ensures !NamedAnywhere(path, name)
  {
    if |path| >= |name| + 1 {
      var t := path[|path| - |name| - 1..];
      assert t[0] == path[|path| - |name| - 1] && t[1] == path[|path| - |name|] && t[|name|] == path[|path| - 1];
      assert ("/" + name)[0] == '/' && ("/" + name)[1] == name[0] && ("/" + name)[|name|] == name[|name| - 1];
    }
  }

  // ---------- when an attempt writes ----------

  /** Everything that has to be in order before GitHub is asked to change anything. */
  ghost predicate Ready(w: World, key: Key, accepted: Result<Payload, Error>, g: Grant, git: Git, f: Fates) {
    && accepted.Ok? && f.lookup && key !in w.intents && f.resolve
    && match accepted.value
       case OpenPRPayload(_, _, _) =>
         && git.diff.Some? && Admissible(git.diff.value, g)
         && git.branch.Some? && HasPrefix(git.branch.value, "bot/" + g.runId + "-")
         && git.base.Some? && f.push == Done
       case UpdatePRPayload(_, _) => git.worktree ==> git.diff.Some? && Admissible(git.diff.value, g)
       case PostReviewPayload(_, _, _) => f.readMapping && f.inline == Done
       case Malformed(_) => false
       case _ => true
  }

  /** An attempt starts its write exactly if everything is in order, and without a start GitHub stays as it is.
      So no pull request is opened for a diff that is empty, too large or touches a forbidden path, none is
      updated from such a worktree, and an admissible diff is never what stops one. */
  lemma AttemptStartsExactly(w: World, key: Key, accepted: Result<Payload, Error>, g: Grant, git: Git, f: Fates)
    ensures var a := Execute(w, key, accepted, g, git, f);
      && (a.started <==> Ready(w, key, accepted, g, git, f))
      && (!a.started ==> a.world == w)
  {
    if git.diff.Some? { DiffDecision(git.diff.value, g); }
    hide ValidateDiff, Admissible, HasPrefix, Finish;
    if accepted.Ok? && !accepted.value.Malformed? && Preflight(accepted.value, g, git, f).None? { FinishStarts(w, key, accepted.value, g, git, f); }
  }

  lemma FinishStarts(w: World, key: Key, p: Payload, g: Grant, git: Git, f: Fates)
    requires !p.Malformed? && Preflight(p, g, git, f).None?
    ensures Finish(w, key, p, g, git, f).started
  {
    hide Preflight, FinalWrite, Resolve, Ref;
  }

  /** A diff within the limits that touches a forbidden path is refused as such, whatever else the agent did. */
  lemma ForbiddenDiffIsRefused(w: World, key: Key, p: Payload, g: Grant, git: Git, f: Fates)
    requires f.lookup && key !in w.intents && f.resolve && git.diff.Some?
    requires p.OpenPRPayload? || (p.UpdatePRPayload? && git.worktree)
    ensures var d := git.diff.value;
      Execute(w, key, Ok(p), g, git, f).result == Err(Invalid(DeniedPath)) <==>
        0 < |d.files| <= g.limits.maxFiles && d.addedLines + d.deletedLines <= g.limits.maxDiffLines && TouchesForbidden(d, g)
  {
    DiffDecision(git.diff.value, g);
    hide ValidateDiff, TouchesForbidden, HasPrefix;
    if Preflight(p, g, git, f).None? {
      FinishedResult(w, key, p, g, git, f);
      hide Finish;
    }
  }

  /** A fresh reference names the repository and the number that was written to: GitHub's for a new pull
      request, the grant's otherwise. */
  lemma FinishedResult(w: World, key: Key, p: Payload, g: Grant, git: Git, f: Fates)
    requires !p.Malformed? && Preflight(p, g, git, f).None?
    ensures var r := Finish(w, key, p, g, git, f).result;
      r == Err(CallFailed) || r == Ok(Outcome(
        g.repo.owner + "/" + g.repo.name + "#" + Itoa(if p.OpenPRPayload? then f.newNumber else g.scope.number), false))
  {
    hide Preflight, FinalWrite, Resolve, Itoa;
  }

  lemma ReferenceNamesTheWrite(w: World, key: Key, accepted: Result<Payload, Error>, g: Grant, git: Git, f: Fates)
    ensures var r := Execute(w, key, accepted, g, git, f).result;
      r.Ok? && !r.value.deduped ==>
        accepted.Ok?
        && r.value.ref == g.repo.owner + "/" + g.repo.name + "#" + Itoa(if accepted.value.OpenPRPayload? then f.newNumber else g.scope.number)
  {
    if accepted.Ok? && !accepted.value.Malformed? && Preflight(accepted.value, g, git, f).None? { FinishedResult(w, key, accepted.value, g, git, f); }
    hide Finish, Preflight, Itoa;
  }
}
