/** `All` of internal/review/diffcheck.go: every deterministic check together, and why a review can carry
    whatever they report. */
module Checks {
  import opened Text
  import opened DiffParser
  import opened DiffProofs
  import opened Findings
  import opened Deltas
  import opened Sorting
  import opened ReviewPipeline

  // ---------- manifests ----------

  /** What follows the last slash. */
  function LastPart(path: string): string {
    if '/' !in path then path else LastPart(path[1..])
  }

  function TrimSlashes(path: string): string {
    if path != "" && path[|path| - 1] == '/' then TrimSlashes(path[..|path| - 1]) else path
  }

  /** `filepath.Base`. */
  function BaseName(path: string): string {
    if path == "" then "." else if TrimSlashes(path) == "" then "/" else LastPart(TrimSlashes(path))
  }

  predicate IsManifest(path: string) { BaseName(path) in {"package.json", "go.mod", "requirements.txt"} }

  predicate IsLockfile(path: string) {
    var base := BaseName(path);
    base in {"package-lock.json", "yarn.lock", "pnpm-lock.yaml", "go.sum"} || (HasPrefix(base, "requirements") && HasSuffix(base, ".lock"))
  }

  /** `name` is the last component of the path, whatever directories stand in front of it. */
  ghost predicate Ends(path: string, name: string) {
    name != "" && '/' !in name && exists i, j :: PartAt(path, name, i, j)
  }

  predicate PartAt(path: string, name: string, i: int, j: int) {
    && 0 <= i <= j <= |path| && path[i..j] == name
    && (i > 0 ==> path[i - 1] == '/')
    && forall k :: j <= k < |path| ==> path[k] == '/'
  }

  lemma {:induction false} TrimSlashesIs(path: string)
    ensures TrimSlashes(path) <= path && (forall k :: |TrimSlashes(path)| <= k < |path| ==> path[k] == '/')
    ensures TrimSlashes(path) != "" ==> TrimSlashes(path)[|TrimSlashes(path)| - 1] != '/'
  {
    if path != "" && path[|path| - 1] == '/' { TrimSlashesIs(path[..|path| - 1]); }
  }

  lemma {:induction false} LastPartIs(path: string)
    ensures '/' !in LastPart(path) && |LastPart(path)| <= |path| && path[|path| - |LastPart(path)|..] == LastPart(path)
    ensures |LastPart(path)| < |path| ==> path[|path| - |LastPart(path)| - 1] == '/'
  {
    if '/' in path {
      LastPartIs(path[1..]);
      if |LastPart(path)| == |path| - 1 { assert path == [path[0]] + LastPart(path); }
    }
  }

  /** A path has one last component, and `filepath.Base` is that component. */
  lemma BaseNameEnds(path: string, name: string)
    requires name != "." && name != "/"
    ensures Ends(path, name) <==> BaseName(path) == name
  {
    hide LastPart, TrimSlashes;
    TrimSlashesIs(path);
    var t := TrimSlashes(path);
    LastPartIs(t);
    var last := LastPart(t);
    if Ends(path, name) {
      var i, j :| PartAt(path, name, i, j);
      OnePart(path, t, name, i, j);
    }
    if t != "" && last == name {
      assert path[..|t|] == t;
      assert path[|t| - |last|..|t|] == t[|t| - |last|..] == name;
      assert PartAt(path, name, |t| - |last|, |t|);
      assert name != "" by { if |last| < |t| { assert t[|t| - 1] != '/'; } }
    }
  }

  lemma OneLastSlash(t: string, a: nat, b: nat)
    requires a <= |t| && b <= |t| && (a > 0 ==> t[a - 1] == '/') && (b > 0 ==> t[b - 1] == '/')
    requires (forall k :: a <= k < |t| ==> t[k] != '/') && (forall k :: b <= k < |t| ==> t[k] != '/')
    ensures a == b
  {
  }

  lemma OnePart(path: string, t: string, name: string, i: int, j: int)
    requires name != "" && '/' !in name && PartAt(path, name, i, j)
    requires t <= path && (forall k :: |t| <= k < |path| ==> path[k] == '/') && (t != "" ==> t[|t| - 1] != '/')
    ensures t != "" && LastPart(t) == name
  {
    hide LastPart;
    assert path[j - 1] == path[i..j][j - 1 - i];
    assert path[j - 1] in name;
    assert |t| == j && t == path[..j];
    LastPartIs(t);
    var at := |t| - |LastPart(t)|;
    assert t[i..] == path[i..j] == name;
    forall k | i <= k < |t| ensures t[k] != '/' { assert t[k] == t[i..][k - i]; }
    forall k | at <= k < |t| ensures t[k] != '/' { assert t[k] == t[at..][k - at]; }
    OneLastSlash(t, at, i);
  }

  /** The dependencies of a manifest on one side; None if it cannot be read or parsed. */
  type Manifests = string -> Option<map<string, string>>

  /** The last file of the diff with this path. */
  function FileAt(files: seq<DiffFile>, path: string): Option<DiffFile> {
    if files == [] then None
    else if files[|files| - 1].path == path then Some(files[|files| - 1])
    else FileAt(files[..|files| - 1], path)
  }

  lemma {:induction false} FileAtIsIn(files: seq<DiffFile>, path: string)
    ensures FileAt(files, path).Some? ==> FileAt(files, path).value in files && FileAt(files, path).value.path == path
    ensures FileAt(files, path).Some? ==>
      exists i :: 0 <= i < |files| && files[i] == FileAt(files, path).value && forall j :: i < j < |files| ==> files[j].path != path
    ensures forall d :: d in files && d.path == path ==> FileAt(files, path).Some?
  {
    if files != [] {
      var front := files[..|files| - 1];
      FileAtIsIn(front, path);
      assert files == front + [files[|files| - 1]];
    }
  }

  predicate Present(files: seq<DiffFile>, path: string) { FileAt(files, path).Some? }

  ghost predicate ManifestName(path: string) { Ends(path, "package.json") || Ends(path, "go.mod") || Ends(path, "requirements.txt") }

  ghost predicate LockfileName(path: string) {
    || Ends(path, "package-lock.json") || Ends(path, "yarn.lock") || Ends(path, "pnpm-lock.yaml") || Ends(path, "go.sum")
    || exists name :: Ends(path, name) && HasPrefix(name, "requirements") && HasSuffix(name, ".lock")
  }

  /** The tests of the code on the base name are these. */
  lemma NamesMean(path: string)
    ensures IsManifest(path) <==> ManifestName(path)
    ensures !IsManifest(path) && IsLockfile(path) <==> LockfileName(path)
  {
    hide Ends, BaseName;
    forall name | name != "." && name != "/" ensures Ends(path, name) <==> BaseName(path) == name { BaseNameEnds(path, name); }
    if LockfileName(path) {
      if name :| Ends(path, name) && HasPrefix(name, "requirements") && HasSuffix(name, ".lock") { LockfilesAreNoManifests(name); }
    }
  }

  lemma LockfilesAreNoManifests(name: string)
    requires HasPrefix(name, "requirements") && HasSuffix(name, ".lock")
    ensures name !in {"package.json", "go.mod", "requirements.txt", ".", "/"}
  {
    assert name[|name| - 1] == ".lock"[4];
  }

  /** In every directory, and in none. */
  lemma NamedBelow(dir: string, name: string)
    requires name != "" && '/' !in name
    ensures Ends(name, name) && Ends(dir + "/" + name, name)
  {
    var path := dir + "/" + name;
    assert PartAt(name, name, 0, |name|);
    assert path[|dir| + 1..|path|] == name;
    assert PartAt(path, name, |dir| + 1, |path|);
  }

  ghost predicate ManifestIn(files: seq<DiffFile>, path: string) { Present(files, path) && ManifestName(path) }

  ghost predicate LockfileIn(files: seq<DiffFile>, path: string) { Present(files, path) && LockfileName(path) }

  /** A finding about a file as a whole: it stands on the first added line, if there is one. */
  function HeaderFinding(rule: string, d: DiffFile, detail: string): (x: Finding)
    ensures x.rule == rule && x.path == d.path && x.detail == detail && x.evidence == d.header
    ensures x.line == if d.added == [] then 1 else d.added[0].line
  {
    Finding(rule, d.path, FirstLine(d), detail, d.header)
  }

  /** A name whose binding differs between the two sides. */
  ghost predicate Differs(c: DepChange, m: map<string, string>, n: map<string, string>) {
    c.before == Lookup(m, c.name) && c.after == Lookup(n, c.name) && c.before != c.after
  }

  ghost predicate FromDelta(f: Finding, d: DiffFile, m: map<string, string>, n: map<string, string>) {
    exists c :: Differs(c, m, n) && f == HeaderFinding("dependency_delta", d, Format(c))
  }

  lemma DeltaDiffers(delta: seq<DepChange>, m: map<string, string>, n: map<string, string>, c: DepChange)
    requires ExactDelta(delta, m, n)
    ensures c in delta <==> Differs(c, m, n)
  {
    hide StringLeq;
    if c in delta { var k :| 0 <= k < |delta| && delta[k] == c; }
    if Differs(c, m, n) {
      assert c.name in m.Keys + n.Keys;
      var k :| 0 <= k < |delta| && delta[k].name == c.name;
      assert delta[k] == c;
    }
  }

  function DeltaFindings(d: DiffFile, ds: seq<DepChange>): seq<Finding> {
    seq(|ds|, i requires 0 <= i < |ds| => HeaderFinding("dependency_delta", d, Format(ds[i])))
  }

  /** The findings of one manifest, in name order and one for each name that changed. */
  ghost predicate ManifestReport(fs: seq<Finding>, d: DiffFile, m: map<string, string>, n: map<string, string>) {
    exists delta :: ExactDelta(delta, m, n) && fs == DeltaFindings(d, delta)
  }

  /** The findings of one manifest: one for each name that changed, none for any other. */
  method ManifestFindings(d: DiffFile, m: map<string, string>, n: map<string, string>) returns (fs: seq<Finding>)
    ensures ManifestReport(fs, d, m, n)
    ensures forall f :: f in fs <==> FromDelta(f, d, m, n)
  {
    hide Format, ExactDelta, HeaderFinding, Differs;
    var details := DependencyDetails(m, n);
    ghost var delta: seq<DepChange> :| details == FormatAll(delta) && ExactDelta(delta, m, n);
    fs := [];
    for i := 0 to |details|
      invariant |fs| == i && forall k :: 0 <= k < i ==> fs[k] == HeaderFinding("dependency_delta", d, Format(delta[k]))
    {
      fs := fs + [HeaderFinding("dependency_delta", d, details[i])];
    }
    assert fs == DeltaFindings(d, delta);
    forall f ensures f in fs <==> FromDelta(f, d, m, n) {
      if f in fs {
        var k :| 0 <= k < |fs| && fs[k] == f;
        DeltaDiffers(delta, m, n, delta[k]);
      }
      if FromDelta(f, d, m, n) {
        var c :| Differs(c, m, n) && f == HeaderFinding("dependency_delta", d, Format(c));
        DeltaDiffers(delta, m, n, c);
        var k :| 0 <= k < |delta| && delta[k] == c;
        assert fs[k] == f;
      }
    }
  }

  /** A finding about the dependencies of some manifest of the diff. */
  ghost predicate DependencyChanged(f: Finding, files: seq<DiffFile>, paths: seq<string>, base: Manifests, head: Manifests) {
    exists p :: p in paths && FileAt(files, p).Some? && base(p).Some? && head(p).Some? && FromDelta(f, FileAt(files, p).value, base(p).value, head(p).value)
  }

  predicate Legible(p: string, base: Manifests, head: Manifests) { base(p).Some? && head(p).Some? }

  function ManifestPaths(files: seq<DiffFile>): seq<string> {
    if files == [] then []
    else
      var path := files[|files| - 1].path;
      ManifestPaths(files[..|files| - 1]) + (if IsManifest(path) then [path] else [])
  }

  function LockfilePaths(files: seq<DiffFile>): seq<string> {
    if files == [] then []
    else
      var path := files[|files| - 1].path;
      LockfilePaths(files[..|files| - 1]) + (if !IsManifest(path) && IsLockfile(path) then [path] else [])
  }

  /** The manifests and lockfiles of a diff, each list in order. */
  method DependencyInputs(files: seq<DiffFile>) returns (manifests: seq<string>, lockfiles: seq<string>)
    ensures forall p :: p in manifests <==> ManifestIn(files, p)
    ensures forall p :: p in lockfiles <==> LockfileIn(files, p)
    ensures manifests == Sort(ManifestPaths(files), StringLeq) && lockfiles == Sort(LockfilePaths(files), StringLeq)
    ensures Sorted(manifests, StringLeq) && Sorted(lockfiles, StringLeq)
  {
    hide IsManifest, IsLockfile, ManifestName, LockfileName, StringLeq, Sort, Sorted;
    manifests, lockfiles := [], [];
    for i := 0 to |files|
      invariant manifests == ManifestPaths(files[..i]) && lockfiles == LockfilePaths(files[..i])
      invariant forall p :: p in manifests <==> ManifestIn(files[..i], p)
      invariant forall p :: p in lockfiles <==> LockfileIn(files[..i], p)
    {
      assert files[..i + 1][..i] == files[..i];
      var path := files[i].path;
      assert manifests + [] == manifests && lockfiles + [] == lockfiles;
      NamesMean(path);
      if IsManifest(path) { manifests := manifests + [path]; }
      else if IsLockfile(path) { lockfiles := lockfiles + [path]; }
    }
    assert files[..|files|] == files;
    StringLeqIsPreorder();
    SortKeeps(manifests, StringLeq);
    SortKeeps(lockfiles, StringLeq);
    manifests, lockfiles := Sort(manifests, StringLeq), Sort(lockfiles, StringLeq);
  }

  /** A file with one of these names counts in every directory. */
  lemma NamesCountEverywhere(files: seq<DiffFile>, d: DiffFile, dir: string, name: string)
    requires d in files && (d.path == name || d.path == dir + "/" + name)
    ensures name in {"package.json", "go.mod", "requirements.txt"} ==> ManifestIn(files, d.path)
    ensures name in {"package-lock.json", "yarn.lock", "pnpm-lock.yaml", "go.sum"} ==> LockfileIn(files, d.path)
    ensures '/' !in name && HasPrefix(name, "requirements") && HasSuffix(name, ".lock") ==> LockfileIn(files, d.path)
  {
    hide Ends, FileAt, HasPrefix, HasSuffix;
    FileAtIsIn(files, d.path);
    if name != "" && '/' !in name { NamedBelow(dir, name); }
    assert '/' !in name && HasPrefix(name, "requirements") ==> name != "" by { PrefixIsShorter(name); }
  }

  lemma PrefixIsShorter(name: string)
    ensures HasPrefix(name, "requirements") ==> name != ""
  {
  }

  lemma SortKeeps<T(!new)>(s: seq<T>, leq: (T, T) -> bool)
    requires Preorder(leq)
    ensures Sorted(Sort(s, leq), leq)
    ensures forall x :: x in Sort(s, leq) <==> x in s
  {
    SortSorts(s, leq);
    SortPermutes(s, leq);
    hide Sort;
    forall x ensures x in Sort(s, leq) <==> x in s { assert x in multiset(Sort(s, leq)) <==> x in multiset(s); }
  }

  function LockfileOnly(d: DiffFile): (x: Finding)
    ensures x.rule == "lockfile_only" && x.path == d.path && x.evidence == d.header && x.line == if d.added == [] then 1 else d.added[0].line
  {
    HeaderFinding("lockfile_only", d, "lockfile changed without a supported manifest")
  }

  ghost predicate Touched(files: seq<DiffFile>) { exists p :: ManifestIn(files, p) }

  ghost predicate Locked(files: seq<DiffFile>) { exists p :: LockfileIn(files, p) }

  /** The first manifest in path order or, where there is none, the first lockfile. */
  ghost predicate FirstInput(files: seq<DiffFile>, p: string) {
    if Touched(files) then ManifestIn(files, p) && forall q :: ManifestIn(files, q) ==> StringLeq(p, q)
    else LockfileIn(files, p) && forall q :: LockfileIn(files, q) ==> StringLeq(p, q)
  }

  ghost predicate AllLegible(files: seq<DiffFile>, base: Manifests, head: Manifests) { forall p :: ManifestIn(files, p) ==> Legible(p, base, head) }

  /** What the dependency check owes: the changed names of the changed manifests or, where only lockfiles
      changed, the first of them. */
  ghost predicate DependencyDue(f: Finding, files: seq<DiffFile>, base: Manifests, head: Manifests) {
    if Touched(files) then exists p :: ManifestIn(files, p) && Legible(p, base, head) && FromDelta(f, FileAt(files, p).value, base(p).value, head(p).value)
    else exists p :: FirstInput(files, p) && f == LockfileOnly(FileAt(files, p).value)
  }

  lemma FirstIsLeast(s: seq<string>)
    requires s != [] && Sorted(s, StringLeq)
    ensures forall p :: p in s ==> StringLeq(s[0], p)
  {
    StringLeqTotal(s[0], s[0]);
    hide StringLeq;
    forall p | p in s ensures StringLeq(s[0], p) {
      var k :| 0 <= k < |s| && s[k] == p;
    }
  }

  lemma FirstInputIsOne(files: seq<DiffFile>, p: string, q: string)
    requires FirstInput(files, p) && FirstInput(files, q)
    ensures p == q
  {
    hide StringLeq, ManifestIn, LockfileIn;
    StringLeqAntisymmetric(p, q);
  }

  lemma LegibleMeans(base: Manifests, head: Manifests)
    ensures forall p :: Legible(p, base, head) <==> base(p).Some? && head(p).Some?
  {
  }

  /** The reports of these manifests, one after the other. */
  ghost predicate ManifestsReport(fs: seq<Finding>, files: seq<DiffFile>, manifests: seq<string>, base: Manifests, head: Manifests)
    decreases |manifests|
  {
    if manifests == [] then fs == []
    else
      var p := manifests[|manifests| - 1];
      && FileAt(files, p).Some? && base(p).Some? && head(p).Some?
      && exists before, more ::
        && ManifestsReport(before, files, manifests[..|manifests| - 1], base, head)
        && ManifestReport(more, FileAt(files, p).value, base(p).value, head(p).value)
        && fs == before + more
  }

  /** The findings of all changed manifests, in path order. */
  method ManifestsFindings(files: seq<DiffFile>, manifests: seq<string>, base: Manifests, head: Manifests) returns (r: Option<seq<Finding>>)
    requires forall p :: p in manifests ==> ManifestIn(files, p)
    ensures r.Some? <==> forall p :: p in manifests ==> Legible(p, base, head)
    ensures r.Some? ==> ManifestsReport(r.value, files, manifests, base, head)
    ensures r.Some? ==> forall f :: f in r.value <==> DependencyChanged(f, files, manifests, base, head)
  {
    hide ManifestName, FromDelta, ManifestReport, FileAt, Legible;
    LegibleMeans(base, head);
    var findings := [];
    for i := 0 to |manifests|
      invariant forall k :: 0 <= k < i ==> Legible(manifests[k], base, head)
      invariant ManifestsReport(findings, files, manifests[..i], base, head)
      invariant forall f :: f in findings <==> DependencyChanged(f, files, manifests[..i], base, head)
    {
      var p := manifests[i];
      assert p in manifests;
      if !Legible(p, base, head) { return None; }
      var more := ManifestFindings(FileAt(files, p).value, base(p).value, head(p).value);
      assert manifests[..i + 1] == manifests[..i] + [p] && manifests[..i + 1][..i] == manifests[..i];
      findings := findings + more;
    }
    assert manifests[..|manifests|] == manifests;
    r := Some(findings);
  }

  /** The report of the dependency check: manifest by manifest in path order or, where only lockfiles changed,
      one finding about the first of them. */
  ghost predicate DependencyReport(fs: seq<Finding>, files: seq<DiffFile>, base: Manifests, head: Manifests) {
    if Touched(files) then ManifestsReport(fs, files, Sort(ManifestPaths(files), StringLeq), base, head)
    else if Locked(files) then exists p :: FirstInput(files, p) && fs == [LockfileOnly(FileAt(files, p).value)]
    else fs == []
  }

  /** `dependencyDeltaFindings`: it fails exactly if a changed manifest is illegible, and otherwise reports
      exactly what is due. */
  method DependencyFindings(files: seq<DiffFile>, base: Manifests, head: Manifests) returns (r: Option<seq<Finding>>, inputs: seq<string>)
    ensures inputs != [] <==> Touched(files) || Locked(files)
    ensures inputs != [] ==> FirstInput(files, inputs[0])
    ensures r.Some? <==> AllLegible(files, base, head)
    ensures r.Some? ==> DependencyReport(r.value, files, base, head)
    ensures r.Some? ==> forall f :: f in r.value <==> DependencyDue(f, files, base, head)
  {
    hide ManifestName, LockfileName, FromDelta, ManifestsReport, Sort, ManifestPaths, LockfilePaths, FileAt, StringLeq, Legible, LockfileOnly;
    var manifests, lockfiles := DependencyInputs(files);
    inputs := manifests + lockfiles;
    if manifests == [] {
      assert !Touched(files);
      if lockfiles == [] {
        assert !Locked(files);
        return Some([]), inputs;
      }
      assert inputs == lockfiles && lockfiles[0] in lockfiles;
      FirstIsLeast(lockfiles);
      assert FirstInput(files, inputs[0]);
      r := Some([LockfileOnly(FileAt(files, lockfiles[0]).value)]);
      forall p | FirstInput(files, p) ensures p == inputs[0] { FirstInputIsOne(files, p, inputs[0]); }
      return;
    }
    assert manifests[0] in manifests && inputs[0] == manifests[0];
    FirstIsLeast(manifests);
    r := ManifestsFindings(files, manifests, base, head);
    if r.Some? {
      LegibleMeans(base, head);
      forall f ensures f in r.value <==> DependencyDue(f, files, base, head) {
        ChangedIsDue(f, files, manifests, base, head);
      }
    }
  }

  lemma ChangedIsDue(f: Finding, files: seq<DiffFile>, manifests: seq<string>, base: Manifests, head: Manifests)
    requires manifests != [] && forall p :: p in manifests <==> ManifestIn(files, p)
    ensures DependencyChanged(f, files, manifests, base, head) <==> DependencyDue(f, files, base, head)
  {
    hide ManifestName, LockfileName, FromDelta, FileAt;
    assert ManifestIn(files, manifests[0]);
    if DependencyChanged(f, files, manifests, base, head) {
      var p :| p in manifests && FileAt(files, p).Some? && base(p).Some? && head(p).Some? && FromDelta(f, FileAt(files, p).value, base(p).value, head(p).value);
      assert ManifestIn(files, p) && Legible(p, base, head);
    }
    if DependencyDue(f, files, base, head) {
      var p :| ManifestIn(files, p) && Legible(p, base, head) && FromDelta(f, FileAt(files, p).value, base(p).value, head(p).value);
      assert p in manifests;
    }
  }

  // ---------- advisories ----------

  function OsvFinding(path: string, f: ScanFinding): (x: Finding)
    ensures x.rule == "osv_delta" && x.path == path && x.line == 1 && HasSuffix(x.evidence, ": " + f.advisory)
    ensures HasPrefix(x.detail, f.pkg + "@" + f.version + " ") && HasSuffix(x.detail, " " + f.advisory)
  {
    Finding("osv_delta", path, 1, f.pkg + "@" + f.version + " introduced " + f.advisory, "osv-scanner --format json .: " + f.advisory)
  }

  /** The findings of the base and of the head, None if one of the scans failed. */
  type Scans = Option<(seq<ScanFinding>, seq<ScanFinding>)>

  /** What the scanner's check owes once there is something to scan: every advisory that is new in the head,
      with the scanner's last report of it. */
  ghost predicate AdvisoryDue(f: Finding, files: seq<DiffFile>, scans: Scans) {
    scans.Some? && exists p, s :: FirstInput(files, p) && NewAdvisory(s, scans.value.0, scans.value.1) && f == OsvFinding(p, s)
  }

  /** The head's last report of an advisory that the base does not report. */
  ghost predicate NewAdvisory(s: ScanFinding, base: seq<ScanFinding>, head: seq<ScanFinding>) {
    Latest(head, s) && forall b :: b in base ==> !SameAdvisory(b, s)
  }

  lemma LatestIsOne(fs: seq<ScanFinding>, f: ScanFinding, g: ScanFinding)
    requires Latest(fs, f) && Latest(fs, g) && SameAdvisory(f, g)
    ensures f == g
  {
    var i :| 0 <= i < |fs| && fs[i] == f && forall j :: i < j < |fs| ==> !SameAdvisory(fs[j], f);
    var k :| 0 <= k < |fs| && fs[k] == g && forall j :: k < j < |fs| ==> !SameAdvisory(fs[j], g);
  }

  /** The delta is the set of new advisories. */
  lemma DeltaIsNew(news: seq<ScanFinding>, base: seq<ScanFinding>, head: seq<ScanFinding>, s: ScanFinding)
    requires ExactNews(news, base, head)
    ensures s in news <==> NewAdvisory(s, base, head)
  {
    hide ListedBefore;
    if NewAdvisory(s, base, head) {
      assert s in head;
      var n :| n in news && SameAdvisory(n, s);
      LatestIsOne(head, n, s);
    }
  }

  function NewsFindings(path: string, news: seq<ScanFinding>): seq<Finding> {
    seq(|news|, i requires 0 <= i < |news| => OsvFinding(path, news[i]))
  }

  /** The report of the scanner's check: one finding for each new advisory, in key order. */
  ghost predicate AdvisoryReport(fs: seq<Finding>, files: seq<DiffFile>, scans: Scans) {
    if Touched(files) || Locked(files)
    then scans.Some? && exists p, news :: FirstInput(files, p) && ExactNews(news, scans.value.0, scans.value.1) && fs == NewsFindings(p, news)
    else fs == []
  }

  /** `osvDeltaFindings`, after its scans: it reports exactly what is due. */
  method OsvFindings(files: seq<DiffFile>, path: string, base: seq<ScanFinding>, head: seq<ScanFinding>) returns (out: seq<Finding>)
    requires FirstInput(files, path)
    ensures AdvisoryReport(out, files, Some((base, head)))
    ensures forall f :: f in out <==> AdvisoryDue(f, files, Some((base, head)))
  {
    hide FirstInput, ExactNews, OsvFinding, NewAdvisory, Touched, Locked;
    var news := OsvDelta(base, head);
    out := [];
    for i := 0 to |news|
      invariant |out| == i && forall k :: 0 <= k < i ==> out[k] == OsvFinding(path, news[k])
    {
      out := out + [OsvFinding(path, news[i])];
    }
    assert out == NewsFindings(path, news);
    FirstInputIsSome(files, path);
    forall f ensures f in out <==> AdvisoryDue(f, files, Some((base, head))) { NewsAreDue(f, files, path, news, base, head); }
    hide NewsFindings, AdvisoryDue;
  }

  lemma FirstInputIsSome(files: seq<DiffFile>, p: string)
    requires FirstInput(files, p)
    ensures Touched(files) || Locked(files)
  {
    hide ManifestIn, LockfileIn, StringLeq;
  }

  lemma NewsAreDue(f: Finding, files: seq<DiffFile>, path: string, news: seq<ScanFinding>, base: seq<ScanFinding>, head: seq<ScanFinding>)
    requires FirstInput(files, path) && ExactNews(news, base, head)
    ensures f in NewsFindings(path, news) <==> AdvisoryDue(f, files, Some((base, head)))
  {
    hide FirstInput, ExactNews, OsvFinding, NewAdvisory;
    var out := NewsFindings(path, news);
    if f in out {
      var k :| 0 <= k < |out| && out[k] == f;
      DeltaIsNew(news, base, head, news[k]);
    }
    if AdvisoryDue(f, files, Some((base, head))) {
      var p, s :| FirstInput(files, p) && NewAdvisory(s, base, head) && f == OsvFinding(p, s);
      FirstInputIsOne(files, p, path);
      DeltaIsNew(news, base, head, s);
      var k :| 0 <= k < |news| && news[k] == s;
      assert out[k] == f;
    }
  }

  // ---------- all of them ----------

  ghost predicate DeniedDue(f: Finding, files: seq<DiffFile>) { exists d :: d in files && DeniedByReview(d.path) && f == DeniedFinding(d) }

  ghost predicate SecretDue(f: Finding, files: seq<DiffFile>, rules: seq<Rule>, bare: (string, string) -> bool) {
    exists d, a :: d in files && a in d.added && Reason(d, a, rules, bare, f.detail) && f == SecretFinding(d, a, f.detail)
  }

  /** All that the checks owe. */
  ghost predicate Due(f: Finding, files: seq<DiffFile>, rules: seq<Rule>, bare: (string, string) -> bool, base: Manifests, head: Manifests, scans: Scans) {
    DeniedDue(f, files) || SecretDue(f, files, rules, bare) || DependencyDue(f, files, base, head) || AdvisoryDue(f, files, scans)
  }

  /** The checks fail on a changed manifest that is illegible, and on a failed scan where there is something
      to scan. */
  ghost predicate Fails(files: seq<DiffFile>, base: Manifests, head: Manifests, scans: Scans) {
    !AllLegible(files, base, head) || ((Touched(files) || Locked(files)) && scans.None?)
  }

  /** All that the checks report, finding for finding. */
  ghost predicate Report(fs: seq<Finding>, files: seq<DiffFile>, rules: seq<Rule>, bare: (string, string) -> bool, base: Manifests, head: Manifests, scans: Scans) {
    exists deps, news ::
      && DependencyReport(deps, files, base, head)
      && AdvisoryReport(news, files, scans)
      && multiset(fs) == multiset(DeniedList(files) + SecretList(files, rules, bare) + (deps + news))
  }

  lemma HeaderIsPresentable(rule: string, d: DiffFile, detail: string)
    requires Anchored(d)
    ensures Presentable(HeaderFinding(rule, d, detail))
  {
    assert d.header[0] == d.header[..11][0] == 'd';
    if d.added != [] { assert d.added[0] in d.added; }
  }

  lemma DependencyIsPresentable(f: Finding, files: seq<DiffFile>, base: Manifests, head: Manifests)
    requires DependencyDue(f, files, base, head) && forall d :: d in files ==> Anchored(d)
    ensures Presentable(f)
  {
    hide Anchored, Presentable, Format, ManifestName, LockfileName, StringLeq, FileAt, Differs;
    var p :| FileAt(files, p).Some? && exists rule, detail :: f == HeaderFinding(rule, FileAt(files, p).value, detail);
    var rule, detail :| f == HeaderFinding(rule, FileAt(files, p).value, detail);
    FileAtIsIn(files, p);
    HeaderIsPresentable(rule, FileAt(files, p).value, detail);
  }

  lemma DueIsPresentable(f: Finding, files: seq<DiffFile>, rules: seq<Rule>, bare: (string, string) -> bool, base: Manifests, head: Manifests, scans: Scans)
    requires Due(f, files, rules, bare, base, head, scans) && forall d :: d in files ==> Anchored(d)
    ensures Presentable(f)
  {
    hide Reason, DeniedByReview, FirstInput, NewAdvisory, DependencyDue;
    if DeniedDue(f, files) {
      var d :| d in files && DeniedByReview(d.path) && f == DeniedFinding(d);
      DeniedFindingPresentable(d);
    } else if SecretDue(f, files, rules, bare) {
      var d, a :| d in files && a in d.added && Reason(d, a, rules, bare, f.detail) && f == SecretFinding(d, a, f.detail);
      assert ("+" + a.text)[0] == '+';
    } else if DependencyDue(f, files, base, head) {
      DependencyIsPresentable(f, files, base, head);
    } else {
      var p, s :| FirstInput(files, p) && NewAdvisory(s, scans.value.0, scans.value.1) && f == OsvFinding(p, s);
      assert f.evidence[0] == 'o';
    }
  }

  /** The dependency check and, where it found inputs, the scanner's. */
  method DependencyAndScan(files: seq<DiffFile>, base: Manifests, head: Manifests, scans: Scans) returns (r: Option<seq<Finding>>)
    ensures r.None? <==> Fails(files, base, head, scans)
    ensures r.Some? ==> exists deps, news :: DependencyReport(deps, files, base, head) && AdvisoryReport(news, files, scans) && r.value == deps + news
    ensures r.Some? ==> forall f :: f in r.value <==> DependencyDue(f, files, base, head) || AdvisoryDue(f, files, scans)
  {
    hide Touched, Locked, AllLegible, DependencyDue, NewAdvisory, OsvFinding, DependencyReport, NewsFindings;
    var found, inputs := DependencyFindings(files, base, head);
    if found.None? { return None; }
    if inputs == [] {
      assert forall p :: !FirstInput(files, p) by { NothingFirst(files); }
      assert AdvisoryReport([], files, scans) && found.value + [] == found.value;
      return found;
    }
    if scans.None? { return None; }
    var osv := OsvFindings(files, inputs[0], scans.value.0, scans.value.1);
    hide AdvisoryDue, AdvisoryReport;
    r := Some(found.value + osv);
  }

  lemma NothingFirst(files: seq<DiffFile>)
    requires !Touched(files) && !Locked(files)
    ensures forall p :: !FirstInput(files, p)
  {
    hide ManifestIn, LockfileIn, StringLeq;
  }

  /** `All`, on the files of the diff. It fails exactly on an illegible manifest or a failed scan; otherwise
      it reports, in order, exactly what is due and each finding as often as it is, and for files read from a diff a review can carry all of
      that. */
  method CheckAll(files: seq<DiffFile>, rules: seq<Rule>, bare: (string, string) -> bool, base: Manifests, head: Manifests, scans: Scans)
    returns (r: Option<seq<Finding>>)
    ensures r.None? <==> Fails(files, base, head, scans)
    ensures r.Some? ==> Sorted(r.value, FindingLeq) && Report(r.value, files, rules, bare, base, head, scans)
    ensures r.Some? ==> forall f :: f in r.value <==> Due(f, files, rules, bare, base, head, scans)
    ensures r.Some? && (forall d :: d in files ==> Anchored(d)) ==> forall f :: f in r.value ==> Presentable(f)
  {
    hide FindingLeq, Anchored, Presentable, Fails, DependencyDue, AdvisoryDue, DependencyReport, AdvisoryReport, DeniedList, SecretList;
    var denied := DeniedPathFindings(files);
    var secrets := SecretFindings(files, rules, bare);
    var rest := DependencyAndScan(files, base, head, scans);
    if rest.None? { return None; }
    var findings := denied + secrets + rest.value;
    forall f ensures f in findings <==> Due(f, files, rules, bare, base, head, scans) { SecretsAreDue(f, files, secrets, rules, bare); }
    hide DeniedDue, SecretDue;
    if forall d :: d in files ==> Anchored(d) {
      forall f | f in findings ensures Presentable(f) { DueIsPresentable(f, files, rules, bare, base, head, scans); }
    }
    hide Due;
    FindingLeqIsPreorder();
    SortKeeps(findings, FindingLeq);
    SortPermutes(findings, FindingLeq);
    r := Some(Sort(findings, FindingLeq));
  }

  lemma SecretsAreDue(f: Finding, files: seq<DiffFile>, secrets: seq<Finding>, rules: seq<Rule>, bare: (string, string) -> bool)
    requires Justified(secrets, files, rules, bare) && forall d :: d in files ==> Covered(secrets, d, d.added, rules, bare)
    ensures f in secrets <==> SecretDue(f, files, rules, bare)
  {
    hide Reason, SecretFinding;
  }
}
