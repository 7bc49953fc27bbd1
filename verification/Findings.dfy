/** The deterministic review checks of internal/review: what they report about the files of a diff. */
module Findings {
  import opened Text
  import opened DiffParser
  import opened DiffProofs

  datatype Finding = Finding(rule: string, path: string, line: int, detail: string, evidence: string)

  /** A finding a review can carry: it has a line to stand on, and evidence that starts visibly. */
  ghost predicate Presentable(f: Finding) { f.line >= 1 && f.evidence != "" && IsGraphic(f.evidence[0]) }

  function CapBytes(s: string, max: nat): string { if |s| <= max then s else s[..max] }

  /** The finding of a rule at a place, with the first bytes of a text as evidence. */
  predicate Shows(x: Finding, rule: string, path: string, line: int, detail: string, text: string) {
    && x.rule == rule && x.path == path && x.line == line && x.detail == detail
    && x.evidence <= text && |x.evidence| == if |text| < 240 then |text| else 240
  }

  // ---------- denied paths ----------

  predicate DeniedByReview(path: string) {
    path == ".env" || HasSuffix(path, ".key") || HasPrefix(path, ".github/workflows/")
  }

  function FirstLine(f: DiffFile): int { if f.added == [] then 1 else f.added[0].line }

  /** It stands on the first added line, if there is one, and shows it behind the file's header. */
  predicate ShowsDenied(x: Finding, d: DiffFile) {
    if d.added == [] then Shows(x, "denied_path", d.path, 1, "changed denied path", d.header)
    else Shows(x, "denied_path", d.path, d.added[0].line, "changed denied path", d.header + "\n+" + d.added[0].text)
  }

  function DeniedFinding(f: DiffFile): (x: Finding)
    ensures ShowsDenied(x, f)
  {
    var evidence := if f.added == [] then f.header else f.header + "\n+" + f.added[0].text;
    Finding("denied_path", f.path, FirstLine(f), "changed denied path", CapBytes(evidence, 240))
  }

  /** The findings that denied paths owe, in the order of the files. */
  function DeniedList(files: seq<DiffFile>): seq<Finding> {
    if files == [] then []
    else
      var last := files[|files| - 1];
      DeniedList(files[..|files| - 1]) + (if DeniedByReview(last.path) then [DeniedFinding(last)] else [])
  }

  /** `deniedPathFindings`: one finding for each file on a denied path, none for any other. */
  method DeniedPathFindings(files: seq<DiffFile>) returns (fs: seq<Finding>)
    ensures fs == DeniedList(files)
    ensures forall f :: f in fs <==> exists d :: d in files && DeniedByReview(d.path) && f == DeniedFinding(d)
    ensures forall d :: d in files && (d.path == ".env" || HasSuffix(d.path, ".key") || HasPrefix(d.path, ".github/workflows/")) ==>
      exists x :: x in fs && ShowsDenied(x, d)
    ensures forall x :: x in fs ==> exists d ::
      d in files && (d.path == ".env" || HasSuffix(d.path, ".key") || HasPrefix(d.path, ".github/workflows/")) && ShowsDenied(x, d)
  {
    assert forall path :: DeniedByReview(path) <==> path == ".env" || HasSuffix(path, ".key") || HasPrefix(path, ".github/workflows/");
    hide DeniedByReview, DeniedFinding, ShowsDenied, HasSuffix, HasPrefix;
    fs := [];
    for i := 0 to |files|
      invariant fs == DeniedList(files[..i])
      invariant forall f :: f in fs <==> exists d :: d in files[..i] && DeniedByReview(d.path) && f == DeniedFinding(d)
    {
      assert files[..i + 1] == files[..i] + [files[i]] && files[..i + 1][..i] == files[..i];
      assert fs + [] == fs;
      if DeniedByReview(files[i].path) { fs := fs + [DeniedFinding(files[i])]; }
    }
    assert files[..|files|] == files;
    forall d | d in files && DeniedByReview(d.path) ensures exists x :: x in fs && ShowsDenied(x, d) { assert DeniedFinding(d) in fs; }
  }

  // ---------- added secrets ----------

  /** A secret pattern: the detail it is reported with and the texts it matches. */
  datatype Rule = Rule(detail: string, matches: string -> bool)

  function SecretFinding(f: DiffFile, a: AddedLine, detail: string): (x: Finding)
    ensures Shows(x, "secret", f.path, a.line, detail, "+" + a.text)
  {
    Finding("secret", f.path, a.line, detail, CapBytes("+" + a.text, 240))
  }

  const BARE_HTTP := "bare HTTP URL in configuration"

  /** A reason to report an added line. */
  ghost predicate Reason(f: DiffFile, a: AddedLine, rules: seq<Rule>, bare: (string, string) -> bool, detail: string) {
    (exists r :: r in rules && r.detail == detail && r.matches(a.text)) || (detail == BARE_HTTP && bare(f.path, a.text))
  }

  ghost predicate Justified(fs: seq<Finding>, files: seq<DiffFile>, rules: seq<Rule>, bare: (string, string) -> bool) {
    forall x :: x in fs ==> exists f, a :: f in files && a in f.added && Reason(f, a, rules, bare, x.detail) && x == SecretFinding(f, a, x.detail)
  }

  ghost predicate Covered(fs: seq<Finding>, f: DiffFile, lines: seq<AddedLine>, rules: seq<Rule>, bare: (string, string) -> bool) {
    forall a, d :: a in lines && Reason(f, a, rules, bare, d) ==> SecretFinding(f, a, d) in fs
  }

  function RuleList(f: DiffFile, a: AddedLine, rules: seq<Rule>): seq<Finding> {
    if rules == [] then []
    else
      var last := rules[|rules| - 1];
      RuleList(f, a, rules[..|rules| - 1]) + (if last.matches(a.text) then [SecretFinding(f, a, last.detail)] else [])
  }

  function LineList(f: DiffFile, a: AddedLine, rules: seq<Rule>, bare: (string, string) -> bool): seq<Finding> {
    RuleList(f, a, rules) + (if bare(f.path, a.text) then [SecretFinding(f, a, BARE_HTTP)] else [])
  }

  function LinesList(f: DiffFile, lines: seq<AddedLine>, rules: seq<Rule>, bare: (string, string) -> bool): seq<Finding> {
    if lines == [] then []
    else LinesList(f, lines[..|lines| - 1], rules, bare) + LineList(f, lines[|lines| - 1], rules, bare)
  }

  /** The findings that added lines owe: file by file, line by line, one for each rule that matches. */
  function SecretList(files: seq<DiffFile>, rules: seq<Rule>, bare: (string, string) -> bool): seq<Finding> {
    if files == [] then []
    else
      var last := files[|files| - 1];
      SecretList(files[..|files| - 1], rules, bare) + LinesList(last, last.added, rules, bare)
  }

  /** The findings for one added line, in rule order. */
  method LineFindings(f: DiffFile, a: AddedLine, rules: seq<Rule>, bare: (string, string) -> bool) returns (fs: seq<Finding>)
    ensures fs == LineList(f, a, rules, bare)
    ensures forall d :: Reason(f, a, rules, bare, d) ==> SecretFinding(f, a, d) in fs
    ensures forall x :: x in fs ==> Reason(f, a, rules, bare, x.detail) && x == SecretFinding(f, a, x.detail)
  {
    fs := [];
    for i := 0 to |rules|
      invariant fs == RuleList(f, a, rules[..i])
      invariant forall r :: r in rules[..i] && r.matches(a.text) ==> SecretFinding(f, a, r.detail) in fs
      invariant forall x :: x in fs ==> x == SecretFinding(f, a, x.detail) && exists r :: r in rules && r.detail == x.detail && r.matches(a.text)
    {
      assert rules[..i + 1] == rules[..i] + [rules[i]] && rules[..i + 1][..i] == rules[..i];
      assert fs + [] == fs;
      if rules[i].matches(a.text) { fs := fs + [SecretFinding(f, a, rules[i].detail)]; }
    }
    assert rules[..|rules|] == rules;
    assert fs + [] == fs;
    if bare(f.path, a.text) { fs := fs + [SecretFinding(f, a, BARE_HTTP)]; }
  }

  /** `secretFindings`: an added line is reported for every rule it matches and for a bare HTTP URL in a
      configuration file, and nothing else is reported; removed lines never are. */
  method SecretFindings(files: seq<DiffFile>, rules: seq<Rule>, bare: (string, string) -> bool) returns (fs: seq<Finding>)
    ensures fs == SecretList(files, rules, bare)
    ensures Justified(fs, files, rules, bare)
    ensures forall f :: f in files ==> Covered(fs, f, f.added, rules, bare)
  {
    hide Reason, SecretFinding, LineList;
    fs := [];
    for i := 0 to |files|
      invariant fs == SecretList(files[..i], rules, bare)
      invariant Justified(fs, files, rules, bare)
      invariant forall k :: 0 <= k < i ==> Covered(fs, files[k], files[k].added, rules, bare)
    {
      var f := files[i];
      ghost var before := fs;
      for j := 0 to |f.added|
        invariant fs == before + LinesList(f, f.added[..j], rules, bare)
        invariant Justified(fs, files, rules, bare)
        invariant forall k :: 0 <= k < i ==> Covered(fs, files[k], files[k].added, rules, bare)
        invariant Covered(fs, f, f.added[..j], rules, bare)
      {
        assert f.added[..j + 1] == f.added[..j] + [f.added[j]] && f.added[..j + 1][..j] == f.added[..j];
        var more := LineFindings(f, f.added[j], rules, bare);
        fs := fs + more;
      }
      assert f.added[..|f.added|] == f.added;
      assert files[..i + 1][..i] == files[..i];
    }
    assert files[..|files|] == files;
  }

  // ---------- findings a review can carry ----------

  lemma DeniedFindingPresentable(f: DiffFile)
    requires Anchored(f)
    ensures Presentable(DeniedFinding(f))
  {
    assert f.header[0] == f.header[..11][0] == 'd';
    if f.added != [] { assert f.added[0] in f.added; }
  }
}
