/** internal/verifier/verifier.go: grading the agent's claims and telling whether it made progress. */
module Verifier {
  import opened Text
  import opened Sorting

  datatype Failure = Failure(rule: string, detail: string, snippet: string)

  datatype Verdict = Verdict(pass: bool, failures: seq<Failure>)

  // ---------- grading ----------

  datatype Claim = Claim(pkg: string, advisoryId: string)

  datatype Remaining = Remaining(pkg: string, advisoryId: string, version: string)

  /** The scanner still reports what the claim says is fixed; a claim without an advisory is for any. */
  predicate Contradicts(c: Claim, r: Remaining) {
    r.pkg == c.pkg && (c.advisoryId == "" || r.advisoryId == c.advisoryId)
  }

  function StillPresent(c: Claim, r: Remaining): Failure {
    var version := if r.version == "" then "unknown" else r.version;
    var id := if r.advisoryId == "" then "(no advisory)" else r.advisoryId;
    Failure("vuln_still_present", c.pkg + " " + id + " still present at " + version, "")
  }

  /** The first finding that contradicts a claim. */
  function FirstContradiction(c: Claim, rs: seq<Remaining>): Option<Remaining> {
    if rs == [] then None else if Contradicts(c, rs[0]) then Some(rs[0]) else FirstContradiction(c, rs[1..])
  }

  /** One failure for each contradicted claim, in claim order. */
  function Graded(claims: seq<Claim>, rs: seq<Remaining>): seq<Failure> {
    if claims == [] then []
    else
      var c := claims[|claims| - 1];
      Graded(claims[..|claims| - 1], rs)
      + (match FirstContradiction(c, rs) case None => [] case Some(r) => [StillPresent(c, r)])
  }

  /** The grading loop of `Verify`, which leaves the inner loop at the first contradiction. */
  method GradeClaims(claims: seq<Claim>, rs: seq<Remaining>) returns (fails: seq<Failure>)
    ensures fails == Graded(claims, rs)
  {
    hide StillPresent, Contradicts;
    fails := [];
    for k := 0 to |claims|
      invariant fails == Graded(claims[..k], rs)
    {
      var c := claims[k];
      assert claims[..k + 1][..k] == claims[..k];
      ghost var before := fails;
      var found := false;
      for i := 0 to |rs|
        invariant !found && fails == before && FirstContradiction(c, rs) == FirstContradiction(c, rs[i..])
      {
        assert rs[i..][1..] == rs[i + 1..];
        if Contradicts(c, rs[i]) {
          fails := fails + [StillPresent(c, rs[i])];
          found := true;
          break;
        }
      }
      if !found {
        assert rs[|rs|..] == [];
        assert before + [] == before;
      }
    }
    assert claims[..|claims|] == claims;
  }

  lemma {:induction false} FirstIsFound(c: Claim, rs: seq<Remaining>)
    ensures FirstContradiction(c, rs).None? <==> forall r :: r in rs ==> !Contradicts(c, r)
  {
    hide Contradicts;
    if rs != [] {
      FirstIsFound(c, rs[1..]);
      assert rs == [rs[0]] + rs[1..];
    }
  }

  /** Grading adds nothing just when the scan contradicts no claim: the agent passes this gate only if
      everything it claims to have fixed is gone. */
  lemma {:induction false} PassesWhenNothingRemains(claims: seq<Claim>, rs: seq<Remaining>)
    ensures Graded(claims, rs) == [] <==>
      forall c, r :: c in claims && r in rs ==> r.pkg != c.pkg || (c.advisoryId != "" && r.advisoryId != c.advisoryId)
    ensures |Graded(claims, rs)| <= |claims|
  {
    assert forall c, r :: Contradicts(c, r) <==> r.pkg == c.pkg && (c.advisoryId == "" || r.advisoryId == c.advisoryId);
    hide Contradicts;
    if claims != [] {
      var front, c := claims[..|claims| - 1], claims[|claims| - 1];
      PassesWhenNothingRemains(front, rs);
      FirstIsFound(c, rs);
      assert claims == front + [c];
    }
  }

  /** What a failure says about a claim: that the package is still there, under which advisory and at which version. */
  predicate Blames(f: Failure, c: Claim, r: Remaining) {
    && r.pkg == c.pkg && (c.advisoryId == "" || r.advisoryId == c.advisoryId)
    && f.rule == "vuln_still_present"
    && HasPrefix(f.detail, c.pkg + " " + (if r.advisoryId == "" then "(no advisory)" else r.advisoryId) + " still present at ")
    && HasSuffix(f.detail, " still present at " + (if r.version == "" then "unknown" else r.version))
  }

  lemma StillPresentBlames(c: Claim, r: Remaining)
    requires Contradicts(c, r)
    ensures Blames(StillPresent(c, r), c, r)
  {
    var version := if r.version == "" then "unknown" else r.version;
    var front := c.pkg + " " + (if r.advisoryId == "" then "(no advisory)" else r.advisoryId);
    var d := StillPresent(c, r).detail;
    assert d == front + " still present at " + version;
    assert d == front + (" still present at " + version);
  }

  lemma {:induction false} FirstContradicts(c: Claim, rs: seq<Remaining>)
    ensures FirstContradiction(c, rs).Some? ==> FirstContradiction(c, rs).value in rs && Contradicts(c, FirstContradiction(c, rs).value)
  {
    hide Contradicts;
    if rs != [] { FirstContradicts(c, rs[1..]); }
  }

  /** Every failure blames a claim for a finding that contradicts it, and every contradicted claim is blamed. */
  lemma {:induction false} GradedBlames(claims: seq<Claim>, rs: seq<Remaining>)
    ensures forall f :: f in Graded(claims, rs) ==> exists c, r :: c in claims && r in rs && Blames(f, c, r)
    ensures forall c :: c in claims && (exists r :: r in rs && Contradicts(c, r)) ==> exists f, r :: f in Graded(claims, rs) && r in rs && Blames(f, c, r)
  {
    hide Contradicts, Blames, StillPresent;
    if claims != [] {
      var front, c := claims[..|claims| - 1], claims[|claims| - 1];
      GradedBlames(front, rs);
      FirstContradicts(c, rs);
      FirstIsFound(c, rs);
      assert claims == front + [c];
      if FirstContradiction(c, rs).Some? {
        var r := FirstContradiction(c, rs).value;
        StillPresentBlames(c, r);
        assert StillPresent(c, r) in Graded(claims, rs);
      }
      hide Graded;
    }
  }

  // ---------- the signature of a failure list ----------

  function Line(f: Failure): string { f.rule + "|" + f.detail }

  function Lines(fs: seq<Failure>): seq<string> { seq(|fs|, i requires 0 <= i < |fs| => Line(fs[i])) }

  /** What the signature hashes, in place of its SHA-256 digest, which is taken to be injective. */
  datatype Digest = Digest(hashed: string)

  function Signature(fs: seq<Failure>): Digest { Digest(Join(Sort(Lines(fs), StringLeq), "\n")) }

  method ComputeSignature(fs: seq<Failure>) returns (d: Digest)
    ensures d == Signature(fs)
  {
    var lines: seq<string> := [];
    for i := 0 to |fs|
      invariant lines == Lines(fs[..i])
    {
      assert Lines(fs[..i + 1]) == Lines(fs[..i]) + [Line(fs[i])];
      lines := lines + [fs[i].rule + "|" + fs[i].detail];
    }
    assert fs[..|fs|] == fs;
    d := Digest(Join(Sort(lines, StringLeq), "\n"));
  }

  // ---------- where a line starts ----------

  /** The classes of failure a verify round can produce. */
  const RULES := {"uncommitted_changes", "vuln_still_present", "test_failed", "scanner_error"}

  ghost predicate Classified(fs: seq<Failure>) { forall f :: f in fs ==> f.rule in RULES }

  lemma RulesArePlain(rule: string)
    requires rule in RULES
    ensures '|' !in rule && '\n' !in rule
  {
    assert forall i :: 0 <= i < |rule| ==> rule[i] == '_' || 'a' <= rule[i] <= 'z';
  }

  /** The text starts like a line of the signature: with a class and a bar. */
  predicate Opens(s: string) { exists r :: r in RULES && HasPrefix(s, r + "|") }

  /** A newline in `s` that a class and a bar follow. */
  predicate BreaksAt(s: string, p: int) { 0 <= p < |s| && s[p] == '\n' && Opens(s[p + 1..]) }

  ghost predicate Unbroken(s: string) { forall p :: !BreaksAt(s, p) }

  lemma OpensWith(s: string) returns (r: string)
    requires Opens(s)
    ensures r in RULES && |r| < |s| && s[..|r| + 1] == r + "|" && '|' !in r && '\n' !in r
  {
    r :| r in RULES && HasPrefix(s, r + "|");
    hide RULES;
    RulesArePlain(r);
  }

  /** What comes behind a newline does not matter to it. */
  lemma OpensBefore(s: string, t: string)
    ensures Opens(s + "\n" + t) <==> Opens(s)
  {
    hide RULES;
    var u := s + "\n" + t;
    if Opens(s) {
      var r :| r in RULES && HasPrefix(s, r + "|");
      assert u[..|r| + 1] == s[..|r| + 1];
      assert HasPrefix(u, r + "|");
    }
    if Opens(u) {
      var r := OpensWith(u);
      assert u[|s|] == '\n';
      assert forall i :: 0 <= i <= |r| ==> u[i] == (r + "|")[i];
      assert s[..|r| + 1] == u[..|r| + 1];
      assert HasPrefix(s, r + "|");
    }
  }

  /** Of two texts cut at different newlines, the longer one holds the other's break. */
  lemma LongerBreaks(x: string, u: string, y: string, v: string)
    requires x + "\n" + u == y + "\n" + v && Opens(u) && |x| < |y|
    ensures BreaksAt(y, |x|)
  {
    hide Opens;
    var s := x + "\n" + u;
    assert s[|x|] == '\n' && y[|x|] == (y + "\n" + v)[|x|];
    assert u == s[|x| + 1..] == y[|x| + 1..] + "\n" + v;
    OpensBefore(y[|x| + 1..], v);
  }

  lemma SplitAtBreak(x: string, u: string, y: string, v: string)
    requires Unbroken(x) && Unbroken(y) && Opens(u) && Opens(v) && x + "\n" + u == y + "\n" + v
    ensures x == y && u == v
  {
    hide Opens, BreaksAt;
    if |x| < |y| { LongerBreaks(x, u, y, v); }
    if |y| < |x| { LongerBreaks(y, v, x, u); }
    var s := x + "\n" + u;
    assert x == s[..|x|] && y == (y + "\n" + v)[..|y|];
    assert u == s[|x| + 1..] && v == (y + "\n" + v)[|y| + 1..];
  }

  // ---------- what the signature tells apart ----------

  ghost predicate AllOpen(xs: seq<string>) { forall x :: x in xs ==> Opens(x) }

  lemma JoinTwo(a: seq<string>)
    requires |a| > 1
    ensures Join(a, "\n") == a[0] + "\n" + Join(a[1..], "\n")
  {
  }

  lemma JoinOpens(a: seq<string>)
    requires AllOpen(a)
    ensures if a == [] then Join(a, "\n") == "" else Opens(Join(a, "\n"))
  {
    hide Opens;
    if a != [] { assert a[0] in a; }
    if |a| > 1 { OpensBefore(a[0], Join(a[1..], "\n")); }
  }

  lemma NothingOpens(s: string)
    requires Opens(s)
    ensures s != ""
  {
    var r := OpensWith(s);
  }

  /** A joined list of two or more lines breaks behind its first one. */
  lemma JoinBreaks(a: seq<string>)
    requires AllOpen(a) && |a| > 1
    ensures BreaksAt(Join(a, "\n"), |a[0]|) && Opens(Join(a[1..], "\n"))
    ensures var s := Join(a, "\n"); s[..|a[0]|] == a[0] && s[|a[0]| + 1..] == Join(a[1..], "\n")
  {
    JoinTwo(a);
    hide Opens;
    JoinOpens(a[1..]);
  }

  lemma {:induction false} JoinInjective(a: seq<string>, b: seq<string>)
    requires AllOpen(a) && AllOpen(b) && forall x :: x in a || x in b ==> Unbroken(x)
    requires Join(a, "\n") == Join(b, "\n")
    ensures a == b
    decreases |a|
  {
    hide Opens, BreaksAt;
    JoinOpens(a);
    JoinOpens(b);
    if a == [] || b == [] {
      if Opens(Join(a, "\n")) { NothingOpens(Join(a, "\n")); }
      assert a == b == [];
    } else {
      assert a[0] in a && b[0] in b;
      if |a| > 1 { JoinBreaks(a); }
      if |b| > 1 { JoinBreaks(b); }
      if |a| > 1 && |b| > 1 {
        JoinTwo(a);
        JoinTwo(b);
        SplitAtBreak(a[0], Join(a[1..], "\n"), b[0], Join(b[1..], "\n"));
        JoinInjective(a[1..], b[1..]);
        assert a == [a[0]] + a[1..] && b == [b[0]] + b[1..];
      }
    }
  }

  lemma LineOpens(f: Failure)
    requires f.rule in RULES
    ensures Opens(Line(f))
  {
    hide RULES;
    assert Line(f)[..|f.rule| + 1] == f.rule + "|";
    assert HasPrefix(Line(f), f.rule + "|");
  }

  /** A line breaks where the detail does. */
  lemma LineBreaks(f: Failure, p: int)
    requires f.rule in RULES
    ensures BreaksAt(Line(f), |f.rule| + 1 + p) <==> BreaksAt(f.detail, p)
  {
    RulesArePlain(f.rule);
    hide RULES, Opens;
    var s := Line(f);
    assert forall i :: 0 <= i < |f.rule| ==> s[i] == f.rule[i];
    assert s[|f.rule|] == '|' && s[|f.rule| + 1..] == f.detail;
    if 0 <= p < |f.detail| { assert s[|f.rule| + 1 + p + 1..] == f.detail[p + 1..]; }
  }

  /** The lines of a classified list, in any order. */
  lemma LinesOpen(fs: seq<Failure>, sorted: seq<string>)
    requires Classified(fs) && multiset(sorted) == multiset(Lines(fs))
    ensures AllOpen(sorted) && |sorted| == |fs|
    ensures forall x :: x in sorted ==> exists f :: f in fs && x == Line(f)
  {
    hide RULES, Opens;
    assert |sorted| == |multiset(sorted)| == |multiset(Lines(fs))| == |fs|;
    forall x | x in sorted ensures Opens(x) && exists f :: f in fs && x == Line(f) {
      assert x in multiset(Lines(fs));
      var i :| 0 <= i < |fs| && Lines(fs)[i] == x;
      assert fs[i] in fs;
      LineOpens(fs[i]);
    }
  }

  lemma LineUnbroken(f: Failure)
    requires f.rule in RULES && Unbroken(f.detail)
    ensures Unbroken(Line(f))
  {
    hide RULES, Line, BreaksAt;
    forall q ensures !BreaksAt(Line(f), q) {
      LineBreaks(f, q - |f.rule| - 1);
      assert |f.rule| + 1 + (q - |f.rule| - 1) == q;
    }
  }

  /** No newline of a detail is followed by a class and a bar. */
  ghost predicate Solid(fs: seq<Failure>) { forall f :: f in fs ==> Unbroken(f.detail) }

  lemma SortedLines(fs: seq<Failure>) returns (x: seq<string>)
    ensures x == Sort(Lines(fs), StringLeq) && Signature(fs) == Digest(Join(x, "\n"))
    ensures multiset(x) == multiset(Lines(fs)) && Sorted(x, StringLeq)
  {
    x := Sort(Lines(fs), StringLeq);
    StringLeqIsPreorder();
    SortPermutes(Lines(fs), StringLeq);
    SortSorts(Lines(fs), StringLeq);
  }

  lemma SignatureTellsLinesApart(a: seq<Failure>, b: seq<Failure>)
    requires Classified(a) && Classified(b) && Solid(a) && Solid(b)
    ensures Signature(a) == Signature(b) <==> multiset(Lines(a)) == multiset(Lines(b))
  {
    var x := SortedLines(a);
    var y := SortedLines(b);
    LinesOpen(a, x);
    LinesOpen(b, y);
    hide RULES, Sort, Lines, StringLeq, Opens, BreaksAt, Line, Signature, Sorted;
    forall z | z in x || z in y ensures Unbroken(z) {
      var f :| (f in a || f in b) && z == Line(f);
      LineUnbroken(f);
    }
    hide Unbroken;
    if Signature(a) == Signature(b) {
      JoinInjective(x, y);
    } else if multiset(Lines(a)) == multiset(Lines(b)) {
      StringLeqIsPreorder();
      SortedIsUnique(x, y, StringLeq);
    }
  }

  /** What tells one failure from another: all of it but the snippet. */
  function Pair(f: Failure): (string, string) { (f.rule, f.detail) }

  function Pairs(fs: seq<Failure>): seq<(string, string)> { seq(|fs|, i requires 0 <= i < |fs| => Pair(fs[i])) }

  function DropAt(b: seq<Failure>, k: nat): seq<Failure>
    requires k < |b|
  {
    b[..k] + b[k + 1..]
  }

  lemma DropOne(b: seq<Failure>, k: nat)
    requires k < |b|
    ensures multiset(DropAt(b, k)) == multiset(b) - multiset{b[k]}
    ensures multiset(Lines(b)) == multiset(Lines(DropAt(b, k))) + multiset{Line(b[k])}
    ensures multiset(Pairs(b)) == multiset(Pairs(DropAt(b, k))) + multiset{Pair(b[k])}
  {
    hide Line, Pair;
    var front, back := b[..k], b[k + 1..];
    assert b == front + [b[k]] + back;
    assert Lines(b) == Lines(front) + [Line(b[k])] + Lines(back);
    assert Lines(front + back) == Lines(front) + Lines(back);
    assert Pairs(b) == Pairs(front) + [Pair(b[k])] + Pairs(back);
    assert Pairs(front + back) == Pairs(front) + Pairs(back);
  }

  lemma {:induction false} PermutedLines(a: seq<Failure>, b: seq<Failure>)
    requires multiset(a) == multiset(b)
    ensures multiset(Lines(a)) == multiset(Lines(b))
    decreases |a|
  {
    assert |a| == |multiset(a)| == |multiset(b)| == |b|;
    if a != [] {
      assert a[0] in multiset(b);
      var k :| 0 <= k < |b| && b[k] == a[0];
      DropOne(a, 0);
      DropOne(b, k);
      hide Lines, DropAt, Line;
      DropShorter(a, 0);
      PermutedLines(DropAt(a, 0), DropAt(b, k));
    } else {
      assert Lines(a) == Lines(b);
    }
  }

  lemma DropShorter(b: seq<Failure>, k: nat)
    requires k < |b|
    ensures |DropAt(b, k)| == |b| - 1
  {
  }

  /** Reordering failures never changes the signature, whatever they say. */
  lemma SignatureIgnoresOrder(a: seq<Failure>, b: seq<Failure>)
    requires multiset(a) == multiset(b)
    ensures Signature(a) == Signature(b)
  {
    PermutedLines(a, b);
    StringLeqIsPreorder();
    SortPermutes(Lines(a), StringLeq);
    SortPermutes(Lines(b), StringLeq);
    SortSorts(Lines(a), StringLeq);
    SortSorts(Lines(b), StringLeq);
    SortedIsUnique(Sort(Lines(a), StringLeq), Sort(Lines(b), StringLeq), StringLeq);
  }

  lemma SplitAtBar(f: Failure, g: Failure)
    requires '|' !in f.rule && '|' !in g.rule
    ensures Line(f) == Line(g) <==> Pair(f) == Pair(g)
  {
    if Line(f) == Line(g) {
      var s := Line(f);
      assert s[|f.rule|] == '|' && Line(g)[|g.rule|] == '|';
      assert forall i :: 0 <= i < |f.rule| ==> s[i] == f.rule[i];
      assert forall i :: 0 <= i < |g.rule| ==> Line(g)[i] == g.rule[i];
      assert |f.rule| == |g.rule|;
      assert f.rule == s[..|f.rule|] == g.rule && f.detail == s[|f.rule| + 1..] == g.detail;
    }
  }

  lemma {:induction false} SameLinesSamePairs(a: seq<Failure>, b: seq<Failure>)
    requires Classified(a) && Classified(b)
    ensures multiset(Lines(a)) == multiset(Lines(b)) <==> multiset(Pairs(a)) == multiset(Pairs(b))
    decreases |a|
  {
    hide Line, Pair;
    if a == [] {
      if b != [] { assert Lines(b)[0] in multiset(Lines(b)) && Pairs(b)[0] in multiset(Pairs(b)); }
      assert Lines(a) == [] && Pairs(a) == [];
    } else {
      forall k | 0 <= k < |b| ensures Line(a[0]) == Line(b[k]) <==> Pair(a[0]) == Pair(b[k]) { RulesTellPairs(a, b, 0, k); }
      assert Lines(a)[0] in multiset(Lines(a)) && Pairs(a)[0] in multiset(Pairs(a));
      if k :| 0 <= k < |b| && Line(b[k]) == Line(a[0]) {
        DropOne(a, 0);
        DropOne(b, k);
        hide Lines, Pairs;
        DropShorter(a, 0);
        SameLinesSamePairs(DropAt(a, 0), DropAt(b, k));
        SameButOne(multiset(Lines(a)), multiset(Lines(DropAt(a, 0))), multiset(Lines(b)), multiset(Lines(DropAt(b, k))), Line(a[0]));
        SameButOne(multiset(Pairs(a)), multiset(Pairs(DropAt(a, 0))), multiset(Pairs(b)), multiset(Pairs(DropAt(b, k))), Pair(a[0]));
      } else {
        assert Lines(a)[0] !in multiset(Lines(b)) && Pairs(a)[0] !in multiset(Pairs(b));
      }
    }
  }

  lemma RulesTellPairs(a: seq<Failure>, b: seq<Failure>, i: nat, k: nat)
    requires Classified(a) && Classified(b) && i < |a| && k < |b|
    ensures Line(a[i]) == Line(b[k]) <==> Pair(a[i]) == Pair(b[k])
  {
    hide Line, Pair;
    RulesArePlain(a[i].rule);
    RulesArePlain(b[k].rule);
    SplitAtBar(a[i], b[k]);
  }

  lemma SameButOne<T>(a: multiset<T>, a': multiset<T>, b: multiset<T>, b': multiset<T>, x: T)
    requires a == a' + multiset{x} && b == b' + multiset{x}
    ensures a == b <==> a' == b'
  {
    if a == b { assert a' == a - multiset{x} && b' == b - multiset{x}; }
  }

  /** For failures of the program's own classes, of which no detail has a newline followed by a class and a
      bar, signatures agree exactly when the failures are the same up to order and snippets, so the loop
      calls a stall just when nothing changed. */
  lemma SignatureTellsFailuresApart(a: seq<Failure>, b: seq<Failure>)
    requires Classified(a) && Classified(b) && Solid(a) && Solid(b)
    ensures Signature(a) == Signature(b) <==> multiset(Pairs(a)) == multiset(Pairs(b))
  {
    SignatureTellsLinesApart(a, b);
    SameLinesSamePairs(a, b);
  }

  // ---------- which lists no other one can pass for ----------

  /** No other list of classified failures has the signature of this one. */
  ghost predicate Unmistakable(a: seq<Failure>) {
    forall b :: Classified(b) && Signature(b) == Signature(a) ==> multiset(Pairs(b)) == multiset(Pairs(a))
  }

  /** The detail holds a second line in the right order: it reads as two failures. */
  ghost predicate ReadsAsTwo(f: Failure) {
    exists p :: BreaksAt(f.detail, p) && StringLeq(f.rule + "|" + f.detail[..p], f.detail[p + 1..])
  }

  /** The failure with a given line. */
  lemma FailureOf(s: string) returns (f: Failure)
    requires Opens(s)
    ensures f.rule in RULES && Line(f) == s && f.snippet == ""
  {
    var r := OpensWith(s);
    hide RULES, Opens;
    f := Failure(r, s[|r| + 1..], "");
    assert s == s[..|r| + 1] + s[|r| + 1..];
  }

  lemma SignatureOfOne(f: Failure)
    ensures Signature([f]) == Digest(Line(f)) && Lines([f]) == [Line(f)]
  {
    hide Line;
    assert Lines([f]) == [Line(f)];
    SortSingle(Line(f));
    assert Join([Line(f)], "\n") == Line(f);
  }

  lemma SignatureOfTwo(f: Failure, g: Failure)
    requires StringLeq(Line(f), Line(g))
    ensures Signature([f, g]) == Digest(Line(f) + "\n" + Line(g))
  {
    hide Line, StringLeq;
    var x, y := Line(f), Line(g);
    assert Lines([f, g]) == [x, y];
    SortSingle(y);
    assert [x, y][1..] == [y];
    assert Sort([x, y], StringLeq) == [x] + [y] == [x, y];
    assert Join([y], "\n") == y;
    JoinTwo([x, y]);
  }

  lemma SizesDiffer(a: seq<Failure>, b: seq<Failure>)
    requires |a| != |b|
    ensures multiset(Pairs(a)) != multiset(Pairs(b))
  {
    assert |multiset(Pairs(a))| == |a| && |multiset(Pairs(b))| == |b|;
  }

  /** A list of two or more failures shares its signature with a single one. */
  lemma ManyPassForOne(a: seq<Failure>)
    requires Classified(a) && |a| >= 2
    ensures !Unmistakable(a)
  {
    hide RULES, Opens, Sort, Lines, StringLeq, Sorted, Line, Signature, Pairs, BreaksAt;
    var x := SortedLines(a);
    LinesOpen(a, x);
    JoinOpens(x);
    var f := FailureOf(Join(x, "\n"));
    SignatureOfOne(f);
    assert Classified([f]) && Signature([f]) == Signature(a);
    SizesDiffer([f], a);
  }

  lemma LineSplits(f: Failure, p: nat)
    requires p < |f.detail| && f.detail[p] == '\n'
    ensures Line(f) == (f.rule + "|" + f.detail[..p]) + "\n" + f.detail[p + 1..]
  {
    assert f.detail == f.detail[..p] + "\n" + f.detail[p + 1..];
    assert f.rule + "|" + (f.detail[..p] + "\n" + f.detail[p + 1..]) == (f.rule + "|" + f.detail[..p]) + "\n" + f.detail[p + 1..];
  }

  lemma TwoPassForOne(f: Failure, h: Failure, g: Failure)
    requires f.rule in RULES && h.rule in RULES && g.rule in RULES
    requires Line(h) + "\n" + Line(g) == Line(f) && StringLeq(Line(h), Line(g))
    ensures !Unmistakable([f])
  {
    hide RULES, StringLeq, Signature, Pairs, Line;
    SignatureOfTwo(h, g);
    SignatureOfOne(f);
    assert Classified([h, g]) && Signature([h, g]) == Signature([f]);
    SizesDiffer([h, g], [f]);
  }

  lemma OnePassesForTwo(f: Failure)
    requires f.rule in RULES && ReadsAsTwo(f)
    ensures !Unmistakable([f])
  {
    hide RULES, Opens, StringLeq, Signature, Pairs, Unmistakable;
    var p :| BreaksAt(f.detail, p) && StringLeq(f.rule + "|" + f.detail[..p], f.detail[p + 1..]);
    LineSplits(f, p);
    var g := FailureOf(f.detail[p + 1..]);
    TwoPassForOne(f, Failure(f.rule, f.detail[..p], ""), g);
  }

  lemma {:induction false} LeqExtends(x: string, y: string, t: string)
    requires StringLeq(x, y)
    ensures StringLeq(x, y + t)
    decreases |x|
  {
    if x != "" && x[0] == y[0] {
      LeqExtends(x[1..], y[1..], t);
      assert (y + t)[1..] == y[1..] + t;
    }
  }

  lemma JoinFirst(a: seq<string>)
    requires a != []
    ensures a[0] <= Join(a, "\n")
  {
  }

  /** A line that starts the line of `f` has the same class, so that it ends in the detail. */
  lemma BehindTheRule(f: Failure, x: string)
    requires f.rule in RULES && Opens(x) && x <= Line(f)
    ensures |x| > |f.rule|
  {
    var r := OpensWith(x);
    RulesArePlain(f.rule);
    hide RULES, Opens;
    var s := Line(f);
    assert s[|r|] == x[|r|] == x[..|r| + 1][|r|] == '|';
    assert forall i :: 0 <= i < |f.rule| ==> s[i] == f.rule[i];
  }

  lemma SplitReadsAsTwo(f: Failure, x: string, u: string)
    requires f.rule in RULES && Line(f) == x + "\n" + u && Opens(x) && Opens(u) && StringLeq(x, u)
    ensures ReadsAsTwo(f)
  {
    hide StringLeq, Opens, RULES;
    var s := Line(f);
    assert x <= s && s[|x|] == '\n' && s[|x| + 1..] == u;
    BehindTheRule(f, x);
    var p := |x| - |f.rule| - 1;
    assert s[|f.rule| + 1..] == f.detail && s[..|f.rule| + 1] == f.rule + "|";
    assert f.detail[p] == s[|x|] && f.detail[p + 1..] == s[|x| + 1..];
    assert f.rule + "|" + f.detail[..p] == s[..|x|] == x;
    assert BreaksAt(f.detail, p);
  }

  /** A longer list that shares a failure's signature splits its detail. */
  lemma JoinReadsAsTwo(f: Failure, x: seq<string>)
    requires f.rule in RULES && |x| > 1 && AllOpen(x) && Sorted(x, StringLeq) && Join(x, "\n") == Line(f)
    ensures ReadsAsTwo(f)
  {
    hide RULES, Opens, StringLeq, ReadsAsTwo, Line;
    assert x[0] in x && StringLeq(x[0], x[1]);
    JoinTwo(x);
    JoinOpens(x[1..]);
    var u := Join(x[1..], "\n");
    JoinFirst(x[1..]);
    LeqExtends(x[0], x[1], u[|x[1]|..]);
    assert u == x[1] + u[|x[1]|..];
    SplitReadsAsTwo(f, x[0], u);
  }

  lemma OneIsUnmistakable(f: Failure, b: seq<Failure>)
    requires f.rule in RULES && !ReadsAsTwo(f) && Classified(b) && Signature(b) == Signature([f])
    ensures multiset(Pairs(b)) == multiset(Pairs([f]))
  {
    SignatureOfOne(f);
    hide RULES, Opens, Sort, Lines, StringLeq, Sorted, Signature, Pairs, BreaksAt, ReadsAsTwo;
    var x := SortedLines(b);
    LinesOpen(b, x);
    hide Line;
    LineOpens(f);
    NothingOpens(Line(f));
    assert Join(x, "\n") == Line(f);
    if |x| > 1 { JoinReadsAsTwo(f, x); }
    JoinOpens(x);
    assert |b| == 1;
    SignatureOfOne(b[0]);
    assert b == [b[0]] && b[0] in b;
    RulesArePlain(f.rule);
    RulesArePlain(b[0].rule);
    SplitAtBar(f, b[0]);
    SamePairs(b[0], f);
  }

  lemma SamePairs(f: Failure, g: Failure)
    requires Pair(f) == Pair(g)
    ensures Pairs([f]) == Pairs([g])
  {
  }

  lemma NothingIsUnmistakable(b: seq<Failure>)
    requires Classified(b) && Signature(b) == Signature([])
    ensures b == []
  {
    hide RULES, Opens, StringLeq, Sorted, BreaksAt, Line, Lines, Sort;
    var x := SortedLines(b);
    var y := SortedLines([]);
    LinesOpen(b, x);
    LinesOpen([], y);
    JoinOpens(x);
    JoinOpens(y);
    if x != [] { NothingOpens(Join(x, "\n")); }
  }

  /** A list of failures can be told from every other by its signature exactly if it is empty, or a single
      failure whose detail does not read as a second line in order. */
  lemma WhenTheSignatureIsEnough(a: seq<Failure>)
    requires Classified(a)
    ensures Unmistakable(a) <==> a == [] || (|a| == 1 && !ReadsAsTwo(a[0]))
  {
    hide RULES, ReadsAsTwo, Signature, Pairs;
    if a == [] {
      forall b | Classified(b) && Signature(b) == Signature(a) ensures multiset(Pairs(b)) == multiset(Pairs(a)) { NothingIsUnmistakable(b); }
    } else if |a| == 1 {
      assert a == [a[0]] && a[0] in a;
      if ReadsAsTwo(a[0]) {
        OnePassesForTwo(a[0]);
      } else {
        forall b | Classified(b) && Signature(b) == Signature(a) ensures multiset(Pairs(b)) == multiset(Pairs(a)) { OneIsUnmistakable(a[0], b); }
      }
    } else {
      ManyPassForOne(a);
    }
  }

  lemma LineRepeats(rule: string, detail: string, t: string)
    ensures Line(Failure(rule, detail + ("\n" + t), "")) == Line(Failure(rule, detail, "")) + "\n" + t
  {
    assert rule + "|" + (detail + ("\n" + t)) == (rule + "|" + detail) + ("\n" + t);
  }

  /** A detail that repeats its own line behind a newline passes for two failures. */
  lemma NewlinesConfuse(rule: string, detail: string)
    ensures var g := Failure(rule, detail, "");
      Signature([Failure(rule, detail + ("\n" + Line(g)), "")]) == Signature([g, g])
  {
    hide Line, Signature, StringLeq;
    var g := Failure(rule, detail, "");
    StringLeqTotal(Line(g), Line(g));
    LineRepeats(rule, detail, Line(g));
    SignatureOfOne(Failure(rule, detail + ("\n" + Line(g)), ""));
    SignatureOfTwo(g, g);
  }

  /** A bar in the class could move into the detail as well; none of the program's classes has one. */
  lemma BarsConfuse(a: string, b: string, c: string)
    ensures Line(Failure(a + "|" + b, c, "")) == Line(Failure(a, b + "|" + c, ""))
  {
    assert a + "|" + b + "|" + c == a + "|" + (b + "|" + c);
  }

  lemma GradedOnce(c: Claim, r: Remaining)
    requires Contradicts(c, r)
    ensures Graded([c], [r]) == [StillPresent(c, r)] && Graded([c, c], [r]) == [StillPresent(c, r), StillPresent(c, r)]
  {
    hide StillPresent, Contradicts;
    assert [c][..0] == [] && [c, c][..1] == [c];
    assert FirstContradiction(c, [r]) == Some(r);
    assert Graded([], [r]) == [];
    assert Graded([c], [r]) == [] + [StillPresent(c, r)];
  }

  lemma VersionEndsDetail(c: Claim, r: Remaining, t: string)
    requires r.version != ""
    ensures StillPresent(c, r.(version := r.version + t)).detail == StillPresent(c, r).detail + t
    ensures StillPresent(c, r.(version := r.version + t)).rule == StillPresent(c, r).rule == "vuln_still_present"
  {
    var front := c.pkg + " " + (if r.advisoryId == "" then "(no advisory)" else r.advisoryId) + " still present at ";
    assert front + (r.version + t) == (front + r.version) + t;
  }

  /** It happens in the grading itself: a version that goes on behind a newline makes one contradicted claim
      pass for two, for every package, advisory and version. */
  lemma GradedFailuresConfuse(c: Claim, r: Remaining)
    requires Contradicts(c, r) && r.version != ""
    ensures var two := Graded([c, c], [r]);
      |two| == 2 && Classified(two)
      && var one := Graded([c], [r.(version := r.version + ("\n" + Line(two[0])))]);
        |one| == 1 && Classified(one) && Signature(one) == Signature(two)
  {
    GradedOnce(c, r);
    var g := StillPresent(c, r);
    var r' := r.(version := r.version + ("\n" + Line(g)));
    VersionEndsDetail(c, r, "\n" + Line(g));
    GradedOnce(c, r');
    assert g.snippet == StillPresent(c, r').snippet == "";
    hide StillPresent, Graded, Signature, Line;
    NewlinesConfuse(g.rule, g.detail);
    assert StillPresent(c, r') == Failure(g.rule, g.detail + ("\n" + Line(g)), "");
    assert g == Failure(g.rule, g.detail, "");
  }

  lemma SortSingle(s: string)
    ensures Sort([s], StringLeq) == [s]
  {
    assert [s][1..] == [];
    assert Sort([], StringLeq) == [];
  }
}
