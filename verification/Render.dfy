/** The summary comment of internal/executor/github_writer.go. The marker in it is how a later run
    recognises the comment as the bot's, so nothing a person or a model writes may forge one. */
module Render {
  import opened Text
  import opened Intent

  const MARKER := "<!-- bothos-pr-review -->"

  const QUEUED_BODY := MARKER + "\n\U{00F0}\U{009F}\U{0091}\U{0080} Review queued."

  function EscapeChar(c: char): string {
    if c == '&' then "&amp;" else if c == '\'' then "&#39;" else if c == '<' then "&lt;"
    else if c == '>' then "&gt;" else if c == '"' then "&#34;" else [c]
  }

  /** `html.EscapeString`. */
  function Escape(s: string): string { if s == "" then "" else EscapeChar(s[0]) + Escape(s[1..]) }

  function Tag(c: ReviewComment): string { if c.verified then "verified" else "opinion" }

  /** What a strings.Builder holds after the pieces have been written to it. */
  function Flat(pieces: seq<string>): string {
    if pieces == [] then "" else Flat(pieces[..|pieces| - 1]) + pieces[|pieces| - 1]
  }

  // the fixed fragments, cut where an HTML tag starts
  function Title(): string { "\n## Bothos review\n\n" }
  function Recommendation(): string { "\n[opinion] Recommendation: request changes\n" }
  function NoRemarks(): string { "\nNo inline remarks.\n" }
  function Remarks(): string { "\n### Inline remarks (on the diff)\n" }
  function Dash(): string { "` \U{00E2}\U{0080}\U{0094} " }
  function EvidenceOpen(): seq<string> { ["  ", "<details>", "<summary>", "Evidence", "</summary>", "\n\n  ", "<pre>"] }
  function EvidenceClose(): seq<string> { ["</pre>", "\n  ", "</details>", "\n"] }

  function BareLine(c: ReviewComment): seq<string> { ["\n- [", Tag(c), "] ", Escape(c.body), "\n"] }

  function AnchoredLine(c: ReviewComment): seq<string> {
    ["\n- [", Tag(c), "] `", Escape(c.path), ":", Itoa(c.line), Dash(), Escape(c.body), "\n"]
  }

  function EvidenceLines(c: ReviewComment): seq<string> { EvidenceOpen() + [Escape(c.evidence)] + EvidenceClose() }

  /** One line of the summary, and the evidence of a verified remark that has an anchor. */
  function CommentPieces(c: ReviewComment): seq<string> {
    if c.path == "" || c.line <= 0 then BareLine(c)
    else AnchoredLine(c) + (if c.verified && c.evidence != "" then EvidenceLines(c) else [])
  }

  function CommentsPieces(cs: seq<ReviewComment>): seq<string> {
    if cs == [] then [] else CommentsPieces(cs[..|cs| - 1]) + CommentPieces(cs[|cs| - 1])
  }

  /** Everything after the marker. */
  function RestPieces(verdict: Verdict, summary: string, cs: seq<ReviewComment>): seq<string> {
    [Title(), Escape(summary), "\n"]
    + (if verdict == RequestChanges then [Recommendation()] else [])
    + (if cs == [] then [NoRemarks()] else [Remarks()] + CommentsPieces(cs))
  }

  function Rendered(verdict: Verdict, summary: string, cs: seq<ReviewComment>): string {
    Flat([MARKER] + RestPieces(verdict, summary, cs))
  }

  /** The body of the summary loop. */
  method WriteComment(builder: seq<string>, c: ReviewComment) returns (b: seq<string>)
    ensures b == builder + CommentPieces(c)
  {
    hide BareLine, AnchoredLine, EvidenceLines;
    if c.path == "" || c.line <= 0 { return builder + BareLine(c); }
    b := builder + AnchoredLine(c);
    if c.verified && c.evidence != "" { b := b + EvidenceLines(c); }
  }

  /** What comes before the remarks. */
  function Opening(verdict: Verdict, summary: string): seq<string> {
    [Title(), Escape(summary), "\n"] + (if verdict == RequestChanges then [Recommendation()] else [])
  }

  lemma RenderedParts(verdict: Verdict, summary: string, cs: seq<ReviewComment>)
    ensures Rendered(verdict, summary, cs)
      == Flat([MARKER] + Opening(verdict, summary) + (if cs == [] then [NoRemarks()] else [Remarks()] + CommentsPieces(cs)))
  {
    hide Flat, Title, Recommendation, NoRemarks, Remarks, CommentsPieces, Escape;
    var tail := if cs == [] then [NoRemarks()] else [Remarks()] + CommentsPieces(cs);
    assert RestPieces(verdict, summary, cs) == Opening(verdict, summary) + tail;
    assert [MARKER] + (Opening(verdict, summary) + tail) == [MARKER] + Opening(verdict, summary) + tail;
  }

  /** `renderPostReview`, with the pieces written to its builder. */
  method RenderPostReview(verdict: Verdict, summary: string, cs: seq<ReviewComment>) returns (body: string)
    ensures body == Rendered(verdict, summary, cs)
  {
    RenderedParts(verdict, summary, cs);
    hide Flat, Title, Recommendation, NoRemarks, Remarks, CommentPieces, Rendered, Escape, MARKER;
    var builder := [MARKER, Title(), Escape(summary), "\n"];
    if verdict == RequestChanges {
      builder := builder + [Recommendation()];
    }
    assert builder == [MARKER] + Opening(verdict, summary);
    hide Opening;
    var verified, opinions := 0, 0;
    for i := 0 to |cs|
      invariant verified + opinions == i
    {
      if cs[i].verified { verified := verified + 1; } else { opinions := opinions + 1; }
    }
    if verified + opinions == 0 {
      return Flat(builder + [NoRemarks()]);
    }
    builder := builder + [Remarks()];
    ghost var start := builder;
    for i := 0 to |cs|
      invariant builder == start + CommentsPieces(cs[..i])
    {
      assert cs[..i + 1][..i] == cs[..i];
      builder := WriteComment(builder, cs[i]);
    }
    assert cs[..|cs|] == cs;
    assert builder == [MARKER] + Opening(verdict, summary) + ([Remarks()] + CommentsPieces(cs));
    body := Flat(builder);
  }

  // ---------- the marker cannot be forged ----------

  /** `s` opens no HTML comment and cannot complete one with what follows. */
  ghost predicate Safe(s: string) {
    forall i :: 0 <= i < |s| && s[i] == '<' ==> i + 1 < |s| && s[i + 1] != '!'
  }

  lemma SafeConcat(a: string, b: string)
    requires Safe(a) && Safe(b)
    ensures Safe(a + b)
  {
    var s := a + b;
    forall i | 0 <= i < |s| && s[i] == '<' ensures i + 1 < |s| && s[i + 1] != '!' {
      if i < |a| { assert a[i] == '<' && s[i + 1] == a[i + 1]; } else { assert b[i - |a|] == '<' && s[i + 1] == b[i - |a| + 1]; }
    }
  }

  /** Angle brackets and quotes. */
  const MARKUP := {'<', '>', '"', '\''}

  lemma {:induction false} EscapeHasNoMarkup(s: string)
    ensures forall c :: c in MARKUP ==> c !in Escape(s)
  {
    if s != "" { EscapeHasNoMarkup(s[1..]); }
  }

  lemma ItoaHasNoAngle(n: int)
    ensures '<' !in Itoa(n)
  {
    if n < 0 { NatoaDigits(-n); } else { NatoaDigits(n); }
  }

  ghost predicate AllSafe(pieces: seq<string>) { forall i :: 0 <= i < |pieces| ==> Safe(pieces[i]) }

  lemma {:induction false} FlatIsSafe(pieces: seq<string>)
    requires AllSafe(pieces)
    ensures Safe(Flat(pieces))
  {
    if pieces != [] {
      FlatIsSafe(pieces[..|pieces| - 1]);
      SafeConcat(Flat(pieces[..|pieces| - 1]), pieces[|pieces| - 1]);
    }
  }

  lemma EvidenceIsSafe()
    ensures AllSafe(EvidenceOpen()) && AllSafe(EvidenceClose())
  {
  }

  lemma CommentIsSafe(c: ReviewComment)
    ensures AllSafe(CommentPieces(c))
  {
    EscapeHasNoMarkup(c.body);
    EscapeHasNoMarkup(c.path);
    EscapeHasNoMarkup(c.evidence);
    ItoaHasNoAngle(c.line);
    EvidenceIsSafe();
    hide Escape, Itoa, EvidenceOpen, EvidenceClose;
  }

  lemma {:induction false} CommentsAreSafe(cs: seq<ReviewComment>)
    ensures AllSafe(CommentsPieces(cs))
  {
    hide CommentPieces, Safe;
    if cs != [] {
      CommentsAreSafe(cs[..|cs| - 1]);
      CommentIsSafe(cs[|cs| - 1]);
    }
  }

  lemma TitleHasNoAngle() ensures '<' !in Title() {}

  lemma RecommendationHasNoAngle() ensures '<' !in Recommendation() {}

  lemma NoRemarksHasNoAngle() ensures '<' !in NoRemarks() {}

  lemma RemarksHasNoAngle() ensures '<' !in Remarks() {}

  lemma RestIsSafe(verdict: Verdict, summary: string, cs: seq<ReviewComment>)
    ensures Safe(Flat(RestPieces(verdict, summary, cs)))
  {
    EscapeHasNoMarkup(summary);
    CommentsAreSafe(cs);
    hide CommentsPieces, Escape;
    TitleHasNoAngle();
    RecommendationHasNoAngle();
    NoRemarksHasNoAngle();
    RemarksHasNoAngle();
    hide Title, Recommendation, NoRemarks, Remarks;
    FlatIsSafe(RestPieces(verdict, summary, cs));
  }

  lemma {:induction false} FlatCons(p: string, pieces: seq<string>)
    ensures Flat([p] + pieces) == p + Flat(pieces)
  {
    var all := [p] + pieces;
    if pieces == [] {
      assert all[..0] == [];
    } else {
      FlatCons(p, pieces[..|pieces| - 1]);
      assert all[..|all| - 1] == [p] + pieces[..|pieces| - 1];
    }
  }

  lemma MarkerOpensComment(s: string, i: nat)
    requires OccursAt(s, MARKER, i)
    ensures s[i] == '<' && s[i + 1] == '!'
  {
    assert s[i..i + |MARKER|][0] == s[i] && s[i..i + |MARKER|][1] == s[i + 1];
  }

  lemma MarkerOnce(rest: string, i: int)
    requires Safe(rest)
    ensures OccursAt(MARKER + rest, MARKER, i) <==> i == 0
  {
    var s := MARKER + rest;
    assert s[0..|MARKER|] == MARKER;
    if i > 0 && OccursAt(s, MARKER, i) { MarkerOpensComment(s, i); }
  }

  /** Whatever the verdict, the summary and the remarks say, the rendered summary holds the marker
      exactly once, at its very start. */
  lemma MarkerOnlyAtStart(verdict: Verdict, summary: string, cs: seq<ReviewComment>, i: int)
    ensures OccursAt(Rendered(verdict, summary, cs), MARKER, i) <==> i == 0
  {
    RestIsSafe(verdict, summary, cs);
    FlatCons(MARKER, RestPieces(verdict, summary, cs));
    MarkerOnce(Flat(RestPieces(verdict, summary, cs)), i);
  }

  lemma EscapeCharSplits(a: char, b: char, u: string, v: string)
    requires EscapeChar(a) + u == EscapeChar(b) + v
    ensures a == b && u == v
  {
    var x, y := EscapeChar(a), EscapeChar(b);
    var s := x + u;
    assert s[0] == x[0] == y[0];
    if |x| > 1 && |y| > 1 { assert s[1] == x[1] == y[1] && s[3] == x[3] == y[3]; }
    assert u == s[|x|..] && v == (y + v)[|y|..];
  }

  /** Escaping loses nothing: two texts that are shown alike are alike. */
  lemma {:induction false} EscapeInjective(a: string, b: string)
    requires Escape(a) == Escape(b)
    ensures a == b
  {
    hide EscapeChar;
    if a != "" && b != "" {
      EscapeCharSplits(a[0], b[0], Escape(a[1..]), Escape(b[1..]));
      EscapeInjective(a[1..], b[1..]);
      assert a == [a[0]] + a[1..] && b == [b[0]] + b[1..];
    } else {
      EscapeNonEmpty(a);
      EscapeNonEmpty(b);
    }
  }

  lemma EscapeNonEmpty(s: string)
    ensures Escape(s) == "" <==> s == ""
  {
  }

  // ---------- what the summary says ----------

  const DASH := "` \U{00E2}\U{0080}\U{0094} "
  const EVIDENCE_OPEN := "  <details><summary>Evidence</summary>\n\n  <pre>"
  const EVIDENCE_CLOSE := "</pre>\n  </details>\n"

  predicate Anchored(c: ReviewComment) { c.path != "" && c.line > 0 }

  /** The line of a remark: its kind, its place if it has one, its words, and behind them the evidence of a
      verified remark that has a place. */
  predicate ShownAs(line: string, c: ReviewComment) {
    var kind := if c.verified then "\n- [verified] " else "\n- [opinion] ";
    var place := if Anchored(c) then "`" + Escape(c.path) + ":" + Itoa(c.line) + DASH else "";
    var proof := if Anchored(c) && c.verified && c.evidence != "" then EVIDENCE_OPEN + Escape(c.evidence) + EVIDENCE_CLOSE else "";
    line == kind + place + Escape(c.body) + "\n" + proof
  }

  lemma {:induction false} FlatConcat(a: seq<string>, b: seq<string>)
    ensures Flat(a + b) == Flat(a) + Flat(b)
  {
    if b == [] {
      assert a + b == a;
    } else {
      var front := b[..|b| - 1];
      FlatConcat(a, front);
      assert (a + b)[..|a + b| - 1] == a + front;
      assert Flat(a) + (Flat(front) + b[|b| - 1]) == Flat(a) + Flat(front) + b[|b| - 1];
    }
  }

  lemma FlatOne(p: string)
    ensures Flat([p]) == p
  {
    assert [p][..0] == [];
  }

  lemma FlatTwo(p: string, q: string)
    ensures Flat([p, q]) == p + q
  {
    assert [p, q][..1] == [p];
    FlatOne(p);
  }

  lemma FlatFive(a: string, b: string, c: string, d: string, e: string)
    ensures Flat([a, b, c, d, e]) == a + b + c + d + e
  {
    assert [a, b, c, d, e] == [a, b] + [c, d] + [e];
    FlatTwo(a, b);
    FlatTwo(c, d);
    FlatOne(e);
    FlatConcat([a, b] + [c, d], [e]);
    FlatConcat([a, b], [c, d]);
    assert a + b + (c + d) + e == a + b + c + d + e;
  }

  lemma OpeningWords()
    ensures "  " + "<details>" + "<summary>" + "Evidence" + "</summary>" + ("\n\n  " + "<pre>") == EVIDENCE_OPEN
  {
    assert "  " + "<details>" == "  <details>" && "\n\n  " + "<pre>" == "\n\n  <pre>";
    assert "  <details>" + "<summary>" == "  <details><summary>";
    assert "  <details><summary>" + "Evidence" == "  <details><summary>Evidence";
    LastOpeningWords();
  }

  lemma LastOpeningWords()
    ensures "  <details><summary>Evidence" + "</summary>" + "\n\n  <pre>" == EVIDENCE_OPEN
  {
    assert "  <details><summary>Evidence" + "</summary>" == "  <details><summary>Evidence</summary>";
  }

  lemma ClosingWords()
    ensures "</pre>" + "\n  " + ("</details>" + "\n") == EVIDENCE_CLOSE
  {
    assert "</pre>" + "\n  " == "</pre>\n  " && "</details>" + "\n" == "</details>\n";
  }

  lemma EvidenceText()
    ensures Flat(EvidenceOpen()) == EVIDENCE_OPEN && Flat(EvidenceClose()) == EVIDENCE_CLOSE
  {
    FlatFive("  ", "<details>", "<summary>", "Evidence", "</summary>");
    FlatTwo("\n\n  ", "<pre>");
    FlatConcat(["  ", "<details>", "<summary>", "Evidence", "</summary>"], ["\n\n  ", "<pre>"]);
    assert EvidenceOpen() == ["  ", "<details>", "<summary>", "Evidence", "</summary>"] + ["\n\n  ", "<pre>"];
    FlatTwo("</pre>", "\n  ");
    FlatTwo("</details>", "\n");
    FlatConcat(["</pre>", "\n  "], ["</details>", "\n"]);
    assert EvidenceClose() == ["</pre>", "\n  "] + ["</details>", "\n"];
    hide Flat, EvidenceOpen, EvidenceClose, EVIDENCE_OPEN, EVIDENCE_CLOSE;
    OpeningWords();
    ClosingWords();
  }

  lemma KindText(c: ReviewComment)
    ensures "\n- [" + Tag(c) + "] " == if c.verified then "\n- [verified] " else "\n- [opinion] "
    ensures "\n- [" + Tag(c) + "] `" == (if c.verified then "\n- [verified] " else "\n- [opinion] ") + "`"
  {
    if c.verified {
      assert "\n- [" + "verified" + "] " == "\n- [verified] " && "\n- [" + "verified" + "] `" == "\n- [verified] " + "`";
    } else {
      assert "\n- [" + "opinion" + "] " == "\n- [opinion] " && "\n- [" + "opinion" + "] `" == "\n- [opinion] " + "`";
    }
  }

  lemma Associates(a: string, b: string, c: string)
    ensures a + (b + c) == a + b + c
  {
  }

  lemma Regroups(x: string, q: string, path: string, colon: string, line: string, dash: string, body: string, end: string)
    ensures x + q + path + colon + (line + dash + (body + end)) == x + (q + path + colon + line + dash) + body + end
  {
    var front := q + path + colon;
    Associates(x, q, path);
    Associates(x, q + path, colon);
    assert x + q + path + colon == x + front;
    Associates(x + front, line + dash, body + end);
    Associates(x, front, line + dash);
    Associates(front, line, dash);
    Associates(x + (front + line + dash), body, end);
  }

  lemma BareText(c: ReviewComment)
    requires !Anchored(c)
    ensures ShownAs(Flat(BareLine(c)), c)
  {
    KindText(c);
    FlatFive("\n- [", Tag(c), "] ", Escape(c.body), "\n");
    hide Flat, Escape, Tag;
  }

  lemma AnchoredText(c: ReviewComment)
    ensures Flat(AnchoredLine(c)) == (if c.verified then "\n- [verified] " else "\n- [opinion] ")
      + ("`" + Escape(c.path) + ":" + Itoa(c.line) + DASH) + Escape(c.body) + "\n"
  {
    KindText(c);
    var path, line, body := Escape(c.path), Itoa(c.line), Escape(c.body);
    var front, back := ["\n- [", Tag(c), "] `", path, ":"], [line, Dash(), body, "\n"];
    assert AnchoredLine(c) == front + back;
    FlatFive("\n- [", Tag(c), "] `", path, ":");
    FlatTwo(line, Dash());
    FlatTwo(body, "\n");
    FlatConcat([line, Dash()], [body, "\n"]);
    assert back == [line, Dash()] + [body, "\n"];
    FlatConcat(front, back);
    hide Flat, Escape, Itoa, Tag, Dash;
    Regroups(if c.verified then "\n- [verified] " else "\n- [opinion] ", "`", path, ":", line, Dash(), body, "\n");
    DashText();
  }

  lemma DashText()
    ensures Dash() == DASH
  {
  }

  lemma RemarkText(c: ReviewComment)
    ensures ShownAs(Flat(CommentPieces(c)), c)
  {
    if Anchored(c) {
      AnchoredText(c);
      var line := Flat(AnchoredLine(c));
      if c.verified && c.evidence != "" {
        EvidenceText();
        FlatConcat(AnchoredLine(c), EvidenceLines(c));
        FlatConcat(EvidenceOpen() + [Escape(c.evidence)], EvidenceClose());
        FlatConcat(EvidenceOpen(), [Escape(c.evidence)]);
        FlatOne(Escape(c.evidence));
      } else {
        assert AnchoredLine(c) + [] == AnchoredLine(c);
      }
      hide Flat, Escape, Itoa, AnchoredLine, EvidenceOpen, EvidenceClose, EVIDENCE_OPEN, EVIDENCE_CLOSE;
    } else {
      BareText(c);
    }
  }

  function RemarkLines(cs: seq<ReviewComment>): (lines: seq<string>)
    ensures |lines| == |cs|
  {
    seq(|cs|, i requires 0 <= i < |cs| => Flat(CommentPieces(cs[i])))
  }

  lemma {:induction false} RemarksText(cs: seq<ReviewComment>)
    ensures Flat(CommentsPieces(cs)) == Flat(RemarkLines(cs))
  {
    hide CommentPieces;
    if cs != [] {
      var front, last := cs[..|cs| - 1], cs[|cs| - 1];
      RemarksText(front);
      FlatConcat(CommentsPieces(front), CommentPieces(last));
      assert RemarkLines(cs)[..|cs| - 1] == RemarkLines(front);
    }
  }

  lemma {:induction false} FlatIsJoin(pieces: seq<string>)
    ensures Flat(pieces) == Join(pieces, "")
  {
    if |pieces| > 1 {
      FlatIsJoin(pieces[1..]);
      assert pieces == [pieces[0]] + pieces[1..];
      FlatCons(pieces[0], pieces[1..]);
      assert pieces[0] + "" == pieces[0];
    } else if |pieces| == 1 {
      FlatOne(pieces[0]);
      assert pieces == [pieces[0]];
    }
  }

  /** What stands in front of the remarks. */
  function Head(verdict: Verdict, summary: string): string {
    MARKER + "\n## Bothos review\n\n" + Escape(summary) + "\n"
    + (if verdict == RequestChanges then "\n[opinion] Recommendation: request changes\n" else "")
  }

  lemma HeadText(verdict: Verdict, summary: string)
    ensures Flat([MARKER] + Opening(verdict, summary)) == Head(verdict, summary)
  {
    var rec := if verdict == RequestChanges then [Recommendation()] else [];
    FlatTwo(MARKER, Title());
    FlatTwo(Escape(summary), "\n");
    FlatConcat([MARKER, Title()], [Escape(summary), "\n"]);
    FlatConcat([MARKER, Title()] + [Escape(summary), "\n"], rec);
    if verdict == RequestChanges { FlatOne(Recommendation()); }
    Associates(MARKER + Title(), Escape(summary), "\n");
    hide Escape, MARKER, Title, Recommendation;
    assert [MARKER] + Opening(verdict, summary) == [MARKER, Title()] + [Escape(summary), "\n"] + rec;
    HeadIs(verdict, summary);
    hide Opening, Head;
  }

  lemma HeadIs(verdict: Verdict, summary: string)
    ensures Head(verdict, summary) == MARKER + Title() + Escape(summary) + "\n" + if verdict == RequestChanges then Recommendation() else ""
  {
  }

  /** The summary shows every remark, in order and each on a line of its own: a verified one as verified, with its
      evidence, and any other as an opinion. It recommends changes just if the verdict requests them, and says that
      there are no remarks just if there are none. */
  lemma SummaryShowsEveryRemark(verdict: Verdict, summary: string, cs: seq<ReviewComment>)
    ensures exists lines: seq<string> ::
      && |lines| == |cs| && (forall i :: 0 <= i < |cs| ==> ShownAs(lines[i], cs[i]))
      && Rendered(verdict, summary, cs) == Head(verdict, summary)
        + (if cs == [] then "\nNo inline remarks.\n" else "\n### Inline remarks (on the diff)\n" + Join(lines, ""))
  {
    var lines := RemarkLines(cs);
    forall i | 0 <= i < |cs| ensures ShownAs(lines[i], cs[i]) { RemarkText(cs[i]); }
    RenderedParts(verdict, summary, cs);
    HeadText(verdict, summary);
    RemarksText(cs);
    FlatIsJoin(lines);
    FlatOne(NoRemarks());
    FlatCons(Remarks(), CommentsPieces(cs));
    FlatConcat([MARKER] + Opening(verdict, summary), if cs == [] then [NoRemarks()] else [Remarks()] + CommentsPieces(cs));
    hide Flat, Head, Opening, CommentsPieces, ShownAs, Rendered, MARKER, Join;
    assert NoRemarks() == "\nNo inline remarks.\n" && Remarks() == "\n### Inline remarks (on the diff)\n";
    hide NoRemarks, Remarks;
  }
}
