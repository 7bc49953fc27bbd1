/** Printing a change as a zero-context diff and parsing it back. */
module DiffProofs {
  import opened Text
  import opened DiffParser

  // ---------- single lines ----------

  lemma {:induction false} RunConcat(s: Scan, a: seq<string>, b: seq<string>)
    ensures Run(s, a + b) == match Run(s, a) case None => None case Some(s') => Run(s', b)
    decreases |a|
  {
    hide Step;
    if a == [] {
      assert a + b == b;
    } else {
      assert (a + b)[1..] == a[1..] + b;
      if Step(s, a[0]).Some? { RunConcat(Step(s, a[0]).value, a[1..], b); }
    }
  }

  lemma RunOne(s: Scan, line: string)
    ensures Run(s, [line]) == Step(s, line)
  {
    hide Step;
    assert [line][1..] == [];
  }

  lemma PrefixHead(line: string, p: string)
    requires p != "" && line != "" && line[0] != p[0]
    ensures !HasPrefix(line, p)
  {
    PrefixMiss(line, p, 0);
  }

  lemma PrefixMiss(line: string, p: string, i: nat)
    requires i < |p| && i < |line| && line[i] != p[i]
    ensures !HasPrefix(line, p)
  {
    if |p| <= |line| { assert line[..|p|][i] == line[i]; }
  }

  lemma PrefixOf(p: string, rest: string)
    ensures HasPrefix(p + rest, p)
  {
    assert (p + rest)[..|p|] == p;
  }

  /** A line that starts with neither `d`, `@` nor a sign moves the number on inside a hunk. */
  lemma StepOther(s: Scan, line: string)
    requires s.files != [] && line != "" && line[0] !in {'@', '+', '-', '\r'}
    requires !HasPrefix(DropCR(line), "diff --git ")
    ensures Step(s, line) == Some(s.(newLine := if s.newLine > 0 then s.newLine + 1 else s.newLine))
  {
    var l := DropCR(line);
    assert l != "" && l[0] == line[0];
  }

  lemma StepMinus(s: Scan, text: string)
    requires s.files != []
    ensures Step(s, ['-'] + text) == Some(s)
  {
    var l := DropCR(['-'] + text);
    assert l[0] == '-';
  }

  function Last(s: Scan): DiffFile
    requires s.files != []
  {
    s.files[|s.files| - 1]
  }

  /** The scan after its current file has got a path and more added lines. */
  function More(s: Scan, path: string, lines: seq<AddedLine>, newLine: int): (r: Scan)
    requires s.files != []
    ensures r.files != []
  {
    Scan(SetLast(s.files, Last(s).(path := path, added := Last(s).added + lines)), newLine)
  }

  lemma PlusLine(text: string)
    ensures var l, t := DropCR(['+'] + text), DropCR(text);
      && l == ['+'] + t && HasPrefix(l, "+")
      && (HasPrefix(l, "+++ b/") <==> HasPrefix(t, "++ b/")) && (HasPrefix(l, "+++") <==> HasPrefix(t, "++"))
  {
    var t := DropCR(text);
    var l := DropCR(['+'] + text);
    assert l == ['+'] + t;
    PrefixCons('+', t, "++");
    PrefixCons('+', t, "++ b/");
    assert ['+'] + "++" == "+++" && ['+'] + "++ b/" == "+++ b/";
    PrefixOf("+", t);
  }

  lemma PrefixCons(c: char, t: string, p: string)
    ensures HasPrefix([c] + t, [c] + p) <==> HasPrefix(t, p)
  {
    if |p| <= |t| {
      assert ([c] + t)[..|p| + 1] == [c] + t[..|p|];
      assert ([c] + p)[1..] == p && ([c] + t[..|p|])[1..] == t[..|p|];
    }
  }

  lemma StepPlus(s: Scan, text: string)
    requires s.files != []
    ensures Step(s, ['+'] + text) == Some(
      if Forges(text) then More(s, DropCR(text)[5..], [], s.newLine)
      else if !Hides(text) then More(s, Last(s).path, [AddedLine(s.newLine, DropCR(text))], s.newLine + 1)
      else s.(newLine := if s.newLine > 0 then s.newLine + 1 else s.newLine))
  {
    PlusLine(text);
    var l := DropCR(['+'] + text);
    PrefixHead(l, "diff --git ");
    PrefixHead(l, "@@ ");
    PrefixHead(l, "-");
    ForgesHides(text);
    hide HasPrefix, DropCR;
    assert l[1..] == DropCR(text);
    assert Last(s).added + [] == Last(s).added;
    if Forges(text) { assert l[6..] == DropCR(text)[5..]; }
  }

  lemma ForgesHides(t: string)
    ensures Forges(t) ==> Hides(t) && |DropCR(t)| >= 5
  {
    if Forges(t) { assert DropCR(t)[..2] == DropCR(t)[..5][..2] == "++"; }
  }

  // ---------- runs of lines ----------

  lemma {:induction false} RunMinus(s: Scan, texts: seq<string>)
    requires s.files != []
    ensures Run(s, Marked('-', texts)) == Some(s)
    decreases |texts|
  {
    if texts != [] {
      StepMinus(s, texts[0]);
      hide Step;
      RunMinus(s, texts[1..]);
      assert Marked('-', texts)[1..] == Marked('-', texts[1..]);
    }
  }

  lemma {:induction false} RunPlus(s: Scan, texts: seq<string>) returns (n: int)
    requires s.files != [] && s.newLine > 0
    ensures n > 0 && Run(s, Marked('+', texts)) == Some(More(s, PathAfter(Last(s).path, texts), Seen(s.newLine, texts), n))
    decreases |texts|
  {
    hide HasPrefix, DropCR, Hides, Forges;
    if texts == [] {
      n := s.newLine;
      MoreNothing(s);
    } else {
      StepPlus(s, texts[0]);
      SeenCons(s.newLine, Last(s).path, texts);
      hide Step, Seen, PathAfter;
      var t := texts[0];
      ForgesHides(t);
      var path := if Forges(t) then DropCR(t)[5..] else Last(s).path;
      var first := if Hides(t) then [] else [AddedLine(s.newLine, DropCR(t))];
      var s1 := More(s, path, first, if Forges(t) then s.newLine else s.newLine + 1);
      MoreNothing(s);
      assert Step(s, ['+'] + t) == Some(s1) by { assert s.(newLine := s.newLine + 1) == More(s.(newLine := s.newLine + 1), Last(s).path, [], s.newLine + 1); }
      n := RunPlus(s1, texts[1..]);
      assert Marked('+', texts)[1..] == Marked('+', texts[1..]);
      MoreTwice(s, path, first, s1.newLine, PathAfter(path, texts[1..]), Seen(s1.newLine, texts[1..]), n);
    }
  }

  lemma SeenCons(n: int, path: string, texts: seq<string>)
    requires texts != []
    ensures var t := texts[0];
      && Seen(n, texts) == (if Hides(t) then [] else [AddedLine(n, DropCR(t))]) + Seen(if Forges(t) then n else n + 1, texts[1..])
      && PathAfter(path, texts) == PathAfter(if Forges(t) then DropCR(t)[5..] else path, texts[1..])
  {
    ForgesHides(texts[0]);
    hide DropCR, Hides, Forges;
    assert [] + Seen(n, texts[1..]) == Seen(n, texts[1..]);
  }

  lemma {:induction false} RunMeta(s: Scan, lines: seq<string>)
    requires s.files != [] && s.newLine == 0 && forall i :: 0 <= i < |lines| ==> MetaLine(lines[i])
    ensures Run(s, lines) == Some(s)
    decreases |lines|
  {
    if lines != [] {
      var l := lines[0];
      assert !HasPrefix(DropCR(l), "diff --git ") by {
        if |DropCR(l)| >= 11 { assert DropCR(l)[..11] == l[..11]; }
      }
      StepOther(s, l);
      hide Step;
      RunMeta(s, lines[1..]);
    }
  }

  // ---------- hunk headers ----------

  lemma {:induction false} BeforeCommaDigits(n: string, rest: string)
    requires AllDigits(n) && (rest == "" || rest[0] == ',')
    ensures BeforeComma(n + rest) == n
  {
    if n != "" {
      assert (n + rest)[1..] == n[1..] + rest;
      BeforeCommaDigits(n[1..], rest);
    } else {
      assert n + rest == rest;
    }
  }

  lemma NatoaGraphic(n: nat)
    ensures AllDigits(Natoa(n)) && Graphic(Natoa(n)) && Natoa(n) != ""
  {
    NatoaDigits(n);
    var t := Natoa(n);
    forall i | 0 <= i < |t| ensures IsGraphic(t[i]) { assert IsDigit(t[i]); }
  }

  lemma GraphicConcat(a: string, b: string)
    requires Graphic(a) && Graphic(b)
    ensures Graphic(a + b)
  {
  }

  lemma RangeReads(start: nat, count: nat)
    ensures BeforeComma(Range(start, count)) == Natoa(start) && Graphic(Range(start, count)) && Range(start, count) != ""
  {
    NatoaGraphic(start);
    NatoaGraphic(count);
    hide Natoa, Graphic, AllDigits;
    BeforeCommaDigits(Natoa(start), "," + Natoa(count));
    BeforeCommaDigits(Natoa(start), "");
    GraphicComma();
    GraphicConcat(",", Natoa(count));
    GraphicConcat(Natoa(start), "," + Natoa(count));
    assert Natoa(start) + "" == Natoa(start);
    assert Natoa(start) + "," + Natoa(count) == Natoa(start) + ("," + Natoa(count));
  }

  lemma GraphicComma()
    ensures Graphic(",")
  {
  }

  lemma DropCRAppend(a: string, b: string)
    requires b != ""
    ensures DropCR(a + b) == a + DropCR(b)
  {
  }

  lemma HeaderFields(minus: string, plus: string, tail: string)
    requires Graphic(minus) && Graphic(plus) && minus != "" && plus != ""
    ensures Fields("@@ " + minus + " " + plus + " " + tail) == ["@@", minus, plus] + Fields(tail)
  {
    hide Fields;
    var s := "@@ " + minus + " " + plus + " " + tail;
    FieldsCons("@@", minus + " " + plus + " " + tail);
    assert s == "@@" + " " + (minus + " " + plus + " " + tail);
    FieldsCons(minus, plus + " " + tail);
    assert minus + " " + plus + " " + tail == minus + " " + (plus + " " + tail);
    FieldsCons(plus, tail);
  }

  lemma RangeFromReads(before: nat, count: nat)
    ensures var r := RangeFrom(before, count);
      r != "" && Graphic(r) && Atoi(BeforeComma(r)) == Some(if count == 0 then before else before + 1)
  {
    var start := if count == 0 then before else before + 1;
    RangeReads(start, count);
    AtoiNatoa(start);
  }

  lemma HeaderReads(h: Hunk, headBefore: nat)
    ensures var line := DropCR(HunkHeader(h, headBefore));
      && HasPrefix(line, "@@ ")
      && HunkHeadLine(line) == Some(if |h.added| == 0 then headBefore else headBefore + 1)
  {
    hide RangeFrom, Atoi, BeforeComma, Fields, DropCR, HunkHeader;
    var minus, plus := "-" + RangeFrom(h.at, h.deleted), "+" + RangeFrom(headBefore, |h.added|);
    var tail := "@@" + h.section;
    RangeFromReads(h.at, h.deleted);
    RangeFromReads(headBefore, |h.added|);
    HeaderLine(minus, plus, tail, h, headBefore);
    HeaderFields(minus, plus, DropCR(tail));
    FieldRead(DropCR(HunkHeader(h, headBefore)), minus, RangeFrom(headBefore, |h.added|), Fields(DropCR(tail)));
    PrefixOf("@@ ", minus + " " + plus + " " + DropCR(tail));
    assert "@@ " + minus + " " + plus + " " + DropCR(tail) == "@@ " + (minus + " " + plus + " " + DropCR(tail));
  }

  lemma FieldRead(line: string, minus: string, range: string, more: seq<string>)
    requires Fields(line) == ["@@", minus, "+" + range] + more
    ensures HunkHeadLine(line) == Atoi(BeforeComma(range))
  {
    hide Fields, Atoi, BeforeComma;
    assert Fields(line)[2] == "+" + range;
    assert ("+" + range)[1..] == range && ("+" + range)[..1] == "+";
  }

  lemma HeaderLine(minus: string, plus: string, tail: string, h: Hunk, headBefore: nat)
    requires minus == "-" + RangeFrom(h.at, h.deleted) && plus == "+" + RangeFrom(headBefore, |h.added|) && tail == "@@" + h.section
    ensures DropCR(HunkHeader(h, headBefore)) == "@@ " + minus + " " + plus + " " + DropCR(tail)
  {
    hide RangeFrom, DropCR;
    var front := "@@ " + minus + " " + plus + " ";
    assert HunkHeader(h, headBefore) == front + tail;
    DropCRAppend(front, tail);
  }

  lemma StepHunk(s: Scan, h: Hunk, headBefore: nat)
    requires s.files != []
    ensures Step(s, HunkHeader(h, headBefore)) == Some(s.(newLine := if |h.added| == 0 then headBefore else headBefore + 1))
  {
    HeaderReads(h, headBefore);
    var line := DropCR(HunkHeader(h, headBefore));
    assert line[0] == line[..3][0] == '@';
    PrefixHead(line, "diff --git ");
    PrefixHead(line, "+++ b/");
    hide HasPrefix, DropCR, HunkHeader, HunkHeadLine;
  }

  // ---------- hunks, files, diffs ----------

  lemma StepNoNewline(s: Scan)
    requires s.files != []
    ensures Step(s, NO_NEWLINE) == Some(s.(newLine := if s.newLine > 0 then s.newLine + 1 else s.newLine))
  {
    assert DropCR(NO_NEWLINE)[0] == '\\';
    StepOther(s, NO_NEWLINE);
  }

  /** What the parser records of a hunk. */
  function HunkSeen(c: Change, h: Hunk, headBefore: nat): seq<AddedLine> {
    Seen(headBefore + 1 + (if EndsBase(c, h) then 1 else 0), h.added)
  }

  lemma RunMark(s: Scan, marked: bool) returns (n: int)
    requires s.files != []
    ensures Run(s, if marked then [NO_NEWLINE] else []) == Some(s.(newLine := n))
    ensures n == if marked && s.newLine > 0 then s.newLine + 1 else s.newLine
  {
    hide Step, NO_NEWLINE;
    n := if marked && s.newLine > 0 then s.newLine + 1 else s.newLine;
    RunOne(s, NO_NEWLINE);
    StepNoNewline(s);
    RunNone(s);
  }

  lemma RunHunk(s: Scan, c: Change, h: Hunk, headBefore: nat) returns (n: int)
    requires s.files != [] && h.at + h.deleted <= |c.base|
    requires h.section == "" || h.section[0] == ' '
    ensures Run(s, HunkLines(c, h, headBefore)) == Some(More(s, PathAfter(Last(s).path, h.added), HunkSeen(c, h, headBefore), n))
  {
    hide HasPrefix, DropCR, HunkHeader, NO_NEWLINE, EndsBase, EndsHead, Step, Run, Marked, Seen, PathAfter;
    var header := [HunkHeader(h, headBefore)];
    var minus := Marked('-', c.base[h.at..h.at + h.deleted]);
    var mark1 := if EndsBase(c, h) then [NO_NEWLINE] else [];
    var plus := Marked('+', h.added);
    var mark2 := if EndsHead(c, h) then [NO_NEWLINE] else [];
    var s1 := s.(newLine := if |h.added| == 0 then headBefore else headBefore + 1);
    StepHunk(s, h, headBefore);
    RunOne(s, HunkHeader(h, headBefore));
    RunMinus(s1, c.base[h.at..h.at + h.deleted]);
    RunConcat(s, header, minus);
    var n2 := RunMark(s1, EndsBase(c, h));
    RunConcat(s, header + minus, mark1);
    var s3 := RunAdded(s1.(newLine := n2), h.added);
    RunConcat(s, header + minus + mark1, plus);
    n := RunMark(s3, EndsHead(c, h));
    RunConcat(s, header + minus + mark1 + plus, mark2);
    assert HunkLines(c, h, headBefore) == header + minus + mark1 + plus + mark2;
    NoneSeen(n2, headBefore + 1 + (if EndsBase(c, h) then 1 else 0), h.added);
  }

  lemma NoneSeen(m: int, n: int, texts: seq<string>)
    ensures texts == [] ==> Seen(m, texts) == Seen(n, texts)
  {
  }

  lemma RunNone(s: Scan)
    ensures Run(s, []) == Some(s)
  {
  }

  lemma RunAdded(s: Scan, texts: seq<string>) returns (s': Scan)
    requires s.files != [] && (s.newLine > 0 || texts == [])
    ensures Run(s, Marked('+', texts)) == Some(s') && s' == More(s, PathAfter(Last(s).path, texts), Seen(s.newLine, texts), s'.newLine)
  {
    if texts == [] {
      s' := s;
      MoreNothing(s);
    } else {
      var n := RunPlus(s, texts);
      s' := More(s, PathAfter(Last(s).path, texts), Seen(s.newLine, texts), n);
    }
  }

  lemma HunksLinesCons(c: Change, hunks: seq<Hunk>, pos: nat, headPos: nat, path: string)
    requires hunks != [] && Ordered(hunks, pos, |c.base|)
    ensures var h, rest := hunks[0], hunks[1..];
      var next, before := h.at + h.deleted, headPos + (h.at - pos);
      && Ordered(rest, next, |c.base|) && next <= |c.base|
      && HunksLines(c, hunks, pos, headPos) == HunkLines(c, h, before) + HunksLines(c, rest, next, before + |h.added|)
      && SeenLines(c, hunks, pos, headPos) == HunkSeen(c, h, before) + SeenLines(c, rest, next, before + |h.added|)
      && PathSeen(path, hunks) == PathSeen(PathAfter(path, h.added), rest)
  {
    hide HunkLines, Seen, EndsBase, PathAfter;
    OrderedBound(hunks[1..], hunks[0].at + hunks[0].deleted, |c.base|);
  }

  lemma {:induction false} RunHunks(s: Scan, c: Change, hunks: seq<Hunk>, pos: nat, headPos: nat) returns (n: int)
    requires s.files != [] && Ordered(hunks, pos, |c.base|) && forall h :: h in hunks ==> h.section == "" || h.section[0] == ' '
    ensures Run(s, HunksLines(c, hunks, pos, headPos)) == Some(More(s, PathSeen(Last(s).path, hunks), SeenLines(c, hunks, pos, headPos), n))
    decreases |hunks|
  {
    hide EndsBase, HunkLines, Seen, PathAfter, Run;
    if hunks == [] {
      n := s.newLine;
      RunNone(s);
      MoreNothing(s);
    } else {
      HunksLinesCons(c, hunks, pos, headPos, Last(s).path);
      var h, rest := hunks[0], hunks[1..];
      var next, before := h.at + h.deleted, headPos + (h.at - pos);
      hide Ordered, HunksLines, SeenLines, PathSeen, HunkSeen;
      var path := PathAfter(Last(s).path, h.added);
      var m := RunHunk(s, c, h, before);
      var s1 := More(s, path, HunkSeen(c, h, before), m);
      assert Last(s1).path == path;
      hide More;
      n := RunHunks(s1, c, rest, next, before + |h.added|);
      RunConcat(s, HunkLines(c, h, before), HunksLines(c, rest, next, before + |h.added|));
      MoreTwice(s, path, HunkSeen(c, h, before), m, PathSeen(path, rest), SeenLines(c, rest, next, before + |h.added|), n);
    }
  }

  lemma MoreNothing(s: Scan)
    requires s.files != []
    ensures More(s, Last(s).path, [], s.newLine) == s
  {
    assert Last(s).added + [] == Last(s).added;
  }

  lemma MoreTwice(s: Scan, path: string, a: seq<AddedLine>, n: int, path': string, b: seq<AddedLine>, m: int)
    requires s.files != []
    ensures More(More(s, path, a, n), path', b, m) == More(s, path', a + b, m)
  {
    assert Last(s).added + a + b == Last(s).added + (a + b);
  }

  // ---------- file headers ----------

  lemma {:induction false} LastMarker(pre: string, name: string)
    requires Graphic(name)
    ensures LastIndex(pre + " b/" + name, " b/") == |pre|
    decreases |name|
  {
    var s := pre + " b/" + name;
    if name == "" {
      assert s[|s| - 3..] == " b/";
    } else {
      assert s[|s| - 3] != ' ';
      assert s[|s| - 3..][0] == s[|s| - 3];
      assert s[..|s| - 1] == pre + " b/" + name[..|name| - 1];
      LastMarker(pre, name[..|name| - 1]);
    }
  }

  lemma NoCR(front: string, name: string)
    requires name != "" && Graphic(name)
    ensures DropCR(front + name) == front + name
  {
    assert (front + name)[|front + name| - 1] == name[|name| - 1];
  }

  lemma PathAfterMarker(pre: string, name: string)
    requires name != "" && Graphic(name)
    ensures DiffHeaderPath(pre + " b/" + name) == name
  {
    LastMarker(pre, name);
    TrimGraphic(name);
    hide TrimSpace, Graphic, LastIndex;
    var header := pre + " b/" + name;
    assert header[|pre| + 3..] == name;
  }

  lemma StepHeader(s: Scan, c: Change)
    requires c.path != "" && Graphic(c.path)
    ensures Step(s, GitHeader(c)) == Some(Scan(s.files + [DiffFile(c.path, GitHeader(c), [])], 0))
  {
    hide Graphic, DropCR, DiffHeaderPath, HasPrefix;
    var pre := "diff --git a/" + c.oldPath;
    PathAfterMarker(pre, c.path);
    NoCR(pre + " b/", c.path);
    var rest := "a/" + c.oldPath + " b/" + c.path;
    assert GitHeader(c) == "diff --git " + rest;
    PrefixOf("diff --git ", rest);
  }

  lemma StepPath(s: Scan, c: Change)
    requires s.files != [] && s.newLine == 0 && Last(s).path == c.path && c.path != "" && Graphic(c.path)
    ensures Step(s, if c.gone then "+++ /dev/null" else "+++ b/" + c.path) == Some(s)
  {
    if c.gone {
      StepGone(s);
    } else {
      var l := "+++ b/" + c.path;
      NoCR("+++ b/", c.path);
      PrefixOf("+++ b/", c.path);
      PrefixHead(l, "diff --git ");
      hide DropCR, HasPrefix, Graphic;
      assert l[6..] == c.path;
      assert Last(s).(path := c.path) == Last(s);
      assert SetLast(s.files, Last(s)) == s.files;
    }
  }

  lemma StepGone(s: Scan)
    requires s.files != [] && s.newLine == 0
    ensures Step(s, "+++ /dev/null") == Some(s)
  {
    var l := "+++ /dev/null";
    assert l[0] == '+' && l[4] == '/' && l[|l| - 1] == 'l';
    assert DropCR(l) == l;
    PrefixMiss(l, "+++ b/", 4);
    PrefixHead(l, "diff --git ");
    PrefixHead(l, "@@ ");
    PrefixHead(l, "-");
    PrefixOf("+++", " /dev/null");
    assert "+++" + " /dev/null" == l;
    hide HasPrefix, DropCR;
  }

  /** The lines before the hunks. */
  function Preamble(c: Change): seq<string> {
    [GitHeader(c)] + c.meta
    + (if c.hunks == [] then [] else ["--- a/" + c.oldPath] + [if c.gone then "+++ /dev/null" else "+++ b/" + c.path])
  }

  lemma RunTitle(s: Scan, c: Change)
    requires Plain(c)
    ensures Run(s, [GitHeader(c)] + c.meta) == Some(Scan(s.files + [DiffFile(c.path, GitHeader(c), [])], 0))
  {
    StepHeader(s, c);
    hide GitHeader, MetaLine, Graphic, Step;
    RunOne(s, GitHeader(c));
    RunMeta(Scan(s.files + [DiffFile(c.path, GitHeader(c), [])], 0), c.meta);
    hide Run;
    RunConcat(s, [GitHeader(c)], c.meta);
  }

  lemma RunSigns(s: Scan, c: Change, minus: string, plus: string)
    requires s.files != [] && s.newLine == 0 && Last(s).path == c.path && c.path != "" && Graphic(c.path)
    requires minus == "--- a/" + c.oldPath && plus == if c.gone then "+++ /dev/null" else "+++ b/" + c.path
    ensures Run(s, [minus] + [plus]) == Some(s)
  {
    hide Step, Graphic;
    assert minus == ['-'] + ("-- a/" + c.oldPath);
    StepMinus(s, "-- a/" + c.oldPath);
    StepPath(s, c);
    RunOne(s, minus);
    RunOne(s, plus);
    hide Run;
    RunConcat(s, [minus], [plus]);
  }

  lemma RunPreamble(s: Scan, c: Change)
    requires Plain(c)
    ensures Run(s, Preamble(c)) == Some(Scan(s.files + [DiffFile(c.path, GitHeader(c), [])], 0))
  {
    hide GitHeader, MetaLine, Graphic, Run;
    RunTitle(s, c);
    var title := [GitHeader(c)] + c.meta;
    if c.hunks == [] {
      assert title + [] == title;
    } else {
      var minus, plus := "--- a/" + c.oldPath, if c.gone then "+++ /dev/null" else "+++ b/" + c.path;
      RunSigns(Scan(s.files + [DiffFile(c.path, GitHeader(c), [])], 0), c, minus, plus);
      RunConcat(s, title, [minus] + [plus]);
    }
  }

  lemma RunChange(s: Scan, c: Change) returns (n: int)
    requires Plain(c)
    ensures Run(s, Printed(c)) == Some(Scan(s.files + [Read(c)], n))
  {
    RunPreamble(s, c);
    hide Run, MetaLine, Graphic;
    var s1 := Scan(s.files + [DiffFile(c.path, GitHeader(c), [])], 0);
    n := RunHunks(s1, c, c.hunks, 0, 0);
    RunConcat(s, Preamble(c), HunksLines(c, c.hunks, 0, 0));
    PrintedParts(c);
    assert More(s1, Read(c).path, Read(c).added, n) == Scan(s.files + [Read(c)], n) by {
      hide SeenLines, PathSeen, GitHeader;
      assert [] + Read(c).added == Read(c).added;
    }
  }

  lemma PrintedParts(c: Change)
    requires Ordered(c.hunks, 0, |c.base|)
    ensures Printed(c) == Preamble(c) + HunksLines(c, c.hunks, 0, 0)
  {
    hide GitHeader;
    if c.hunks != [] {
      hide HunksLines;
      var minus, plus := "--- a/" + c.oldPath, if c.gone then "+++ /dev/null" else "+++ b/" + c.path;
      assert [minus, plus] == [minus] + [plus];
    }
  }

  ghost predicate AllPlain(cs: seq<Change>) { forall i :: 0 <= i < |cs| ==> Plain(cs[i]) }

  function ReadAll(cs: seq<Change>): seq<DiffFile>
    requires forall i :: 0 <= i < |cs| ==> Ordered(cs[i].hunks, 0, |cs[i].base|)
  {
    seq(|cs|, i requires 0 <= i < |cs| => Read(cs[i]))
  }

  lemma {:induction false} RunChanges(s: Scan, cs: seq<Change>) returns (n: int)
    requires AllPlain(cs)
    ensures Run(s, PrintedAll(cs)) == Some(Scan(s.files + ReadAll(cs), n))
    decreases |cs|
  {
    hide Printed, Read;
    if cs == [] {
      n := s.newLine;
      RunNone(s);
      assert s.files + ReadAll(cs) == s.files;
    } else {
      assert Plain(cs[0]) && AllPlain(cs[1..]);
      assert ReadAll(cs) == [Read(cs[0])] + ReadAll(cs[1..]);
      hide Run, Plain, ReadAll;
      var m := RunChange(s, cs[0]);
      var s1 := Scan(s.files + [Read(cs[0])], m);
      n := RunChanges(s1, cs[1..]);
      RunConcat(s, Printed(cs[0]), PrintedAll(cs[1..]));
      assert s1.files + ReadAll(cs[1..]) == s.files + ([Read(cs[0])] + ReadAll(cs[1..]));
    }
  }

  lemma ParsedIs(lines: seq<string>, files: seq<DiffFile>, n: int)
    requires Run(START, lines) == Some(Scan(files, n))
    ensures Parse(lines) == if exists f :: f in files && f.path == "" then None else Some(files)
  {
    hide Run;
  }

  /** Parsing what git prints for any list of plain changes reads those files, in order, and fails just if
      an added line has taken a path away. */
  lemma ParsedFiles(cs: seq<Change>)
    requires AllPlain(cs)
    ensures Parse(PrintedAll(cs)) == if exists f :: f in ReadAll(cs) && f.path == "" then None else Some(ReadAll(cs))
  {
    hide Run, Parse, PrintedAll;
    var n := RunChanges(START, cs);
    assert START.files + ReadAll(cs) == ReadAll(cs);
    ParsedIs(PrintedAll(cs), ReadAll(cs), n);
  }

  // ---------- what the parser should see ----------

  /** Line numbers that go up, and at each of them the head holds the reported text. */
  ghost predicate PointsInto(lines: seq<AddedLine>, head: seq<string>, from: nat) {
    && (forall i :: 0 <= i < |lines| ==> from < lines[i].line <= |head| && DropCR(head[lines[i].line - 1]) == lines[i].text)
    && (forall i, j :: 0 <= i < j < |lines| ==> lines[i].line < lines[j].line)
  }

  lemma NumberedPoints(n: nat, texts: seq<string>, head: seq<string>)
    requires n + |texts| <= |head| && head[n..n + |texts|] == texts
    ensures PointsInto(Numbered(n + 1, texts), head, n)
    ensures forall a :: a in Numbered(n + 1, texts) ==> a.line <= n + |texts|
  {
    hide DropCR;
    forall i | 0 <= i < |texts| ensures head[n + i] == texts[i] { assert texts[i] == head[n..n + |texts|][i]; }
  }

  lemma PointsConcat(a: seq<AddedLine>, b: seq<AddedLine>, head: seq<string>, from: nat, mid: nat)
    requires PointsInto(a, head, from) && PointsInto(b, head, mid) && from <= mid
    requires forall x :: x in a ==> x.line <= mid
    ensures PointsInto(a + b, head, from)
  {
    hide DropCR;
    assert forall i :: 0 <= i < |a| ==> a[i] in a;
  }

  lemma {:induction false} ExpectedPoints(c: Change, hunks: seq<Hunk>, pos: nat, headPos: nat, head: seq<string>)
    requires Ordered(hunks, pos, |c.base|) && headPos <= |head| && head[headPos..] == Applied(c.base, hunks, pos)
    ensures PointsInto(AddedLines(c, hunks, pos, headPos), head, headPos)
    decreases |hunks|
  {
    hide PointsInto, Numbered;
    if hunks == [] {
      assert PointsInto([], head, headPos) by { NothingPoints(head, headPos); }
    } else {
      var h, rest := hunks[0], hunks[1..];
      var next := h.at + h.deleted;
      OrderedBound(rest, next, |c.base|);
      var before := headPos + (h.at - pos);
      var tail := Applied(c.base, rest, next);
      var after := before + |h.added|;
      AppliedSplits(head, headPos, c.base[pos..h.at], h.added, tail);
      NumberedPoints(before, h.added, head);
      ExpectedPoints(c, rest, next, after, head);
      PointsWiden(Numbered(before + 1, h.added), head, before, headPos);
      PointsConcat(Numbered(before + 1, h.added), AddedLines(c, rest, next, after), head, headPos, after);
    }
  }

  lemma NothingPoints(head: seq<string>, from: nat)
    ensures PointsInto([], head, from)
  {
  }

  lemma PointsWiden(a: seq<AddedLine>, head: seq<string>, from: nat, lower: nat)
    requires PointsInto(a, head, from) && lower <= from
    ensures PointsInto(a, head, lower)
  {
  }

  lemma AppliedSplits(head: seq<string>, at: nat, a: seq<string>, b: seq<string>, c: seq<string>)
    requires at <= |head| && head[at..] == a + b + c
    ensures var i := at + |a|; var j := i + |b|;
      j <= |head| && head[i..j] == b && head[j..] == c
  {
    var i := at + |a|;
    var j := i + |b|;
    assert |head| == at + |a + b + c|;
    assert head[i..j] == head[at..][|a|..|a| + |b|];
    assert head[j..] == head[at..][|a| + |b|..];
  }

  /** The expected lines are the head's: each number is where the head has that text, in order. */
  lemma ExpectedIsTheHead(c: Change)
    requires Ordered(c.hunks, 0, |c.base|)
    ensures PointsInto(Expected(c).added, Head(c), 0)
  {
    hide PointsInto;
    assert Head(c)[0..] == Head(c);
    ExpectedPoints(c, c.hunks, 0, 0, Head(c));
  }

  /** By how much the hunks lengthen the file. */
  function Grown(hunks: seq<Hunk>): int { if hunks == [] then 0 else |hunks[0].added| - hunks[0].deleted + Grown(hunks[1..]) }

  /** `a` is the `k`-th line that hunk `j` adds, where `shift` lines were gained before the hunks. */
  predicate AddedBy(hunks: seq<Hunk>, shift: int, a: AddedLine, j: int, k: int) {
    0 <= j < |hunks| && 0 <= k < |hunks[j].added| && a == AddedLine(hunks[j].at + shift + Grown(hunks[..j]) + k + 1, DropCR(hunks[j].added[k]))
  }

  ghost predicate Adds(hunks: seq<Hunk>, shift: int, a: AddedLine) { exists j, k :: AddedBy(hunks, shift, a, j, k) }

  lemma AddsCons(hunks: seq<Hunk>, shift: int, a: AddedLine)
    requires hunks != []
    ensures var h := hunks[0];
      Adds(hunks, shift, a) <==> a in Numbered(h.at + shift + 1, h.added) || Adds(hunks[1..], shift + |h.added| - h.deleted, a)
  {
    hide DropCR;
    var h, rest := hunks[0], hunks[1..];
    var first := Numbered(h.at + shift + 1, h.added);
    if Adds(hunks, shift, a) {
      var j, k :| AddedBy(hunks, shift, a, j, k);
      if j == 0 {
        assert hunks[..0] == [] && first[k] == a;
      } else {
        assert hunks[..j] == [h] + rest[..j - 1];
        assert AddedBy(rest, shift + |h.added| - h.deleted, a, j - 1, k);
      }
    }
    if a in first {
      var k :| 0 <= k < |first| && first[k] == a;
      assert hunks[..0] == [];
      assert AddedBy(hunks, shift, a, 0, k);
    }
    if Adds(rest, shift + |h.added| - h.deleted, a) {
      var j, k :| AddedBy(rest, shift + |h.added| - h.deleted, a, j, k);
      assert hunks[..j + 1] == [h] + rest[..j];
      assert AddedBy(hunks, shift, a, j + 1, k);
    }
  }

  lemma {:induction false} AddedLinesAreAdded(c: Change, hunks: seq<Hunk>, pos: nat, headPos: nat, a: AddedLine)
    requires Ordered(hunks, pos, |c.base|)
    ensures a in AddedLines(c, hunks, pos, headPos) <==> Adds(hunks, headPos - pos, a)
    decreases |hunks|
  {
    hide Numbered, AddedBy;
    if hunks != [] {
      var h, rest := hunks[0], hunks[1..];
      OrderedBound(rest, h.at + h.deleted, |c.base|);
      AddsCons(hunks, headPos - pos, a);
      AddedLinesAreAdded(c, rest, h.at + h.deleted, headPos + (h.at - pos) + |h.added|, a);
      hide Adds;
    } else {
      assert !Adds(hunks, headPos - pos, a) by { NothingAdded(headPos - pos, a); }
    }
  }

  lemma NothingAdded(shift: int, a: AddedLine)
    ensures !Adds([], shift, a)
  {
  }

  /** And they are all of them: a line is expected exactly if some hunk adds it, as many lines further down
      than in the base as the hunks before it have gained. */
  lemma ExpectedIsComplete(c: Change, a: AddedLine)
    requires Ordered(c.hunks, 0, |c.base|)
    ensures a in Expected(c).added <==> Adds(c.hunks, 0, a)
  {
    AddedLinesAreAdded(c, c.hunks, 0, 0, a);
    hide AddedLines, Adds;
  }

  // ---------- when it does ----------

  lemma {:induction false} SeenIsShort(n: int, texts: seq<string>)
    ensures |Seen(n, texts)| == |texts| <==> forall t :: t in texts ==> !Hides(t)
    ensures (forall t :: t in texts ==> !Hides(t)) ==> Seen(n, texts) == Numbered(n, texts)
    decreases |texts|
  {
    hide DropCR, Hides, Forges;
    if texts != [] {
      ForgesHides(texts[0]);
      SeenCons(n, "", texts);
      SeenIsShort(if Forges(texts[0]) then n else n + 1, texts[1..]);
      assert texts == [texts[0]] + texts[1..];
      hide Seen;
      if forall t :: t in texts ==> !Hides(t) {
        assert texts[0] in texts;
        assert Numbered(n, texts) == [AddedLine(n, DropCR(texts[0]))] + Numbered(n + 1, texts[1..]);
      }
    }
  }

  /** What is read of a hunk is what it adds just if nothing is hidden and the numbers start alike. */
  lemma SeenIsNumbered(m: int, n: int, texts: seq<string>)
    ensures Seen(m, texts) == Numbered(n, texts) <==> (m == n || texts == []) && forall t :: t in texts ==> !Hides(t)
  {
    SeenIsShort(m, texts);
    hide Hides, DropCR, Seen;
    if texts != [] && m != n { assert Numbered(m, texts)[0] != Numbered(n, texts)[0]; }
    if texts == [] { assert Numbered(m, texts) == Numbered(n, texts); }
  }

  lemma ConcatEqual<T>(a: seq<T>, b: seq<T>, c: seq<T>, d: seq<T>)
    requires |a| <= |c| && |b| <= |d|
    ensures a + b == c + d <==> a == c && b == d
  {
    if a + b == c + d {
      assert |a + b| == |c + d|;
      assert a == (a + b)[..|a|] && c == (c + d)[..|a|];
      assert b == (a + b)[|a|..] && d == (c + d)[|a|..];
    }
  }

  /** The parser reads a hunk as it should. */
  ghost predicate ReadRight(c: Change, h: Hunk) { (EndsBase(c, h) ==> h.added == []) && forall t :: t in h.added ==> !Hides(t) }

  lemma {:induction false} SeenLinesAreAdded(c: Change, hunks: seq<Hunk>, pos: nat, headPos: nat)
    requires Ordered(hunks, pos, |c.base|)
    ensures |SeenLines(c, hunks, pos, headPos)| <= |AddedLines(c, hunks, pos, headPos)|
    ensures SeenLines(c, hunks, pos, headPos) == AddedLines(c, hunks, pos, headPos) <==> forall h :: h in hunks ==> ReadRight(c, h)
    decreases |hunks|
  {
    hide EndsBase, Hides;
    if hunks != [] {
      var h, rest := hunks[0], hunks[1..];
      var next := h.at + h.deleted;
      OrderedBound(rest, next, |c.base|);
      var before := headPos + (h.at - pos);
      var after := before + |h.added|;
      var n := if EndsBase(c, h) then before + 2 else before + 1;
      SeenIsNumbered(n, before + 1, h.added);
      SeenLinesAreAdded(c, rest, next, after);
      hide Seen, Numbered;
      assert SeenLines(c, hunks, pos, headPos) == Seen(n, h.added) + SeenLines(c, rest, next, after);
      assert Seen(n, h.added) == Numbered(before + 1, h.added) <==> ReadRight(c, h);
      hide SeenLines, AddedLines, ReadRight;
      ConcatEqual(Seen(n, h.added), SeenLines(c, rest, next, after), Numbered(before + 1, h.added), AddedLines(c, rest, next, after));
      assert hunks == [h] + rest;
    }
  }

  lemma {:induction false} PathKept(path: string, texts: seq<string>)
    requires forall t :: t in texts ==> !Hides(t)
    ensures PathAfter(path, texts) == path
    decreases |texts|
  {
    hide DropCR, Hides, Forges;
    if texts != [] {
      ForgesHides(texts[0]);
      assert texts[0] in texts;
      PathKept(path, texts[1..]);
    }
  }

  lemma {:induction false} PathSeenKept(path: string, hunks: seq<Hunk>)
    requires forall h, t :: h in hunks && t in h.added ==> !Hides(t)
    ensures PathSeen(path, hunks) == path
    decreases |hunks|
  {
    hide Hides, PathAfter;
    if hunks != [] {
      assert hunks[0] in hunks;
      PathKept(path, hunks[0].added);
      PathSeenKept(path, hunks[1..]);
    }
  }

  lemma ReadIsExpected(c: Change)
    requires Ordered(c.hunks, 0, |c.base|)
    ensures Read(c) == Expected(c) <==> !Misnumbered(c) && !Hidden(c)
  {
    SeenLinesAreAdded(c, c.hunks, 0, 0);
    hide AddedLines, SeenLines, EndsBase, Hides, PathSeen, GitHeader;
    if !Hidden(c) { PathSeenKept(c.path, c.hunks); }
  }

  function ExpectedAll(cs: seq<Change>): seq<DiffFile>
    requires forall i :: 0 <= i < |cs| ==> Ordered(cs[i].hunks, 0, |cs[i].base|)
  {
    seq(|cs|, i requires 0 <= i < |cs| => Expected(cs[i]))
  }

  lemma ReadAllIsExpected(cs: seq<Change>)
    requires AllPlain(cs)
    ensures ReadAll(cs) == ExpectedAll(cs) <==> forall i :: 0 <= i < |cs| ==> Read(cs[i]) == Expected(cs[i])
    ensures forall f :: f in ExpectedAll(cs) ==> f.path != ""
  {
    hide Read, AddedLines, GitHeader;
    assert forall i :: 0 <= i < |cs| ==> ReadAll(cs)[i] == Read(cs[i]) && ExpectedAll(cs)[i] == Expected(cs[i]);
    forall f | f in ExpectedAll(cs) ensures f.path != "" {
      var i :| 0 <= i < |cs| && ExpectedAll(cs)[i] == f;
      assert Plain(cs[i]);
    }
  }

  /** Print and parse: every file comes back with its path and exactly the lines its hunks add, at their
      head line numbers, if and only if no hunk replaces the unterminated last line of a base and no added
      line starts with `++`. */
  lemma PrintParse(cs: seq<Change>)
    requires AllPlain(cs)
    ensures Parse(PrintedAll(cs)) == Some(ExpectedAll(cs)) <==> forall i :: 0 <= i < |cs| ==> !Misnumbered(cs[i]) && !Hidden(cs[i])
  {
    ParsedFiles(cs);
    ReadAllIsExpected(cs);
    hide Parse, PrintedAll, ReadAll, ExpectedAll, Read, Expected, Misnumbered, Hidden;
    forall i | 0 <= i < |cs| ensures Read(cs[i]) == Expected(cs[i]) <==> !Misnumbered(cs[i]) && !Hidden(cs[i]) {
      assert Plain(cs[i]);
      ReadIsExpected(cs[i]);
    }
  }

  // ---------- where it does not ----------

  /** A change of file `a`, by one hunk that replaces all of it. */
  function Rewriting(base: seq<string>, added: seq<string>): Change {
    Change("a", "a", base, [Hunk(0, |base|, added, "")], [], false, true, false)
  }

  lemma RewritingIsPlain(base: seq<string>, added: seq<string>)
    ensures var c := Rewriting(base, added);
      && Plain(c) && Head(c) == added
      && (Misnumbered(c) <==> base != [] && added != []) && (Hidden(c) <==> exists t :: t in added && Hides(t))
      && SeenLines(c, c.hunks, 0, 0) == Seen(if base == [] then 1 else 2, added) && PathSeen("a", c.hunks) == PathAfter("a", added)
  {
    hide Seen, Hides, PathAfter;
    var c := Rewriting(base, added);
    var h := c.hunks[0];
    assert h in c.hunks && c.hunks[1..] == [] && Ordered([], |base|, |base|);
    assert PlainPath("a") by { assert "a"[0] == 'a'; }
    assert Applied(base, [], |base|) == [] && base[0..0] + added + [] == added;
    assert SeenLines(c, [], |base|, |added|) == [] && Seen(1, added) + [] == Seen(1, added) && Seen(2, added) + [] == Seen(2, added);
    if t :| t in added && Hides(t) { assert t in h.added; }
  }

  lemma ReadOfRewriting(base: seq<string>, added: seq<string>)
    ensures var c := Rewriting(base, added);
      Parse(PrintedAll([c])) == if PathAfter("a", added) == "" then None
        else Some([DiffFile(PathAfter("a", added), GitHeader(c), Seen(if base == [] then 1 else 2, added))])
  {
    var c := Rewriting(base, added);
    RewritingIsPlain(base, added);
    hide Plain, SeenLines, PathSeen, Seen, PathAfter, GitHeader;
    ParsedFiles([c]);
    hide Parse, PrintedAll;
    assert ReadAll([c])[0] == Read(c);
    assert ReadAll([c]) == [Read(c)];
  }

  /** Misnumbering does happen: a one-line file without a final newline is rewritten, and its new first
      line is reported as line 2. */
  lemma MisnumberedExample()
    ensures var c := Rewriting(["x"], ["y"]);
      && Plain(c) && Misnumbered(c) && Head(c) == ["y"]
      && Parse(PrintedAll([c])) == Some([DiffFile("a", GitHeader(c), [AddedLine(2, "y")])])
  {
    RewritingIsPlain(["x"], ["y"]);
    ReadOfRewriting(["x"], ["y"]);
    hide Plain, Misnumbered, Head, Parse, PrintedAll, GitHeader;
    assert DropCR("y") == "y" && "y"[0] == 'y';
    PrefixHead("y", "++");
    PrefixHead("y", "++ b/");
    SeenCons(2, "a", ["y"]);
    assert ["y"][1..] == [] && Seen(3, []) == [] && PathAfter("a", []) == "a";
    assert [AddedLine(2, "y")] + [] == [AddedLine(2, "y")];
  }

  /** So does hiding: the only line of a new file starts with `++`, and no check ever sees it. */
  lemma HiddenExample()
    ensures var c := Rewriting([], ["++i;"]);
      && Plain(c) && Hidden(c) && !Misnumbered(c) && Head(c) == ["++i;"]
      && Parse(PrintedAll([c])) == Some([DiffFile("a", GitHeader(c), [])])
  {
    RewritingIsPlain([], ["++i;"]);
    ReadOfRewriting([], ["++i;"]);
    hide Plain, Misnumbered, Head, Parse, PrintedAll, GitHeader;
    var t := "++i;";
    assert t[2] == 'i' && t[3] == ';' && DropCR(t) == t;
    PrefixMiss(t, "++ b/", 2);
    PrefixOf("++", "i;");
    assert "++" + "i;" == t && t in ["++i;"];
    SeenCons(1, "a", ["++i;"]);
    assert ["++i;"][1..] == [] && Seen(2, []) == [] && PathAfter("a", []) == "a";
  }

  /** And a text that names a file renames the one it is in, so that one with an empty name fails it all. */
  lemma ForgedExample(name: string)
    requires Graphic(name)
    ensures var c := Rewriting([], ["++ b/" + name]);
      && Plain(c) && Head(c) == ["++ b/" + name]
      && Parse(PrintedAll([c])) == if name == "" then None else Some([DiffFile(name, GitHeader(c), [])])
  {
    var t := "++ b/" + name;
    RewritingIsPlain([], [t]);
    ReadOfRewriting([], [t]);
    hide Plain, Head, Parse, PrintedAll, GitHeader;
    assert t[|t| - 1] != '\r' by { if name == "" { assert t[4] == '/'; } else { assert t[|t| - 1] == name[|name| - 1]; } }
    PrefixOf("++ b/", name);
    ForgesHides(t);
    SeenCons(1, "a", [t]);
    assert [t][1..] == [] && Seen(1, []) == [] && t[5..] == name && PathAfter(name, []) == name;
  }

  // ---------- anchors ----------

  lemma {:induction false} SeenPositive(n: int, texts: seq<string>)
    requires n >= 1
    ensures forall a :: a in Seen(n, texts) ==> a.line >= 1
    decreases |texts|
  {
    hide DropCR, Hides, Forges;
    if texts != [] {
      SeenCons(n, "", texts);
      SeenPositive(if Forges(texts[0]) then n else n + 1, texts[1..]);
    }
  }

  lemma {:induction false} SeenLinesPositive(c: Change, hunks: seq<Hunk>, pos: nat, headPos: nat)
    requires Ordered(hunks, pos, |c.base|)
    ensures forall a :: a in SeenLines(c, hunks, pos, headPos) ==> a.line >= 1
    decreases |hunks|
  {
    hide EndsBase, Seen;
    if hunks != [] {
      var h, rest := hunks[0], hunks[1..];
      OrderedBound(rest, h.at + h.deleted, |c.base|);
      var before := headPos + (h.at - pos);
      SeenPositive(before + 1 + (if EndsBase(c, h) then 1 else 0), h.added);
      SeenLinesPositive(c, rest, h.at + h.deleted, before + |h.added|);
    }
  }

  /** A file with a git header that reports lines from 1 on, which is what the comment validator asks of an
      anchor. */
  ghost predicate Anchored(f: DiffFile) { HasPrefix(f.header, "diff --git ") && forall a :: a in f.added ==> a.line >= 1 }

  lemma ReadIsAnchored(c: Change)
    requires Ordered(c.hunks, 0, |c.base|)
    ensures Anchored(Read(c))
  {
    SeenLinesPositive(c, c.hunks, 0, 0);
    hide SeenLines, HasPrefix, PathSeen;
    var rest := "a/" + c.oldPath + " b/" + c.path;
    PrefixOf("diff --git ", rest);
    assert GitHeader(c) == "diff --git " + rest;
  }

  /** Every file read from a printed diff is anchored, whatever its lines say. */
  lemma ParsedFilesAreAnchored(cs: seq<Change>)
    requires AllPlain(cs) && Parse(PrintedAll(cs)).Some?
    ensures forall f :: f in Parse(PrintedAll(cs)).value ==> Anchored(f)
  {
    ParsedFiles(cs);
    hide Parse, PrintedAll, Read, Anchored;
    forall f | f in ReadAll(cs) ensures Anchored(f) {
      var i :| 0 <= i < |cs| && ReadAll(cs)[i] == f;
      assert Plain(cs[i]);
      ReadIsAnchored(cs[i]);
    }
  }

  // ---------- diffs that cannot be read ----------

  /** The third word of a hunk header does not give a line number behind its plus sign. */
  ghost predicate Unreadable(line: string) {
    var words := Fields(line);
    || |words| < 3 || words[2] == "" || words[2][0] != '+'
    || exists k :: 1 <= k <= |words[2]| && ',' !in words[2][1..k] && (k < |words[2]| ==> words[2][k] == ',') && Atoi(words[2][1..k]).None?
  }

  lemma {:induction false} BeforeCommaIs(s: string, k: nat)
    requires k <= |s| && ',' !in s[..k] && (k < |s| ==> s[k] == ',')
    ensures BeforeComma(s) == s[..k]
  {
    if k > 0 {
      assert s[..k] == [s[0]] + s[1..][..k - 1];
      BeforeCommaIs(s[1..], k - 1);
    }
  }

  lemma {:induction false} BeforeCommaFits(s: string)
    ensures var k := |BeforeComma(s)|; k <= |s| && s[..k] == BeforeComma(s) && ',' !in s[..k] && (k < |s| ==> s[k] == ',')
  {
    if s != "" && s[0] != ',' {
      BeforeCommaFits(s[1..]);
      var k := |BeforeComma(s[1..])|;
      assert s[..k + 1] == [s[0]] + s[1..][..k];
    }
  }

  lemma UnreadableHeader(line: string)
    ensures HunkHeadLine(line).None? <==> Unreadable(line)
  {
    var words := Fields(line);
    if |words| >= 3 && words[2] != "" {
      var w := words[2];
      assert HasPrefix(w, "+") <==> w[0] == '+' by { assert w[..1] == [w[0]]; }
      BeforeCommaFits(w[1..]);
      var n := |BeforeComma(w[1..])| + 1;
      assert w[1..n] == w[1..][..n - 1];
      forall k | 1 <= k <= |w| && ',' !in w[1..k] && (k < |w| ==> w[k] == ',') ensures w[1..k] == BeforeComma(w[1..]) {
        assert w[1..][..k - 1] == w[1..k];
        BeforeCommaIs(w[1..], k - 1);
      }
      hide BeforeComma, Atoi;
    }
  }

  lemma {:induction false} RunFails(s: Scan, lines: seq<string>, j: nat, i: nat)
    requires j <= i < |lines| && HasPrefix(DropCR(lines[i]), "@@ ") && Unreadable(DropCR(lines[i]))
    requires s.files != [] || (j < i && HasPrefix(DropCR(lines[j]), "diff --git "))
    ensures Run(s, lines).None?
    decreases i
  {
    hide Unreadable, HunkHeadLine, DiffHeaderPath;
    if i == 0 {
      UnreadableHeader(DropCR(lines[0]));
      HunkIsNoFile(DropCR(lines[0]));
    } else {
      match Step(s, lines[0])
      case None =>
      case Some(s') =>
        StepKeepsFiles(s, lines[0]);
        hide Step;
        RunFails(s', lines[1..], if j > 0 then j - 1 else 0, i - 1);
    }
  }

  lemma HunkIsNoFile(line: string)
    requires HasPrefix(line, "@@ ")
    ensures !HasPrefix(line, "diff --git ") && !HasPrefix(line, "+++ b/")
  {
    assert line[..3][0] == line[0] == '@';
    if |line| >= 11 { assert line[..11][0] == line[0]; }
    if |line| >= 6 { assert line[..6][0] == line[0]; }
  }

  lemma StepKeepsFiles(s: Scan, raw: string)
    requires Step(s, raw).Some?
    ensures s.files != [] || HasPrefix(DropCR(raw), "diff --git ") ==> Step(s, raw).value.files != []
  {
    hide DiffHeaderPath, HunkHeadLine;
  }

  /** A diff in which some file has a hunk header without a line number is not read at all. */
  lemma UnreadableHunkFails(lines: seq<string>, j: nat, i: nat)
    requires j < i < |lines| && HasPrefix(DropCR(lines[j]), "diff --git ")
    requires HasPrefix(DropCR(lines[i]), "@@ ") && Unreadable(DropCR(lines[i]))
    ensures Parse(lines).None?
  {
    RunFails(START, lines, j, i);
    hide Run, Unreadable;
  }
}
