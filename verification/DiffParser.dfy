/** `parseDiff` of internal/review/diffcheck.go: which lines a pull request adds, and where they stand
    in its head, read off the output of `git diff --unified=0`. */
module DiffParser {
  import opened Text

  datatype AddedLine = AddedLine(line: int, text: string)

  datatype DiffFile = DiffFile(path: string, header: string, added: seq<AddedLine>)

  /** What the loop carries along; the current file is the last one. */
  datatype Scan = Scan(files: seq<DiffFile>, newLine: int)

  const START := Scan([], 0)

  /** bufio.ScanLines drops one trailing carriage return. */
  function DropCR(s: string): string { if s != "" && s[|s| - 1] == '\r' then s[..|s| - 1] else s }

  /** `strings.LastIndex`, or -1. */
  function LastIndex(s: string, p: string): int {
    if HasSuffix(s, p) then |s| - |p| else if s == "" then -1 else LastIndex(s[..|s| - 1], p)
  }

  lemma {:induction false} LastIndexBound(s: string, p: string)
    ensures -1 <= LastIndex(s, p) <= |s| - |p| || LastIndex(s, p) == -1
  {
    if !HasSuffix(s, p) && s != "" { LastIndexBound(s[..|s| - 1], p); }
  }

  function DiffHeaderPath(header: string): string {
    LastIndexBound(header, " b/");
    var i := LastIndex(header, " b/");
    if i < 0 then "" else TrimSpace(header[i + 3..])
  }

  function BeforeComma(s: string): string { if s == "" || s[0] == ',' then "" else [s[0]] + BeforeComma(s[1..]) }

  function HunkHeadLine(header: string): Option<int> {
    var fields := Fields(header);
    if |fields| < 3 || !HasPrefix(fields[2], "+") then None else Atoi(BeforeComma(fields[2][1..]))
  }

  function SetLast(files: seq<DiffFile>, f: DiffFile): seq<DiffFile>
    requires files != []
  {
    files[|files| - 1 := f]
  }

  /** One turn of the loop; None is a bad hunk header. */
  function Step(s: Scan, raw: string): Option<Scan> {
    var line := DropCR(raw);
    if HasPrefix(line, "diff --git ") then Some(Scan(s.files + [DiffFile(DiffHeaderPath(line), line, [])], 0))
    else if s.files == [] then Some(s)
    else
      var current := s.files[|s.files| - 1];
      if HasPrefix(line, "+++ b/") then Some(s.(files := SetLast(s.files, current.(path := line[6..]))))
      else if HasPrefix(line, "@@ ") then
        (match HunkHeadLine(line)
         case None => None
         case Some(n) => Some(s.(newLine := n)))
      else if HasPrefix(line, "+") && !HasPrefix(line, "+++") then
        var added := current.added + [AddedLine(s.newLine, line[1..])];
        Some(Scan(SetLast(s.files, current.(added := added)), s.newLine + 1))
      else if HasPrefix(line, "-") then Some(s)
      else if s.newLine > 0 then Some(s.(newLine := s.newLine + 1))
      else Some(s)
  }

  function Run(s: Scan, lines: seq<string>): Option<Scan>
    decreases |lines|
  {
    if lines == [] then Some(s)
    else match Step(s, lines[0])
      case None => None
      case Some(s') => Run(s', lines[1..])
  }

  function Parse(lines: seq<string>): Option<seq<DiffFile>> {
    match Run(START, lines)
    case None => None
    case Some(s) => if exists f :: f in s.files && f.path == "" then None else Some(s.files)
  }

  /** `parseDiff`, over the lines of the diff. */
  method ParseDiff(lines: seq<string>) returns (r: Option<seq<DiffFile>>)
    ensures r == Parse(lines)
  {
    hide DiffHeaderPath, HunkHeadLine;
    var files: seq<DiffFile>, newLine := [], 0;
    var i := 0;
    while i < |lines|
      invariant 0 <= i <= |lines|
      invariant Run(START, lines) == Run(Scan(files, newLine), lines[i..])
    {
      assert lines[i..][1..] == lines[i + 1..];
      var line := DropCR(lines[i]);
      i := i + 1;
      if HasPrefix(line, "diff --git ") {
        files := files + [DiffFile(DiffHeaderPath(line), line, [])];
        newLine := 0;
        continue;
      }
      if files == [] { continue; }
      var last := |files| - 1;
      if HasPrefix(line, "+++ b/") {
        files := files[last := files[last].(path := line[6..])];
      } else if HasPrefix(line, "@@ ") {
        var start := HunkHeadLine(line);
        if start.None? { return None; }
        newLine := start.value;
      } else if HasPrefix(line, "+") && !HasPrefix(line, "+++") {
        files := files[last := files[last].(added := files[last].added + [AddedLine(newLine, line[1..])])];
        newLine := newLine + 1;
      } else if !HasPrefix(line, "-") && newLine > 0 {
        newLine := newLine + 1;
      }
    }
    for j := 0 to |files|
      invariant forall k :: 0 <= k < j ==> files[k].path != ""
    {
      if files[j].path == "" { return None; }
    }
    r := Some(files);
  }

  // ---------- what a zero-context diff means ----------

  /** `deleted` base lines after the first `at` are replaced by `added`. `section` is what git appends to
      the hunk header. */
  datatype Hunk = Hunk(at: nat, deleted: nat, added: seq<string>, section: string)

  /** One file of a diff: its base, the hunks, the lines git prints before them, and whether base or head
      end without a newline. `gone` says that the head has no such file. */
  datatype Change = Change(oldPath: string, path: string, base: seq<string>, hunks: seq<Hunk>, meta: seq<string>,
                           gone: bool, baseUnterminated: bool, headUnterminated: bool)

  ghost predicate Ordered(hunks: seq<Hunk>, pos: nat, size: nat) {
    if hunks == [] then pos <= size
    else pos <= hunks[0].at && Ordered(hunks[1..], hunks[0].at + hunks[0].deleted, size)
  }

  lemma {:induction false} OrderedBound(hunks: seq<Hunk>, pos: nat, size: nat)
    requires Ordered(hunks, pos, size)
    ensures pos <= size
  {
    if hunks != [] { OrderedBound(hunks[1..], hunks[0].at + hunks[0].deleted, size); }
  }

  /** The head, from base line `pos` on. */
  function Applied(base: seq<string>, hunks: seq<Hunk>, pos: nat): seq<string>
    requires Ordered(hunks, pos, |base|)
  {
    OrderedBound(hunks, pos, |base|);
    if hunks == [] then base[pos..]
    else
      var h := hunks[0];
      OrderedBound(hunks[1..], h.at + h.deleted, |base|);
      base[pos..h.at] + h.added + Applied(base, hunks[1..], h.at + h.deleted)
  }

  function Head(c: Change): seq<string>
    requires Ordered(c.hunks, 0, |c.base|)
  {
    Applied(c.base, c.hunks, 0)
  }

  // ---------- how git prints it ----------

  const NO_NEWLINE := "\\ No newline at end of file"

  function Range(start: nat, count: nat): string { if count == 1 then Natoa(start) else Natoa(start) + "," + Natoa(count) }

  /** A range counts from the line before it when it is empty. */
  function RangeFrom(before: nat, count: nat): string { Range(if count == 0 then before else before + 1, count) }

  function HunkHeader(h: Hunk, headBefore: nat): string {
    "@@ -" + RangeFrom(h.at, h.deleted) + " +" + RangeFrom(headBefore, |h.added|) + " @@" + h.section
  }

  function Marked(prefix: char, texts: seq<string>): seq<string> {
    if texts == [] then [] else [[prefix] + texts[0]] + Marked(prefix, texts[1..])
  }

  /** The deleted lines of a hunk reach the unterminated end of the base. */
  predicate EndsBase(c: Change, h: Hunk) { c.baseUnterminated && h.deleted > 0 && h.at + h.deleted == |c.base| }

  predicate EndsHead(c: Change, h: Hunk) { c.headUnterminated && h.added != [] && h.at + h.deleted == |c.base| }

  function HunkLines(c: Change, h: Hunk, headBefore: nat): seq<string>
    requires h.at + h.deleted <= |c.base|
  {
    [HunkHeader(h, headBefore)]
    + Marked('-', c.base[h.at..h.at + h.deleted]) + (if EndsBase(c, h) then [NO_NEWLINE] else [])
    + Marked('+', h.added) + (if EndsHead(c, h) then [NO_NEWLINE] else [])
  }

  /** The hunks from base line `pos` on, when `headPos` head lines come before. */
  function HunksLines(c: Change, hunks: seq<Hunk>, pos: nat, headPos: nat): seq<string>
    requires Ordered(hunks, pos, |c.base|)
  {
    if hunks == [] then []
    else
      var h := hunks[0];
      OrderedBound(hunks[1..], h.at + h.deleted, |c.base|);
      var before := headPos + (h.at - pos);
      HunkLines(c, h, before) + HunksLines(c, hunks[1..], h.at + h.deleted, before + |h.added|)
  }

  function GitHeader(c: Change): string { "diff --git a/" + c.oldPath + " b/" + c.path }

  function Printed(c: Change): seq<string>
    requires Ordered(c.hunks, 0, |c.base|)
  {
    [GitHeader(c)] + c.meta
    + (if c.hunks == [] then []
       else ["--- a/" + c.oldPath, if c.gone then "+++ /dev/null" else "+++ b/" + c.path] + HunksLines(c, c.hunks, 0, 0))
  }

  function PrintedAll(cs: seq<Change>): seq<string>
    requires forall i :: 0 <= i < |cs| ==> Ordered(cs[i].hunks, 0, |cs[i].base|)
  {
    if cs == [] then [] else Printed(cs[0]) + PrintedAll(cs[1..])
  }

  // ---------- what the parser should make of it ----------

  /** The added texts numbered from `n`. */
  function Numbered(n: int, texts: seq<string>): (r: seq<AddedLine>)
    ensures |r| == |texts|
  {
    seq(|texts|, i requires 0 <= i < |texts| => AddedLine(n + i, DropCR(texts[i])))
  }

  /** The added lines of the hunks with their head line numbers, when `headPos` head lines come before. */
  function AddedLines(c: Change, hunks: seq<Hunk>, pos: nat, headPos: nat): seq<AddedLine>
    requires Ordered(hunks, pos, |c.base|)
  {
    if hunks == [] then []
    else
      var h := hunks[0];
      OrderedBound(hunks[1..], h.at + h.deleted, |c.base|);
      var before := headPos + (h.at - pos);
      Numbered(before + 1, h.added) + AddedLines(c, hunks[1..], h.at + h.deleted, before + |h.added|)
  }

  /** The file as the program should see it: every added line, at its place in the head. */
  function Expected(c: Change): DiffFile
    requires Ordered(c.hunks, 0, |c.base|)
  {
    DiffFile(c.path, GitHeader(c), AddedLines(c, c.hunks, 0, 0))
  }

  // ---------- what it makes of it ----------

  /** With its plus sign the added text looks like the line that names the new file. */
  predicate Hides(t: string) { HasPrefix(DropCR(t), "++") }

  /** And is even read as one. */
  predicate Forges(t: string) { HasPrefix(DropCR(t), "++ b/") }

  /** The lines the parser records: none for a text that looks like a file header, which counts all the
      same unless it also names a file. */
  function Seen(n: int, texts: seq<string>): (r: seq<AddedLine>)
    ensures |r| <= |texts|
    decreases |texts|
  {
    if texts == [] then []
    else if Forges(texts[0]) then Seen(n, texts[1..])
    else (if Hides(texts[0]) then [] else [AddedLine(n, DropCR(texts[0]))]) + Seen(n + 1, texts[1..])
  }

  /** The path after these texts. */
  function PathAfter(path: string, texts: seq<string>): string
    decreases |texts|
  {
    if texts == [] then path else PathAfter(if Forges(texts[0]) then DropCR(texts[0])[5..] else path, texts[1..])
  }

  /** The lines recorded for the hunks. Git prints its "\ No newline" remark between the deleted end of an
      unterminated base and what replaces it, and the parser counts it. */
  function SeenLines(c: Change, hunks: seq<Hunk>, pos: nat, headPos: nat): seq<AddedLine>
    requires Ordered(hunks, pos, |c.base|)
  {
    if hunks == [] then []
    else
      var h := hunks[0];
      OrderedBound(hunks[1..], h.at + h.deleted, |c.base|);
      var before := headPos + (h.at - pos);
      Seen(before + 1 + (if EndsBase(c, h) then 1 else 0), h.added) + SeenLines(c, hunks[1..], h.at + h.deleted, before + |h.added|)
  }

  function PathSeen(path: string, hunks: seq<Hunk>): string
    decreases |hunks|
  {
    if hunks == [] then path else PathSeen(PathAfter(path, hunks[0].added), hunks[1..])
  }

  /** The file the parser reads back. */
  function Read(c: Change): DiffFile
    requires Ordered(c.hunks, 0, |c.base|)
  {
    DiffFile(PathSeen(c.path, c.hunks), GitHeader(c), SeenLines(c, c.hunks, 0, 0))
  }

  // ---------- the diffs considered ----------

  predicate IsLetter(c: char) { 'a' <= c <= 'z' || 'A' <= c <= 'Z' }

  /** Lines git prints between the file header and the hunks, or about a binary file instead of them. */
  predicate MetaLine(s: string) { s != "" && IsLetter(s[0]) && !HasPrefix(s, "diff --git ") }

  /** A path git prints without quoting, and without blanks. */
  ghost predicate PlainPath(path: string) { path != "" && Graphic(path) && '"' !in path && '\\' !in path }

  /** A change of a file with such a path, with ordered hunks; what the hunks add may be anything. */
  ghost predicate Plain(c: Change) {
    && PlainPath(c.path)
    && Ordered(c.hunks, 0, |c.base|)
    && (forall i :: 0 <= i < |c.meta| ==> MetaLine(c.meta[i]))
    && (forall h :: h in c.hunks ==> h.section == "" || h.section[0] == ' ')
  }

  /** A hunk puts something in the place of the unterminated last line of the base. */
  ghost predicate Misnumbered(c: Change) { exists h :: h in c.hunks && EndsBase(c, h) && h.added != [] }

  /** A hunk adds a text that the parser takes for a file header. */
  ghost predicate Hidden(c: Change) { exists h, t :: h in c.hunks && t in h.added && Hides(t) }
}
