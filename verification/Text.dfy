/** Text as the program sees it: a Go string is a sequence of bytes, and here each `char` stands
    for one byte, so `|s|` is Go's `len(s)`. Text that came out of a JSON decoder is valid UTF-8. */
module Text {

  datatype Option<+T> = None | Some(value: T)

  datatype Result<+T, +E> = Ok(value: T) | Err(error: E)

  // ---------- character classes of the regular expressions ----------

  predicate IsDigit(c: char) { '0' <= c <= '9' }

  predicate IsAlnum(c: char) { IsDigit(c) || 'a' <= c <= 'z' || 'A' <= c <= 'Z' }

  /** `\w`, the class behind `\b`; ASCII only, as in Go's regexp. */
  predicate IsWord(c: char) { IsAlnum(c) || c == '_' }

  /** `\s`, ASCII only. */
  predicate IsSpace(c: char) { c == ' ' || c == '\t' || c == '\n' || c == '\r' || c == '\U{000C}' }

  predicate IsGraphic(c: char) { '!' <= c <= '~' }

  function Lower(c: char): char { if 'A' <= c <= 'Z' then c - 'A' + 'a' else c }

  // ---------- prefixes, suffixes, occurrences ----------

  predicate HasPrefix(s: string, p: string) { |p| <= |s| && s[..|p|] == p }

  predicate HasSuffix(s: string, p: string) { |p| <= |s| && s[|s| - |p|..] == p }

  predicate OccursAt(s: string, p: string, i: int) { 0 <= i <= |s| - |p| && s[i..i + |p|] == p }

  predicate Contains(s: string, p: string) { exists i :: 0 <= i <= |s| && OccursAt(s, p, i) }

  lemma PrefixContains(p: string, rest: string)
    ensures Contains(p + rest, p)
  {
    assert OccursAt(p + rest, p, 0);
  }

  // ---------- Unicode white space, byte by byte ----------

  /** Number of bytes of the white-space rune at the head of `s`, or 0 (unicode.IsSpace on UTF-8). */
  function SpaceLen(s: string): (n: nat)
    ensures n <= |s|
  {
    if s == "" then 0
    else if s[0] == ' ' || '\t' <= s[0] <= '\r' then 1
    else if |s| >= 2 && s[0] == '\U{00C2}' && (s[1] == '\U{0085}' || s[1] == '\U{00A0}') then 2
    else if |s| >= 3 && (
      || (s[0] == '\U{00E1}' && s[1] == '\U{009A}' && s[2] == '\U{0080}')
      || (s[0] == '\U{00E2}' && s[1] == '\U{0080}' && ('\U{0080}' <= s[2] <= '\U{008A}' || s[2] == '\U{00A8}' || s[2] == '\U{00A9}' || s[2] == '\U{00AF}'))
      || (s[0] == '\U{00E2}' && s[1] == '\U{0081}' && s[2] == '\U{009F}')
      || (s[0] == '\U{00E3}' && s[1] == '\U{0080}' && s[2] == '\U{0080}')) then 3
    else 0
  }

  /** `strings.TrimSpace(s) == ""`. */
  predicate Blank(s: string)
    decreases |s|
  {
    s == "" || (SpaceLen(s) > 0 && Blank(s[SpaceLen(s)..]))
  }

  function TrimLeft(s: string): string
    decreases |s|
  {
    if SpaceLen(s) == 0 then s else TrimLeft(s[SpaceLen(s)..])
  }

  function TrimRight(s: string): string {
    if Blank(s) then "" else [s[0]] + TrimRight(s[1..])
  }

  /** `strings.TrimSpace`, on valid UTF-8. */
  function TrimSpace(s: string): string { TrimRight(TrimLeft(s)) }

  /** Length of the longest prefix without white space. */
  function FieldLen(s: string): (n: nat)
    ensures n <= |s|
  {
    if s == "" || SpaceLen(s) > 0 then 0 else 1 + FieldLen(s[1..])
  }

  /** `strings.Fields`. */
  function Fields(s: string): seq<string>
    decreases |s|
  {
    if s == "" then []
    else if SpaceLen(s) > 0 then Fields(s[SpaceLen(s)..])
    else [s[..FieldLen(s)]] + Fields(s[FieldLen(s)..])
  }

  /** `strings.Join`. */
  function Join(parts: seq<string>, sep: string): string {
    if |parts| == 0 then "" else if |parts| == 1 then parts[0] else parts[0] + sep + Join(parts[1..], sep)
  }

  ghost predicate NoRepeats(s: seq<string>) { forall i, j :: 0 <= i < j < |s| ==> s[i] != s[j] }

  ghost predicate Graphic(s: string) { forall i :: 0 <= i < |s| ==> IsGraphic(s[i]) }

  lemma {:induction false} TrimGraphic(s: string)
    requires Graphic(s)
    ensures TrimRight(s) == s && TrimSpace(s) == s
  {
    if s != "" {
      assert Graphic(s[1..]);
      TrimGraphic(s[1..]);
      assert SpaceLen(s) == 0;
    }
  }

  lemma {:induction false} FieldLenGraphic(w: string, rest: string)
    requires Graphic(w)
    requires rest == "" || rest[0] == ' '
    ensures FieldLen(w + rest) == |w|
  {
    if w != "" {
      assert (w + rest)[1..] == w[1..] + rest;
      FieldLenGraphic(w[1..], rest);
    } else {
      assert w + rest == rest;
    }
  }

  /** The first field of a line that starts with a word and a blank. */
  lemma FieldsCons(w: string, rest: string)
    requires w != "" && Graphic(w)
    ensures Fields(w + " " + rest) == [w] + Fields(rest)
  {
    var s := w + " " + rest;
    assert s == w + (" " + rest);
    FieldLenGraphic(w, " " + rest);
    assert SpaceLen(s) == 0;
    assert s[..|w|] == w && s[|w|..] == " " + rest;
    assert (" " + rest)[1..] == rest;
  }

  // ---------- decimal numbers ----------

  function Digit(d: int): char
    requires 0 <= d < 10
  {
    '0' + (d as char)
  }

  function Natoa(n: nat): (s: string)
    ensures s != ""
  {
    if n < 10 then [Digit(n)] else Natoa(n / 10) + [Digit(n % 10)]
  }

  /** `strconv.Itoa` and `%d`. */
  function Itoa(n: int): string { if n < 0 then "-" + Natoa(-n) else Natoa(n) }

  predicate AllDigits(s: string) { forall i :: 0 <= i < |s| ==> IsDigit(s[i]) }

  function DigitsValue(s: string): nat
    requires AllDigits(s)
  {
    if s == "" then 0 else 10 * DigitsValue(s[..|s| - 1]) + (s[|s| - 1] as int - '0' as int)
  }

  /** `strconv.Atoi`, without its 64-bit range error. */
  function Atoi(s: string): Option<int> {
    if s != "" && (s[0] == '-' || s[0] == '+') then
      if |s| > 1 && AllDigits(s[1..]) then
        var v: int := DigitsValue(s[1..]);
        Some(if s[0] == '-' then -v else v)
      else None
    else if s != "" && AllDigits(s) then Some(DigitsValue(s)) else None
  }

  lemma {:induction false} NatoaDigits(n: nat)
    ensures AllDigits(Natoa(n)) && DigitsValue(Natoa(n)) == n
  {
    if n < 10 {
      assert Natoa(n)[..0] == "";
    } else {
      NatoaDigits(n / 10);
      assert Natoa(n)[..|Natoa(n)| - 1] == Natoa(n / 10);
    }
  }

  lemma AtoiNatoa(n: nat)
    ensures Atoi(Natoa(n)) == Some(n)
  {
    NatoaDigits(n);
    assert IsDigit(Natoa(n)[0]);
  }

  // ---------- byte order ----------

  /** Go's `<=` on strings. */
  predicate StringLeq(a: string, b: string) {
    a == "" || (b != "" && (a[0] < b[0] || (a[0] == b[0] && StringLeq(a[1..], b[1..]))))
  }

  lemma {:induction false} StringLeqTotal(a: string, b: string)
    ensures StringLeq(a, b) || StringLeq(b, a)
  {
    if a != "" && b != "" && a[0] == b[0] { StringLeqTotal(a[1..], b[1..]); }
  }

  lemma {:induction false} StringLeqAntisymmetric(a: string, b: string)
    requires StringLeq(a, b) && StringLeq(b, a)
    ensures a == b
  {
    if a != "" && b != "" {
      StringLeqAntisymmetric(a[1..], b[1..]);
      assert a == [a[0]] + a[1..] && b == [b[0]] + b[1..];
    }
  }

  lemma {:induction false} StringLeqTransitive(a: string, b: string, c: string)
    requires StringLeq(a, b) && StringLeq(b, c)
    ensures StringLeq(a, c)
  {
    if a != "" && b != "" && c != "" && a[0] == b[0] && b[0] == c[0] {
      StringLeqTransitive(a[1..], b[1..], c[1..]);
    }
  }

  /** `a` is a proper prefix of `b`, or smaller at the first byte where they part. */
  ghost predicate Below(a: string, b: string) {
    exists k :: PartsAt(a, b, k)
  }

  predicate PartsAt(a: string, b: string, k: int) {
    && 0 <= k <= |a| && k < |b| && a[..k] == b[..k] && (k == |a| || a[k] < b[k])
  }

  lemma PartsHead(a: string, b: string, k: int)
    requires PartsAt(a, b, k)
    ensures k > 0 ==> a[0] == b[0]
  {
    if k > 0 { assert a[..k][0] == a[0] && b[..k][0] == b[0]; }
  }

  lemma {:induction false} StringLeqMeans(a: string, b: string)
    ensures StringLeq(a, b) <==> a == b || Below(a, b)
  {
    if a != "" && b != "" && a[0] == b[0] {
      StringLeqMeans(a[1..], b[1..]);
      assert a == [a[0]] + a[1..] && b == [b[0]] + b[1..];
      if k :| PartsAt(a[1..], b[1..], k) {
        assert a[..k + 1] == [a[0]] + a[1..][..k] && b[..k + 1] == [b[0]] + b[1..][..k];
        assert PartsAt(a, b, k + 1);
      }
      if k :| PartsAt(a, b, k) {
        assert k > 0;
        assert a[1..][..k - 1] == a[..k][1..] && b[1..][..k - 1] == b[..k][1..];
        assert PartsAt(a[1..], b[1..], k - 1);
      }
    } else {
      if b != "" && (a == "" || a[0] < b[0]) { assert PartsAt(a, b, 0); }
      if k :| PartsAt(a, b, k) {
        PartsHead(a, b, k);
      }
    }
  }
}
