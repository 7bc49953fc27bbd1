/** The text sanitiser of internal/intent/validate.go: control characters are dropped, mentions are
    put in backticks, issue-closing keywords are defused, and the result is cut to a byte limit. */
module Sanitise {
  import opened Text

  // ---------- the three rewrites ----------

  /** Drops every control rune but newline and tab: U+0000-001F, U+007F and the two-byte U+0080-009F. */
  function StripControl(s: string): string
    decreases |s|
  {
    if s == "" then ""
    else if s[0] == '\n' || s[0] == '\t' then [s[0]] + StripControl(s[1..])
    else if s[0] < ' ' || s[0] == '\U{007F}' then StripControl(s[1..])
    else if |s| >= 2 && s[0] == '\U{00C2}' && '\U{0080}' <= s[1] <= '\U{009F}' then StripControl(s[2..])
    else [s[0]] + StripControl(s[1..])
  }

  function NameRun(s: string, cap: nat): (n: nat)
    ensures n <= |s| && n <= cap
    ensures forall i :: 0 <= i < n ==> IsAlnum(s[i]) || s[i] == '-'
  {
    if cap == 0 || s == "" || !(IsAlnum(s[0]) || s[0] == '-') then 0 else 1 + NameRun(s[1..], cap - 1)
  }

  /** Length of the mention at the head of `s`: an at sign, a letter or digit, up to 38 more; else 0. */
  function MentionLen(s: string): (n: nat)
    ensures n <= |s|
  {
    if |s| >= 2 && s[0] == '@' && IsAlnum(s[1]) then 2 + NameRun(s[2..], 38) else 0
  }

  function BacktickMentions(s: string): string
    decreases |s|
  {
    if s == "" then ""
    else if MentionLen(s) > 0 then "`" + s[..MentionLen(s)] + "`" + BacktickMentions(s[MentionLen(s)..])
    else [s[0]] + BacktickMentions(s[1..])
  }

  /** Bytes of `s` that spell `word` without regard to case, or 0. Under `(?i)` an `s` also matches
      the long s U+017F, whose two bytes are C5 BF. */
  function SpellLen(word: string, s: string): (n: nat)
    ensures n <= |s|
  {
    if word == "" || s == "" then 0
    else
      var step := if Lower(s[0]) == word[0] then 1
                  else if word[0] == 's' && |s| >= 2 && s[0] == '\U{00C5}' && s[1] == '\U{00BF}' then 2
                  else 0;
      if step == 0 then 0
      else if |word| == 1 then step
      else
        var rest := SpellLen(word[1..], s[step..]);
        if rest == 0 then 0 else step + rest
  }

  /** `[sd]?` */
  function TenseLen(s: string): (n: nat)
    ensures n <= |s|
  {
    if SpellLen("s", s) > 0 then SpellLen("s", s) else SpellLen("d", s)
  }

  /** `(e[sd])?` */
  function ParticipleLen(s: string): (n: nat)
    ensures n <= |s|
  {
    var e := SpellLen("e", s);
    if e > 0 && TenseLen(s[e..]) > 0 then e + TenseLen(s[e..]) else 0
  }

  /** `close[sd]?|fix(e[sd])?|resolve[sd]?`. Taking the longest spelling loses nothing, because white
      space has to follow and none of the optional letters is white space. */
  function KeywordLen(s: string): (n: nat)
    ensures n <= |s|
  {
    var close, resolve, fix := SpellLen("close", s), SpellLen("resolve", s), SpellLen("fix", s);
    if close > 0 then close + TenseLen(s[close..])
    else if resolve > 0 then resolve + TenseLen(s[resolve..])
    else if fix > 0 then fix + ParticipleLen(s[fix..])
    else 0
  }

  function SpaceRun(s: string): (n: nat)
    ensures n <= |s|
    ensures forall i :: 0 <= i < n ==> IsSpace(s[i])
    ensures n < |s| ==> !IsSpace(s[n])
  {
    if s == "" || !IsSpace(s[0]) then 0 else 1 + SpaceRun(s[1..])
  }

  function DigitRun(s: string): (n: nat)
    ensures n <= |s|
    ensures forall i :: 0 <= i < n ==> IsDigit(s[i])
    ensures n < |s| ==> !IsDigit(s[n])
  {
    if s == "" || !IsDigit(s[0]) then 0 else 1 + DigitRun(s[1..])
  }

  datatype Closing = Closing(len: nat, number: string)

  /** The closing reference at the head of `s`, where `inWord` says whether a word character comes
      just before: word boundary, keyword, white space, `#`, digits, word boundary. */
  function ClosingAt(inWord: bool, s: string): (r: Option<Closing>)
    ensures r.Some? ==> 0 < r.value.len <= |s| && r.value.number != "" && AllDigits(r.value.number)
    ensures r.Some? ==> IsDigit(s[r.value.len - 1]) && (r.value.len < |s| ==> !IsWord(s[r.value.len]))
  {
    var k := KeywordLen(s);
    if inWord || k == 0 then None
    else
      var w := SpaceRun(s[k..]);
      var h := k + w;
      if w == 0 || h == |s| || s[h] != '#' then None
      else
        var d := DigitRun(s[h + 1..]);
        var end := h + 1 + d;
        if d == 0 || (end < |s| && IsWord(s[end])) then None
        else Some(Closing(end, s[h + 1..end]))
  }

  /** Rewrites every closing reference to `ref #n`, except one that names `own`, the number of the
      issue the run is for. */
  function DefuseClosings(inWord: bool, s: string, own: Option<string>): string
    decreases |s|
  {
    if s == "" then ""
    else match ClosingAt(inWord, s)
      case Some(c) =>
        (if own == Some(c.number) then s[..c.len] else "ref #" + c.number) + DefuseClosings(true, s[c.len..], own)
      case None => [s[0]] + DefuseClosings(IsWord(s[0]), s[1..], own)
  }

  const TRUNCATED := "\n\n_[truncated]_"

  /** The text just before truncation. */
  function Defused(s: string, own: Option<string>): string {
    DefuseClosings(false, BacktickMentions(StripControl(s)), own)
  }

  function Truncate(s: string, maxBytes: nat): string {
    if |s| > maxBytes then s[..maxBytes] + TRUNCATED else s
  }

  function SanitiseBody(s: string, maxBytes: nat, own: Option<string>): string {
    Truncate(Defused(s, own), maxBytes)
  }

  /** Collapses white space and cuts; used for titles. */
  function SanitiseLine(s: string, max: nat): (r: string)
    ensures |r| <= max
  {
    var line := Join(Fields(s), " ");
    if |line| > max then line[..max] else line
  }
}
