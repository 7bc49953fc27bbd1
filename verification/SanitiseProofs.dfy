/** What the sanitiser guarantees about every text it lets through. */
module SanitiseProofs {
  import opened Text
  import opened Sanitise

  // ---------- mentions ----------

  /** Every at sign followed by a letter or digit comes right after a backtick. */
  ghost predicate MentionsGuarded(s: string) {
    forall i :: 0 <= i < |s| && s[i] == '@' && i + 1 < |s| && IsAlnum(s[i + 1]) ==> i > 0 && s[i - 1] == '`'
  }

  /** The same, read from the left; `tick` says whether the byte before `s` is a backtick. */
  predicate GuardedAfter(tick: bool, s: string)
    decreases |s|
  {
    |s| < 2 || ((s[0] == '@' && IsAlnum(s[1]) ==> tick) && GuardedAfter(s[0] == '`', s[1..]))
  }

  lemma {:induction false} GuardedAt(tick: bool, s: string, i: nat)
    requires GuardedAfter(tick, s) && i + 1 < |s| && s[i] == '@' && IsAlnum(s[i + 1])
    ensures if i == 0 then tick else s[i - 1] == '`'
    decreases |s|
  {
    if i > 0 { GuardedAt(s[0] == '`', s[1..], i - 1); }
  }

  lemma GuardedWeaken(s: string)
    requires GuardedAfter(false, s)
    ensures GuardedAfter(true, s)
  {
  }

  /** A stretch without at signs may stand in front of a guarded text. */
  lemma {:induction false} GuardedSkip(tick: bool, p: string, s: string)
    requires p != "" && '@' !in p && GuardedAfter(p[|p| - 1] == '`', s)
    ensures GuardedAfter(tick, p + s)
    decreases |p|
  {
    if |p| == 1 {
      assert (p + s)[1..] == s;
    } else {
      GuardedSkip(p[0] == '`', p[1..], s);
      assert (p + s)[1..] == p[1..] + s;
    }
  }

  lemma GuardedCons(tick: bool, c: char, s: string)
    requires GuardedAfter(c == '`', s) && (s != "" && c == '@' && IsAlnum(s[0]) ==> tick)
    ensures GuardedAfter(tick, [c] + s)
  {
    assert ([c] + s)[1..] == s;
  }

  /** A mention in its backticks, in front of a guarded text. */
  lemma GuardedMention(name: string, rest: string)
    requires '@' !in name && GuardedAfter(false, rest)
    ensures GuardedAfter(false, "`@" + name + "`" + rest)
  {
    GuardedWeaken(rest);
    var quoted := name + "`";
    GuardedSkip(false, quoted, rest);
    GuardedCons(true, '@', quoted + rest);
    GuardedCons(false, '`', ['@'] + (quoted + rest));
    assert "`@" + name + "`" + rest == ['`'] + (['@'] + (quoted + rest));
  }

  lemma MentionShape(s: string)
    requires MentionLen(s) > 0
    ensures 1 < MentionLen(s) && s[0] == '@' && '@' !in s[1..MentionLen(s)]
  {
    hide NameRun;
    var n := MentionLen(s);
    assert forall i :: 1 < i < n ==> s[i] == s[2..][i - 2];
  }

  lemma MentionMarked(s: string)
    requires MentionLen(s) > 0
    ensures BacktickMentions(s) == "`@" + s[1..MentionLen(s)] + "`" + BacktickMentions(s[MentionLen(s)..])
  {
    MentionShape(s);
    hide MentionLen;
    var n := MentionLen(s);
    assert BacktickMentions(s) == "`" + s[..n] + "`" + BacktickMentions(s[n..]);
    hide BacktickMentions;
    assert s[..n] == ['@'] + s[1..n] && "`" + s[..n] == "`@" + s[1..n];
  }

  lemma NoMentionHead(s: string)
    requires s != "" && MentionLen(s) == 0
    ensures var rest := BacktickMentions(s[1..]);
      BacktickMentions(s) == [s[0]] + rest && (rest != "" && s[0] == '@' ==> !IsAlnum(rest[0]))
  {
    hide NameRun;
    var t := s[1..];
    if t != "" && MentionLen(t) > 0 { MentionMarked(t); }
  }

  lemma {:induction false} BackticksGuard(s: string)
    ensures GuardedAfter(false, BacktickMentions(s))
    decreases |s|
  {
    hide MentionLen, BacktickMentions, IsAlnum;
    if s == "" {
      NothingMarked();
    } else if MentionLen(s) > 0 {
      var n := MentionLen(s);
      BackticksGuard(s[n..]);
      MentionShape(s);
      MentionMarked(s);
      GuardedMention(s[1..n], BacktickMentions(s[n..]));
    } else {
      var rest := BacktickMentions(s[1..]);
      BackticksGuard(s[1..]);
      if s[0] == '`' { GuardedWeaken(rest); }
      NoMentionHead(s);
      GuardedCons(false, s[0], rest);
    }
  }

  lemma NothingMarked()
    ensures BacktickMentions("") == ""
  {
  }

  // ---------- the shape of a closing reference ----------

  /** Letters that can start a keyword. None of them occurs later in a keyword. */
  predicate IsStart(c: char) { Lower(c) == 'c' || Lower(c) == 'r' || Lower(c) == 'f' }

  predicate IsInner(c: char) { !IsStart(c) && c != '@' }

  /** No byte of `s` from `i` up to `j` can start a keyword or is an at sign. */
  ghost predicate Inner(s: string, i: nat, j: nat) {
    j <= |s| && forall k :: i <= k < j ==> IsInner(s[k])
  }

  predicate Plain(word: string) { forall i :: 0 <= i < |word| ==> IsInner(word[i]) }

  lemma {:induction false} SpellInner(word: string, s: string, at: nat)
    requires Plain(word) && at <= |s|
    ensures Inner(s, at, at + SpellLen(word, s[at..]))
    decreases |word|
  {
    if SpellLen(word, s[at..]) > 0 {
      var step := if Lower(s[at]) == word[0] then 1 else 2;
      assert step == 2 ==> s[at] == '\U{00C5}' && s[at + 1] == '\U{00BF}';
      if |word| > 1 {
        assert s[at..][step..] == s[at + step..];
        SpellInner(word[1..], s, at + step);
      }
    }
  }

  lemma SpellStemInner(word: string, s: string)
    requires |word| > 1 && IsStart(word[0]) && Plain(word[1..]) && SpellLen(word, s) > 0
    ensures IsStart(s[0]) && Inner(s, 1, SpellLen(word, s))
  {
    SpellInner(word[1..], s, 1);
  }

  lemma TenseInner(s: string, at: nat)
    requires at <= |s|
    ensures Inner(s, at, at + TenseLen(s[at..]))
  {
    SpellInner("s", s, at);
    SpellInner("d", s, at);
  }

  lemma ParticipleInner(s: string, at: nat)
    requires at <= |s|
    ensures Inner(s, at, at + ParticipleLen(s[at..]))
  {
    var e := SpellLen("e", s[at..]);
    SpellInner("e", s, at);
    assert s[at..][e..] == s[at + e..];
    TenseInner(s, at + e);
  }

  lemma KeywordInner(s: string)
    requires KeywordLen(s) > 0
    ensures IsStart(s[0]) && Inner(s, 1, KeywordLen(s))
  {
    var close, resolve, fix := SpellLen("close", s), SpellLen("resolve", s), SpellLen("fix", s);
    if close > 0 {
      SpellStemInner("close", s);
      TenseInner(s, close);
    } else if resolve > 0 {
      SpellStemInner("resolve", s);
      TenseInner(s, resolve);
    } else {
      SpellStemInner("fix", s);
      ParticipleInner(s, fix);
    }
  }

  lemma RunsInner(s: string, k: nat)
    requires k <= |s|
    ensures Inner(s, k, k + SpaceRun(s[k..])) && Inner(s, k, k + DigitRun(s[k..]))
  {
    forall i | k <= i < k + SpaceRun(s[k..]) ensures IsInner(s[i]) { assert s[i] == s[k..][i - k]; }
    forall i | k <= i < k + DigitRun(s[k..]) ensures IsInner(s[i]) { assert s[i] == s[k..][i - k]; }
  }

  /** Only the first byte of a closing reference can start a keyword. */
  lemma ClosingInner(inWord: bool, s: string)
    requires ClosingAt(inWord, s).Some?
    ensures IsStart(s[0]) && Inner(s, 1, ClosingAt(inWord, s).value.len)
  {
    hide KeywordLen, SpaceRun, DigitRun;
    KeywordInner(s);
    var k := KeywordLen(s);
    RunsInner(s, k);
    RunsInner(s, k + SpaceRun(s[k..]) + 1);
  }

  // ---------- a closing reference is read off the bytes it covers ----------

  /** `a` and `b` agree on their first `m` bytes. */
  ghost predicate Agree(a: string, b: string, m: nat) {
    m <= |a| && m <= |b| && forall i :: 0 <= i < m ==> a[i] == b[i]
  }

  lemma {:induction false} SpellLocal(word: string, a: string, b: string, m: nat)
    requires Agree(a, b, m) && 0 < SpellLen(word, a) <= m
    ensures SpellLen(word, b) == SpellLen(word, a)
    decreases |word|
  {
    var step := if Lower(a[0]) == word[0] then 1 else 2;
    if |word| > 1 { SpellLocal(word[1..], a[step..], b[step..], m - step); }
  }

  lemma TenseLocal(a: string, b: string, m: nat)
    requires Agree(a, b, m) && TenseLen(a) < m && IsSpace(a[TenseLen(a)])
    ensures TenseLen(b) == TenseLen(a)
  {
    assert a[0] == b[0];
    if SpellLen("s", a) > 0 { SpellLocal("s", a, b, m); }
    else if SpellLen("d", a) > 0 { SpellLocal("d", a, b, m); }
  }

  lemma StemHead(word: string, s: string)
    requires |word| > 1 && IsStart(word[0]) && SpellLen(word, s) > 0
    ensures Lower(s[0]) == word[0]
  {
  }

  lemma ParticipleLocal(a: string, b: string, m: nat)
    requires Agree(a, b, m) && ParticipleLen(a) < m && IsSpace(a[ParticipleLen(a)])
    ensures ParticipleLen(b) == ParticipleLen(a)
  {
    assert a[0] == b[0];
    var e := SpellLen("e", a);
    if e > 0 && TenseLen(a[e..]) > 0 {
      SpellLocal("e", a, b, m);
      assert a[e..][TenseLen(a[e..])] == a[ParticipleLen(a)];
      TenseLocal(a[e..], b[e..], m - e);
    }
  }

  lemma StemMiss(word: string, s: string)
    requires |word| > 1 && word[0] != 's' && s != "" && Lower(s[0]) != word[0]
    ensures SpellLen(word, s) == 0
  {
  }

  lemma KeywordLocal(a: string, b: string, m: nat)
    requires Agree(a, b, m) && 0 < KeywordLen(a) < m && IsSpace(a[KeywordLen(a)])
    ensures KeywordLen(b) == KeywordLen(a)
  {
    hide SpellLen, TenseLen, ParticipleLen, IsSpace;
    var close, resolve, fix := SpellLen("close", a), SpellLen("resolve", a), SpellLen("fix", a);
    assert a[0] == b[0];
    if close > 0 {
      SpellLocal("close", a, b, m);
      assert a[close..][TenseLen(a[close..])] == a[KeywordLen(a)];
      TenseLocal(a[close..], b[close..], m - close);
    } else if resolve > 0 {
      SpellLocal("resolve", a, b, m);
      StemHead("resolve", a);
      StemMiss("close", b);
      assert a[resolve..][TenseLen(a[resolve..])] == a[KeywordLen(a)];
      TenseLocal(a[resolve..], b[resolve..], m - resolve);
    } else {
      SpellLocal("fix", a, b, m);
      StemHead("fix", a);
      StemMiss("close", b);
      StemMiss("resolve", b);
      assert a[fix..][ParticipleLen(a[fix..])] == a[KeywordLen(a)];
      ParticipleLocal(a[fix..], b[fix..], m - fix);
    }
  }

  lemma {:induction false} SpaceRunLocal(a: string, b: string, m: nat)
    requires Agree(a, b, m) && SpaceRun(a) < m
    ensures SpaceRun(b) == SpaceRun(a)
    decreases |a|
  {
    assert a[0] == b[0];
    if SpaceRun(a) > 0 { SpaceRunLocal(a[1..], b[1..], m - 1); }
  }

  /** A digit run that reaches byte `m` of both texts ends there if neither goes on with a digit. */
  lemma {:induction false} DigitRunLocal(a: string, b: string, m: nat)
    requires Agree(a, b, m) && DigitRun(a) == m && (m < |b| ==> !IsDigit(b[m]))
    ensures DigitRun(b) == m
    decreases |a|
  {
    if m > 0 {
      assert a[0] == b[0];
      DigitRunLocal(a[1..], b[1..], m - 1);
    }
  }

  lemma AgreeSlice(a: string, b: string, i: nat, j: nat)
    requires i <= j && Agree(a, b, j)
    ensures a[i..j] == b[i..j]
  {
  }

  /** A text that starts with the bytes of a closing reference, followed by a word boundary, starts
      with that closing reference. */
  lemma ClosingLocal(inWord: bool, a: string, b: string)
    requires ClosingAt(inWord, a).Some?
    requires var m := ClosingAt(inWord, a).value.len; Agree(a, b, m) && (m < |b| ==> !IsWord(b[m]))
    ensures ClosingAt(inWord, b) == ClosingAt(inWord, a)
  {
    hide KeywordLen, SpaceRun, DigitRun;
    var m := ClosingAt(inWord, a).value.len;
    var k := KeywordLen(a);
    var w := SpaceRun(a[k..]);
    var h := k + w;
    assert a[k] == a[k..][0];
    KeywordLocal(a, b, m);
    SpaceRunLocal(a[k..], b[k..], m - k);
    assert b[h] == a[h];
    DigitRunLocal(a[h + 1..], b[h + 1..], m - h - 1);
    AgreeSlice(a, b, h + 1, m);
  }

  // ---------- closing keywords ----------

  predicate Allowed(c: Closing, own: Option<string>) { own == Some(c.number) }

  /** No closing reference anywhere in `s` names an issue other than `own`. */
  ghost predicate NoForeignClosing(s: string, own: Option<string>) {
    forall i :: 0 <= i < |s| ==> ClosingIn(s, i).Some? ==> Allowed(ClosingIn(s, i).value, own)
  }

  /** The closing reference that starts at byte `i` of `s`. */
  function ClosingIn(s: string, i: nat): Option<Closing>
    requires i <= |s|
  {
    ClosingAt(i > 0 && IsWord(s[i - 1]), s[i..])
  }

  /** The same, read from the left. */
  predicate Clean(inWord: bool, s: string, own: Option<string>)
    decreases |s|
  {
    s == "" || ((ClosingAt(inWord, s).Some? ==> Allowed(ClosingAt(inWord, s).value, own)) && Clean(IsWord(s[0]), s[1..], own))
  }

  lemma {:induction false} CleanAt(inWord: bool, s: string, own: Option<string>, i: nat)
    requires Clean(inWord, s, own) && i < |s|
    ensures var c := ClosingAt(if i == 0 then inWord else IsWord(s[i - 1]), s[i..]); c.Some? ==> Allowed(c.value, own)
    decreases |s|
  {
    hide ClosingAt;
    if i > 0 {
      CleanAt(IsWord(s[0]), s[1..], own, i - 1);
      assert s[1..][i - 1..] == s[i..];
    } else {
      assert s[0..] == s;
    }
  }

  lemma {:induction false} CleanFrom(s: string, own: Option<string>, i: nat)
    requires NoForeignClosing(s, own) && i <= |s|
    ensures Clean(i > 0 && IsWord(s[i - 1]), s[i..], own)
    decreases |s| - i
  {
    hide ClosingAt;
    if i < |s| {
      CleanFrom(s, own, i + 1);
      assert s[i..][1..] == s[i + 1..] && s[i..][0] == s[i];
      assert ClosingIn(s, i) == ClosingAt(i > 0 && IsWord(s[i - 1]), s[i..]);
    }
  }

  lemma CleanIsNoForeignClosing(s: string, own: Option<string>)
    ensures Clean(false, s, own) <==> NoForeignClosing(s, own)
  {
    if Clean(false, s, own) {
      forall i | 0 <= i < |s| ensures ClosingIn(s, i).Some? ==> Allowed(ClosingIn(s, i).value, own) {
        CleanAt(false, s, own, i);
      }
    }
    if NoForeignClosing(s, own) { CleanFrom(s, own, 0); assert s[0..] == s; }
  }

  lemma InWordNone(s: string)
    ensures ClosingAt(true, s).None?
  {
  }

  /** A stretch in which no keyword can start may stand in front of a clean text. */
  lemma {:induction false} CleanSkip(inWord: bool, p: string, s: string, own: Option<string>)
    requires p != "" && Clean(IsWord(p[|p| - 1]), s, own)
    requires forall i :: 0 <= i < |p| ==> !IsStart(p[i])
    ensures Clean(inWord, p + s, own)
    decreases |p|
  {
    hide ClosingAt;
    if ClosingAt(inWord, p + s).Some? { ClosingInner(inWord, p + s); }
    if |p| > 1 { CleanSkip(IsWord(p[0]), p[1..], s, own); }
    assert (p + s)[1..] == p[1..] + s;
    if |p| == 1 { assert p[1..] + s == s; }
  }

  lemma DefuseStep(inWord: bool, s: string, own: Option<string>)
    requires var o := DefuseClosings(inWord, s, own); o != "" && !IsStart(o[0])
    ensures s != "" && DefuseClosings(inWord, s, own) == [s[0]] + DefuseClosings(IsWord(s[0]), s[1..], own)
  {
    hide ClosingAt;
    if ClosingAt(inWord, s).Some? { ClosingInner(inWord, s); }
  }

  /** The rewrite leaves bytes that cannot start a keyword where they are. */
  lemma {:induction false} DefuseKeeps(inWord: bool, s: string, own: Option<string>, k: nat)
    requires var o := DefuseClosings(inWord, s, own); k <= |o| && forall i :: 0 <= i < k ==> !IsStart(o[i])
    ensures var o := DefuseClosings(inWord, s, own);
      Agree(o, s, k) && o[k..] == DefuseClosings(if k == 0 then inWord else IsWord(s[k - 1]), s[k..], own)
    decreases k
  {
    hide ClosingAt, DefuseClosings, IsStart, IsWord;
    var o := DefuseClosings(inWord, s, own);
    if k == 0 {
      assert s[0..] == s && o[0..] == o;
    } else {
      DefuseKeeps(inWord, s, own, k - 1);
      var before := if k == 1 then inWord else IsWord(s[k - 2]);
      var t := s[k - 1..];
      assert o[k - 1..][0] == o[k - 1];
      DefuseStep(before, t, own);
      assert t[0] == s[k - 1] && t[1..] == s[k..] && o[k..] == o[k - 1..][1..];
    }
  }

  /** Right after a word character the rewrite keeps the next byte. */
  lemma DefuseHead(s: string, own: Option<string>)
    ensures var o := DefuseClosings(true, s, own); (o == "" <==> s == "") && (s != "" ==> o[0] == s[0])
  {
  }

  lemma ClosingLong(inWord: bool, s: string)
    requires ClosingAt(inWord, s).Some?
    ensures ClosingAt(inWord, s).value.len > 1
  {
  }

  lemma DefuseFirst(inWord: bool, s: string, own: Option<string>)
    requires s != "" && ClosingAt(inWord, s).None?
    ensures DefuseClosings(inWord, s, own) == [s[0]] + DefuseClosings(IsWord(s[0]), s[1..], own)
  {
    hide ClosingAt;
  }

  /** Where the input's head is copied, a closing reference at the head of the output covers the bytes
      of the input and stops at a word boundary of it. */
  lemma DefuseCopies(inWord: bool, s: string, own: Option<string>, m: nat)
    requires s != "" && ClosingAt(inWord, s).None?
    requires var o := DefuseClosings(inWord, s, own); 1 < m <= |o| && Inner(o, 1, m) && IsWord(o[m - 1])
    ensures var o := DefuseClosings(inWord, s, own); Agree(o, s, m) && (m < |s| ==> m < |o| && o[m] == s[m])
  {
    hide ClosingAt, DefuseClosings, IsWord, IsStart;
    var o := DefuseClosings(inWord, s, own);
    var t := s[1..];
    var o' := DefuseClosings(IsWord(s[0]), t, own);
    DefuseFirst(inWord, s, own);
    assert forall i :: 0 <= i < |o'| ==> o'[i] == o[i + 1];
    DefuseKeeps(IsWord(s[0]), t, own, m - 1);
    assert t[m - 2] == o'[m - 2] == o[m - 1];
    DefuseHead(t[m - 1..], own);
    if m < |s| { assert o'[m - 1..][0] == o'[m - 1] && t[m - 1..][0] == t[m - 1]; }
  }

  /** Where the input's head is copied, the rewrite creates no closing reference. */
  lemma DefuseCreatesNone(inWord: bool, s: string, own: Option<string>)
    requires s != "" && ClosingAt(inWord, s).None?
    ensures ClosingAt(inWord, DefuseClosings(inWord, s, own)).None?
  {
    hide ClosingAt, DefuseClosings;
    var o := DefuseClosings(inWord, s, own);
    if ClosingAt(inWord, o).Some? {
      var m := ClosingAt(inWord, o).value.len;
      ClosingInner(inWord, o);
      ClosingLong(inWord, o);
      DefuseCopies(inWord, s, own, m);
      ClosingLocal(inWord, o, s);
    }
  }

  lemma CleanOn(inWord: bool, s: string, own: Option<string>)
    requires s != "" && (ClosingAt(inWord, s).Some? ==> Allowed(ClosingAt(inWord, s).value, own)) && Clean(IsWord(s[0]), s[1..], own)
    ensures Clean(inWord, s, own)
  {
    hide ClosingAt;
  }

  lemma KeptTail(s: string, m: nat, rest: string, own: Option<string>)
    requires 1 < m <= |s| && Inner(s, 1, m) && IsWord(s[m - 1]) && Clean(true, rest, own)
    ensures Clean(IsWord(s[0]), s[1..m] + rest, own)
  {
    hide Clean, IsWord, IsStart;
    var p := s[1..m];
    assert p[|p| - 1] == s[m - 1];
    forall i | 0 <= i < |p| ensures !IsStart(p[i]) { assert p[i] == s[i + 1]; }
    CleanSkip(IsWord(s[0]), p, rest, own);
  }

  lemma KeptAgrees(s: string, m: nat, rest: string)
    requires m <= |s| && if m < |s| then rest != "" && rest[0] == s[m] else rest == ""
    ensures var o := s[..m] + rest;
      Agree(s, o, m) && (m < |o| ==> m < |s| && o[m] == s[m]) && (0 < m ==> o[0] == s[0] && o[1..] == s[1..m] + rest)
  {
  }

  /** A closing reference that is kept stands in front of the clean rest. */
  lemma CleanKept(inWord: bool, s: string, c: Closing, rest: string, own: Option<string>)
    requires ClosingAt(inWord, s) == Some(c) && Allowed(c, own) && Clean(true, rest, own)
    requires if c.len < |s| then rest != "" && rest[0] == s[c.len] else rest == ""
    ensures Clean(inWord, s[..c.len] + rest, own)
  {
    hide ClosingAt, Clean, IsWord, IsStart, Agree, Inner;
    ClosingInner(inWord, s);
    ClosingLong(inWord, s);
    DigitsAreWords(s[c.len - 1]);
    KeptAgrees(s, c.len, rest);
    KeptTail(s, c.len, rest, own);
    var o := s[..c.len] + rest;
    ClosingLocal(inWord, s, o);
    CleanOn(inWord, o, own);
  }

  lemma DigitsAreWords(c: char)
    ensures IsDigit(c) ==> IsWord(c)
  {
  }

  /** The rewritten text holds no foreign closing reference: the single left-to-right pass misses none
      and the inserted `ref #n` completes none. */
  lemma {:induction false} DefuseIsClean(inWord: bool, s: string, own: Option<string>)
    ensures Clean(inWord, DefuseClosings(inWord, s, own), own)
    decreases |s|
  {
    hide ClosingAt;
    if s != "" {
      match ClosingAt(inWord, s)
      case None =>
        DefuseIsClean(IsWord(s[0]), s[1..], own);
        DefuseCreatesNone(inWord, s, own);
        assert ([s[0]] + DefuseClosings(IsWord(s[0]), s[1..], own))[1..] == DefuseClosings(IsWord(s[0]), s[1..], own);
      case Some(c) =>
        DefuseIsClean(true, s[c.len..], own);
        if Allowed(c, own) {
          DefuseHead(s[c.len..], own);
          CleanKept(inWord, s, c, DefuseClosings(true, s[c.len..], own), own);
        } else {
          CleanRef(inWord, c.number, DefuseClosings(true, s[c.len..], own), own);
        }
    }
  }

  lemma RefStart(inWord: bool, tail: string)
    ensures ClosingAt(inWord, "ref" + tail).None?
  {
    var r := "ref" + tail;
    assert "resolve"[1..] == "esolve" && "esolve"[1..] == "solve";
    assert r[1..][1..][0] == 'f';
    assert SpellLen("solve", r[1..][1..]) == 0;
    assert SpellLen("esolve", r[1..]) == 0;
    assert SpellLen("resolve", r) == 0;
    assert SpellLen("close", r) == 0;
    assert SpellLen("fix", r) == 0;
  }

  lemma CleanCons(inWord: bool, c: char, s: string, own: Option<string>)
    requires ClosingAt(inWord, [c] + s).None? && Clean(IsWord(c), s, own)
    ensures Clean(inWord, [c] + s, own)
  {
    hide ClosingAt;
    assert ([c] + s)[1..] == s;
  }

  lemma CleanRef(inWord: bool, number: string, rest: string, own: Option<string>)
    requires number != "" && AllDigits(number) && Clean(true, rest, own)
    ensures Clean(inWord, "ref #" + number + rest, own)
  {
    hide ClosingAt, Clean;
    var p := " #" + number;
    CleanSkip(true, p, rest, own);
    var f := ['f'] + (p + rest);
    InWordNone(f);
    CleanCons(true, 'f', p + rest, own);
    var e := ['e'] + f;
    InWordNone(e);
    CleanCons(true, 'e', f, own);
    RefStart(inWord, p + rest);
    assert "ref" + (p + rest) == ['r'] + e == "ref #" + number + rest;
    CleanCons(inWord, 'r', e, own);
  }

  lemma DefuseNothing(inWord: bool, own: Option<string>)
    ensures DefuseClosings(inWord, "", own) == ""
  {
  }

  lemma DefuseAllowed(inWord: bool, s: string, own: Option<string>)
    requires s != "" && ClosingAt(inWord, s).Some? && Allowed(ClosingAt(inWord, s).value, own)
    ensures var n := ClosingAt(inWord, s).value.len; DefuseClosings(inWord, s, own) == s[..n] + DefuseClosings(true, s[n..], own)
  {
    hide ClosingAt;
  }

  lemma CleanHead(inWord: bool, s: string, own: Option<string>)
    requires Clean(inWord, s, own) && s != ""
    ensures ClosingAt(inWord, s).Some? ==> Allowed(ClosingAt(inWord, s).value, own)
  {
    hide ClosingAt;
  }

  /** A text without foreign closing references is left alone. */
  lemma {:induction false} DefuseKeepsClean(inWord: bool, s: string, own: Option<string>)
    requires Clean(inWord, s, own)
    ensures DefuseClosings(inWord, s, own) == s
    decreases |s|
  {
    hide ClosingAt, Clean, DefuseClosings;
    if s == "" {
      DefuseNothing(inWord, own);
    } else {
      CleanHead(inWord, s, own);
      match ClosingAt(inWord, s)
      case None =>
        CleanDrop(inWord, s, own, 1);
        DefuseFirst(inWord, s, own);
        DefuseKeepsClean(IsWord(s[0]), s[1..], own);
        assert s == [s[0]] + s[1..];
      case Some(c) =>
        CleanDrop(inWord, s, own, c.len);
        ClosingInner(inWord, s);
        DefuseAllowed(inWord, s, own);
        DefuseKeepsClean(true, s[c.len..], own);
        assert s == s[..c.len] + s[c.len..];
    }
  }

  lemma {:induction false} CleanDrop(inWord: bool, s: string, own: Option<string>, i: nat)
    requires Clean(inWord, s, own) && 0 < i <= |s|
    ensures Clean(IsWord(s[i - 1]), s[i..], own)
    decreases i
  {
    hide ClosingAt;
    if i > 1 {
      CleanDrop(IsWord(s[0]), s[1..], own, i - 1);
      assert s[1..][i - 1..] == s[i..] && s[1..][i - 2] == s[i - 1];
    }
  }

  // ---------- mentions survive the later rewrites ----------

  lemma {:induction false} GuardedDrop(tick: bool, s: string, i: nat)
    requires GuardedAfter(tick, s) && 0 < i <= |s|
    ensures GuardedAfter(s[i - 1] == '`', s[i..])
    decreases i
  {
    if i > 1 {
      if |s| >= 2 { GuardedDrop(s[0] == '`', s[1..], i - 1); }
      assert s[1..][i - 1..] == s[i..] && s[1..][i - 2] == s[i - 1];
    }
  }

  lemma DefuseAlnumHead(inWord: bool, s: string, own: Option<string>)
    ensures var o := DefuseClosings(inWord, s, own); o != "" && IsAlnum(o[0]) ==> s != "" && IsAlnum(s[0])
  {
    hide ClosingAt;
    if ClosingAt(inWord, s).Some? { ClosingInner(inWord, s); }
  }

  lemma {:induction false} DefuseGuards(inWord: bool, tick: bool, s: string, own: Option<string>)
    requires GuardedAfter(tick, s)
    ensures GuardedAfter(tick, DefuseClosings(inWord, s, own))
    decreases |s|
  {
    hide ClosingAt;
    if s != "" {
      match ClosingAt(inWord, s)
      case None =>
        var rest := DefuseClosings(IsWord(s[0]), s[1..], own);
        GuardedDrop(tick, s, 1);
        DefuseGuards(IsWord(s[0]), s[0] == '`', s[1..], own);
        assert ([s[0]] + rest)[1..] == rest;
        DefuseAlnumHead(IsWord(s[0]), s[1..], own);
      case Some(c) =>
        var p := if Allowed(c, own) then s[..c.len] else "ref #" + c.number;
        GuardedDrop(tick, s, c.len);
        DefuseGuards(true, false, s[c.len..], own);
        ClosingInner(inWord, s);
        assert '@' !in s[..c.len] by { assert s[..c.len] == [s[0]] + s[1..c.len]; }
        GuardedSkip(tick, p, DefuseClosings(true, s[c.len..], own));
    }
  }

  lemma {:induction false} CutGuards(tick: bool, s: string, max: nat, tail: string)
    requires GuardedAfter(tick, s) && max <= |s|
    requires tail != "" && '@' !in tail && !IsAlnum(tail[0])
    ensures GuardedAfter(tick, s[..max] + tail)
    decreases max
  {
    var cut := s[..max] + tail;
    if max == 0 {
      assert cut == tail + "";
      GuardedSkip(tick, tail, "");
    } else {
      GuardedDrop(tick, s, 1);
      CutGuards(s[0] == '`', s[1..], max - 1, tail);
      assert cut[1..] == s[1..][..max - 1] + tail;
    }
  }

  /** In whatever leaves the sanitiser, every at sign before a letter or digit stands right after a
      backtick, and the text exceeds the cap by no more than the truncation marker. */
  lemma SanitisedMentionsGuarded(s: string, maxBytes: nat, own: Option<string>)
    ensures MentionsGuarded(SanitiseBody(s, maxBytes, own))
    ensures |SanitiseBody(s, maxBytes, own)| <= maxBytes + 15
  {
    var marked := BacktickMentions(StripControl(s));
    BackticksGuard(StripControl(s));
    DefuseGuards(false, false, marked, own);
    var t := Defused(s, own);
    if |t| > maxBytes { CutGuards(false, t, maxBytes, TRUNCATED); }
    var out := SanitiseBody(s, maxBytes, own);
    forall i | 0 <= i < |out| && out[i] == '@' && i + 1 < |out| && IsAlnum(out[i + 1]) ensures i > 0 && out[i - 1] == '`' {
      GuardedAt(false, out, i);
    }
  }

  // ---------- closing keywords before and after truncation ----------

  /** The text just before truncation closes no issue but the run's own. */
  lemma DefusedIsClean(s: string, own: Option<string>)
    ensures NoForeignClosing(Defused(s, own), own)
  {
    DefuseIsClean(false, BacktickMentions(StripControl(s)), own);
    CleanIsNoForeignClosing(Defused(s, own), own);
  }

  /** The keyword rewrite changes a text exactly when the text closes a foreign issue, and doing it
      twice is doing it once. */
  lemma DefuseFixedPoints(s: string, own: Option<string>)
    ensures DefuseClosings(false, s, own) == s <==> NoForeignClosing(s, own)
    ensures DefuseClosings(false, DefuseClosings(false, s, own), own) == DefuseClosings(false, s, own)
  {
    var o := DefuseClosings(false, s, own);
    DefuseIsClean(false, s, own);
    DefuseKeepsClean(false, o, own);
    CleanIsNoForeignClosing(s, own);
    if NoForeignClosing(s, own) { DefuseKeepsClean(false, s, own); }
  }

  /** The text ends in a closing reference to a foreign issue. */
  ghost predicate EndsInForeignClosing(s: string, own: Option<string>) {
    exists i :: 0 <= i < |s| && ClosingIn(s, i).Some? && i + ClosingIn(s, i).value.len == |s| && !Allowed(ClosingIn(s, i).value, own)
  }

  /** No closing reference starts in `tail` and none goes on into it. */
  ghost predicate Inert(tail: string) {
    forall j :: 0 <= j < |tail| ==> !IsDigit(tail[j]) && (IsStart(tail[j]) ==> j > 0 && IsWord(tail[j - 1]))
  }

  lemma InertTail(kept: string, tail: string, i: nat)
    requires Inert(tail) && i < |kept + tail| && ClosingIn(kept + tail, i).Some?
    ensures i + ClosingIn(kept + tail, i).value.len <= |kept|
  {
    hide ClosingAt;
    var u := kept + tail;
    var inWord := i > 0 && IsWord(u[i - 1]);
    var m := ClosingIn(u, i).value.len;
    ClosingInner(inWord, u[i..]);
    assert u[i..][0] == u[i] && u[i..][m - 1] == u[i + m - 1];
    InWordNone(u[i..]);
    assert forall j :: |kept| <= j < |u| ==> u[j] == tail[j - |kept|];
  }

  /** A closing reference found in one text is found in another that has the same bytes there. */
  lemma ClosingCopied(u: string, v: string, i: nat)
    requires i < |u| && ClosingIn(u, i).Some?
    requires var e := i + ClosingIn(u, i).value.len; Agree(u, v, e) && (e < |v| ==> !IsWord(v[e]))
    ensures ClosingIn(v, i) == ClosingIn(u, i)
  {
    hide ClosingAt;
    var inWord := i > 0 && IsWord(u[i - 1]);
    var m := ClosingIn(u, i).value.len;
    var a, b := u[i..], v[i..];
    assert forall j :: 0 <= j < m ==> a[j] == u[i + j] && b[j] == v[i + j];
    ClosingLocal(inWord, a, b);
  }

  lemma CutCreatesOnlyAtItsEnd(t: string, own: Option<string>, max: nat, tail: string, i: nat)
    requires NoForeignClosing(t, own) && max < |t| && Inert(tail)
    requires var u := t[..max] + tail; i < |u| && ClosingIn(u, i).Some? && !Allowed(ClosingIn(u, i).value, own)
    ensures EndsInForeignClosing(t[..max], own)
  {
    hide ClosingAt;
    var kept := t[..max];
    var u := kept + tail;
    InertTail(kept, tail, i);
    var e := i + ClosingIn(u, i).value.len;
    if e == max {
      ClosingCopied(u, kept, i);
    } else {
      assert u[i..][e - i] == u[e] == t[e];
      assert !IsWord(t[e]);
      ClosingCopied(u, t, i);
      assert false;
    }
  }

  lemma CutExact(t: string, own: Option<string>, max: nat, tail: string)
    requires NoForeignClosing(t, own) && max < |t|
    requires Inert(tail) && tail != "" && !IsWord(tail[0])
    ensures NoForeignClosing(t[..max] + tail, own) <==> !EndsInForeignClosing(t[..max], own)
  {
    hide ClosingAt;
    var kept := t[..max];
    var u := kept + tail;
    if EndsInForeignClosing(kept, own) {
      var i: nat :| i < |kept| && ClosingIn(kept, i).Some? && i + ClosingIn(kept, i).value.len == |kept| && !Allowed(ClosingIn(kept, i).value, own);
      ClosingCopied(kept, u, i);
    }
    if !NoForeignClosing(u, own) {
      var i: nat :| i < |u| && ClosingIn(u, i).Some? && !Allowed(ClosingIn(u, i).value, own);
      CutCreatesOnlyAtItsEnd(t, own, max, tail, i);
    }
  }

  lemma MarkIsInert()
    ensures Inert(TRUNCATED) && TRUNCATED != "" && !IsWord(TRUNCATED[0])
  {
    var t := TRUNCATED;
    assert t[0] == '\n' && t[1] == '\n' && t[2] == '_' && t[3] == '[' && t[13] == ']' && t[14] == '_';
    assert t[4] == 't' && t[5] == 'r' && t[6] == 'u' && t[7] == 'n' && t[8] == 'c' && t[9] == 'a' && t[10] == 't' && t[11] == 'e' && t[12] == 'd';
    forall j | 0 <= j < |t| ensures !IsDigit(t[j]) && (IsStart(t[j]) ==> j == 5 || j == 8) {}
  }

  /** Truncation brings back a foreign closing reference exactly when it cuts right behind one: the
      kept bytes then end in a reference whose number was longer, or whose word went on. */
  lemma TruncationExposes(s: string, maxBytes: nat, own: Option<string>)
    ensures NoForeignClosing(SanitiseBody(s, maxBytes, own), own)
      <==> |Defused(s, own)| <= maxBytes || !EndsInForeignClosing(Defused(s, own)[..maxBytes], own)
  {
    hide Defused, NoForeignClosing, EndsInForeignClosing, Inert, IsWord, TRUNCATED;
    MarkIsInert();
    DefusedIsClean(s, own);
    if |Defused(s, own)| > maxBytes { CutExact(Defused(s, own), own, maxBytes, TRUNCATED); }
  }

  lemma CutAtBoundary(t: string, own: Option<string>, max: nat)
    requires NoForeignClosing(t, own) && max < |t|
    requires max == 0 || !IsDigit(t[max - 1]) || !IsWord(t[max])
    ensures !EndsInForeignClosing(t[..max], own)
  {
    hide ClosingAt;
    var kept := t[..max];
    forall i: nat | i < max && ClosingIn(kept, i).Some? && i + ClosingIn(kept, i).value.len == max
      ensures Allowed(ClosingIn(kept, i).value, own)
    {
      assert kept[i..][max - i - 1] == t[max - 1];
      ClosingCopied(kept, t, i);
    }
  }

  /** A cut that does not fall between a digit and another word character exposes nothing. */
  lemma TruncationSafe(s: string, maxBytes: nat, own: Option<string>)
    requires var t := Defused(s, own); maxBytes < |t| ==> maxBytes == 0 || !IsDigit(t[maxBytes - 1]) || !IsWord(t[maxBytes])
    ensures NoForeignClosing(SanitiseBody(s, maxBytes, own), own)
  {
    hide ClosingAt, Defused, SanitiseBody;
    DefusedIsClean(s, own);
    TruncationExposes(s, maxBytes, own);
    if maxBytes < |Defused(s, own)| { CutAtBoundary(Defused(s, own), own, maxBytes); }
  }

  // ---------- which caps can expose a reference ----------

  function Dots(n: nat): (s: string)
    ensures |s| == n && forall i :: 0 <= i < n ==> s[i] == '.'
  {
    seq(n, i => '.')
  }

  /** A number the run is not for. */
  function ForeignNumber(own: Option<string>): string { if own == Some("1") then "2" else "1" }

  /** A word that is no closing reference until it loses its last letter. */
  function AlmostClosing(own: Option<string>): string { "fix #" + ForeignNumber(own) + "a" }

  lemma {:induction false} SpellLong(word: string, s: string)
    ensures SpellLen(word, s) > 0 ==> SpellLen(word, s) >= |word|
  {
    if |word| > 1 && s != "" {
      SpellLong(word[1..], s[1..]);
      if |s| >= 2 { SpellLong(word[1..], s[2..]); }
    }
  }

  /** The shortest closing reference has six bytes. */
  lemma ClosingHasSixBytes(inWord: bool, s: string)
    requires ClosingAt(inWord, s).Some?
    ensures ClosingAt(inWord, s).value.len >= 6
  {
    SpellLong("close", s);
    SpellLong("resolve", s);
    SpellLong("fix", s);
    hide SpellLen, SpaceRun, DigitRun;
  }

  lemma FixKeyword(tail: string)
    requires tail != "" && tail[0] == ' '
    ensures KeywordLen("fix" + tail) == 3
  {
    var s := "fix" + tail;
    SpellWord("fix", tail);
    assert SpellLen("close", s) == 0 && SpellLen("resolve", s) == 0 && s[3..] == tail;
    assert SpellLen("e", tail) == 0;
  }

  lemma FixCloses(number: string)
    requires number != "" && AllDigits(number)
    ensures ClosingAt(false, "fix #" + number) == Some(Closing(5 + |number|, number))
  {
    hide KeywordLen, ClosingAt;
    FixKeyword(" #" + number);
    ClosingSpelled("fix", number);
    assert "fix" + (" #" + number) == "fix #" + number;
  }

  lemma DigitRunStops(d: string, c: char)
    requires AllDigits(d) && !IsDigit(c)
    ensures DigitRun(d + [c]) == |d|
    decreases |d|
  {
    if d == "" {
      assert d + [c] == [c];
    } else {
      DigitRunStops(d[1..], c);
      assert (d + [c])[1..] == d[1..] + [c];
    }
  }

  /** A number that runs into a word closes nothing. */
  lemma OpenEnded(keyword: string, number: string, c: char)
    requires AllDigits(number) && IsWord(c) && !IsDigit(c)
    requires KeywordLen(keyword + (" #" + number + [c])) == |keyword|
    ensures ClosingAt(false, keyword + (" #" + number + [c])).None?
  {
    hide KeywordLen;
    var tail := " #" + number + [c];
    var s := keyword + tail;
    DigitRunStops(number, c);
    assert s[|keyword|..] == tail && tail == " #" + (number + [c]);
    OneSpace(number + [c]);
    hide SpaceRun, DigitRun;
    assert s[|keyword| + 2..] == number + [c];
    assert s[|keyword| + 2 + |number|] == c;
  }

  lemma AlmostDoesNotClose(own: Option<string>)
    ensures ClosingAt(false, AlmostClosing(own)).None?
  {
    var d := ForeignNumber(own);
    assert AlmostClosing(own) == "fix" + (" #" + d + "a");
    hide ForeignNumber, AlmostClosing;
    FixKeyword(" #" + d + "a");
    OpenEnded("fix", d, 'a');
  }

  lemma AlmostStarts(own: Option<string>)
    ensures |AlmostClosing(own)| == 7 && forall i :: 0 < i < 7 ==> !IsStart(AlmostClosing(own)[i])
  {
    var t := AlmostClosing(own);
    assert t[1] == 'i' && t[2] == 'x' && t[3] == ' ' && t[4] == '#' && '1' <= t[5] <= '2' && t[6] == 'a';
  }

  lemma StartNeeded(inWord: bool, s: string)
    requires s != "" && !IsStart(s[0])
    ensures ClosingAt(inWord, s).None?
  {
    hide ClosingAt;
    if ClosingAt(inWord, s).Some? { ClosingInner(inWord, s); }
  }

  lemma PaddedIsClean(own: Option<string>, n: nat)
    ensures NoForeignClosing(Dots(n) + AlmostClosing(own), own)
  {
    AlmostDoesNotClose(own);
    AlmostStarts(own);
    hide ClosingAt, AlmostClosing;
    var t := AlmostClosing(own);
    var s := Dots(n) + t;
    forall i | 0 <= i < |s| ensures ClosingIn(s, i).None? {
      if i == n {
        assert s[n..] == t;
      } else {
        assert s[i] == (if i < n then '.' else t[i - n]) && s[i..][0] == s[i];
        StartNeeded(i > 0 && IsWord(s[i - 1]), s[i..]);
      }
    }
  }

  lemma EndsBehind(front: string, tail: string, own: Option<string>)
    requires tail != "" && (front == "" || !IsWord(front[|front| - 1]))
    requires ClosingAt(false, tail).Some? && ClosingAt(false, tail).value.len == |tail| && !Allowed(ClosingAt(false, tail).value, own)
    ensures EndsInForeignClosing(front + tail, own)
  {
    hide ClosingAt, IsWord;
    var kept := front + tail;
    assert kept[|front|..] == tail;
    assert ClosingIn(kept, |front|) == ClosingAt(false, tail);
  }

  lemma AlmostCut(own: Option<string>)
    ensures var d := ForeignNumber(own); |d| == 1 && AllDigits(d) && own != Some(d)
    ensures |AlmostClosing(own)| == 7 && AlmostClosing(own)[..6] == "fix #" + ForeignNumber(own)
  {
  }

  lemma PaddedExposes(own: Option<string>, n: nat)
    ensures EndsInForeignClosing((Dots(n) + AlmostClosing(own))[..n + 6], own)
  {
    AlmostCut(own);
    hide ClosingAt, AlmostClosing, ForeignNumber, EndsInForeignClosing;
    var d := ForeignNumber(own);
    FixCloses(d);
    assert (Dots(n) + AlmostClosing(own))[..n + 6] == Dots(n) + AlmostClosing(own)[..6];
    EndsBehind(Dots(n), "fix #" + d, own);
  }

  /** The guarantee does fail at a bad cut, under every cap that has room for a closing reference at all:
      whatever the run's own number, some text leaves the sanitiser closing another issue. */
  lemma TruncationCanExpose(maxBytes: nat, own: Option<string>)
    ensures (exists s :: !NoForeignClosing(SanitiseBody(s, maxBytes, own), own)) <==> maxBytes >= 6
  {
    if maxBytes >= 6 {
      var n := maxBytes - 6;
      var s := Dots(n) + AlmostClosing(own);
      PlainStays(s);
      PaddedIsClean(own, n);
      DefuseFixedPoints(s, own);
      PaddedExposes(own, n);
      TruncationExposes(s, maxBytes, own);
    } else {
      forall s ensures NoForeignClosing(SanitiseBody(s, maxBytes, own), own) { SmallCapIsSafe(s, maxBytes, own); }
    }
  }

  lemma SmallCapIsSafe(s: string, maxBytes: nat, own: Option<string>)
    requires maxBytes < 6
    ensures NoForeignClosing(SanitiseBody(s, maxBytes, own), own)
  {
    TruncationExposes(s, maxBytes, own);
    hide ClosingAt, SanitiseBody, NoForeignClosing;
    var t := Defused(s, own);
    if |t| > maxBytes && EndsInForeignClosing(t[..maxBytes], own) {
      var kept := t[..maxBytes];
      var i :| 0 <= i < |kept| && ClosingIn(kept, i).Some? && i + ClosingIn(kept, i).value.len == |kept|;
      ClosingHasSixBytes(i > 0 && IsWord(kept[i - 1]), kept[i..]);
    }
  }

  lemma {:induction false} PlainStays(s: string)
    requires '@' !in s && forall i :: 0 <= i < |s| ==> ' ' <= s[i] <= '~'
    ensures StripControl(s) == s && BacktickMentions(s) == s
  {
    if s != "" { PlainStays(s[1..]); }
  }

  lemma {:induction false} DigitRunAll(d: string)
    requires AllDigits(d)
    ensures DigitRun(d) == |d|
  {
    if d != "" { DigitRunAll(d[1..]); }
  }

  lemma {:induction false} SpellWord(word: string, rest: string)
    requires word != "" && forall i :: 0 <= i < |word| ==> 'a' <= word[i] <= 'z'
    ensures SpellLen(word, word + rest) == |word|
  {
    if |word| > 1 {
      SpellWord(word[1..], rest);
      assert (word + rest)[1..] == word[1..] + rest;
    }
  }

  lemma OneSpace(number: string)
    ensures SpaceRun(" #" + number) == 1
  {
    var tail := " #" + number;
    assert tail[0] == ' ' && tail[1..] == "#" + number;
  }

  lemma ClosingSpelled(keyword: string, number: string)
    requires number != "" && AllDigits(number)
    requires keyword != "" && KeywordLen(keyword + (" #" + number)) == |keyword|
    ensures ClosingAt(false, keyword + (" #" + number)) == Some(Closing(|keyword| + 2 + |number|, number))
  {
    hide KeywordLen;
    var tail := " #" + number;
    var s := keyword + tail;
    DigitRunAll(number);
    assert s[|keyword|..] == tail;
    OneSpace(number);
    hide SpaceRun, DigitRun;
    assert s[|keyword| + 2..] == number;
    assert s[|keyword| + 2..|keyword| + 2 + |number|] == number;
  }

  // ---------- what cannot be sanitised away ----------

  lemma DefuseGraphicHead(inWord: bool, s: string, own: Option<string>)
    requires s != "" && IsGraphic(s[0])
    ensures var o := DefuseClosings(inWord, s, own); o != "" && IsGraphic(o[0])
  {
    hide ClosingAt;
    if ClosingAt(inWord, s).Some? { ClosingInner(inWord, s); }
  }

  /** A text that starts with a printable ASCII byte still does after sanitising, so it is not blank. */
  lemma GraphicHeadSurvives(s: string, maxBytes: nat, own: Option<string>)
    requires s != "" && IsGraphic(s[0]) && maxBytes > 0
    ensures var out := SanitiseBody(s, maxBytes, own); out != "" && IsGraphic(out[0]) && !Blank(out)
  {
    hide DefuseClosings;
    var marked := BacktickMentions(StripControl(s));
    assert StripControl(s)[0] == s[0] && IsGraphic(marked[0]);
    DefuseGraphicHead(false, marked, own);
  }
}
