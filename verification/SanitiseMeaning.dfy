/** What the sanitiser looks for and what it leaves alone, said without its own scanners: the regular
    expressions of internal/intent/validate.go read as what they match. */
module SanitiseMeaning {
  import opened Text
  import opened Sanitise
  import opened SanitiseProofs

  // ---------- closing references ----------

  const KEYWORDS := {"close", "closes", "closed", "fix", "fixes", "fixed", "resolve", "resolves", "resolved"}

  /** `t` is the word, letter by letter and without regard to case; a long s (C5 BF) is an s too. */
  predicate Reads(word: string, t: string)
    decreases |word|
  {
    if word == "" then t == ""
    else
      || (t != "" && Lower(t[0]) == word[0] && Reads(word[1..], t[1..]))
      || (word[0] == 's' && |t| >= 2 && t[0] == '\U{00C5}' && t[1] == '\U{00BF}' && Reads(word[1..], t[2..]))
  }

  predicate IsKeyword(t: string) { exists w | w in KEYWORDS :: Reads(w, t) }

  /** At the head of `s`: a keyword of `k` bytes, white space up to a number sign at `h`, and the digits of
      `number` up to `n`, where the word ends. */
  predicate ReferenceAt(s: string, k: int, h: int, n: int, number: string) {
    && 0 < k < h < n <= |s| && IsKeyword(s[..k]) && (forall i :: k <= i < h ==> IsSpace(s[i])) && s[h] == '#'
    && h + 1 < n && s[h + 1..n] == number && AllDigits(number) && (n < |s| ==> !IsWord(s[n]))
  }

  ghost predicate Reference(s: string, n: nat, number: string) { exists k, h :: ReferenceAt(s, k, h, n, number) }

  /** A reference that starts at byte `i`, at a word boundary. */
  ghost predicate ClosesAt(s: string, i: int, n: nat, number: string) {
    0 <= i < |s| && (i > 0 ==> !IsWord(s[i - 1])) && Reference(s[i..], n, number)
  }

  /** The text closes no issue but, if there is one, the run's own. */
  ghost predicate ClosesOnly(s: string, own: Option<string>) { forall i, n: nat, number :: ClosesAt(s, i, n, number) ==> own == Some(number) }

  lemma {:induction false} SpellReads(word: string, s: string, m: nat)
    requires word != "" && m <= |s|
    ensures Reads(word, s[..m]) <==> m > 0 && SpellLen(word, s) == m
  {
    if m > 0 {
      var t := s[..m];
      assert t[0] == s[0];
      if Lower(s[0]) == word[0] {
        assert t[1..] == s[1..][..m - 1];
        if |word| > 1 { SpellReads(word[1..], s[1..], m - 1); }
      } else if word[0] == 's' && |s| >= 2 && s[0] == '\U{00C5}' && s[1] == '\U{00BF}' && m >= 2 {
        assert t[1] == s[1] && t[2..] == s[2..][..m - 2];
        if |word| > 1 { SpellReads(word[1..], s[2..], m - 2); }
      }
    }
  }

  /** Bytes of one letter. */
  function LetterLen(c: char, s: string): (n: nat)
    ensures n <= |s|
  {
    if s == "" then 0
    else if Lower(s[0]) == c then 1
    else if c == 's' && |s| >= 2 && s[0] == '\U{00C5}' && s[1] == '\U{00BF}' then 2
    else 0
  }

  /** Length of the second of two parts, where both have to be there. */
  function Both(a: nat, b: nat): nat { if a == 0 || b == 0 then 0 else a + b }

  lemma SpellCons(c: char, rest: string, s: string)
    ensures var n := LetterLen(c, s);
      SpellLen([c] + rest, s) == if rest == "" then n else Both(n, SpellLen(rest, s[n..]))
  {
    assert ([c] + rest)[0] == c && ([c] + rest)[1..] == rest;
  }

  /** Spelling two words in a row. */
  lemma {:induction false} SpellConcat(u: string, v: string, s: string)
    requires u != "" && v != ""
    ensures SpellLen(u + v, s) == Both(SpellLen(u, s), SpellLen(v, s[SpellLen(u, s)..]))
    decreases |u|
  {
    hide SpellLen, LetterLen;
    var c, rest := u[0], u[1..];
    var n := LetterLen(c, s);
    assert u == [c] + rest;
    SpellCons(c, rest, s);
    SpellCons(c, rest + v, s);
    Associates(c, rest, v);
    if rest == "" {
      assert rest + v == v;
    } else {
      SpellConcat(rest, v, s[n..]);
      Further(s, n, SpellLen(rest, s[n..]));
    }
  }

  lemma Associates(c: char, rest: string, v: string)
    ensures [c] + rest + v == [c] + (rest + v)
  {
  }

  lemma Further(s: string, n: nat, a: nat)
    requires n <= |s| && a <= |s| - n
    ensures s[n..][a..] == s[n + a..]
  {
  }

  lemma SpellNothingHere(word: string, s: string)
    requires word != "" && s != "" && IsSpace(s[0]) && 'a' <= word[0] <= 'z'
    ensures SpellLen(word, s) == 0
  {
  }

  lemma StemForms(stem: string, s: string, k: nat)
    requires |stem| > 1 && 0 < k < |s| && IsSpace(s[k])
    ensures var a := SpellLen(stem, s);
      a > 0 && a + TenseLen(s[a..]) == k <==> SpellLen(stem, s) == k || SpellLen(stem + "s", s) == k || SpellLen(stem + "d", s) == k
  {
    hide SpellLen;
    SpellConcat(stem, "s", s);
    SpellConcat(stem, "d", s);
    var a := SpellLen(stem, s);
    if a == k {
      SpellNothingHere("s", s[a..]);
      SpellNothingHere("d", s[a..]);
    }
    NotBoth(s[a..]);
  }

  /** No text starts with an s and a d at once. */
  lemma NotBoth(s: string)
    ensures SpellLen("s", s) == 0 || SpellLen("d", s) == 0
  {
  }

  lemma FixForms(s: string, k: nat)
    requires 0 < k < |s| && IsSpace(s[k])
    ensures var a := SpellLen("fix", s);
      a > 0 && a + ParticipleLen(s[a..]) == k <==> SpellLen("fix", s) == k || SpellLen("fixes", s) == k || SpellLen("fixed", s) == k
  {
    hide SpellLen;
    var a := SpellLen("fix", s);
    SpellConcat("fix", "es", s);
    SpellConcat("fix", "ed", s);
    assert "fix" + "es" == "fixes" && "fix" + "ed" == "fixed";
    Participles(s[a..]);
    if a == k { SpellNothingHere("e", s[a..]); }
  }

  lemma Participles(t: string)
    ensures ParticipleLen(t) == if SpellLen("es", t) > 0 then SpellLen("es", t) else SpellLen("ed", t)
    ensures SpellLen("es", t) == 0 || SpellLen("ed", t) == 0
    ensures SpellLen("e", t) == 0 ==> SpellLen("es", t) == 0 && SpellLen("ed", t) == 0
  {
    hide SpellLen;
    assert "e" + "s" == "es" && "e" + "d" == "ed";
    SpellConcat("e", "s", t);
    SpellConcat("e", "d", t);
    NotBoth(t[SpellLen("e", t)..]);
  }

  lemma StemsDiffer(s: string)
    ensures SpellLen("close", s) == 0 || (SpellLen("resolve", s) == 0 && SpellLen("fix", s) == 0)
    ensures SpellLen("resolve", s) == 0 || SpellLen("fix", s) == 0
  {
    if s != "" {
      if Lower(s[0]) != 'c' { StemMiss("close", s); }
      if Lower(s[0]) != 'r' { StemMiss("resolve", s); }
      if Lower(s[0]) != 'f' { StemMiss("fix", s); }
    }
  }

  lemma StemFirst(stem: string, tail: string, s: string)
    requires stem != "" && tail != ""
    ensures SpellLen(stem + tail, s) > 0 ==> SpellLen(stem, s) > 0
  {
    SpellConcat(stem, tail, s);
  }

  predicate KeywordOf(s: string, k: int) { exists w | w in KEYWORDS :: SpellLen(w, s) == k }

  /** Before white space the scanner finds the keywords and nothing else. */
  lemma KeywordLenMeans(s: string, k: nat)
    requires 0 < k < |s| && IsSpace(s[k])
    ensures KeywordLen(s) == k <==> KeywordOf(s, k)
  {
    hide SpellLen, TenseLen, ParticipleLen;
    StemForms("close", s, k);
    StemForms("resolve", s, k);
    FixForms(s, k);
    StemsDiffer(s);
    KeywordForms(s, k);
    StemFirst("close", "s", s);
    StemFirst("close", "d", s);
    StemFirst("resolve", "s", s);
    StemFirst("resolve", "d", s);
    StemFirst("fix", "es", s);
    StemFirst("fix", "ed", s);
    assert "close" + "s" == "closes" && "close" + "d" == "closed" && "resolve" + "s" == "resolves" && "resolve" + "d" == "resolved"
      && "fix" + "es" == "fixes" && "fix" + "ed" == "fixed";
    hide KeywordOf;
  }

  lemma KeywordForms(s: string, k: int)
    ensures KeywordOf(s, k) <==>
      || SpellLen("close", s) == k || SpellLen("closes", s) == k || SpellLen("closed", s) == k
      || SpellLen("resolve", s) == k || SpellLen("resolves", s) == k || SpellLen("resolved", s) == k
      || SpellLen("fix", s) == k || SpellLen("fixes", s) == k || SpellLen("fixed", s) == k
  {
    hide SpellLen;
  }

  lemma KeywordMeans(s: string, k: nat)
    requires 0 < k < |s| && IsSpace(s[k])
    ensures KeywordLen(s) == k <==> IsKeyword(s[..k])
  {
    KeywordLenMeans(s, k);
    forall w | w in KEYWORDS ensures Reads(w, s[..k]) <==> SpellLen(w, s) == k { SpellReads(w, s, k); }
    hide SpellLen, KeywordLen, Reads;
  }

  lemma {:induction false} SpaceRunIs(s: string, n: nat)
    requires n < |s| && (forall i :: 0 <= i < n ==> IsSpace(s[i])) && !IsSpace(s[n])
    ensures SpaceRun(s) == n
  {
    if n > 0 { SpaceRunIs(s[1..], n - 1); }
  }

  lemma {:induction false} DigitRunIs(s: string, n: nat)
    requires n <= |s| && (forall i :: 0 <= i < n ==> IsDigit(s[i])) && (n < |s| ==> !IsWord(s[n]))
    ensures DigitRun(s) == n
  {
    if n > 0 { DigitRunIs(s[1..], n - 1); }
  }

  lemma ScannedIsReference(s: string)
    requires ClosingAt(false, s).Some?
    ensures var c := ClosingAt(false, s).value; Reference(s, c.len, c.number)
  {
    hide KeywordLen, SpaceRun, DigitRun, IsKeyword;
    var c := ClosingAt(false, s).value;
    var k := KeywordLen(s);
    var h := k + SpaceRun(s[k..]);
    assert s[k] == s[k..][0];
    KeywordMeans(s, k);
    forall i | k <= i < h ensures IsSpace(s[i]) { assert s[i] == s[k..][i - k]; }
    assert ReferenceAt(s, k, h, c.len, c.number);
  }

  lemma SpacesAreScanned(s: string, k: nat, h: nat)
    requires k <= h < |s| && (forall i :: k <= i < h ==> IsSpace(s[i])) && s[h] == '#'
    ensures SpaceRun(s[k..]) == h - k
  {
    var t := s[k..];
    forall i | 0 <= i < h - k ensures IsSpace(t[i]) { assert t[i] == s[k + i]; }
    assert t[h - k] == s[h];
    SpaceRunIs(t, h - k);
  }

  lemma DigitsAreScanned(s: string, h: nat, n: nat)
    requires h < n <= |s| && AllDigits(s[h..n]) && (n < |s| ==> !IsWord(s[n]))
    ensures DigitRun(s[h..]) == n - h
  {
    var t, d := s[h..], n - h;
    forall i | 0 <= i < d ensures IsDigit(t[i]) { assert t[i] == s[h..n][i]; }
    DigitRunIs(t, d);
  }

  lemma ReferenceIsScanned(s: string, n: nat, number: string)
    requires Reference(s, n, number)
    ensures ClosingAt(false, s) == Some(Closing(n, number))
  {
    hide KeywordLen, SpaceRun, DigitRun, IsKeyword, AllDigits, IsWord;
    var k, h :| ReferenceAt(s, k, h, n, number);
    KeywordMeans(s, k);
    SpacesAreScanned(s, k, h);
    DigitsAreScanned(s, h + 1, n);
  }

  /** The text closes no foreign issue, by the scanner, exactly if it does not by what a closing reference is. */
  lemma ClosesOnlyMeans(s: string, own: Option<string>)
    ensures NoForeignClosing(s, own) <==> ClosesOnly(s, own)
  {
    hide ClosingAt, Reference, IsWord;
    forall i | 0 <= i < |s|
      ensures ClosingIn(s, i).Some? ==> ClosesAt(s, i, ClosingIn(s, i).value.len, ClosingIn(s, i).value.number)
    {
      if i > 0 && IsWord(s[i - 1]) { InWordNone(s[i..]); } else if ClosingIn(s, i).Some? { ScannedIsReference(s[i..]); }
    }
    forall i, n: nat, number | ClosesAt(s, i, n, number) ensures ClosingIn(s, i) == Some(Closing(n, number)) {
      ReferenceIsScanned(s[i..], n, number);
    }
    hide ClosingIn, ClosesAt;
    if NoForeignClosing(s, own) {
      forall i, n: nat, number | ClosesAt(s, i, n, number) ensures own == Some(number) { InText(s, i, n, number); }
    }
  }

  lemma InText(s: string, i: int, n: nat, number: string)
    requires ClosesAt(s, i, n, number)
    ensures 0 <= i < |s|
  {
  }

  /** A closing reference at a word boundary becomes a plain one, unless it names the run's own issue; any other byte is
      kept. */
  lemma ReferencesAreRewritten(s: string, own: Option<string>)
    requires s != ""
    ensures forall n: nat, number :: Reference(s, n, number) ==>
      n <= |s| && DefuseClosings(false, s, own) == (if own == Some(number) then s[..n] else "ref #" + number) + DefuseClosings(true, s[n..], own)
    ensures (forall n: nat, number :: !Reference(s, n, number)) ==>
      DefuseClosings(false, s, own) == [s[0]] + DefuseClosings(IsWord(s[0]), s[1..], own)
    ensures DefuseClosings(true, s, own) == [s[0]] + DefuseClosings(IsWord(s[0]), s[1..], own)
  {
    forall n: nat, number | Reference(s, n, number) ensures ClosingAt(false, s) == Some(Closing(n, number)) { ReferenceIsScanned(s, n, number); }
    if ClosingAt(false, s).Some? { ScannedIsReference(s); }
    InWordNone(s);
    hide ClosingAt, Reference, IsWord;
  }

  // ---------- mentions ----------

  predicate NameChar(c: char) { IsAlnum(c) || c == '-' }

  /** A whole account name: a letter or digit and up to 38 more, or hyphens. */
  predicate AccountName(name: string) { 1 <= |name| <= 39 && IsAlnum(name[0]) && forall i :: 0 <= i < |name| ==> NameChar(name[i]) }

  lemma {:induction false} NameRunIs(name: string, rest: string, cap: nat)
    requires |name| <= cap && (forall i :: 0 <= i < |name| ==> NameChar(name[i]))
    requires |name| == cap || rest == "" || !NameChar(rest[0])
    ensures NameRun(name + rest, cap) == |name|
  {
    if name == "" {
      assert name + rest == rest;
    } else {
      assert (name + rest)[0] == name[0] && (name + rest)[1..] == name[1..] + rest;
      NameRunIs(name[1..], rest, cap - 1);
    }
  }

  /** A mention is put in backticks whole; a byte that starts none is kept. */
  lemma MentionsAreQuotedWhole(name: string, rest: string)
    requires AccountName(name) && (|name| == 39 || rest == "" || !NameChar(rest[0]))
    ensures BacktickMentions("@" + name + rest) == "`@" + name + "`" + BacktickMentions(rest)
  {
    var s := "@" + name + rest;
    assert s[1] == name[0] && s[2..] == name[1..] + rest;
    NameRunIs(name[1..], rest, 38);
    assert MentionLen(s) == 1 + |name|;
    assert s[..1 + |name|] == "@" + name && s[1 + |name|..] == rest;
    assert "`" + ("@" + name) == "`@" + name;
    hide NameRun, MentionLen;
  }

  lemma OtherBytesAreKept(c: char, rest: string)
    requires c != '@' || rest == "" || !IsAlnum(rest[0])
    ensures BacktickMentions([c] + rest) == [c] + BacktickMentions(rest)
  {
    assert ([c] + rest)[1..] == rest;
  }

  // ---------- what the rewrites leave alone ----------

  predicate KeywordLetter(c: char) { Lower(c) in {'c', 'd', 'e', 'f', 'i', 'l', 'o', 'r', 's', 'v', 'x'} }

  /** A printable byte that no rewrite touches: neither a backtick nor a letter of a keyword. */
  predicate Lasting(c: char) { IsGraphic(c) && c != '`' && !KeywordLetter(c) }

  /** The bytes of a text that no rewrite touches, in order. */
  function Lastings(s: string): string { if s == "" then "" else (if Lasting(s[0]) then [s[0]] else "") + Lastings(s[1..]) }

  lemma LastingsHead(s: string)
    requires s != ""
    ensures Lastings(s) == (if Lasting(s[0]) then [s[0]] else "") + Lastings(s[1..])
  {
  }

  lemma TailOf(a: string, b: string)
    requires a != ""
    ensures a + b != "" && (a + b)[0] == a[0] && (a + b)[1..] == a[1..] + b
  {
  }

  lemma Chain(a: string, b: string, c: string)
    ensures a + (b + c) == a + b + c
  {
  }

  lemma {:induction false} LastingsConcat(a: string, b: string)
    ensures Lastings(a + b) == Lastings(a) + Lastings(b)
    decreases |a|
  {
    hide Lasting;
    if a == "" {
      assert a + b == b;
    } else {
      hide Lastings;
      LastingsConcat(a[1..], b);
      TailOf(a, b);
      LastingsHead(a);
      LastingsHead(a + b);
      Chain(if Lasting(a[0]) then [a[0]] else "", Lastings(a[1..]), Lastings(b));
    }
  }

  lemma {:induction false} LastingsNone(s: string)
    requires forall i :: 0 <= i < |s| ==> !Lasting(s[i])
    ensures Lastings(s) == ""
  {
    hide Lasting;
    if s != "" { LastingsNone(s[1..]); }
  }

  lemma {:induction false} LastingsAll(s: string)
    requires forall i :: 0 <= i < |s| ==> Lasting(s[i])
    ensures Lastings(s) == s
  {
    hide Lasting;
    if s != "" { LastingsAll(s[1..]); }
  }

  lemma {:induction false} StripLasts(s: string)
    ensures Lastings(StripControl(s)) == Lastings(s)
    decreases |s|
  {
    if s != "" {
      StripLasts(s[1..]);
      LastingsHead(s);
      var dropsOne := s[0] != '\n' && s[0] != '\t' && (s[0] < ' ' || s[0] == '\U{007F}');
      var dropsTwo := |s| >= 2 && s[0] == '\U{00C2}' && '\U{0080}' <= s[1] <= '\U{009F}';
      if dropsTwo {
        StripLasts(s[2..]);
        LastingsHead(s[1..]);
        assert s[1..][1..] == s[2..];
      } else if !dropsOne {
        LastingsCons(s[0], StripControl(s[1..]));
      }
      hide Lastings;
    }
  }

  lemma LastingsCons(c: char, s: string)
    ensures Lastings([c] + s) == (if Lasting(c) then [c] else "") + Lastings(s)
  {
    assert ([c] + s)[1..] == s;
  }

  lemma {:induction false} TicksLast(s: string)
    ensures Lastings(BacktickMentions(s)) == Lastings(s)
    decreases |s|
  {
    hide MentionLen, Lastings, Lasting;
    if s == "" {
      NothingMarked();
    } else if MentionLen(s) > 0 {
      var n := MentionLen(s);
      TicksLast(s[n..]);
      TickFades();
      LastingsConcat(s[..n], s[n..]);
      assert s == s[..n] + s[n..];
      LastingsConcat("`", s[..n]);
      LastingsConcat("`" + s[..n], "`");
      LastingsConcat("`" + s[..n] + "`", BacktickMentions(s[n..]));
      assert "" + Lastings(s[..n]) + "" == Lastings(s[..n]);
      assert BacktickMentions(s) == "`" + s[..n] + "`" + BacktickMentions(s[n..]);
      hide BacktickMentions;
    } else {
      TicksLast(s[1..]);
      LastingsCons(s[0], BacktickMentions(s[1..]));
      LastingsCons(s[0], s[1..]);
      assert s == [s[0]] + s[1..];
    }
  }

  lemma TickFades()
    ensures Lastings("`") == ""
  {
  }

  lemma {:induction false} WordFades(word: string, t: string)
    requires Reads(word, t) && forall i :: 0 <= i < |word| ==> KeywordLetter(word[i])
    ensures forall i :: 0 <= i < |t| ==> !Lasting(t[i])
    decreases |word|
  {
    if word != "" {
      if t != "" && Lower(t[0]) == word[0] && Reads(word[1..], t[1..]) {
        WordFades(word[1..], t[1..]);
        forall i | 0 <= i < |t| ensures !Lasting(t[i]) { if i > 0 { assert t[i] == t[1..][i - 1]; } else { LowerIsLower(t[0]); } }
      } else {
        WordFades(word[1..], t[2..]);
        forall i | 0 <= i < |t| ensures !Lasting(t[i]) { if i > 1 { assert t[i] == t[2..][i - 2]; } }
      }
    }
  }

  lemma LowerIsLower(c: char)
    ensures Lower(Lower(c)) == Lower(c)
  {
  }

  lemma KeywordsAreLetters(w: string)
    requires w in KEYWORDS
    ensures forall i :: 0 <= i < |w| ==> KeywordLetter(w[i])
  {
  }

  lemma KeywordFades(t: string)
    requires IsKeyword(t)
    ensures Lastings(t) == ""
  {
    var w :| w in KEYWORDS && Reads(w, t);
    KeywordsAreLetters(w);
    WordFades(w, t);
    LastingsNone(t);
  }

  lemma RefFades()
    ensures Lastings("ref ") == ""
  {
    assert forall i :: 0 <= i < 4 ==> !Lasting("ref "[i]);
    LastingsNone("ref ");
  }

  lemma NumberLasts(number: string)
    requires AllDigits(number)
    ensures Lastings("#" + number) == "#" + number && Lastings("ref #" + number) == "#" + number
  {
    hide Lastings;
    LastingsAll("#" + number);
    RefFades();
    hide Lasting;
    assert "ref #" + number == "ref " + ("#" + number);
    LastingsConcat("ref ", "#" + number);
    assert "" + ("#" + number) == "#" + number;
  }

  lemma FadesInFront(a: string, b: string, c: string)
    requires Lastings(a) == "" && Lastings(b) == ""
    ensures Lastings(a + b + c) == Lastings(c)
  {
    hide Lastings;
    LastingsConcat(a, b);
    LastingsConcat(a + b, c);
  }

  lemma InParts(s: string, k: nat, h: nat, n: nat)
    requires k <= h < n <= |s|
    ensures s[..n] == s[..k] + s[k..h] + ([s[h]] + s[h + 1..n])
  {
  }

  /** Of a closing reference the number and its sign last. */
  lemma ReferenceLasts(s: string, n: nat, number: string)
    requires Reference(s, n, number)
    ensures n <= |s| && Lastings(s[..n]) == "#" + number && Lastings("ref #" + number) == "#" + number
  {
    hide IsKeyword, Lastings;
    var k, h :| ReferenceAt(s, k, h, n, number);
    KeywordFades(s[..k]);
    LastingsNone(s[k..h]);
    NumberLasts(number);
    InParts(s, k, h, n);
    FadesInFront(s[..k], s[k..h], "#" + number);
    assert [s[h]] == "#";
  }

  lemma RewrittenLasts(s: string, n: nat, number: string, head: string, tail: string)
    requires Reference(s, n, number) && n <= |s| && (head == s[..n] || head == "ref #" + number) && Lastings(tail) == Lastings(s[n..])
    ensures Lastings(head + tail) == Lastings(s)
  {
    hide Lastings, Reference;
    ReferenceLasts(s, n, number);
    LastingsConcat(head, tail);
    LastingsConcat(s[..n], s[n..]);
    assert s == s[..n] + s[n..];
  }

  lemma {:induction false} DefuseLasts(inWord: bool, s: string, own: Option<string>)
    ensures Lastings(DefuseClosings(inWord, s, own)) == Lastings(s)
    decreases |s|
  {
    hide ClosingAt, Lastings, Lasting, IsWord;
    if s != "" {
      match ClosingAt(inWord, s)
      case Some(c) =>
        if inWord { InWordNone(s); }
        ScannedIsReference(s);
        DefuseLasts(true, s[c.len..], own);
        RewrittenLasts(s, c.len, c.number, if own == Some(c.number) then s[..c.len] else "ref #" + c.number, DefuseClosings(true, s[c.len..], own));
      case None =>
        DefuseFirst(inWord, s, own);
        DefuseLasts(IsWord(s[0]), s[1..], own);
        LastingsCons(s[0], DefuseClosings(IsWord(s[0]), s[1..], own));
        LastingsCons(s[0], s[1..]);
        assert s == [s[0]] + s[1..];
        hide DefuseClosings;
    }
  }

  /** Up to the cut the sanitiser removes and adds nothing but control characters, backticks, white space and letters
      of its keywords: every other printable byte is still there, in order. */
  lemma SanitisingKeepsTheRest(s: string, own: Option<string>)
    ensures Lastings(Defused(s, own)) == Lastings(s)
  {
    StripLasts(s);
    TicksLast(StripControl(s));
    DefuseLasts(false, BacktickMentions(StripControl(s)), own);
  }

  // ---------- control characters ----------

  predicate ControlByte(c: char) { (c < ' ' && c != '\n' && c != '\t') || c == '\U{007F}' }

  /** The first byte of U+0080 to U+00BF. */
  const LEAD := '\U{00C2}'

  /** The second byte of U+0080 to U+009F. */
  predicate ControlTail(c: char) { '\U{0080}' <= c <= '\U{009F}' }

  ghost predicate NoControlByte(s: string) { forall i :: 0 <= i < |s| ==> !ControlByte(s[i]) }

  predicate IsTail(c: char) { '\U{0080}' <= c <= '\U{00BF}' }

  ghost predicate NoControlPair(s: string) { forall i :: 0 <= i < |s| - 1 && s[i] == LEAD ==> !ControlTail(s[i + 1]) }

  /** No control character but newlines and tabs. */
  ghost predicate ControlFree(s: string) { NoControlByte(s) && NoControlPair(s) }

  /** The byte C2 starts a rune, as in every valid UTF-8 text. */
  ghost predicate WellEncoded(s: string) {
    forall i :: 0 <= i < |s| && s[i] == LEAD ==> i + 1 < |s| && IsTail(s[i + 1])
  }

  lemma FreeConcat(a: string, b: string)
    requires ControlFree(a) && ControlFree(b) && (a == "" || b == "" || a[|a| - 1] != LEAD || !ControlTail(b[0]))
    ensures ControlFree(a + b)
  {
    hide ControlByte, ControlTail;
  }

  lemma FreeSlice(s: string, i: nat, j: nat)
    requires ControlFree(s) && i <= j <= |s|
    ensures ControlFree(s[i..j])
  {
    hide ControlByte, ControlTail;
  }

  lemma {:induction false} StripFrees(s: string)
    requires WellEncoded(s)
    ensures ControlFree(StripControl(s))
    decreases |s|
  {
    hide ControlFree;
    if s == "" {
      NothingIsFree();
    } else {
      var c := s[0];
      StripFrees(s[1..]);
      if ControlByte(c) {
        assert StripControl(s) == StripControl(s[1..]);
      } else if |s| >= 2 && c == LEAD && ControlTail(s[1]) {
        StripFrees(s[2..]);
      } else {
        StripHead(s[1..]);
        ByteIsFree(c);
        assert StripControl(s) == [c] + StripControl(s[1..]);
        assert s[1..] != "" ==> s[1..][0] == s[1];
        hide StripControl;
        FreeConcat([c], StripControl(s[1..]));
      }
    }
  }

  lemma NothingIsFree()
    ensures ControlFree("")
  {
  }

  lemma ByteIsFree(c: char)
    requires !ControlByte(c)
    ensures ControlFree([c])
  {
  }

  /** The second byte of a rune is kept. */
  lemma StripHead(s: string)
    ensures s != "" && IsTail(s[0]) ==> StripControl(s) != "" && StripControl(s)[0] == s[0]
  {
  }

  lemma TickIsFree()
    ensures ControlFree("`") && !ControlTail('`')
  {
  }

  lemma {:induction false} TicksFree(s: string)
    requires ControlFree(s)
    ensures ControlFree(BacktickMentions(s))
    decreases |s|
  {
    hide ControlFree, MentionLen;
    if s != "" {
      TickIsFree();
      var n := MentionLen(s);
      if n > 0 {
        FreeSlice(s, 0, n);
        FreeSlice(s, n, |s|);
        assert s[0..n] == s[..n] && s[n..|s|] == s[n..];
        TicksFree(s[n..]);
        assert BacktickMentions(s) == "`" + s[..n] + "`" + BacktickMentions(s[n..]);
        hide BacktickMentions;
        FreeConcat("`", s[..n]);
        FreeConcat("`" + s[..n], "`");
        FreeConcat("`" + s[..n] + "`", BacktickMentions(s[n..]));
      } else {
        FreeSlice(s, 0, 1);
        FreeSlice(s, 1, |s|);
        assert s[0..1] == [s[0]] && s[1..|s|] == s[1..];
        TicksFree(s[1..]);
        TicksHead(s[1..]);
        PairHere(s);
        assert BacktickMentions(s) == [s[0]] + BacktickMentions(s[1..]);
        hide BacktickMentions;
        FreeConcat([s[0]], BacktickMentions(s[1..]));
      }
    }
  }

  lemma TicksHead(s: string)
    ensures var o := BacktickMentions(s); o != "" ==> s != "" && (o[0] == s[0] || o[0] == '`')
  {
  }

  lemma PairHere(s: string)
    requires ControlFree(s)
    ensures |s| > 1 && s[0] == LEAD ==> !ControlTail(s[1])
  {
  }

  lemma DefusedHead(inWord: bool, s: string, own: Option<string>)
    ensures var o := DefuseClosings(inWord, s, own); o != "" ==> s != "" && (o[0] == s[0] || o[0] == 'r')
  {
    hide ClosingAt;
  }

  lemma NumberIsFree(number: string)
    requires AllDigits(number)
    ensures ControlFree("ref #" + number)
  {
    var t := "ref #" + number;
    assert forall i :: 0 <= i < |t| ==> t[i] == if i < 5 then "ref #"[i] else number[i - 5];
  }

  lemma {:induction false} DefuseFrees(inWord: bool, s: string, own: Option<string>)
    requires ControlFree(s)
    ensures ControlFree(DefuseClosings(inWord, s, own))
    decreases |s|
  {
    hide ControlFree, ClosingAt, IsWord;
    if s != "" {
      match ClosingAt(inWord, s)
      case Some(c) =>
        FreeSlice(s, 0, c.len);
        FreeSlice(s, c.len, |s|);
        assert s[0..c.len] == s[..c.len] && s[c.len..|s|] == s[c.len..];
        DefuseFrees(true, s[c.len..], own);
        NumberIsFree(c.number);
        var head := if own == Some(c.number) then s[..c.len] else "ref #" + c.number;
        assert IsDigit(head[|head| - 1]);
        FreeConcat(head, DefuseClosings(true, s[c.len..], own));
      case None =>
        FreeSlice(s, 0, 1);
        FreeSlice(s, 1, |s|);
        assert s[0..1] == [s[0]] && s[1..|s|] == s[1..];
        DefuseFrees(IsWord(s[0]), s[1..], own);
        DefusedHead(IsWord(s[0]), s[1..], own);
        PairHere(s);
        DefuseFirst(inWord, s, own);
        hide DefuseClosings;
        FreeConcat([s[0]], DefuseClosings(IsWord(s[0]), s[1..], own));
    }
  }

  lemma MarkIsFree()
    ensures ControlFree(TRUNCATED) && TRUNCATED[0] == '\n'
  {
  }

  /** Whatever leaves the sanitiser holds no control character but newlines and tabs. */
  lemma SanitisedIsControlFree(s: string, maxBytes: nat, own: Option<string>)
    requires WellEncoded(s)
    ensures ControlFree(SanitiseBody(s, maxBytes, own))
  {
    StripFrees(s);
    TicksFree(StripControl(s));
    DefuseFrees(false, BacktickMentions(StripControl(s)), own);
    var t := Defused(s, own);
    assert ControlFree(t);
    MarkIsFree();
    hide ControlFree, Defused, TRUNCATED;
    if |t| > maxBytes {
      FreeSlice(t, 0, maxBytes);
      assert t[0..maxBytes] == t[..maxBytes];
      FreeConcat(t[..maxBytes], TRUNCATED);
    }
  }

  // ---------- what is not touched at all ----------

  /** No at sign stands before a letter or digit. */
  ghost predicate MentionsNobody(s: string) { forall i :: 0 <= i < |s| - 1 && s[i] == '@' ==> !IsAlnum(s[i + 1]) }

  lemma {:induction false} StripKeeps(s: string)
    requires ControlFree(s)
    ensures StripControl(s) == s
  {
    if s != "" {
      assert s[1..] == s[1..|s|];
      FreeSlice(s, 1, |s|);
      StripKeeps(s[1..]);
    }
  }

  lemma {:induction false} TicksKeep(s: string)
    requires MentionsNobody(s)
    ensures BacktickMentions(s) == s
  {
    if s != "" { TicksKeep(s[1..]); }
  }

  /** A text within the cap that has no control characters, mentions nobody and closes nothing but the run's own issue
      comes through as it is. */
  lemma HarmlessTextStays(s: string, maxBytes: nat, own: Option<string>)
    requires ControlFree(s) && MentionsNobody(s) && ClosesOnly(s, own) && |s| <= maxBytes
    ensures SanitiseBody(s, maxBytes, own) == s
  {
    StripKeeps(s);
    TicksKeep(s);
    ClosesOnlyMeans(s, own);
    DefuseFixedPoints(s, own);
    hide NoForeignClosing, ClosesOnly, DefuseClosings;
  }
}
