/** The two deltas of internal/review/diffcheck.go: what changed in a dependency manifest, and which
    advisories the head introduces. */
module Deltas {
  import opened Text
  import opened Sorting

  /** The elements of a set in some order, as ranging over a Go map yields its keys. */
  method Enumerate<T(==)>(s: set<T>) returns (q: seq<T>)
    ensures multiset(q) == multiset(s)
  {
    q := [];
    var rest := s;
    while rest != {}
      invariant rest <= s && multiset(q) == multiset(s - rest)
    {
      var x :| x in rest;
      q := q + [x];
      assert s - (rest - {x}) == (s - rest) + {x};
      rest := rest - {x};
    }
    assert s - {} == s;
  }

  /** In order and without repetition. */
  ghost predicate Strict<T>(s: seq<T>, leq: (T, T) -> bool) {
    forall i, j :: 0 <= i < j < |s| ==> leq(s[i], s[j]) && s[i] != s[j]
  }

  lemma SetIsDistinct<T>(q: seq<T>, s: set<T>)
    requires multiset(q) == multiset(s)
    ensures forall i, j :: 0 <= i < j < |q| ==> q[i] != q[j]
    ensures forall x :: x in q <==> x in s
  {
    forall i, j | 0 <= i < j < |q| ensures q[i] != q[j] {
      var a, b := q[..i + 1], q[i + 1..];
      assert q == a + b;
      assert a[i] == q[i] && b[j - i - 1] == q[j];
      assert multiset(q)[q[i]] == multiset(a)[q[i]] + multiset(b)[q[i]];
      assert q[i] in multiset(a) && q[j] in multiset(b);
    }
    assert forall x :: x in q <==> x in multiset(q);
    assert forall x :: x in s <==> x in multiset(s);
  }

  lemma SortedSet<T(!new)>(q: seq<T>, s: set<T>, leq: (T, T) -> bool)
    requires Preorder(leq) && multiset(q) == multiset(s)
    ensures Strict(Sort(q, leq), leq) && forall x :: x in Sort(q, leq) <==> x in s
  {
    SortSorts(q, leq);
    SortPermutes(q, leq);
    SetIsDistinct(Sort(q, leq), s);
  }

  // ---------- dependencies ----------

  /** One entry of the delta: what the manifest said about a name before and after. */
  datatype DepChange = DepChange(name: string, before: Option<string>, after: Option<string>)

  function Lookup<K, V>(m: map<K, V>, k: K): Option<V> { if k in m then Some(m[k]) else None }

  /** The line starts with the name, goes on with the old version and ends with the new one. */
  function Format(d: DepChange): (line: string)
    ensures HasPrefix(line, d.name + ": ")
    ensures d.before.Some? ==> HasPrefix(line, d.name + ": " + d.before.value + " -> ")
    ensures d.before.None? ==> HasPrefix(line, d.name + ": added -> ")
    ensures d.after.Some? ==> HasSuffix(line, " -> " + d.after.value)
    ensures d.after.None? && d.before.Some? ==> HasSuffix(line, " -> removed")
    ensures d.before.Some? && d.after.Some? ==> |line| == |d.name| + |d.before.value| + |d.after.value| + 6
  {
    match (d.before, d.after)
    case (None, Some(v)) => d.name + ": added -> " + v
    case (None, None) => d.name + ": added -> "
    case (Some(v), None) => d.name + ": " + v + " -> removed"
    case (Some(v), Some(w)) => d.name + ": " + v + " -> " + w
  }

  function FormatAll(ds: seq<DepChange>): seq<string> {
    seq(|ds|, i requires 0 <= i < |ds| => Format(ds[i]))
  }

  /** One entry for each name whose binding differs, in name order, and none for any other. */
  ghost predicate ExactDelta(ds: seq<DepChange>, m: map<string, string>, n: map<string, string>) {
    && (forall i, j :: 0 <= i < j < |ds| ==> StringLeq(ds[i].name, ds[j].name) && ds[i].name != ds[j].name)
    && (forall i :: 0 <= i < |ds| ==> ds[i] == DepChange(ds[i].name, Lookup(m, ds[i].name), Lookup(n, ds[i].name)) && ds[i].before != ds[i].after)
    && (forall k :: k in m.Keys + n.Keys && Lookup(m, k) != Lookup(n, k) ==> exists i :: 0 <= i < |ds| && ds[i].name == k)
  }

  /** The entries for a list of names, in its order. */
  function DeltaOf(names: seq<string>, m: map<string, string>, n: map<string, string>): seq<DepChange> {
    if names == [] then []
    else
      var name := names[|names| - 1];
      DeltaOf(names[..|names| - 1], m, n)
      + (if Lookup(m, name) == Lookup(n, name) then [] else [DepChange(name, Lookup(m, name), Lookup(n, name))])
  }

  /** `ds` has one entry for each of `names` whose binding differs, in order. */
  ghost predicate Entries(ds: seq<DepChange>, names: seq<string>, m: map<string, string>, n: map<string, string>) {
    && (forall i, j :: 0 <= i < j < |ds| ==> StringLeq(ds[i].name, ds[j].name) && ds[i].name != ds[j].name)
    && (forall i :: 0 <= i < |ds| ==> ds[i].name in names)
    && (forall i :: 0 <= i < |ds| ==> ds[i] == DepChange(ds[i].name, Lookup(m, ds[i].name), Lookup(n, ds[i].name)) && ds[i].before != ds[i].after)
    && (forall k :: k in names && Lookup(m, k) != Lookup(n, k) ==> exists i :: 0 <= i < |ds| && ds[i].name == k)
  }

  lemma EntriesMore(ds: seq<DepChange>, front: seq<string>, name: string, m: map<string, string>, n: map<string, string>)
    requires Entries(ds, front, m, n) && forall k :: k in front ==> StringLeq(k, name) && k != name
    ensures if Lookup(m, name) == Lookup(n, name) then Entries(ds, front + [name], m, n)
            else Entries(ds + [DepChange(name, Lookup(m, name), Lookup(n, name))], front + [name], m, n)
  {
    hide StringLeq, Lookup;
    if Lookup(m, name) != Lookup(n, name) {
      var longer := ds + [DepChange(name, Lookup(m, name), Lookup(n, name))];
      assert forall i :: 0 <= i < |ds| ==> longer[i] == ds[i];
      assert longer[|ds|].name == name;
    }
  }

  lemma {:induction false} DeltaOfExact(names: seq<string>, m: map<string, string>, n: map<string, string>)
    requires Strict(names, StringLeq)
    ensures Entries(DeltaOf(names, m, n), names, m, n)
  {
    hide StringLeq, Lookup;
    if names != [] {
      var front, name := names[..|names| - 1], names[|names| - 1];
      DeltaOfExact(front, m, n);
      var ds := DeltaOf(front, m, n);
      forall k | k in front ensures StringLeq(k, name) && k != name {
        var i :| 0 <= i < |front| && front[i] == k;
        assert names[i] == k;
      }
      EntriesMore(ds, front, name, m, n);
      hide Entries, Strict;
      assert names == front + [name];
      assert ds + [] == ds;
    }
  }

  /** The loop of `dependencyDetails` over the sorted names. */
  method DetailsOf(names: seq<string>, oldDeps: map<string, string>, newDeps: map<string, string>) returns (details: seq<string>)
    requires forall i :: 0 <= i < |names| ==> names[i] in oldDeps || names[i] in newDeps
    ensures details == FormatAll(DeltaOf(names, oldDeps, newDeps))
  {
    hide Format;
    details := [];
    for i := 0 to |names|
      invariant details == FormatAll(DeltaOf(names[..i], oldDeps, newDeps))
    {
      var name := names[i];
      ghost var delta := DeltaOf(names[..i], oldDeps, newDeps);
      assert names[..i + 1][..i] == names[..i];
      var before, after := Lookup(oldDeps, name), Lookup(newDeps, name);
      assert delta + [] == delta;
      if before.Some? && after.Some? && before.value == after.value { continue; }
      var entry := DepChange(name, before, after);
      assert FormatAll(delta + [entry]) == FormatAll(delta) + [Format(entry)];
      details := details + [Format(entry)];
    }
    assert names[..|names|] == names;
  }

  method SortedNames(keys: set<string>) returns (names: seq<string>)
    ensures Strict(names, StringLeq) && forall k :: k in names <==> k in keys
  {
    hide StringLeq;
    names := Enumerate(keys);
    StringLeqIsPreorder();
    SortedSet(names, keys, StringLeq);
    names := Sort(names, StringLeq);
  }

  /** `dependencyDetails`. */
  method DependencyDetails(oldDeps: map<string, string>, newDeps: map<string, string>) returns (details: seq<string>)
    ensures exists delta :: details == FormatAll(delta) && ExactDelta(delta, oldDeps, newDeps)
  {
    hide FormatAll, StringLeq, DeltaOf, Lookup;
    var keys := oldDeps.Keys + newDeps.Keys;
    var names := SortedNames(keys);
    assert forall i :: 0 <= i < |names| ==> names[i] in keys;
    details := DetailsOf(names, oldDeps, newDeps);
    assert details == FormatAll(DeltaOf(names, oldDeps, newDeps));
    DeltaOfExact(names, oldDeps, newDeps);
  }

  function Patch(m: map<string, string>, ds: seq<DepChange>): map<string, string> {
    if ds == [] then m
    else
      var d, p := ds[|ds| - 1], Patch(m, ds[..|ds| - 1]);
      if d.after.Some? then p[d.name := d.after.value] else p - {d.name}
  }

  lemma {:induction false} PatchLookup(m: map<string, string>, ds: seq<DepChange>, k: string)
    requires forall i, j :: 0 <= i < j < |ds| ==> ds[i].name != ds[j].name
    ensures forall i :: 0 <= i < |ds| && ds[i].name == k ==> Lookup(Patch(m, ds), k) == ds[i].after
    ensures (forall i :: 0 <= i < |ds| ==> ds[i].name != k) ==> Lookup(Patch(m, ds), k) == Lookup(m, k)
  {
    if ds != [] {
      var front := ds[..|ds| - 1];
      assert forall i :: 0 <= i < |front| ==> front[i] == ds[i];
      PatchLookup(m, front, k);
    }
  }

  lemma SameLookups(m: map<string, string>, n: map<string, string>)
    requires forall k :: Lookup(m, k) == Lookup(n, k)
    ensures m == n
  {
    assert forall k :: k in m ==> Lookup(m, k).Some?;
    assert forall k :: k in n ==> Lookup(n, k).Some?;
    forall k | k in m ensures k in n && m[k] == n[k] { assert Lookup(m, k) == Lookup(n, k); }
    forall k | k in n ensures k in m { assert Lookup(m, k) == Lookup(n, k); }
  }

  /** An exact delta turns the old manifest into the new one, and is empty just when nothing changed. */
  lemma DeltaPatches(ds: seq<DepChange>, m: map<string, string>, n: map<string, string>)
    requires ExactDelta(ds, m, n)
    ensures Patch(m, ds) == n
    ensures ds == [] <==> m == n
  {
    hide StringLeq, Patch;
    forall k ensures Lookup(Patch(m, ds), k) == Lookup(n, k) {
      PatchLookup(m, ds, k);
      if k !in m.Keys + n.Keys { assert Lookup(m, k) == Lookup(n, k); }
    }
    SameLookups(Patch(m, ds), n);
    if ds == [] { PatchNothing(m, ds); }
    assert ds != [] ==> ds[0].before != ds[0].after;
  }

  lemma PatchNothing(m: map<string, string>, ds: seq<DepChange>)
    requires ds == []
    ensures Patch(m, ds) == m
  {
  }

  // ---------- advisories ----------

  datatype ScanFinding = ScanFinding(ecosystem: string, pkg: string, advisory: string, version: string)

  datatype AdvisoryKey = AdvisoryKey(ecosystem: string, pkg: string, advisory: string)

  function KeyOf(f: ScanFinding): AdvisoryKey { AdvisoryKey(f.ecosystem, f.pkg, f.advisory) }

  predicate KeyLeq(a: AdvisoryKey, b: AdvisoryKey) {
    if a.ecosystem != b.ecosystem then StringLeq(a.ecosystem, b.ecosystem)
    else if a.pkg != b.pkg then StringLeq(a.pkg, b.pkg)
    else StringLeq(a.advisory, b.advisory)
  }

  lemma KeyLeqIsPreorder()
    ensures Preorder(KeyLeq)
  {
    hide StringLeq;
    forall a, b ensures KeyLeq(a, b) || KeyLeq(b, a) {
      LexStep(a.ecosystem, b.ecosystem, "");
      LexStep(a.pkg, b.pkg, "");
      LexStep(a.advisory, b.advisory, "");
    }
    forall a, b, c | KeyLeq(a, b) && KeyLeq(b, c) ensures KeyLeq(a, c) {
      LexStep(a.ecosystem, b.ecosystem, c.ecosystem);
      LexStep(a.pkg, b.pkg, c.pkg);
      LexStep(a.advisory, b.advisory, c.advisory);
    }
  }

  predicate Reported(fs: seq<ScanFinding>, k: AdvisoryKey) { exists i :: 0 <= i < |fs| && KeyOf(fs[i]) == k }

  /** `f` is the last finding of its key. */
  predicate LastOf(fs: seq<ScanFinding>, f: ScanFinding) {
    exists i :: 0 <= i < |fs| && fs[i] == f && forall j :: i < j < |fs| ==> KeyOf(fs[j]) != KeyOf(f)
  }

  /** The head findings the base does not have, the last one of each key. */
  method NewInHead(base: seq<ScanFinding>, head: seq<ScanFinding>) returns (headSet: map<AdvisoryKey, ScanFinding>)
    ensures forall k :: k in headSet <==> Reported(head, k) && !Reported(base, k)
    ensures forall k :: k in headSet ==> KeyOf(headSet[k]) == k && LastOf(head, headSet[k])
  {
    var baseSet: set<AdvisoryKey> := {};
    for i := 0 to |base|
      invariant forall k :: k in baseSet <==> Reported(base[..i], k)
    {
      ReportedMore(base[..i], base[i]);
      assert base[..i + 1] == base[..i] + [base[i]];
      hide Reported;
      baseSet := baseSet + {KeyOf(base[i])};
    }
    assert base[..|base|] == base;
    headSet := map[];
    for i := 0 to |head|
      invariant forall k :: k in headSet <==> k !in baseSet && Reported(head[..i], k)
      invariant forall k :: k in headSet ==> KeyOf(headSet[k]) == k && LastOf(head[..i], headSet[k])
    {
      var f := head[i];
      assert head[..i + 1] == head[..i] + [f];
      ReportedMore(head[..i], f);
      NowLast(head[..i], f);
      forall k | k in headSet && k != KeyOf(f) ensures LastOf(head[..i] + [f], headSet[k]) { StillLast(head[..i], f, headSet[k]); }
      hide Reported, LastOf;
      if KeyOf(f) !in baseSet { headSet := headSet[KeyOf(f) := f]; }
    }
    assert head[..|head|] == head;
  }

  lemma ReportedMore(fs: seq<ScanFinding>, f: ScanFinding)
    ensures forall k :: Reported(fs + [f], k) <==> Reported(fs, k) || k == KeyOf(f)
  {
    forall k ensures Reported(fs + [f], k) <==> Reported(fs, k) || k == KeyOf(f) {
      if Reported(fs, k) {
        var i :| 0 <= i < |fs| && KeyOf(fs[i]) == k;
        assert KeyOf((fs + [f])[i]) == k;
      }
      assert KeyOf((fs + [f])[|fs|]) == KeyOf(f);
    }
  }

  lemma NowLast(fs: seq<ScanFinding>, f: ScanFinding)
    ensures LastOf(fs + [f], f)
  {
    assert (fs + [f])[|fs|] == f;
  }

  /** Two findings are about the same advisory of the same package of the same ecosystem. */
  predicate SameAdvisory(f: ScanFinding, g: ScanFinding) { f.ecosystem == g.ecosystem && f.pkg == g.pkg && f.advisory == g.advisory }

  /** By ecosystem, then by package, then by advisory, in byte order. */
  ghost predicate ListedBefore(f: ScanFinding, g: ScanFinding) {
    || Below(f.ecosystem, g.ecosystem)
    || (f.ecosystem == g.ecosystem && (Below(f.pkg, g.pkg) || (f.pkg == g.pkg && Below(f.advisory, g.advisory))))
  }

  ghost predicate Latest(fs: seq<ScanFinding>, f: ScanFinding) {
    exists i :: 0 <= i < |fs| && fs[i] == f && forall j :: i < j < |fs| ==> !SameAdvisory(fs[j], f)
  }

  /** The advisories of the head that the base does not have, in order and each once, as reported last. */
  ghost predicate ExactNews(news: seq<ScanFinding>, base: seq<ScanFinding>, head: seq<ScanFinding>) {
    && (forall i, j :: 0 <= i < j < |news| ==> ListedBefore(news[i], news[j]))
    && (forall s :: s in news ==> Latest(head, s) && forall b :: b in base ==> !SameAdvisory(b, s))
    && (forall h :: h in head && (forall b :: b in base ==> !SameAdvisory(b, h)) ==> exists s :: s in news && SameAdvisory(s, h))
  }

  lemma KeysOrder(f: ScanFinding, g: ScanFinding)
    requires KeyLeq(KeyOf(f), KeyOf(g)) && KeyOf(f) != KeyOf(g)
    ensures ListedBefore(f, g)
  {
    StringLeqMeans(f.ecosystem, g.ecosystem);
    StringLeqMeans(f.pkg, g.pkg);
    StringLeqMeans(f.advisory, g.advisory);
    hide StringLeq, Below;
  }

  /** What holds of the keys holds of the findings. */
  lemma KeyedNews(news: seq<ScanFinding>, base: seq<ScanFinding>, head: seq<ScanFinding>)
    requires forall i, j :: 0 <= i < j < |news| ==> KeyLeq(KeyOf(news[i]), KeyOf(news[j])) && KeyOf(news[i]) != KeyOf(news[j])
    requires forall k :: Reported(news, k) <==> Reported(head, k) && !Reported(base, k)
    requires forall i :: 0 <= i < |news| ==> LastOf(head, news[i])
    ensures ExactNews(news, base, head)
  {
    assert forall f, g :: SameAdvisory(f, g) <==> KeyOf(f) == KeyOf(g);
    hide KeyLeq, KeyOf, SameAdvisory, ListedBefore;
    forall i, j | 0 <= i < j < |news| ensures ListedBefore(news[i], news[j]) { KeysOrder(news[i], news[j]); }
    forall s | s in news ensures Latest(head, s) && forall b :: b in base ==> !SameAdvisory(b, s) {
      var i :| 0 <= i < |news| && news[i] == s;
      assert Reported(news, KeyOf(s));
    }
    forall h | h in head && (forall b :: b in base ==> !SameAdvisory(b, h)) ensures exists s :: s in news && SameAdvisory(s, h) {
      assert Reported(head, KeyOf(h)) && !Reported(base, KeyOf(h));
      var i :| 0 <= i < |news| && KeyOf(news[i]) == KeyOf(h);
      assert news[i] in news;
    }
  }

  /** `osvDeltaFindings`: the advisories of the head that the base does not have, in key order and each
      once, with the version the scanner reported last. */
  method OsvDelta(base: seq<ScanFinding>, head: seq<ScanFinding>) returns (out: seq<ScanFinding>)
    ensures ExactNews(out, base, head)
  {
    hide KeyLeq, LastOf;
    var headSet := NewInHead(base, head);
    var keys := Enumerate(headSet.Keys);
    KeyLeqIsPreorder();
    SortedSet(keys, headSet.Keys, KeyLeq);
    keys := Sort(keys, KeyLeq);
    hide Preorder, Sort;
    out := [];
    for i := 0 to |keys|
      invariant |out| == i && forall j :: 0 <= j < i ==> out[j] == headSet[keys[j]] && KeyOf(out[j]) == keys[j]
    {
      assert keys[i] in headSet.Keys;
      out := out + [headSet[keys[i]]];
    }
    forall k ensures Reported(out, k) <==> k in headSet {
      if k in headSet {
        var i :| 0 <= i < |keys| && keys[i] == k;
        assert KeyOf(out[i]) == k;
      }
    }
    KeyedNews(out, base, head);
  }

  lemma StillLast(fs: seq<ScanFinding>, f: ScanFinding, g: ScanFinding)
    requires LastOf(fs, g) && KeyOf(g) != KeyOf(f)
    ensures LastOf(fs + [f], g)
  {
    var i :| 0 <= i < |fs| && fs[i] == g && forall j :: i < j < |fs| ==> KeyOf(fs[j]) != KeyOf(g);
    assert (fs + [f])[i] == g;
  }
}
