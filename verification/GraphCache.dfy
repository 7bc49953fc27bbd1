/** `Retain` of internal/graphcache/graphcache.go: which prebuilt graphs to keep. */
module GraphCache {
  import opened Text
  import opened Sorting

  datatype Entry = Entry(key: string, repoId: string, builtAt: int, inFlight: bool)

  predicate NewestFirst(a: Entry, b: Entry) { a.builtAt >= b.builtAt }

  function OfRepo(es: seq<Entry>, r: string): seq<Entry> {
    if es == [] then [] else (if es[0].repoId == r then [es[0]] else []) + OfRepo(es[1..], r)
  }

  // ---------- what retention means ----------

  function NewerIn(s: seq<Entry>, b: int): nat { if s == [] then 0 else (if s[0].builtAt > b then 1 else 0) + NewerIn(s[1..], b) }

  function NotOlderIn(s: seq<Entry>, b: int): nat { if s == [] then 0 else (if s[0].builtAt >= b then 1 else 0) + NotOlderIn(s[1..], b) }

  /** How many entries of its repository come before entry `i`: the newer ones, and among equally old
      ones those listed earlier. */
  function Rank(es: seq<Entry>, i: nat): nat
    requires i < |es|
  {
    NotOlderIn(OfRepo(es[..i], es[i].repoId), es[i].builtAt) + NewerIn(OfRepo(es[i + 1..], es[i].repoId), es[i].builtAt)
  }

  /** Some unfinished run refers to the key. */
  predicate InFlight(es: seq<Entry>, key: string) { exists i :: 0 <= i < |es| && es[i].key == key && es[i].inFlight }

  predicate Kept(es: seq<Entry>, keep: int, key: string) {
    exists i :: 0 <= i < |es| && es[i].key == key && (InFlight(es, key) || Rank(es, i) < keep)
  }

  predicate Evicted(es: seq<Entry>, keep: int, key: string) {
    exists i :: 0 <= i < |es| && es[i].key == key && !InFlight(es, key) && Rank(es, i) >= keep
  }

  // ---------- rank is the position in the sorted list ----------

  lemma NewestFirstIsPreorder()
    ensures Preorder(NewestFirst)
  {
  }

  function InsertAt(x: Entry, s: seq<Entry>): (q: nat)
    ensures q <= |s|
  {
    if s == [] || NewestFirst(x, s[0]) then 0 else 1 + InsertAt(x, s[1..])
  }

  lemma {:induction false} InsertSplits(x: Entry, s: seq<Entry>)
    requires Sorted(s, NewestFirst)
    ensures var q := InsertAt(x, s);
      && Insert(x, s, NewestFirst) == s[..q] + [x] + s[q..]
      && q == NewerIn(s, x.builtAt)
      && forall k :: 0 <= k < |s| ==> (k < q <==> s[k].builtAt > x.builtAt)
  {
    if !(s == [] || NewestFirst(x, s[0])) {
      InsertSplits(x, s[1..]);
    } else {
      NoneNewer(s, x.builtAt);
    }
  }

  lemma {:induction false} NoneNewer(s: seq<Entry>, b: int)
    requires forall k :: 0 <= k < |s| ==> s[k].builtAt <= b
    ensures NewerIn(s, b) == 0
  {
    if s != [] { NoneNewer(s[1..], b); }
  }

  lemma {:induction false} InsertCounts(x: Entry, s: seq<Entry>, b: int)
    ensures NewerIn(Insert(x, s, NewestFirst), b) == NewerIn([x] + s, b)
  {
    assert ([x] + s)[1..] == s;
    if !(s == [] || NewestFirst(x, s[0])) {
      InsertCounts(x, s[1..], b);
      assert ([x] + s[1..])[1..] == s[1..];
    }
  }

  lemma {:induction false} SortCounts(s: seq<Entry>, b: int)
    ensures NewerIn(Sort(s, NewestFirst), b) == NewerIn(s, b)
  {
    if s != [] {
      SortCounts(s[1..], b);
      InsertCounts(s[0], Sort(s[1..], NewestFirst), b);
      assert ([s[0]] + Sort(s[1..], NewestFirst))[1..] == Sort(s[1..], NewestFirst);
    }
  }

  /** Putting an entry in front moves the others back by one where it comes before them. */
  lemma RankCons(es: seq<Entry>, i: nat)
    requires 0 < i < |es|
    ensures Rank(es, i) == Rank(es[1..], i - 1) + (if es[0].repoId == es[i].repoId && es[0].builtAt >= es[i].builtAt then 1 else 0)
  {
    var r := es[i].repoId;
    assert es[..i][1..] == es[1..][..i - 1] && es[..i][0] == es[0];
    assert es[i + 1..] == es[1..][i..];
    var tail := OfRepo(es[1..][..i - 1], r);
    assert OfRepo(es[..i], r) == (if es[0].repoId == r then [es[0]] else []) + tail;
    assert es[0].repoId == r ==> ([es[0]] + tail)[1..] == tail;
    assert [] + tail == tail;
  }

  /** Entry `i` belongs to the repository and has that rank. */
  predicate Stands(es: seq<Entry>, r: string, i: int, p: int) { 0 <= i < |es| && es[i].repoId == r && Rank(es, i) == p }

  ghost predicate HasRank(es: seq<Entry>, r: string, p: int) { exists i :: Stands(es, r, i, p) }

  ghost predicate RanksAreIndices(es: seq<Entry>, r: string, s: seq<Entry>) {
    && (forall i, p :: Stands(es, r, i, p) ==> p < |s| && s[p] == es[i])
    && (forall p :: 0 <= p < |s| ==> HasRank(es, r, p))
  }

  /** In the repository's list, sorted stably from newest to oldest, every entry stands at its rank. */
  lemma {:induction false} RankIsPosition(es: seq<Entry>, r: string)
    ensures RanksAreIndices(es, r, Sort(OfRepo(es, r), NewestFirst))
  {
    if es != [] {
      var t := es[1..];
      RankIsPosition(t, r);
      NewestFirstIsPreorder();
      SortSorts(OfRepo(t, r), NewestFirst);
      if es[0].repoId == r {
        RankWithHead(es, r);
      } else {
        RankWithoutHead(es, r);
      }
    }
  }

  /** How ranks move when an entry is put in front. */
  lemma StandsCons(es: seq<Entry>, r: string, i: int, p: int)
    requires es != []
    ensures var t := es[1..];
      && (Stands(es, r, i, p) && i > 0 ==> Stands(t, r, i - 1, if es[0].repoId == r && es[0].builtAt >= es[i].builtAt then p - 1 else p))
      && (Stands(t, r, i, p) ==> Stands(es, r, i + 1, if es[0].repoId == r && es[0].builtAt >= t[i].builtAt then p + 1 else p))
  {
    hide Rank;
    if 0 < i < |es| { RankCons(es, i); }
    if 0 <= i < |es| - 1 { RankCons(es, i + 1); }
  }

  lemma RankWithoutHead(es: seq<Entry>, r: string)
    requires es != [] && es[0].repoId != r && RanksAreIndices(es[1..], r, Sort(OfRepo(es[1..], r), NewestFirst))
    ensures RanksAreIndices(es, r, Sort(OfRepo(es, r), NewestFirst))
  {
    var t := es[1..];
    assert OfRepo(es, r) == OfRepo(t, r);
    var s := Sort(OfRepo(t, r), NewestFirst);
    hide Rank, Sort, OfRepo;
    forall i, p | Stands(es, r, i, p) ensures p < |s| && s[p] == es[i] {
      StandsCons(es, r, i, p);
      assert t[i - 1] == es[i];
    }
    forall p | 0 <= p < |s| ensures HasRank(es, r, p) {
      assert HasRank(t, r, p);
      var i :| Stands(t, r, i, p);
      StandsCons(es, r, i, p);
    }
  }

  lemma RankWithHead(es: seq<Entry>, r: string)
    requires es != [] && es[0].repoId == r && RanksAreIndices(es[1..], r, Sort(OfRepo(es[1..], r), NewestFirst))
    requires Sorted(Sort(OfRepo(es[1..], r), NewestFirst), NewestFirst)
    ensures RanksAreIndices(es, r, Sort(OfRepo(es, r), NewestFirst))
  {
    var t, e := es[1..], es[0];
    var s' := Sort(OfRepo(t, r), NewestFirst);
    assert OfRepo(es, r) == [e] + OfRepo(t, r) && OfRepo(es, r)[1..] == OfRepo(t, r);
    InsertSplits(e, s');
    SortCounts(OfRepo(t, r), e.builtAt);
    var q := InsertAt(e, s');
    assert Stands(es, r, 0, q) by { assert es[..0] == []; }
    HeadInserted(es, r, s', q, s'[..q] + [e] + s'[q..]);
  }

  lemma HeadInserted(es: seq<Entry>, r: string, s': seq<Entry>, q: nat, s: seq<Entry>)
    requires es != [] && es[0].repoId == r && RanksAreIndices(es[1..], r, s')
    requires q <= |s'| && s == s'[..q] + [es[0]] + s'[q..] && Stands(es, r, 0, q)
    requires forall k :: 0 <= k < |s'| ==> (k < q <==> s'[k].builtAt > es[0].builtAt)
    ensures RanksAreIndices(es, r, s)
  {
    hide Rank;
    var t := es[1..];
    assert forall k :: 0 <= k < |s| ==> s[k] == if k < q then s'[k] else if k == q then es[0] else s'[k - 1];
    forall i, p | Stands(es, r, i, p) ensures p < |s| && s[p] == es[i] {
      if i > 0 {
        StandsCons(es, r, i, p);
        assert t[i - 1] == es[i];
      }
    }
    forall p | 0 <= p < |s| ensures HasRank(es, r, p) {
      if p != q {
        var p' := if p < q then p else p - 1;
        assert HasRank(t, r, p');
        var i :| Stands(t, r, i, p');
        StandsCons(es, r, i, p');
      }
    }
  }

  // ---------- the algorithm ----------

  lemma {:induction false} OfRepoSnoc(es: seq<Entry>, e: Entry, r: string)
    ensures OfRepo(es + [e], r) == OfRepo(es, r) + (if e.repoId == r then [e] else [])
  {
    if es == [] {
      assert (es + [e])[1..] == [];
    } else {
      OfRepoSnoc(es[1..], e, r);
      assert (es + [e])[1..] == es[1..] + [e];
    }
  }

  /** Groups the entries by repository, in order. */
  method GroupByRepo(entries: seq<Entry>) returns (byRepo: map<string, seq<Entry>>)
    ensures forall r :: r in byRepo <==> exists i :: 0 <= i < |entries| && entries[i].repoId == r
    ensures forall r :: r in byRepo ==> byRepo[r] == OfRepo(entries, r)
  {
    byRepo := map[];
    for i := 0 to |entries|
      invariant Grouped(byRepo, entries[..i])
    {
      var e := entries[i];
      assert entries[..i + 1] == entries[..i] + [e];
      GroupedMore(byRepo, entries[..i], e);
      hide Grouped;
      byRepo := byRepo[e.repoId := (if e.repoId in byRepo then byRepo[e.repoId] else []) + [e]];
    }
    assert entries[..|entries|] == entries;
  }

  predicate OccursIn(es: seq<Entry>, r: string) { exists i :: 0 <= i < |es| && es[i].repoId == r }

  ghost predicate Grouped(byRepo: map<string, seq<Entry>>, es: seq<Entry>) {
    && (forall r :: r in byRepo <==> OccursIn(es, r))
    && (forall r :: r in byRepo ==> byRepo[r] == OfRepo(es, r))
  }

  lemma GroupedMore(byRepo: map<string, seq<Entry>>, es: seq<Entry>, e: Entry)
    requires Grouped(byRepo, es)
    ensures Grouped(byRepo[e.repoId := (if e.repoId in byRepo then byRepo[e.repoId] else []) + [e]], es + [e])
  {
    assert e.repoId !in byRepo ==> OfRepo(es, e.repoId) == [] by {
      if e.repoId !in byRepo { NoneOfRepo(es, e.repoId) by { assert !OccursIn(es, e.repoId); } }
    }
    hide OfRepo, OccursIn;
    forall r ensures OccursIn(es + [e], r) <==> OccursIn(es, r) || r == e.repoId { OccursMore(es, e, r); }
    forall r ensures OfRepo(es + [e], r) == OfRepo(es, r) + (if e.repoId == r then [e] else []) { OfRepoSnoc(es, e, r); }
  }

  lemma OccursMore(es: seq<Entry>, e: Entry, r: string)
    ensures OccursIn(es + [e], r) <==> OccursIn(es, r) || r == e.repoId
  {
    assert (es + [e])[|es|] == e;
    if i :| 0 <= i < |es| && es[i].repoId == r { assert (es + [e])[i].repoId == r; }
  }

  lemma {:induction false} NoneOfRepo(es: seq<Entry>, r: string)
    requires forall j :: 0 <= j < |es| ==> es[j].repoId != r
    ensures OfRepo(es, r) == []
  {
    if es != [] { NoneOfRepo(es[1..], r); }
  }

  method AddOnce(s: seq<string>, key: string) returns (r: seq<string>)
    requires NoRepeats(s)
    ensures NoRepeats(r) && forall k :: k in r <==> k in s || k == key
  {
    r := if key in s then s else s + [key];
  }

  /** What one sorted list contributes up to position `n`. */
  predicate ListKeeps(list: seq<Entry>, n: int, keep: int, flying: set<string>, key: string) {
    exists p :: 0 <= p < n && p < |list| && list[p].key == key && (key in flying || p < keep)
  }

  predicate ListEvicts(list: seq<Entry>, n: int, keep: int, flying: set<string>, key: string) {
    exists p :: 0 <= p < n && p < |list| && list[p].key == key && key !in flying && p >= keep
  }

  /** The loop over one repository's list. */
  method RetainList(list: seq<Entry>, keepPerRepo: int, flying: set<string>, keep0: seq<string>, evict0: seq<string>)
    returns (keep: seq<string>, evict: seq<string>)
    requires NoRepeats(keep0)
    ensures NoRepeats(keep)
    ensures forall k :: k in keep <==> k in keep0 || ListKeeps(list, |list|, keepPerRepo, flying, k)
    ensures forall k :: k in evict <==> k in evict0 || ListEvicts(list, |list|, keepPerRepo, flying, k)
  {
    keep, evict := keep0, evict0;
    var kept := 0;
    for p := 0 to |list|
      invariant NoRepeats(keep)
      invariant if p <= keepPerRepo then kept == p else kept >= keepPerRepo
      invariant kept >= 0
      invariant forall k :: k in keep <==> k in keep0 || ListKeeps(list, p, keepPerRepo, flying, k)
      invariant forall k :: k in evict <==> k in evict0 || ListEvicts(list, p, keepPerRepo, flying, k)
    {
      ListStep(list, p, keepPerRepo, flying);
      hide ListKeeps, ListEvicts, NoRepeats;
      if kept >= keepPerRepo && list[p].key !in flying {
        evict := evict + [list[p].key];
        continue;
      }
      keep := AddOnce(keep, list[p].key);
      kept := kept + 1;
    }
  }

  lemma ListStep(list: seq<Entry>, p: nat, keep: int, flying: set<string>)
    requires p < |list|
    ensures forall k :: ListKeeps(list, p + 1, keep, flying, k) <==> ListKeeps(list, p, keep, flying, k) || (k == list[p].key && (k in flying || p < keep))
    ensures forall k :: ListEvicts(list, p + 1, keep, flying, k) <==> ListEvicts(list, p, keep, flying, k) || (k == list[p].key && k !in flying && p >= keep)
  {
    forall k ensures ListKeeps(list, p + 1, keep, flying, k) <==> ListKeeps(list, p, keep, flying, k) || (k == list[p].key && (k in flying || p < keep)) {
      if k == list[p].key && (k in flying || p < keep) { assert 0 <= p < p + 1 && list[p].key == k; }
      if ListKeeps(list, p, keep, flying, k) {
        var q :| 0 <= q < p && list[q].key == k && (k in flying || q < keep);
        assert 0 <= q < p + 1;
      }
    }
    forall k ensures ListEvicts(list, p + 1, keep, flying, k) <==> ListEvicts(list, p, keep, flying, k) || (k == list[p].key && k !in flying && p >= keep) {
      if k == list[p].key && k !in flying && p >= keep { assert 0 <= p < p + 1 && list[p].key == k; }
      if ListEvicts(list, p, keep, flying, k) {
        var q :| 0 <= q < p && list[q].key == k && k !in flying && q >= keep;
        assert 0 <= q < p + 1;
      }
    }
  }

  /** Which lists hold a kept or an evicted key, in terms of ranks. */
  lemma ListMeaning(es: seq<Entry>, r: string, keep: int, flying: set<string>, key: string)
    requires forall k :: k in flying <==> InFlight(es, k)
    ensures var list := Sort(OfRepo(es, r), NewestFirst);
      && (ListKeeps(list, |list|, keep, flying, key)
          <==> exists i :: 0 <= i < |es| && es[i].repoId == r && es[i].key == key && (InFlight(es, key) || Rank(es, i) < keep))
      && (ListEvicts(list, |list|, keep, flying, key)
          <==> exists i :: 0 <= i < |es| && es[i].repoId == r && es[i].key == key && !InFlight(es, key) && Rank(es, i) >= keep)
  {
    RankIsPosition(es, r);
    var list := Sort(OfRepo(es, r), NewestFirst);
    hide Rank, Sort, InFlight;
    if ListKeeps(list, |list|, keep, flying, key) {
      var p :| 0 <= p < |list| && list[p].key == key && (key in flying || p < keep);
      assert HasRank(es, r, p);
      var i :| Stands(es, r, i, p);
    }
    if ListEvicts(list, |list|, keep, flying, key) {
      var p :| 0 <= p < |list| && list[p].key == key && key !in flying && p >= keep;
      assert HasRank(es, r, p);
      var i :| Stands(es, r, i, p);
    }
    forall i | 0 <= i < |es| && es[i].repoId == r ensures Rank(es, i) < |list| && list[Rank(es, i)] == es[i] {
      assert Stands(es, r, i, Rank(es, i));
    }
  }

  /** `Retain`. Whatever order the repositories come in, a key is kept just when some unfinished run uses
      it or some entry of it ranks among the newest `keepPerRepo` of its repository; it is evicted just
      when no run uses it and some entry of it ranks lower. Nothing is kept twice. */
  method Retain(entries: seq<Entry>, keepPerRepo: int) returns (keep: seq<string>, evict: seq<string>)
    ensures NoRepeats(keep)
    ensures forall k :: k in keep <==> Kept(entries, keepPerRepo, k)
    ensures forall k :: k in evict <==> Evicted(entries, keepPerRepo, k)
  {
    hide Rank, ListKeeps, ListEvicts, NoRepeats, OfRepo, Sort;
    var byRepo := GroupByRepo(entries);
    var flying: set<string>;
    keep, flying := FlyingKeys(entries);
    evict := [];
    var rest := byRepo.Keys;
    while rest != {}
      invariant rest <= byRepo.Keys && NoRepeats(keep)
      invariant forall k :: k in keep <==> InFlight(entries, k) || exists r :: r in byRepo.Keys - rest && RepoKeeps(entries, r, keepPerRepo, flying, k)
      invariant forall k :: k in evict <==> exists r :: r in byRepo.Keys - rest && RepoEvicts(entries, r, keepPerRepo, flying, k)
    {
      var r :| r in rest;
      var list := Sort(byRepo[r], NewestFirst);
      keep, evict := RetainList(list, keepPerRepo, flying, keep, evict);
      assert byRepo.Keys - (rest - {r}) == (byRepo.Keys - rest) + {r};
      rest := rest - {r};
    }
    assert byRepo.Keys - {} == byRepo.Keys;
    forall k ensures (k in keep <==> Kept(entries, keepPerRepo, k)) && (k in evict <==> Evicted(entries, keepPerRepo, k)) {
      AllRepos(entries, byRepo.Keys, keepPerRepo, flying, k);
    }
  }

  predicate RepoKeeps(es: seq<Entry>, r: string, keep: int, flying: set<string>, key: string) {
    var list := Sort(OfRepo(es, r), NewestFirst);
    ListKeeps(list, |list|, keep, flying, key)
  }

  predicate RepoEvicts(es: seq<Entry>, r: string, keep: int, flying: set<string>, key: string) {
    var list := Sort(OfRepo(es, r), NewestFirst);
    ListEvicts(list, |list|, keep, flying, key)
  }

  lemma AllRepos(es: seq<Entry>, repos: set<string>, keep: int, flying: set<string>, key: string)
    requires forall r :: r in repos <==> exists i :: 0 <= i < |es| && es[i].repoId == r
    requires forall k :: k in flying <==> InFlight(es, k)
    ensures Kept(es, keep, key) <==> InFlight(es, key) || exists r :: r in repos && RepoKeeps(es, r, keep, flying, key)
    ensures Evicted(es, keep, key) <==> exists r :: r in repos && RepoEvicts(es, r, keep, flying, key)
  {
    hide Rank, ListKeeps, ListEvicts, OfRepo, Sort;
    forall r ensures (RepoKeeps(es, r, keep, flying, key)
          <==> exists i :: 0 <= i < |es| && es[i].repoId == r && es[i].key == key && (InFlight(es, key) || Rank(es, i) < keep))
      && (RepoEvicts(es, r, keep, flying, key)
          <==> exists i :: 0 <= i < |es| && es[i].repoId == r && es[i].key == key && !InFlight(es, key) && Rank(es, i) >= keep)
    {
      ListMeaning(es, r, keep, flying, key);
    }
    if Kept(es, keep, key) {
      var i :| 0 <= i < |es| && es[i].key == key && (InFlight(es, key) || Rank(es, i) < keep);
      assert es[i].repoId in repos && RepoKeeps(es, es[i].repoId, keep, flying, key);
    }
    if Evicted(es, keep, key) {
      var i :| 0 <= i < |es| && es[i].key == key && !InFlight(es, key) && Rank(es, i) >= keep;
      assert es[i].repoId in repos && RepoEvicts(es, es[i].repoId, keep, flying, key);
    }
  }

  /** The first loop: keys an unfinished run refers to are kept regardless of age. */
  method FlyingKeys(entries: seq<Entry>) returns (keep: seq<string>, flying: set<string>)
    ensures NoRepeats(keep)
    ensures forall k :: k in keep <==> InFlight(entries, k)
    ensures forall k :: k in flying <==> InFlight(entries, k)
  {
    keep, flying := [], {};
    for i := 0 to |entries|
      invariant NoRepeats(keep)
      invariant forall k :: k in keep <==> k in flying
      invariant forall k :: k in flying <==> exists j :: 0 <= j < i && entries[j].key == k && entries[j].inFlight
    {
      if entries[i].inFlight {
        keep := AddOnce(keep, entries[i].key);
        flying := flying + {entries[i].key};
      }
    }
  }

  // ---------- what follows ----------

  /** Keeping more per repository never drops a kept key. */
  lemma MoreKeepsMore(es: seq<Entry>, n: int, m: int, key: string)
    requires n <= m
    ensures Kept(es, n, key) ==> Kept(es, m, key)
    ensures Evicted(es, m, key) ==> Evicted(es, n, key)
  {
    hide Rank, InFlight;
  }

  ghost predicate DistinctKeys(es: seq<Entry>) { forall i, j :: 0 <= i < j < |es| ==> es[i].key != es[j].key }

  /** The entries whose key is in a set, in order. */
  function Sub(es: seq<Entry>, ks: set<string>): seq<Entry> {
    if es == [] then [] else (if es[0].key in ks then [es[0]] else []) + Sub(es[1..], ks)
  }

  lemma {:induction false} SubNewer(es: seq<Entry>, ks: set<string>, r: string, b: int)
    ensures NewerIn(OfRepo(Sub(es, ks), r), b) <= NewerIn(OfRepo(es, r), b)
  {
    if es != [] {
      SubNewer(es[1..], ks, r, b);
      var t, u := OfRepo(es[1..], r), OfRepo(Sub(es[1..], ks), r);
      OfRepoCons(es[0], es[1..], r);
      OfRepoCons(es[0], Sub(es[1..], ks), r);
      assert es == [es[0]] + es[1..];
      assert ([es[0]] + t)[1..] == t && ([es[0]] + u)[1..] == u;
      assert [] + Sub(es[1..], ks) == Sub(es[1..], ks);
    }
  }

  lemma OfRepoCons(e: Entry, es: seq<Entry>, r: string)
    ensures OfRepo([e] + es, r) == if e.repoId == r then [e] + OfRepo(es, r) else OfRepo(es, r)
  {
    assert ([e] + es)[1..] == es;
  }

  /** Dropping entries never moves a remaining one back. */
  lemma {:induction false} SubRank(es: seq<Entry>, ks: set<string>, j: nat) returns (i: nat)
    requires j < |Sub(es, ks)|
    ensures i < |es| && es[i] == Sub(es, ks)[j] && Rank(Sub(es, ks), j) <= Rank(es, i)
    decreases |es|
  {
    var t, sub := es[1..], Sub(es, ks);
    if es[0].key in ks {
      assert sub == [es[0]] + Sub(t, ks) && sub[1..] == Sub(t, ks);
      if j == 0 {
        i := 0;
        HeadRank(es, ks);
      } else {
        hide Rank, Sub;
        i := SubRank(t, ks, j - 1);
        i := i + 1;
        RankCons(es, i);
        RankCons(sub, j);
      }
    } else {
      assert sub == Sub(t, ks);
      hide Rank, Sub;
      i := SubRank(t, ks, j);
      i := i + 1;
      RankCons(es, i);
    }
  }

  lemma HeadRank(es: seq<Entry>, ks: set<string>)
    requires es != [] && es[0].key in ks
    ensures Rank(Sub(es, ks), 0) <= Rank(es, 0)
  {
    var sub := Sub(es, ks);
    SubNewer(es[1..], ks, es[0].repoId, es[0].builtAt);
    assert sub == [es[0]] + Sub(es[1..], ks) && sub[1..] == Sub(es[1..], ks);
    assert sub[..0] == [] && es[..0] == [];
    hide Sub;
  }

  lemma {:induction false} SubContains(es: seq<Entry>, ks: set<string>, i: nat)
    requires i < |es| && es[i].key in ks
    ensures es[i] in Sub(es, ks)
  {
    if i > 0 { SubContains(es[1..], ks, i - 1); }
  }

  /** With one entry per key, nothing is both kept and evicted, and retaining what survived evicts
      nothing more. */
  lemma SecondPassEvictsNothing(es: seq<Entry>, keep: int, ks: set<string>, key: string)
    requires DistinctKeys(es) && forall k :: k in ks <==> Kept(es, keep, k)
    ensures !(Kept(es, keep, key) && Evicted(es, keep, key))
    ensures !Evicted(Sub(es, ks), keep, key)
  {
    var sub := Sub(es, ks);
    if key in ks && InFlight(es, key) { FlyingSurvives(es, ks, key); }
    if Evicted(sub, keep, key) {
      var j :| 0 <= j < |sub| && sub[j].key == key && !InFlight(sub, key) && Rank(sub, j) >= keep;
      var i := SubRank(es, ks, j);
      SubKeys(es, ks);
      hide Rank, InFlight;
    }
  }

  lemma FlyingSurvives(es: seq<Entry>, ks: set<string>, key: string)
    requires key in ks && InFlight(es, key)
    ensures InFlight(Sub(es, ks), key)
  {
    var f :| 0 <= f < |es| && es[f].key == key && es[f].inFlight;
    SubContains(es, ks, f);
  }

  lemma {:induction false} SubKeys(es: seq<Entry>, ks: set<string>)
    ensures forall e :: e in Sub(es, ks) ==> e.key in ks
  {
    if es != [] { SubKeys(es[1..], ks); }
  }

  // ---------- one key in two lists ----------

  /** Two entries of one key that no run uses, the first ranking higher in its list than the second. */
  predicate Apart(es: seq<Entry>, i: int, j: int) {
    0 <= i < |es| && 0 <= j < |es| && es[i].key == es[j].key && !InFlight(es, es[i].key) && Rank(es, i) < Rank(es, j)
  }

  /** A key is both kept and evicted just when no run uses it and it has entries on both sides of
      `keepPerRepo`. Some number to keep does that exactly if some key stands at two ranks. */
  lemma KeptAndEvicted(es: seq<Entry>, keep: int, key: string)
    ensures Kept(es, keep, key) && Evicted(es, keep, key) <==> exists i, j :: Apart(es, i, j) && es[i].key == key && Rank(es, i) < keep <= Rank(es, j)
    ensures (exists i, j :: Apart(es, i, j)) <==> exists n, k :: Kept(es, n, k) && Evicted(es, n, k)
  {
    hide Rank, InFlight;
    if i, j :| Apart(es, i, j) { assert Kept(es, Rank(es, j), es[i].key) && Evicted(es, Rank(es, j), es[i].key); }
    if n, k :| Kept(es, n, k) && Evicted(es, n, k) { TornApart(es, n, k); }
    if Kept(es, keep, key) && Evicted(es, keep, key) { TornApart(es, keep, key); }
  }

  lemma TornApart(es: seq<Entry>, keep: int, key: string)
    requires Kept(es, keep, key) && Evicted(es, keep, key)
    ensures exists i, j :: Apart(es, i, j) && es[i].key == key && Rank(es, i) < keep <= Rank(es, j)
  {
    hide Rank, InFlight;
    var i :| 0 <= i < |es| && es[i].key == key && (InFlight(es, key) || Rank(es, i) < keep);
    var j :| 0 <= j < |es| && es[j].key == key && !InFlight(es, key) && Rank(es, j) >= keep;
    assert Apart(es, i, j);
  }

  /** `n` graphs of a fork, newer than the tree it shares with its origin. */
  function Newer(n: nat): (s: seq<Entry>)
    ensures |s| == n
  {
    if n == 0 then [] else [Entry("newer", "fork", 1, false)] + Newer(n - 1)
  }

  lemma {:induction false} NewerCount(n: nat)
    ensures OfRepo(Newer(n), "fork") == Newer(n) && NotOlderIn(Newer(n), 0) == n
  {
    if n > 0 {
      NewerCount(n - 1);
      OfRepoCons(Entry("newer", "fork", 1, false), Newer(n - 1), "fork");
      assert Newer(n)[1..] == Newer(n - 1);
    }
  }

  const SHARED := "shared tree"

  function Forked(n: nat): seq<Entry> { [Entry(SHARED, "origin", 0, false)] + Newer(n) + [Entry(SHARED, "fork", 0, false)] }

  lemma OriginRanksFirst(n: nat)
    ensures Rank(Forked(n), 0) == 0
  {
    var es := Forked(n);
    var rest := Newer(n) + [es[n + 1]];
    assert es[..0] == [] && es[1..] == rest;
    NewerAreOfFork(n);
    NoneOfRepo(rest, "origin");
  }

  lemma ForkRanksLast(n: nat)
    ensures Rank(Forked(n), n + 1) == n
  {
    var es := Forked(n);
    assert es[..n + 1] == [es[0]] + Newer(n) && es[n + 2..] == [];
    OfRepoCons(es[0], Newer(n), "fork");
    NewerCount(n);
  }

  /** A tree that two repositories share has one key. Where the fork has moved on by `keepPerRepo` graphs, that
      key is kept for the origin and evicted for the fork, whatever positive number is kept. */
  lemma SharedTreeIsKeptAndEvicted(keep: nat)
    requires keep >= 1
    ensures Kept(Forked(keep), keep, SHARED) && Evicted(Forked(keep), keep, SHARED)
  {
    OriginRanksFirst(keep);
    ForkRanksLast(keep);
    NewerAreOfFork(keep);
    hide Rank;
    assert Forked(keep)[0].key == SHARED && Forked(keep)[keep + 1].key == SHARED;
  }

  lemma {:induction false} NewerAreOfFork(n: nat)
    ensures forall e :: e in Newer(n) ==> e.repoId == "fork" && !e.inFlight
  {
    if n > 0 { NewerAreOfFork(n - 1); }
  }
}
