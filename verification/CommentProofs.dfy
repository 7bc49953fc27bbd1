/** How many summary comments a pull request can collect. */
module CommentProofs {
  import opened Text
  import opened Intent
  import opened Validation
  import opened Protocol
  import opened SetSizes
  import AttemptProofs
  import Policy
  import Render

  /** The bot's marker comments on a thread. */
  function Markers(w: World, t: Thread): set<int> { set c | c in w.comments && Owned(c, t) :: c.id }

  /** The comment the ledger names for a thread, as a set of at most one id. */
  function Named(w: World, t: Thread): set<int> { if t in w.mapping then {w.mapping[t]} else {} }

  /** The marker comments that the ledger does not name. */
  function Strays(w: World, t: Thread): set<int> { Markers(w, t) - Named(w, t) }

  /** Ids identify comments and are handed out in order, and what the ledger maps is, where it still
      exists, a marker comment of that thread. */
  ghost predicate Sound(w: World) {
    && 0 < w.nextId
    && (forall c :: c in w.comments ==> 0 < c.id < w.nextId)
    && (forall c, d :: c in w.comments && d in w.comments && c.id == d.id ==> c == d)
    && (forall t :: t in w.mapping ==> 0 < w.mapping[t] < w.nextId)
    && (forall t, c :: t in w.mapping && c in w.comments && c.id == w.mapping[t] ==> Owned(c, t))
  }

  // ---------- what each operation does to the marker comments ----------

  lemma CreatedMarkers(w: World, t: Thread, body: string, u: Thread)
    requires Sound(w)
    ensures var w' := Created(w, t, body);
      Sound(w') && Markers(w', u) == Markers(w, u) + (if u == t && Contains(body, Render.MARKER) then {w.nextId} else {})
  {
    hide Contains;
    var n := Comment(w.nextId, t, true, body);
    var w' := Created(w, t, body);
    assert forall c :: c in w'.comments <==> c in w.comments || c == n;
    assert forall c :: c in w.comments && Owned(c, u) ==> c in w'.comments && Owned(c, u);
    assert n in w'.comments;
    if Owned(n, u) { assert n.id in Markers(w', u); }
  }

  lemma EditedMarkers(w: World, t: Thread, id: int, body: string, u: Thread)
    requires Sound(w) && id in Markers(w, t) && Contains(body, Render.MARKER)
    ensures var w' := w.(comments := Edited(w.comments, t.slug, id, body)); Sound(w') && Markers(w', u) == Markers(w, u)
  {
    hide Contains;
    var es := Edited(w.comments, t.slug, id, body);
    var w' := w.(comments := es);
    var m :| m in w.comments && Owned(m, t) && m.id == id;
    var m' := m.(body := body);
    assert Owned(m', u) <==> Owned(m, u);
    EditedContents(w, t, m, body);
    assert Markers(w', u) <= Markers(w, u);
    assert Markers(w, u) <= Markers(w', u);
  }

  lemma EditedContents(w: World, t: Thread, m: Comment, body: string)
    requires Sound(w) && m in w.comments && m.thread == t
    ensures var es := Edited(w.comments, t.slug, m.id, body);
      forall c :: c in es <==> (c in w.comments && c != m) || c == m.(body := body)
  {
    var es := Edited(w.comments, t.slug, m.id, body);
    assert forall i :: 0 <= i < |es| ==> w.comments[i] in w.comments && es[i] == if w.comments[i] == m then m.(body := body) else w.comments[i];
    forall c | (c in w.comments && c != m) || c == m.(body := body) ensures c in es {
      var k :| 0 <= k < |w.comments| && w.comments[k] == if c == m.(body := body) then m else c;
      assert es[k] in es;
    }
  }

  lemma FindOwnedMarker(w: World, t: Thread)
    requires Sound(w)
    ensures FindOwned(w.comments, t) == 0 <==> Markers(w, t) == {}
    ensures FindOwned(w.comments, t) != 0 ==> FindOwned(w.comments, t) in Markers(w, t)
  {
    hide Owned;
    FindOwnedFirst(w.comments, t);
    var id := FindOwned(w.comments, t);
    if id == 0 {
      assert Markers(w, t) == {};
    } else {
      var c :| c in w.comments && Owned(c, t) && c.id == id;
      assert c.id in Markers(w, t);
    }
  }

  lemma {:induction false} FindOwnedFirst(cs: seq<Comment>, t: Thread)
    requires forall c :: c in cs ==> c.id > 0
    ensures FindOwned(cs, t) == 0 ==> forall c :: c in cs ==> !Owned(c, t)
    ensures FindOwned(cs, t) != 0 ==> exists c :: c in cs && Owned(c, t) && c.id == FindOwned(cs, t)
  {
    hide Owned;
    if cs != [] {
      FindOwnedFirst(cs[1..], t);
      assert cs == [cs[0]] + cs[1..];
    }
  }

  lemma {:induction false} WithoutContents(cs: seq<Comment>, id: int)
    ensures forall c :: c in Without(cs, id) <==> c in cs && c.id != id
  {
    if cs != [] {
      WithoutContents(cs[1..], id);
      assert cs == [cs[0]] + cs[1..];
    }
  }

  lemma DeletedMarkers(w: World, id: int, u: Thread)
    requires Sound(w)
    ensures var w' := Next(w, Deleted(id)); Sound(w') && Markers(w', u) == Markers(w, u) - {id}
  {
    hide Owned;
    WithoutContents(w.comments, id);
    var w' := Next(w, Deleted(id));
    assert forall c :: c in w.comments && Owned(c, u) && c.id != id ==> c in w'.comments;
    assert Markers(w', u) <= Markers(w, u) - {id};
    assert Markers(w, u) - {id} <= Markers(w', u);
  }

  lemma ForeignMarkers(w: World, t: Thread, body: string, u: Thread)
    requires Sound(w)
    ensures var w' := Next(w, Foreign(t, body)); Sound(w') && Markers(w', u) == Markers(w, u)
  {
    hide Contains;
    var n := Comment(w.nextId, t, false, body);
    var w' := Next(w, Foreign(t, body));
    assert forall c :: c in w'.comments <==> c in w.comments || c == n;
  }

  // ---------- what each step does to the marker comments of one thread ----------

  /** No marker comment comes or goes, and the ledger names what it named or an existing marker. */
  ghost predicate Still(w: World, w': World, t: Thread) {
    Markers(w', t) == Markers(w, t) && (Named(w', t) == Named(w, t) || exists id :: id in Markers(w', t) && Named(w', t) == {id})
  }

  ghost predicate Grows(w: World, w': World, t: Thread) {
    w.nextId !in Markers(w, t) && Markers(w', t) == Markers(w, t) + {w.nextId}
  }

  /** A summary comment is created: only where none was named and none existed, or the named one is gone.
      The ledger then names the new one, unless a call was lost on the way. */
  ghost predicate Summarised(w: World, w': World, t: Thread, lost: bool) {
    && Grows(w, w', t)
    && Named(w, t) !! Markers(w, t) && (Named(w, t) == {} ==> Markers(w, t) == {})
    && (Named(w', t) == {w.nextId} || (lost && Named(w', t) == Named(w, t)))
  }

  /** The two calls whose failure leaves a new summary comment unnamed: its creation, if the answer is lost
      on the way back, and the update of the mapping, if it is refused. */
  predicate LosesName(f: Fates) { f.create == Lost || f.upsert == Refused }

  /** The step writes or acknowledges a review on the thread and meets such a failure. */
  predicate Loses(s: Step, t: Thread) {
    match s
    case Execution(_, accepted, g, _, f) => ThreadOf(g) == t && accepted.Ok? && accepted.value.PostReviewPayload? && LosesName(f)
    case Acknowledgement(g, f) => ThreadOf(g) == t && LosesName(f)
    case _ => false
  }

  /** A comment intent whose own text carries the marker. */
  ghost predicate Planted(w: World, w': World, t: Thread, s: Step) {
    && Grows(w, w', t) && Named(w', t) == Named(w, t)
    && s.Execution? && ThreadOf(s.grant) == t && s.accepted.Ok? && s.accepted.value.PostCommentPayload?
    && Contains(s.accepted.value.text, Render.MARKER)
  }

  ghost predicate Removed(w: World, w': World, t: Thread, s: Step) {
    s.Deleted? && Markers(w', t) == Markers(w, t) - {s.id} && Named(w', t) == Named(w, t)
  }

  ghost predicate Evolves(w: World, s: Step, t: Thread) {
    var w' := Next(w, s);
    Sound(w') && (Still(w, w', t) || Summarised(w, w', t, Loses(s, t)) || Planted(w, w', t, s) || Removed(w, w', t, s))
  }

  lemma FreshId(w: World, t: Thread)
    requires Sound(w)
    ensures w.nextId !in Markers(w, t)
  {
  }

  /** Naming a marker comment in the ledger keeps the world sound. */
  lemma UpsertSound(w: World, t: Thread, id: int, f: Fate, u: Thread)
    requires Sound(w) && id in Markers(w, t)
    ensures var w' := Upsert(w, t, id, f);
      Sound(w') && Markers(w', u) == Markers(w, u)
      && Named(w', u) == if u == t && TookEffect(f) then {id} else Named(w, u)
  {
    hide Contains;
    var m :| m in w.comments && Owned(m, t) && m.id == id;
  }

  lemma RenderedHasMarker(v: Verdict, summary: string, cs: seq<ReviewComment>)
    ensures Contains(Render.Rendered(v, summary, cs), Render.MARKER) && Contains(Render.QUEUED_BODY, Render.MARKER)
  {
    Render.FlatCons(Render.MARKER, Render.RestPieces(v, summary, cs));
    PrefixContains(Render.MARKER, Render.Flat(Render.RestPieces(v, summary, cs)));
    PrefixContains(Render.MARKER, Render.QUEUED_BODY[|Render.MARKER|..]);
    assert Render.QUEUED_BODY == Render.MARKER + Render.QUEUED_BODY[|Render.MARKER|..];
  }

  /** What the writer reports about the summary comment of a thread it was asked to write. */
  ghost predicate Served(w: World, r: Posted, t: Thread, create: Fate, u: Thread) {
    && Sound(r.world) && r.world.mapping == w.mapping
    && (r.id.Some? ==> r.id.value in Markers(r.world, t))
    && (|| Markers(r.world, u) == Markers(w, u)
        || (&& u == t && Grows(w, r.world, t) && (if r.id.Some? then r.id.value == w.nextId else create == Lost)
            && Named(w, t) !! Markers(w, t) && (Named(w, t) == {} ==> Markers(w, t) == {})))
  }

  lemma HasMapped(w: World, t: Thread)
    requires Sound(w) && t in w.mapping
    ensures Has(w.comments, t.slug, w.mapping[t]) <==> w.mapping[t] in Markers(w, t)
  {
    hide Contains;
    if Has(w.comments, t.slug, w.mapping[t]) {
      var c :| c in w.comments && c.thread.slug == t.slug && c.id == w.mapping[t];
      assert Owned(c, t);
    }
    if w.mapping[t] in Markers(w, t) {
      var c :| c in w.comments && Owned(c, t) && c.id == w.mapping[t];
      assert c.thread.slug == t.slug;
    }
  }

  lemma HasMarker(w: World, t: Thread, id: int)
    requires id in Markers(w, t)
    ensures Has(w.comments, t.slug, id)
  {
    hide Contains;
    var c :| c in w.comments && Owned(c, t) && c.id == id;
    assert c.thread.slug == t.slug;
  }

  lemma PostReviewServes(w: World, t: Thread, body: string, f: Fates, u: Thread)
    requires Sound(w) && Contains(body, Render.MARKER)
    ensures Served(w, WriterPostReview(w, t, Mapped(w, t), body, f), t, f.create, u)
  {
    hide Contains, Owned, FindOwned, Edited;
    var mapped := Mapped(w, t);
    if t in w.mapping { HasMapped(w, t); }
    FindOwnedMarker(w, t);
    var id := if mapped != 0 then mapped else FindOwned(w.comments, t);
    CreatedMarkers(w, t, body, u);
    CreatedMarkers(w, t, body, t);
    FreshId(w, t);
    if id != 0 && Has(w.comments, t.slug, id) {
      assert id in Markers(w, t);
      EditedMarkers(w, t, id, body, u);
      EditedMarkers(w, t, id, body, t);
    } else if id != 0 && mapped == 0 {
      HasMarker(w, t, id);
    }
    hide Markers, Created, Sound;
  }

  lemma AcknowledgeServes(w: World, t: Thread, f: Fates, u: Thread)
    requires Sound(w)
    ensures Served(w, WriterAcknowledge(w, t, f), t, f.create, u)
  {
    RenderedHasMarker(CommentVerdict, "", []);
    hide Contains, Owned, FindOwned, Render.QUEUED_BODY;
    FindOwnedMarker(w, t);
    CreatedMarkers(w, t, Render.QUEUED_BODY, u);
    CreatedMarkers(w, t, Render.QUEUED_BODY, t);
    FreshId(w, t);
    hide Markers, Created, Sound;
  }

  /** The ledger update that follows a served summary. */
  lemma ServedThenNamed(w: World, r: Posted, t: Thread, f: Fates, u: Thread)
    requires Sound(w) && Served(w, r, t, f.create, u)
    ensures r.id.None? ==> Still(w, r.world, u) || Summarised(w, r.world, u, u == t && LosesName(f))
    ensures r.id.Some? ==> var w' := Upsert(r.world, t, r.id.value, f.upsert);
      Sound(w') && (Still(w, w', u) || Summarised(w, w', u, u == t && LosesName(f)))
  {
    hide Markers;
    if r.id.Some? { UpsertSound(r.world, t, r.id.value, f.upsert, u); }
    hide Sound;
  }

  lemma LoggedServes(w: World, r: Posted, e: Entry, t: Thread, create: Fate, u: Thread)
    requires Served(w, r, t, create, u)
    ensures Served(w, r.(world := LogWrite(r.world, e, r.effect)), t, create, u)
  {
    LogKeeps(r.world, e, r.effect, u);
    LogKeeps(r.world, e, r.effect, t);
    hide Markers, Sound, LogWrite;
  }

  lemma ExecuteReviewEvolves(w: World, key: Key, p: Payload, g: Grant, git: Git, f: Fates, u: Thread)
    requires Sound(w) && p.PostReviewPayload? && Preflight(p, g, git, f).None?
    ensures var w' := Finish(w, key, p, g, git, f).world; Sound(w') && (Still(w, w', u) || Summarised(w, w', u, u == ThreadOf(g) && LosesName(f)))
  {
    var t := ThreadOf(g);
    var e := Entry(key, Resolve(p, g, git, Mapped(w, t)));
    var r := FinalWrite(w, p, g, Mapped(w, t), e, f);
    assert Served(w, r, t, f.create, u) by {
      RenderedHasMarker(p.verdict, p.summary, p.comments);
      hide Render.Rendered, Contains, Sound;
      PostReviewServes(w, t, Render.Rendered(p.verdict, p.summary, p.comments), f, u);
      LoggedServes(w, WriterPostReview(w, t, Mapped(w, t), Render.Rendered(p.verdict, p.summary, p.comments), f), e, t, f.create, u);
    }
    hide Preflight, FinalWrite, Contains;
    ServedThenNamed(w, r, t, f, u);
    hide Served, Resolve, Still, Summarised, Sound, Mapped;
    if r.id.Some? {
      RecordKeeps(Upsert(r.world, t, r.id.value, f.upsert), key, g.runId, Ref(g.repo, g.scope.number), f.record, w, u);
    }
  }

  lemma LogKeeps(w: World, e: Entry, effect: bool, u: Thread)
    ensures var w' := LogWrite(w, e, effect);
      (Sound(w) ==> Sound(w')) && Markers(w', u) == Markers(w, u) && w'.mapping == w.mapping
  {
  }

  lemma RecordKeeps(w: World, key: Key, run: string, ref: string, f: Fate, w0: World, u: Thread)
    ensures var w' := Record(w, key, run, ref, f);
      (Sound(w) ==> Sound(w')) && (Still(w0, w, u) ==> Still(w0, w', u)) && (forall lost :: Summarised(w0, w, u, lost) ==> Summarised(w0, w', u, lost))
  {
    var w' := Record(w, key, run, ref, f);
    assert Markers(w', u) == Markers(w, u) && Named(w', u) == Named(w, u);
  }

  lemma ExecuteCommentEvolves(w: World, key: Key, p: Payload, g: Grant, git: Git, f: Fates, u: Thread)
    requires Sound(w) && p.PostCommentPayload?
    ensures var w' := Finish(w, key, p, g, git, f).world;
      && Sound(w') && Named(w', u) == Named(w, u)
      && (|| Markers(w', u) == Markers(w, u)
          || (Grows(w, w', u) && u == ThreadOf(g) && Contains(p.text, Render.MARKER)))
  {
    CreatedMarkers(w, ThreadOf(g), p.text, u);
    FreshId(w, u);
    hide Contains, Owned;
    var c := Created(w, ThreadOf(g), p.text);
    var w' := Finish(w, key, p, g, git, f).world;
    assert w'.comments == c.comments || w'.comments == w.comments;
    assert w'.comments == c.comments ==> w'.nextId == c.nextId && Markers(w', u) == Markers(c, u);
    assert w'.comments == w.comments ==> Markers(w', u) == Markers(w, u);
  }

  lemma UnchangedIsStill(w: World, w': World, u: Thread)
    requires Sound(w) && w'.comments == w.comments && w'.mapping == w.mapping && w'.nextId == w.nextId
    ensures Sound(w') && Still(w, w', u)
  {
    assert Markers(w', u) == Markers(w, u);
  }

  lemma ExecutionEvolves(w: World, key: Key, accepted: Result<Payload, Error>, g: Grant, git: Git, f: Fates, u: Thread)
    requires Sound(w)
    ensures Evolves(w, Execution(key, accepted, g, git, f), u)
  {
    hide Sound, Preflight, Markers, Contains;
    var s := Execution(key, accepted, g, git, f);
    var w' := Next(w, s);
    if Execute(w, key, accepted, g, git, f).started {
      var p := accepted.value;
      assert w' == Finish(w, key, p, g, git, f).world;
      if p.PostReviewPayload? {
        ExecuteReviewEvolves(w, key, p, g, git, f, u);
      } else if p.PostCommentPayload? {
        ExecuteCommentEvolves(w, key, p, g, git, f, u);
        hide Finish;
        assert Still(w, w', u) || Planted(w, w', u, s);
      } else {
        UnchangedIsStill(w, w', u);
      }
    } else {
      UnchangedIsStill(w, w', u);
    }
  }

  lemma AcknowledgementEvolves(w: World, g: Grant, f: Fates, u: Thread)
    requires Sound(w)
    ensures Evolves(w, Acknowledgement(g, f), u)
  {
    var t := ThreadOf(g);
    AcknowledgeServes(w, t, f, u);
    ServedThenNamed(w, WriterAcknowledge(w, t, f), t, f, u);
    hide WriterAcknowledge, Served, Markers, Contains;
  }

  /** Every step keeps the world sound and does one of four things to the marker comments of a thread. */
  lemma EveryStepEvolves(w: World, s: Step, u: Thread)
    requires Sound(w)
    ensures Evolves(w, s, u)
  {
    match s
    case Execution(key, accepted, g, git, f) => ExecutionEvolves(w, key, accepted, g, git, f, u);
    case Acknowledgement(g, f) => AcknowledgementEvolves(w, g, f, u);
    case Deleted(id) => DeletedMarkers(w, id, u);
    case Foreign(t, body) => ForeignMarkers(w, t, body, u);
  }

  // ---------- whole runs ----------

  /** 1 if the step created a marker comment that the ledger does not name afterwards: an update that
      was lost, or a comment intent that carried the marker. */
  function Unnamed(w: World, s: Step, t: Thread): nat {
    if Markers(Next(w, s), t) - Markers(w, t) <= Named(Next(w, s), t) then 0 else 1
  }

  function UnnamedCreations(w: World, run: seq<Step>, t: Thread): nat {
    if run == [] then 0
    else UnnamedCreations(w, run[..|run| - 1], t) + Unnamed(After(w, run[..|run| - 1]), run[|run| - 1], t)
  }

  /** Could the step create a marker comment through a comment intent? */
  function Plants(s: Step, t: Thread): nat {
    if s.Execution? && ThreadOf(s.grant) == t && s.accepted.Ok? && s.accepted.value.PostCommentPayload?
      && Contains(s.accepted.value.text, Render.MARKER) then 1 else 0
  }

  function Plantings(run: seq<Step>, t: Thread): nat {
    if run == [] then 0 else Plantings(run[..|run| - 1], t) + Plants(run[|run| - 1], t)
  }

  /** Naming some marker comment leaves no more strays than naming `n` did. */
  lemma NamingAMarker(m: set<int>, n: set<int>, t: Thread, w: World, id: int)
    requires n == Named(w, t) && id in m
    ensures |m - {id}| <= |m - n|
  {
    SingletonSize(m, id);
    if t in w.mapping { SingletonSize(m, w.mapping[t]); } else { assert m - n == m; }
  }

  /** One more marker comment adds a stray unless it is the one named. */
  lemma OneMore(m: set<int>, n: set<int>, id: int)
    ensures |(m + {id}) - n| <= |m - n| + 1
    ensures n !! m ==> |(m + {id}) - {id}| <= |m - n|
  {
    SingletonSize(m - n, id);
    SubsetSize((m + {id}) - n, (m - n) + {id});
    if n !! m { assert m - n == m; SubsetSize((m + {id}) - {id}, m); }
  }

  lemma GrowthCounts(w: World, s: Step, t: Thread)
    requires Summarised(w, Next(w, s), t, Loses(s, t)) || Planted(w, Next(w, s), t, s)
    ensures |Strays(Next(w, s), t)| <= |Strays(w, t)| + Unnamed(w, s, t)
  {
    var w' := Next(w, s);
    hide Next, Markers, Contains;
    var m, n, n' := Markers(w, t), Named(w, t), Named(w', t);
    OneMore(m, n, w.nextId);
    if n' != {w.nextId} {
      assert n' == n;
      assert w.nextId in Markers(w', t) - m - n';
    }
  }

  lemma StraysGrowOnlyUnnamed(w: World, s: Step, t: Thread)
    requires Sound(w) && Evolves(w, s, t)
    ensures |Strays(Next(w, s), t)| <= |Strays(w, t)| + Unnamed(w, s, t)
  {
    var w' := Next(w, s);
    hide Next, Markers, Contains, Sound;
    if Still(w, w', t) {
      if Named(w', t) != Named(w, t) {
        var id :| id in Markers(w', t) && Named(w', t) == {id};
        NamingAMarker(Markers(w, t), Named(w, t), t, w, id);
      }
    } else if Removed(w, w', t, s) {
      SubsetSize(Strays(w', t), Strays(w, t));
    } else {
      GrowthCounts(w, s, t);
    }
  }

  /** A marker comment stays unnamed only where a call was lost or a comment intent planted it. */
  lemma UnnamedNeedsALoss(w: World, s: Step, t: Thread)
    requires Evolves(w, s, t)
    ensures Unnamed(w, s, t) <= (if Loses(s, t) then 1 else 0) + Plants(s, t)
  {
    hide Next, Markers, Contains, Sound, Loses;
  }

  lemma SummaryStaysNamed(w: World, s: Step, t: Thread)
    requires Sound(w) && Evolves(w, s, t) && Named(w, t) <= Markers(w, t) && !s.Deleted?
    ensures Named(Next(w, s), t) <= Markers(Next(w, s), t)
    ensures |Markers(Next(w, s), t)| <= |Markers(w, t)| + Plants(s, t) || |Markers(Next(w, s), t)| <= 1
  {
    var w' := Next(w, s);
    hide Next, Markers, Contains, Sound;
    SingletonSize(Markers(w, t), w.nextId);
    if Summarised(w, w', t, Loses(s, t)) {
      assert Named(w, t) == {};
      assert Markers(w', t) == {w.nextId};
    }
  }

  lemma {:induction false} RunsStaySound(run: seq<Step>)
    ensures Sound(After(EMPTY, run))
  {
    if run != [] {
      RunsStaySound(run[..|run| - 1]);
      EveryStepEvolves(After(EMPTY, run[..|run| - 1]), run[|run| - 1], Thread("", 0));
    }
  }

  /** How many steps of a run lose a call between a summary comment and its name, told from the fates alone. */
  function Losses(run: seq<Step>, t: Thread): nat {
    if run == [] then 0 else Losses(run[..|run| - 1], t) + (if Loses(run[|run| - 1], t) then 1 else 0)
  }

  /** Over every run, the bot's marker comments that the ledger does not name are at most as many as were
      created and left unnamed, and these at most as many as the lost calls and the comment intents that
      carry the marker themselves. */
  lemma {:induction false} StraysAreAccountedFor(run: seq<Step>, t: Thread)
    ensures |Strays(After(EMPTY, run), t)| <= UnnamedCreations(EMPTY, run, t) <= Losses(run, t) + Plantings(run, t)
  {
    if run != [] {
      var before, s := run[..|run| - 1], run[|run| - 1];
      StraysAreAccountedFor(before, t);
      RunsStaySound(before);
      EveryStepEvolves(After(EMPTY, before), s, t);
      StraysGrowOnlyUnnamed(After(EMPTY, before), s, t);
      UnnamedNeedsALoss(After(EMPTY, before), s, t);
      hide After, Unnamed, Loses, Plants, Strays, Evolves, Sound, Next;
    }
  }

  /** Where no such call is lost and no comment intent carries the marker, a thread has at most one summary
      comment, whoever deletes what. */
  lemma OneSummaryWhenNothingIsLost(run: seq<Step>, t: Thread)
    requires Losses(run, t) == 0 && Plantings(run, t) == 0
    ensures |Markers(After(EMPTY, run), t)| <= 1
  {
    StraysAreAccountedFor(run, t);
    var w := After(EMPTY, run);
    assert Strays(w, t) == {};
    SubsetSize(Markers(w, t), Named(w, t));
  }

  /** Where nothing is deleted, lost updates do no harm: each run finds the comment again. Only comment
      intents that carry the marker themselves add to the one. */
  lemma {:induction false} OneSummaryWhenNothingIsDeleted(run: seq<Step>, t: Thread)
    requires forall i :: 0 <= i < |run| ==> !run[i].Deleted?
    ensures |Markers(After(EMPTY, run), t)| <= 1 + Plantings(run, t)
    ensures Named(After(EMPTY, run), t) <= Markers(After(EMPTY, run), t)
  {
    if run != [] {
      var before, s := run[..|run| - 1], run[|run| - 1];
      OneSummaryWhenNothingIsDeleted(before, t);
      RunsStaySound(before);
      EveryStepEvolves(After(EMPTY, before), s, t);
      SummaryStaysNamed(After(EMPTY, before), s, t);
    }
  }

  // ---------- when a second one comes ----------

  /** The mapped comment is gone, GitHub says so, and a new one is created beside those that are left. */
  predicate Replaces(w: World, t: Thread, f: Fates) {
    t in w.mapping && w.mapping[t] !in Markers(w, t) && f.edit == Done && TookEffect(f.create)
  }

  /** The step is an attempt on the thread that gets to its write, and writes one more marker comment beside
      those that are there. */
  predicate AddsSecond(w: World, s: Step, t: Thread) {
    && s.Execution? && ThreadOf(s.grant) == t && Markers(w, t) != {}
    && Execute(w, s.key, s.accepted, s.grant, s.git, s.fates).started && s.accepted.Ok?
    && ((s.accepted.value.PostReviewPayload? && Replaces(w, t, s.fates))
        || (s.accepted.value.PostCommentPayload? && Contains(s.accepted.value.text, Render.MARKER) && TookEffect(s.fates.write)))
  }

  function OneMoreIf(w: World, t: Thread, more: bool): set<int> { if more then Markers(w, t) + {w.nextId} else Markers(w, t) }

  lemma SameComments(w: World, w': World, t: Thread)
    requires w'.comments == w.comments
    ensures Markers(w', t) == Markers(w, t)
  {
  }

  lemma ReviewAdds(w: World, t: Thread, body: string, f: Fates, u: Thread)
    requires Sound(w) && Contains(body, Render.MARKER) && Markers(w, t) != {}
    ensures Markers(WriterPostReview(w, t, Mapped(w, t), body, f).world, u) == OneMoreIf(w, u, u == t && Replaces(w, t, f))
  {
    hide Contains, Owned, FindOwned, Edited;
    var mapped := Mapped(w, t);
    if t in w.mapping { HasMapped(w, t); }
    FindOwnedMarker(w, t);
    var id := if mapped != 0 then mapped else FindOwned(w.comments, t);
    CreatedMarkers(w, t, body, u);
    if id in Markers(w, t) {
      HasMarker(w, t, id);
      EditedMarkers(w, t, id, body, u);
    }
    hide Markers, Created, Sound;
  }

  lemma AcknowledgementAdds(w: World, t: Thread, f: Fates, u: Thread)
    requires Sound(w) && Markers(w, t) != {}
    ensures Markers(WriterAcknowledge(w, t, f).world, u) == Markers(w, u)
  {
    hide Contains, Owned, FindOwned, Render.QUEUED_BODY;
    FindOwnedMarker(w, t);
    hide Markers, Sound;
  }

  /** What a step leaves of a thread that has marker comments. */
  lemma AttemptAdds(w: World, key: Key, p: Payload, g: Grant, git: Git, f: Fates, t: Thread)
    requires Sound(w) && Markers(w, t) != {} && Execute(w, key, Ok(p), g, git, f).started
    ensures Markers(Execute(w, key, Ok(p), g, git, f).world, t) == OneMoreIf(w, t, AddsSecond(w, Execution(key, Ok(p), g, git, f), t))
  {
    var u := ThreadOf(g);
    var w' := Finish(w, key, p, g, git, f).world;
    assert Execute(w, key, Ok(p), g, git, f) == Finish(w, key, p, g, git, f);
    hide Sound, Markers, Contains, Preflight, Resolve, Ref, Replaces;
    if p.PostReviewPayload? {
      var body := Render.Rendered(p.verdict, p.summary, p.comments);
      RenderedHasMarker(p.verdict, p.summary, p.comments);
      hide Render.Rendered;
      ReviewComments(w, key, p, g, git, f, body);
      SameComments(WriterPostReview(w, u, Mapped(w, u), body, f).world, w', t);
      hide Finish, WriterPostReview;
      if u == t { ReviewAdds(w, t, body, f, t); } else { ElsewhereReview(w, u, body, f, t); }
    } else if p.PostCommentPayload? {
      CommentComments(w, key, p, g, git, f);
      CreatedMarkers(w, u, p.text, t);
      hide Finish, Created;
      SameComments(if TookEffect(f.write) then Created(w, u, p.text) else w, w', t);
    } else {
      SameComments(w, w', t);
    }
  }

  lemma ReviewComments(w: World, key: Key, p: Payload, g: Grant, git: Git, f: Fates, body: string)
    requires p.PostReviewPayload? && Preflight(p, g, git, f).None? && body == Render.Rendered(p.verdict, p.summary, p.comments)
    ensures var t := ThreadOf(g); Finish(w, key, p, g, git, f).world.comments == WriterPostReview(w, t, Mapped(w, t), body, f).world.comments
  {
    hide Render.Rendered, WriterPostReview, Preflight, Resolve, Ref;
  }

  lemma CommentComments(w: World, key: Key, p: Payload, g: Grant, git: Git, f: Fates)
    requires p.PostCommentPayload? && Preflight(p, g, git, f).None?
    ensures Finish(w, key, p, g, git, f).world.comments == (if TookEffect(f.write) then Created(w, ThreadOf(g), p.text) else w).comments
  {
    hide Preflight, Resolve, Ref;
  }

  /** A review on one thread leaves the marker comments of another alone. */
  lemma ElsewhereReview(w: World, u: Thread, body: string, f: Fates, t: Thread)
    requires Sound(w) && Contains(body, Render.MARKER) && u != t
    ensures Markers(WriterPostReview(w, u, Mapped(w, u), body, f).world, t) == Markers(w, t)
  {
    PostReviewServes(w, u, body, f, t);
    hide WriterPostReview, Sound, Markers, Contains;
  }

  lemma ElsewhereAcknowledgement(w: World, u: Thread, f: Fates, t: Thread)
    requires Sound(w) && u != t
    ensures Markers(WriterAcknowledge(w, u, f).world, t) == Markers(w, t)
  {
    AcknowledgeServes(w, u, f, t);
    hide WriterAcknowledge, Sound, Markers;
  }

  lemma AcknowledgedComments(w: World, g: Grant, f: Fates)
    ensures var w' := Protocol.Acknowledge(w, g, f).0; w'.comments == w.comments || w'.comments == WriterAcknowledge(w, ThreadOf(g), f).world.comments
  {
    hide WriterAcknowledge;
  }

  lemma StepAdds(w: World, s: Step, t: Thread)
    requires Sound(w) && Markers(w, t) != {} && (s.Execution? || s.Acknowledgement?)
    ensures Markers(Next(w, s), t) == OneMoreIf(w, t, AddsSecond(w, s, t))
  {
    hide Sound, Markers, Contains, Execute, Protocol.Acknowledge, Replaces;
    match s
    case Execution(key, accepted, g, git, f) =>
      if Execute(w, key, accepted, g, git, f).started {
        StartedIsAccepted(w, key, accepted, g, git, f);
        AttemptAdds(w, key, accepted.value, g, git, f, t);
      } else {
        UnstartedIsStill(w, key, accepted, g, git, f);
      }
    case Acknowledgement(g, f) =>
      AcknowledgedComments(w, g, f);
      hide WriterAcknowledge;
      var w' := Protocol.Acknowledge(w, g, f).0;
      if ThreadOf(g) == t { AcknowledgementAdds(w, t, f, t); } else { ElsewhereAcknowledgement(w, ThreadOf(g), f, t); }
      if w'.comments == w.comments { SameComments(w, w', t); } else { SameComments(WriterAcknowledge(w, ThreadOf(g), f).world, w', t); }
  }

  lemma StartedIsAccepted(w: World, key: Key, accepted: Result<Payload, Error>, g: Grant, git: Git, f: Fates)
    requires Execute(w, key, accepted, g, git, f).started
    ensures accepted.Ok?
  {
  }

  lemma UnstartedIsStill(w: World, key: Key, accepted: Result<Payload, Error>, g: Grant, git: Git, f: Fates)
    requires !Execute(w, key, accepted, g, git, f).started
    ensures Execute(w, key, accepted, g, git, f).world == w
  {
    hide Finish, Preflight;
    if accepted.Ok? && !accepted.value.Malformed? && Preflight(accepted.value, g, git, f).None? { AttemptProofs.FinishStarts(w, key, accepted.value, g, git, f); }
  }

  /** Step by step, the marker comments of a thread become more, and more than one, exactly when an attempt
      writes one beside those that are there: a review whose mapped comment is gone, or a comment intent
      that carries the marker. */
  lemma SecondSummaryExactly(w: World, s: Step, t: Thread)
    requires Sound(w)
    ensures var before, after := |Markers(w, t)|, |Markers(Next(w, s), t)|;
      after > before && after > 1 <==> AddsSecond(w, s, t)
  {
    EveryStepEvolves(w, s, t);
    FreshId(w, t);
    SingletonSize(Markers(w, t), w.nextId);
    if Markers(w, t) != {} && (s.Execution? || s.Acknowledgement?) { StepAdds(w, s, t); }
    if s.Deleted? { DeletedMarkers(w, s.id, t); }
    if s.Foreign? { ForeignMarkers(w, s.thread, s.body, t); }
    hide Next, Markers, Contains, Sound, Loses, Execute, Replaces;
    if Markers(w, t) == {} {
      assert |Markers(Next(w, s), t)| <= 1;
    } else if !s.Execution? && !s.Acknowledgement? {
      SubsetSize(Markers(Next(w, s), t), Markers(w, t));
    }
  }

  /** Under a grant that policy decided, no comment intent lands on a pull request: its comments cannot
      be planted. */
  lemma ReviewGrantsPlantNothing(tr: Policy.Trigger, r: Policy.Rules, runId: string, now: int, env: Envelope, at: int, git: Git, f: Fates)
    requires Policy.Decide(tr, r, runId, now).Ok? && tr.kind != Policy.IssueLabeledTrigger
    ensures var g := Policy.Decide(tr, r, runId, now).value;
      Plants(Execution(IdempotencyKey(env, g), Validate(env, g, at), g, git, f), ThreadOf(g)) == 0
  {
    var g := Policy.Decide(tr, r, runId, now).value;
    if Validate(env, g, at).Ok? { AcceptedKind(env, g, at); }
    hide Validate;
  }

  // ---------- the bound is reached ----------

  /** A review is acknowledged, the comment is deleted, and then `n` attempts each create a summary and
      lose the update that would have named it. */
  function LossyRun(key: Key, p: Payload, g: Grant, git: Git, n: nat): seq<Step> {
    if n == 0 then [Acknowledgement(g, ALL_WELL), Deleted(1)]
    else LossyRun(key, p, g, git, n - 1) + [Execution(key, Ok(p), g, git, ALL_WELL.(upsert := Refused))]
  }

  ghost predicate AfterLosses(w: World, key: Key, t: Thread, n: nat) {
    && Sound(w) && w.mapping == map[t := 1] && key !in w.intents && w.nextId == n + 2
    && (forall c :: c in w.comments ==> c.id != 1)
    && |Markers(w, t)| == n
  }

  /** An attempt whose mapping update is refused creates a comment, because the mapped one is gone. */
  lemma LossyExecution(w: World, key: Key, p: Payload, g: Grant, git: Git)
    requires p.PostReviewPayload? && key !in w.intents && w.mapping == map[ThreadOf(g) := 1]
    requires forall c :: c in w.comments ==> c.id != 1
    ensures var body := Render.Rendered(p.verdict, p.summary, p.comments);
      Next(w, Execution(key, Ok(p), g, git, ALL_WELL.(upsert := Refused)))
      == LogWrite(Created(w, ThreadOf(g), body), Entry(key, Resolve(p, g, git, 1)), true)
  {
    hide Render.Rendered, Contains;
    var f := ALL_WELL.(upsert := Refused);
    assert !Has(w.comments, ThreadOf(g).slug, 1);
    assert Execute(w, key, Ok(p), g, git, f) == Finish(w, key, p, g, git, f);
  }

  lemma LossyStep(w: World, w': World, key: Key, t: Thread, n: nat, body: string, e: Entry)
    requires AfterLosses(w, key, t, n) && Contains(body, Render.MARKER)
    requires w' == LogWrite(Created(w, t, body), e, true)
    ensures AfterLosses(w', key, t, n + 1)
    ensures !(Markers(w', t) - Markers(w, t) <= Named(w', t))
  {
    hide Contains;
    CreatedMarkers(w, t, body, t);
    FreshId(w, t);
    SingletonSize(Markers(w, t), w.nextId);
    LogKeeps(Created(w, t, body), e, true, t);
    hide Markers, Sound;
    assert w.nextId in Markers(w', t) - Markers(w, t) - Named(w', t);
  }

  lemma OneStepMore(run: seq<Step>, s: Step, t: Thread)
    ensures After(EMPTY, run + [s]) == Next(After(EMPTY, run), s)
    ensures UnnamedCreations(EMPTY, run + [s], t) == UnnamedCreations(EMPTY, run, t) + Unnamed(After(EMPTY, run), s, t)
    ensures Losses(run + [s], t) == Losses(run, t) + (if Loses(s, t) then 1 else 0)
  {
    hide Next, Markers, Unnamed, Loses;
    assert (run + [s])[..|run|] == run;
  }

  ghost predicate LostExactly(run: seq<Step>, key: Key, t: Thread, n: nat) {
    AfterLosses(After(EMPTY, run), key, t, n) && UnnamedCreations(EMPTY, run, t) == n == Losses(run, t)
  }

  lemma LossyBase(key: Key, g: Grant)
    requires g.scope.kind == PullRequest && g.scope.number != 0
    ensures LostExactly([Acknowledgement(g, ALL_WELL), Deleted(1)], key, ThreadOf(g), 0)
  {
    hide Next, Markers, Contains, Sound;
    var a, d := Acknowledgement(g, ALL_WELL), Deleted(1);
    LossyStart(g, key);
    OneStepMore([], a, ThreadOf(g));
    OneStepMore([a], d, ThreadOf(g));
    assert [] + [a] == [a] && [a] + [d] == [a, d];
  }

  lemma LossyMore(run: seq<Step>, key: Key, p: Payload, g: Grant, git: Git, n: nat, s: Step)
    requires p.PostReviewPayload? && LostExactly(run, key, ThreadOf(g), n)
    requires s == Execution(key, Ok(p), g, git, ALL_WELL.(upsert := Refused))
    ensures LostExactly(run + [s], key, ThreadOf(g), n + 1)
  {
    hide Next, Markers, Contains, Sound;
    var t := ThreadOf(g);
    OneStepMore(run, s, t);
    var w := After(EMPTY, run);
    hide After, UnnamedCreations, Losses;
    LossyExecution(w, key, p, g, git);
    RenderedHasMarker(p.verdict, p.summary, p.comments);
    LossyStep(w, Next(w, s), key, t, n, Render.Rendered(p.verdict, p.summary, p.comments), Entry(key, Resolve(p, g, git, 1)));
  }

  lemma {:induction false} LossyRuns(key: Key, p: Payload, g: Grant, git: Git, n: nat)
    requires p.PostReviewPayload? && g.scope.kind == PullRequest && g.scope.number != 0
    ensures LostExactly(LossyRun(key, p, g, git, n), key, ThreadOf(g), n)
  {
    hide LostExactly;
    if n == 0 {
      LossyBase(key, g);
    } else {
      LossyRuns(key, p, g, git, n - 1);
      LossyMore(LossyRun(key, p, g, git, n - 1), key, p, g, git, n - 1, Execution(key, Ok(p), g, git, ALL_WELL.(upsert := Refused)));
    }
  }

  /** The count of lost updates is the best bound there is: for every n, n of them can leave n strays. */
  lemma StraysReachTheBound(key: Key, p: Payload, g: Grant, git: Git, n: nat)
    requires p.PostReviewPayload? && g.scope.kind == PullRequest && g.scope.number != 0
    ensures var run := LossyRun(key, p, g, git, n);
      |Strays(After(EMPTY, run), ThreadOf(g))| == n == Losses(run, ThreadOf(g))
  {
    hide After, UnnamedCreations, LossyRun, Markers, Losses;
    LossyRuns(key, p, g, git, n);
    AllStray(After(EMPTY, LossyRun(key, p, g, git, n)), key, ThreadOf(g), n);
  }

  lemma AllStray(w: World, key: Key, t: Thread, n: nat)
    requires AfterLosses(w, key, t, n)
    ensures |Strays(w, t)| == n
  {
    assert 1 !in Markers(w, t);
    assert Strays(w, t) == Markers(w, t);
  }

  lemma LossyStart(g: Grant, key: Key)
    requires g.scope.kind == PullRequest && g.scope.number != 0
    ensures var w1 := Next(EMPTY, Acknowledgement(g, ALL_WELL));
      && AfterLosses(Next(w1, Deleted(1)), key, ThreadOf(g), 0)
      && Unnamed(EMPTY, Acknowledgement(g, ALL_WELL), ThreadOf(g)) == 0 && Unnamed(w1, Deleted(1), ThreadOf(g)) == 0
  {
    var t := ThreadOf(g);
    var w1 := Next(EMPTY, Acknowledgement(g, ALL_WELL));
    assert w1.comments == [Comment(1, t, true, Render.QUEUED_BODY)] && w1.mapping == map[t := 1] && w1.nextId == 2;
    AcknowledgementEvolves(EMPTY, g, ALL_WELL, t);
    DeletedMarkers(w1, 1, t);
    hide Contains, Render.QUEUED_BODY;
    var w2 := Next(w1, Deleted(1));
    assert w2.comments == [] by { assert w1.comments[1..] == []; assert Without([], 1) == []; }
    assert Markers(w2, t) == {};
    assert Markers(w1, t) <= {1};
  }
}
