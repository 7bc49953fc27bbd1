/** What the comments of a thread say: whose comments the protocol never touches, and that a review that is
    answered stands there, word for word. */
module CommentContents {
  import opened Text
  import opened Intent
  import opened Validation
  import opened Protocol
  import opened CommentProofs
  import Render

  /** A summary comment of ours; any other comment belongs to somebody else or is no summary. */
  predicate IsSummary(c: Comment) { c.ours && Contains(c.body, Render.MARKER) }

  /** Every comment that is no summary of ours is still there, unchanged. */
  ghost predicate OthersStay(w: World, w': World) { forall c :: c in w.comments && !IsSummary(c) ==> c in w'.comments }

  /** The comment is there, ours, on the thread, and says this. */
  ghost predicate Stands(w: World, t: Thread, id: int, body: string) {
    exists c :: c in w.comments && c.id == id && c.thread == t && c.ours && c.body == body
  }

  lemma CreatedStands(w: World, t: Thread, body: string)
    ensures OthersStay(w, Created(w, t, body)) && Stands(Created(w, t, body), t, w.nextId, body)
  {
    hide Contains;
    assert Comment(w.nextId, t, true, body) in Created(w, t, body).comments;
  }

  lemma EditedStands(w: World, t: Thread, id: int, body: string)
    requires Sound(w) && id in Markers(w, t)
    ensures var w' := w.(comments := Edited(w.comments, t.slug, id, body)); OthersStay(w, w') && Stands(w', t, id, body)
  {
    hide Contains;
    var m :| m in w.comments && Owned(m, t) && m.id == id;
    EditedContents(w, t, m, body);
    hide Edited, Sound;
    assert m.(body := body) in Edited(w.comments, t.slug, id, body);
  }

  lemma Unchanged(w: World)
    ensures OthersStay(w, w)
  {
  }

  /** The writer edits a summary comment of ours or creates one, and reports the comment that says what it was given. */
  lemma WriterPuts(w: World, t: Thread, body: string, f: Fates)
    requires Sound(w)
    ensures var r := WriterPostReview(w, t, Mapped(w, t), body, f);
      OthersStay(w, r.world) && (r.id.Some? ==> Stands(r.world, t, r.id.value, body))
  {
    hide Contains, Owned, FindOwned, Edited;
    var mapped := Mapped(w, t);
    if t in w.mapping { HasMapped(w, t); }
    FindOwnedMarker(w, t);
    var id := if mapped != 0 then mapped else FindOwned(w.comments, t);
    CreatedStands(w, t, body);
    Unchanged(w);
    if id in Markers(w, t) { EditedStands(w, t, id, body); }
    hide Markers, Created, Sound, OthersStay, Stands;
  }

  lemma WriterGreets(w: World, t: Thread, f: Fates)
    ensures OthersStay(w, WriterAcknowledge(w, t, f).world)
  {
    CreatedStands(w, t, Render.QUEUED_BODY);
    Unchanged(w);
    hide Render.QUEUED_BODY, FindOwned, Created, OthersStay;
  }

  lemma SameCommentsStay(w: World, w1: World, w2: World)
    requires OthersStay(w, w1) && w2.comments == w1.comments
    ensures OthersStay(w, w2)
  {
  }

  lemma AttemptLeavesOthers(w: World, key: Key, p: Payload, g: Grant, git: Git, f: Fates)
    requires Sound(w) && !p.Malformed? && Preflight(p, g, git, f).None?
    ensures OthersStay(w, Finish(w, key, p, g, git, f).world)
  {
    var w', t := Finish(w, key, p, g, git, f).world, ThreadOf(g);
    hide Sound, OthersStay, Preflight, Resolve, Ref, Render.MARKER;
    Unchanged(w);
    if p.PostReviewPayload? {
      var body := Render.Rendered(p.verdict, p.summary, p.comments);
      ReviewComments(w, key, p, g, git, f, body);
      WriterPuts(w, t, body, f);
      hide Finish, WriterPostReview, Render.Rendered;
      SameCommentsStay(w, WriterPostReview(w, t, Mapped(w, t), body, f).world, w');
    } else if p.PostCommentPayload? {
      CommentComments(w, key, p, g, git, f);
      CreatedStands(w, t, p.text);
      hide Finish, Created;
      SameCommentsStay(w, if TookEffect(f.write) then Created(w, t, p.text) else w, w');
    } else {
      SameCommentsStay(w, w, w');
    }
  }

  /** Whatever an attempt or an acknowledgement does, and whatever fails on the way, it neither changes nor removes a
      comment of anybody else, nor one of ours that is no summary. */
  lemma OthersCommentsStay(w: World, s: Step)
    requires Sound(w) && (s.Execution? || s.Acknowledgement?)
    ensures OthersStay(w, Next(w, s))
  {
    Unchanged(w);
    match s
    case Execution(key, accepted, g, git, f) =>
      if Execute(w, key, accepted, g, git, f).started {
        StartedIsAccepted(w, key, accepted, g, git, f);
        AttemptLeavesOthers(w, key, accepted.value, g, git, f);
        hide Finish, Preflight, Sound, OthersStay;
      } else {
        UnstartedIsStill(w, key, accepted, g, git, f);
        hide Execute, Sound, OthersStay;
      }
    case Acknowledgement(g, f) =>
      AcknowledgedComments(w, g, f);
      WriterGreets(w, ThreadOf(g), f);
      hide WriterAcknowledge, Protocol.Acknowledge, Sound, OthersStay;
      var w' := Protocol.Acknowledge(w, g, f).0;
      if w'.comments == w.comments { SameCommentsStay(w, w, w'); } else { SameCommentsStay(w, WriterAcknowledge(w, ThreadOf(g), f).world, w'); }
  }

  /** A review that is answered stands on its thread, word for word, in the comment that the ledger names. */
  lemma AnsweredReviewStands(w: World, key: Key, p: Payload, g: Grant, git: Git, f: Fates)
    requires Sound(w) && p.PostReviewPayload?
    ensures var a := Execute(w, key, Ok(p), g, git, f);
      var t := Thread(g.repo.owner + "/" + g.repo.name, g.scope.number);
      a.result.Ok? && !a.result.value.deduped ==>
        t in a.world.mapping && Stands(a.world, t, a.world.mapping[t], Render.Rendered(p.verdict, p.summary, p.comments))
  {
    var a, t := Execute(w, key, Ok(p), g, git, f), ThreadOf(g);
    if a.result.Ok? && !a.result.value.deduped {
      assert a == Finish(w, key, p, g, git, f);
      var body := Render.Rendered(p.verdict, p.summary, p.comments);
      ReviewComments(w, key, p, g, git, f, body);
      WriterPuts(w, t, body, f);
      ReviewIsMapped(w, key, p, g, git, f, body);
      hide Finish, Execute, WriterPostReview, Render.Rendered, Sound, Preflight;
    }
  }

  /** So does the comment of an issue run. */
  lemma AnsweredCommentStands(w: World, key: Key, p: Payload, g: Grant, git: Git, f: Fates)
    requires p.PostCommentPayload?
    ensures var a := Execute(w, key, Ok(p), g, git, f);
      a.result.Ok? && !a.result.value.deduped ==>
        exists id :: Stands(a.world, Thread(g.repo.owner + "/" + g.repo.name, g.scope.number), id, p.text)
  {
    var a, t := Execute(w, key, Ok(p), g, git, f), ThreadOf(g);
    if a.result.Ok? && !a.result.value.deduped {
      assert a == Finish(w, key, p, g, git, f);
      CommentComments(w, key, p, g, git, f);
      assert TookEffect(f.write);
      CreatedStands(w, t, p.text);
      hide Finish, Execute, Created;
      assert Stands(a.world, t, w.nextId, p.text);
    }
  }

  lemma ReviewIsMapped(w: World, key: Key, p: Payload, g: Grant, git: Git, f: Fates, body: string)
    requires p.PostReviewPayload? && Preflight(p, g, git, f).None? && body == Render.Rendered(p.verdict, p.summary, p.comments)
    ensures var t := ThreadOf(g);
      var a, r := Finish(w, key, p, g, git, f), WriterPostReview(w, t, Mapped(w, t), body, f);
      a.result.Ok? ==> r.id.Some? && t in a.world.mapping && a.world.mapping[t] == r.id.value
  {
    hide WriterPostReview, Preflight, Resolve, Ref, Render.Rendered;
  }
}
