/** The executor as it runs: GitHub, the ledger and the executor are objects that change in place, call
    by call. Each operation is tied to the step function of module Protocol that it performs. */
module Executor {
  import opened Text
  import opened Intent
  import opened Validation
  import opened Protocol
  import Render

  datatype ApiResult = Success(id: int) | NotFound | Failed

  const PER_PAGE := 100

  /** What the executor hands to every call: the repository, and the tier its token was resolved for. */
  datatype Credential = Credential(repo: Repo, tier: TokenScope)

  function Listing(cs: seq<Comment>, t: Thread): seq<Comment> {
    if cs == [] then [] else (if cs[0].thread == t then [cs[0]] else []) + Listing(cs[1..], t)
  }

  lemma {:induction false} FindInListing(cs: seq<Comment>, t: Thread)
    ensures FindOwned(Listing(cs, t), t) == FindOwned(cs, t)
  {
    hide Contains;
    if cs != [] {
      FindInListing(cs[1..], t);
      if cs[0].thread == t { assert Listing(cs, t)[1..] == Listing(cs[1..], t); }
      else { assert Listing(cs, t) == Listing(cs[1..], t); }
    }
  }

  function Logged(writes: seq<Entry>, e: Entry, effect: bool): seq<Entry> { if effect then writes + [e] else writes }

  class GitHub {
    var comments: seq<Comment>
    var nextId: int
    ghost var writes: seq<Entry> // with the key of the attempt that made each

    /** One page of a thread's comments, and the number of the next page or 0. Pages count from 1. */
    method ListComments(t: Thread, page: nat) returns (batch: seq<Comment>, nextPage: nat)
      requires page >= 1 && (page - 1) * PER_PAGE <= |Listing(comments, t)|
      ensures var all := Listing(comments, t); var from := (page - 1) * PER_PAGE;
        if |all| - from <= PER_PAGE then batch == all[from..] && nextPage == 0
        else batch == all[from..from + PER_PAGE] && nextPage == page + 1
    {
      var all := Listing(comments, t);
      var from := (page - 1) * PER_PAGE;
      if |all| - from <= PER_PAGE { batch, nextPage := all[from..], 0; }
      else { batch, nextPage := all[from..from + PER_PAGE], page + 1; }
    }

    /** `findOwnedReviewComment`: page through the thread up to the first marker comment of ours. */
    method FindOwnedReviewComment(t: Thread) returns (id: int)
      ensures id == FindOwned(comments, t)
    {
      hide Contains, Owned;
      FindInListing(comments, t);
      ghost var all := Listing(comments, t);
      var page := 1;
      while true
        invariant 1 <= page && (page - 1) * PER_PAGE <= |all|
        invariant FindOwned(all, t) == FindOwned(all[(page - 1) * PER_PAGE..], t)
        decreases |all| - page * PER_PAGE
      {
        var batch, nextPage := ListComments(t, page);
        ghost var rest := all[(page - 1) * PER_PAGE..];
        assert batch <= rest;
        for i := 0 to |batch|
          invariant FindOwned(rest, t) == FindOwned(rest[i..], t)
        {
          assert rest[i..][1..] == rest[i + 1..];
          if Owned(batch[i], t) { return batch[i].id; }
        }
        if nextPage == 0 {
          assert rest[|batch|..] == [];
          return 0;
        }
        assert rest[|batch|..] == all[page * PER_PAGE..];
        page := nextPage;
      }
    }

    method EditComment(slug: string, id: int, body: string, f: Fate) returns (r: ApiResult)
      modifies this`comments
      ensures comments == if Has(old(comments), slug, id) && TookEffect(f) then Edited(old(comments), slug, id, body) else old(comments)
      ensures r == if f != Done then Failed else if Has(old(comments), slug, id) then Success(id) else NotFound
    {
      r := if f != Done then Failed else if Has(comments, slug, id) then Success(id) else NotFound;
      if Has(comments, slug, id) && TookEffect(f) { comments := Edited(comments, slug, id, body); }
    }

    method CreateComment(t: Thread, body: string, f: Fate) returns (id: Option<int>)
      modifies this`comments, this`nextId
      ensures if TookEffect(f) then comments == old(comments) + [Comment(old(nextId), t, true, body)] && nextId == old(nextId) + 1
              else comments == old(comments) && nextId == old(nextId)
      ensures id == if f == Done then Some(old(nextId)) else None
    {
      id := if f == Done then Some(nextId) else None;
      if TookEffect(f) {
        comments := comments + [Comment(nextId, t, true, body)];
        nextId := nextId + 1;
      }
    }

    /** The writer's `OpenPR`: the number of the new pull request, if the caller learns it. */
    method OpenPR(cred: Credential, branch: string, base: string, title: string, body: string, draft: bool, f: Fate, newNumber: int, ghost key: Key)
      returns (number: Option<int>)
      modifies this`writes
      ensures writes == Logged(old(writes), Entry(key, OpenPRWrite(cred.repo, cred.tier, branch, base, title, body, draft)), TookEffect(f))
      ensures number == if f == Done then Some(newNumber) else None
    {
      if TookEffect(f) { writes := writes + [Entry(key, OpenPRWrite(cred.repo, cred.tier, branch, base, title, body, draft))]; }
      number := if f == Done then Some(newNumber) else None;
    }

    /** The writer's `UpdatePR`. */
    method UpdatePR(cred: Credential, number: int, body: Option<string>, draft: Option<bool>, f: Fate, ghost key: Key) returns (ok: bool)
      modifies this`writes
      ensures writes == Logged(old(writes), Entry(key, UpdatePRWrite(cred.repo, cred.tier, number, body, draft)), TookEffect(f))
      ensures ok == (f == Done)
    {
      if TookEffect(f) { writes := writes + [Entry(key, UpdatePRWrite(cred.repo, cred.tier, number, body, draft))]; }
      ok := f == Done;
    }

    /** The writer's `SetLabels`. */
    method SetLabels(cred: Credential, number: int, add: seq<string>, remove: seq<string>, f: Fate, ghost key: Key) returns (ok: bool)
      modifies this`writes
      ensures writes == Logged(old(writes), Entry(key, SetLabelsWrite(cred.repo, cred.tier, number, add, remove)), TookEffect(f))
      ensures ok == (f == Done)
    {
      if TookEffect(f) { writes := writes + [Entry(key, SetLabelsWrite(cred.repo, cred.tier, number, add, remove))]; }
      ok := f == Done;
    }

    /** The writer's `PostComment`. */
    method PostComment(cred: Credential, number: int, text: string, f: Fate, ghost key: Key) returns (ok: bool)
      modifies this`comments, this`nextId, this`writes
      ensures if TookEffect(f) then comments == old(comments) + [Comment(old(nextId), Thread(cred.repo.Slug(), number), true, text)] && nextId == old(nextId) + 1
              else comments == old(comments) && nextId == old(nextId)
      ensures writes == Logged(old(writes), Entry(key, PostCommentWrite(cred.repo, cred.tier, number, text)), TookEffect(f))
      ensures ok == (f == Done)
    {
      var id := CreateComment(Thread(cred.repo.Slug(), number), text, f);
      if TookEffect(f) { writes := writes + [Entry(key, PostCommentWrite(cred.repo, cred.tier, number, text))]; }
      ok := id.Some?;
    }

    /** The writer's `PostReview`. */
    method PostReview(cred: Credential, number: int, mapped: int, headSHA: string, verdict: Verdict, summary: string, cs: seq<ReviewComment>, f: Fates,
                      ghost key: Key, ghost m: map<Thread, int>, ghost k: map<Key, Recorded>)
      returns (id: Option<int>)
      modifies this`comments, this`nextId, this`writes
      ensures var t := Thread(cred.repo.Slug(), number);
        var r := WriterPostReview(World(old(comments), old(nextId), old(writes), m, k), t, mapped, Render.Rendered(verdict, summary, cs), f);
        var e := Entry(key, PostReviewWrite(cred.repo, cred.tier, number, mapped, headSHA, verdict, summary, cs));
        World(comments, nextId, writes, m, k) == LogWrite(r.world, e, r.effect) && id == r.id
    {
      hide Contains, Owned, FindOwned, Edited, Render.Rendered;
      ghost var effect;
      var body := Render.RenderPostReview(verdict, summary, cs);
      id, effect := EditOrCreate(Thread(cred.repo.Slug(), number), mapped, body, f, m, k);
      if effect { writes := writes + [Entry(key, PostReviewWrite(cred.repo, cred.tier, number, mapped, headSHA, verdict, summary, cs))]; }
    }

    /** Edits the mapped or else the recovered comment, creates one where there is none or it is gone. */
    method EditOrCreate(t: Thread, mapped: int, body: string, f: Fates, ghost m: map<Thread, int>, ghost k: map<Key, Recorded>)
      returns (id: Option<int>, ghost effect: bool)
      modifies this`comments, this`nextId
      ensures WriterPostReview(World(old(comments), old(nextId), writes, m, k), t, mapped, body, f)
              == Posted(World(comments, nextId, writes, m, k), effect, id)
    {
      hide Contains, Owned, FindOwned, Edited;
      var commentId := mapped;
      effect := false;
      if commentId == 0 {
        if !f.search { return None, false; }
        commentId := FindOwnedReviewComment(t);
      }
      if commentId != 0 {
        effect := Has(comments, t.slug, commentId) && TookEffect(f.edit);
        var r := EditComment(t.slug, commentId, body, f.edit);
        match r {
          case Success(edited) => return Some(edited), effect;
          case Failed => return None, effect;
          case NotFound =>
        }
      }
      id := CreateComment(t, body, f.create);
      effect := TookEffect(f.create);
    }

    /** The writer's `AcknowledgeReview`. */
    method AcknowledgeReview(t: Thread, f: Fates, ghost m: map<Thread, int>, ghost k: map<Key, Recorded>)
      returns (id: Option<int>, ghost effect: bool)
      modifies this`comments, this`nextId
      ensures WriterAcknowledge(World(old(comments), old(nextId), writes, m, k), t, f)
              == Posted(World(comments, nextId, writes, m, k), effect, id)
    {
      hide Contains, Owned, FindOwned, Render.QUEUED_BODY;
      effect := false;
      if !f.search { return None, false; }
      var found := FindOwnedReviewComment(t);
      if found != 0 { return Some(found), false; }
      id := CreateComment(t, Render.QUEUED_BODY, f.create);
      effect := TookEffect(f.create);
    }
  }

  class Ledger {
    var mapping: map<Thread, int>
    var intents: map<Key, Recorded>

    method Lookup(key: Key) returns (ref: Option<string>)
      ensures ref == if key in intents then Some(intents[key].ref) else None
    {
      ref := if key in intents then Some(intents[key].ref) else None;
    }

    method ReviewCommentID(t: Thread) returns (id: Option<int>)
      ensures id == if t in mapping then Some(mapping[t]) else None
    {
      id := if t in mapping then Some(mapping[t]) else None;
    }

    method UpsertReviewComment(t: Thread, id: int, f: Fate) returns (ok: bool)
      modifies this`mapping
      ensures mapping == if TookEffect(f) then old(mapping)[t := id] else old(mapping)
      ensures ok == (f == Done)
    {
      if TookEffect(f) { mapping := mapping[t := id]; }
      ok := f == Done;
    }

    method RecordIntent(key: Key, run: string, ref: string, f: Fate) returns (ok: bool)
      modifies this`intents
      ensures intents == if TookEffect(f) && key !in old(intents) then old(intents)[key := Recorded(run, ref)] else old(intents)
      ensures ok == (f == Done)
    {
      if TookEffect(f) && key !in intents { intents := intents[key := Recorded(run, ref)]; }
      ok := f == Done;
    }
  }

  class Executor {
    const gh: GitHub
    const ledger: Ledger

    constructor (gh: GitHub, ledger: Ledger)
      ensures this.gh == gh && this.ledger == ledger
    {
      this.gh, this.ledger := gh, ledger;
    }

    /** The state of both stores as one value. */
    ghost function State(): World
      reads gh, ledger
    {
      World(gh.comments, gh.nextId, gh.writes, ledger.mapping, ledger.intents)
    }

    /** `Execute`: validate, look the key up, check, write once, map the comment, record the key. */
    method Execute(env: Envelope, g: Grant, git: Git, now: int, f: Fates) returns (r: Result<Outcome, Failure>)
      modifies gh, ledger
      ensures var a := Protocol.Execute(old(State()), IdempotencyKey(env, g), Validate(env, g, now), g, git, f);
        State() == a.world && r == a.result
    {
      hide Validate, Render.Rendered, Contains, Owned, FindOwned, Edited, ValidateDiff;
      var accepted := Validate(env, g, now);
      if accepted.Err? { return Err(Invalid(accepted.error)); }
      var p := accepted.value;
      var key := IdempotencyKey(env, g);
      if !f.lookup { return Err(CallFailed); }
      var known := ledger.Lookup(key);
      if known.Some? { return Ok(Outcome(known.value, true)); }
      var t := ThreadOf(g);
      var mapped := 0;
      if p.PostReviewPayload? {
        if !f.readMapping { return Err(CallFailed); }
        var found := ledger.ReviewCommentID(t);
        mapped := if found.Some? then found.value else 0;
      }
      var tier := g.tokenScope;
      if p.PostReviewPayload? { tier := IssuesWrite; }
      if !f.resolve { return Err(CallFailed); }
      var cred := Credential(g.repo, tier);
      if p.Malformed? { return Err(Invalid(UnknownKindError)); }
      var refusal := Preflight(p, g, git, f);
      if refusal.Some? { return Err(refusal.value); }
      assert Protocol.Execute(State(), key, accepted, g, git, f) == Finish(State(), key, p, g, git, f);
      hide Preflight;
      r := WriteAndRecord(key, p, g, git, cred, mapped, f);
    }

    /** The switch over the payload: one call to GitHub, with the credential, git's branch and base, the
        grant's number and head, the mapped comment, and the payload's content. */
    method Write(key: Key, p: Payload, g: Grant, git: Git, cred: Credential, mapped: int, f: Fates) returns (id: Option<int>, number: int)
      requires !p.Malformed? && (p.OpenPRPayload? ==> git.branch.Some? && git.base.Some?)
      requires cred == Credential(g.repo, if p.PostReviewPayload? then IssuesWrite else g.tokenScope)
      requires p.PostReviewPayload? ==> mapped == Mapped(State(), ThreadOf(g))
      modifies gh
      ensures var m := Mapped(old(State()), ThreadOf(g));
        var r := FinalWrite(old(State()), p, g, m, Entry(key, Resolve(p, g, git, m)), f);
        State() == r.world && id == r.id
      ensures id.Some? ==> number == WrittenNumber(p, g, f)
    {
      hide Render.Rendered, WriterPostReview, Contains, Mapped;
      number := g.scope.number;
      match p {
        case OpenPRPayload(title, body, draft) =>
          var created := gh.OpenPR(cred, git.branch.value, git.base.value, title, body, draft, f.write, f.newNumber, key);
          if created.None? { return None, number; }
          return Some(0), created.value;
        case UpdatePRPayload(body, draft) =>
          var ok := gh.UpdatePR(cred, g.scope.number, body, draft, f.write, key);
          id := if ok then Some(0) else None;
        case PostReviewPayload(v, s, cs) =>
          id := gh.PostReview(cred, g.scope.number, mapped, g.scope.headSHA, v, s, cs, f, key, ledger.mapping, ledger.intents);
        case PostCommentPayload(text) =>
          var ok := gh.PostComment(cred, g.scope.number, text, f.write, key);
          id := if ok then Some(gh.nextId - 1) else None;
        case SetLabelsPayload(add, remove) =>
          var ok := gh.SetLabels(cred, g.scope.number, add, remove, f.write, key);
          id := if ok then Some(0) else None;
      }
    }

    /** The part of `Execute` that changes something. */
    method WriteAndRecord(key: Key, p: Payload, g: Grant, git: Git, cred: Credential, mapped: int, f: Fates) returns (r: Result<Outcome, Failure>)
      requires !p.Malformed? && Preflight(p, g, git, f).None?
      requires cred == Credential(g.repo, if p.PostReviewPayload? then IssuesWrite else g.tokenScope)
      requires p.PostReviewPayload? ==> mapped == Mapped(State(), ThreadOf(g))
      modifies gh, ledger
      ensures var a := Finish(old(State()), key, p, g, git, f); State() == a.world && r == a.result
    {
      var t := ThreadOf(g);
      assert p.OpenPRPayload? ==> git.branch.Some? && git.base.Some?;
      hide Preflight, Resolve, FinalWrite, WrittenNumber, Ref;
      var id, number := Write(key, p, g, git, cred, mapped, f);
      if id.None? { return Err(CallFailed); }
      if p.PostReviewPayload? {
        var mappedNow := ledger.UpsertReviewComment(t, id.value, f.upsert);
        if !mappedNow { return Err(CallFailed); }
      }
      var ref := Ref(g.repo, number);
      var recorded := ledger.RecordIntent(key, g.runId, ref, f.record);
      r := if recorded then Ok(Outcome(ref, false)) else Err(CallFailed);
    }

    /** The executor's `AcknowledgeReview`. */
    method AcknowledgeReview(g: Grant, f: Fates) returns (ok: bool)
      modifies gh, ledger
      ensures (State(), ok) == Protocol.Acknowledge(old(State()), g, f)
    {
      hide WriterAcknowledge;
      if g.scope.kind != PullRequest || g.scope.number == 0 { return false; }
      if !f.resolve { return false; }
      var t := ThreadOf(g);
      var id, effect := gh.AcknowledgeReview(t, f, ledger.mapping, ledger.intents);
      if id.None? { return false; }
      ok := ledger.UpsertReviewComment(t, id.value, f.upsert);
    }
  }
}
