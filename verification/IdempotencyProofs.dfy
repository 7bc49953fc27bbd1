/** What holds over every run of executor attempts, acknowledgements and outside interference. */
module IdempotencyProofs {
  import opened Text
  import opened Intent
  import opened Validation
  import opened Protocol
  import Render

  // ---------- idempotency ----------

  /** How many final writes of a key took effect. */
  function Effects(writes: seq<Entry>, k: Key): nat {
    if writes == [] then 0 else Effects(writes[..|writes| - 1], k) + (if writes[|writes| - 1].key == k then 1 else 0)
  }

  function IsRecorded(w: World, k: Key): nat { if k in w.intents then 1 else 0 }

  /** 1 if the step is an attempt at `k` that failed after it had started its final write. */
  function Spends(w: World, s: Step, k: Key): nat {
    if s.Execution? && s.key == k then
      var a := Execute(w, s.key, s.accepted, s.grant, s.git, s.fates);
      if a.started && a.result.Err? then 1 else 0
    else 0
  }

  function Spent(w: World, run: seq<Step>, k: Key): nat {
    if run == [] then 0
    else Spent(w, run[..|run| - 1], k) + Spends(After(w, run[..|run| - 1]), run[|run| - 1], k)
  }

  /** What the final write changes, whatever its kind. */
  lemma FinalWriteFrame(w: World, p: Payload, g: Grant, mapped: int, e: Entry, f: Fates)
    ensures var r := FinalWrite(w, p, g, mapped, e, f);
      && r.world.mapping == w.mapping && r.world.intents == w.intents
      && r.world.writes == LogWrite(w, e, r.effect).writes
      && (r.id.Some? ==> r.effect)
  {
    hide Render.Rendered, Render.MARKER;
  }

  /** An attempt that finds its key recorded changes nothing; any other adds at most one entry, under
      its own key, and leaves no record without one. */
  lemma ExecuteLedger(w: World, key: Key, accepted: Result<Payload, Error>, g: Grant, git: Git, f: Fates)
    ensures var a := Execute(w, key, accepted, g, git, f);
      && (key in w.intents ==> a.world == w && !a.started)
      && (key !in w.intents ==>
        && (a.world.intents == w.intents || exists ref :: a.world.intents == w.intents[key := Recorded(g.runId, ref)])
        && (a.world.writes == w.writes || exists write :: a.world.writes == w.writes + [Entry(key, write)])
        && (a.world.writes != w.writes ==> a.started && (a.result.Err? || key in a.world.intents))
        && (key in a.world.intents ==> a.world.writes != w.writes))
  {
    var a := Execute(w, key, accepted, g, git, f);
    if key !in w.intents && a.started {
      var p := accepted.value;
      var mapped := Mapped(w, ThreadOf(g));
      var e := Entry(key, Resolve(p, g, git, mapped));
      FinalWriteFrame(w, p, g, mapped, e, f);
      hide FinalWrite, Preflight, Resolve, Ref;
      assert a == Finish(w, key, p, g, git, f);
    }
  }

  lemma EffectsAppended(writes: seq<Entry>, e: Entry, k: Key)
    ensures Effects(writes + [e], k) == Effects(writes, k) + (if e.key == k then 1 else 0)
  {
    assert (writes + [e])[..|writes|] == writes;
  }

  /** Acknowledgements and outside interference leave the ledger's intents and the log of writes alone. */
  lemma OtherStepsRecordNothing(w: World, s: Step)
    requires !s.Execution?
    ensures Next(w, s).intents == w.intents && Next(w, s).writes == w.writes
  {
    hide Contains, FindOwned, Without, Render.QUEUED_BODY;
  }

  lemma StepCounts(w: World, s: Step, k: Key)
    ensures Effects(Next(w, s).writes, k) + IsRecorded(w, k) <= Effects(w.writes, k) + Spends(w, s, k) + IsRecorded(Next(w, s), k)
    ensures Effects(w.writes, k) <= Effects(Next(w, s).writes, k)
    ensures k in w.intents ==>
      && k in Next(w, s).intents && Next(w, s).intents[k] == w.intents[k]
      && Effects(Next(w, s).writes, k) == Effects(w.writes, k)
    ensures k !in w.intents && k in Next(w, s).intents ==> Effects(Next(w, s).writes, k) > Effects(w.writes, k)
  {
    if s.Execution? {
      ExecuteLedger(w, s.key, s.accepted, s.grant, s.git, s.fates);
      hide Execute, Effects, Protocol.Acknowledge;
      var w' := Next(w, s);
      if w'.writes != w.writes {
        var write :| w'.writes == w.writes + [Entry(s.key, write)];
        EffectsAppended(w.writes, Entry(s.key, write), k);
      }
    } else {
      OtherStepsRecordNothing(w, s);
      hide Next;
    }
  }

  /** Over every run of non-overlapping attempts, with a failure possible at any call, the writes of a
      key that reached GitHub number at most the attempts lost after starting one, plus one for the
      attempt that recorded it; and a recorded key was written. */
  lemma {:induction false} WritesAreAccountedFor(run: seq<Step>, k: Key)
    ensures var w := After(EMPTY, run);
      IsRecorded(w, k) <= Effects(w.writes, k) <= Spent(EMPTY, run, k) + IsRecorded(w, k)
  {
    if run != [] {
      WritesAreAccountedFor(run[..|run| - 1], k);
      StepCounts(After(EMPTY, run[..|run| - 1]), run[|run| - 1], k);
    }
  }

  /** Once a key is recorded its reference never changes and it is never written again. */
  lemma {:induction false} RecordedIsFinal(w: World, run: seq<Step>, k: Key)
    requires k in w.intents
    ensures var w' := After(w, run);
      k in w'.intents && w'.intents[k] == w.intents[k] && Effects(w'.writes, k) == Effects(w.writes, k)
  {
    if run != [] {
      RecordedIsFinal(w, run[..|run| - 1], k);
      StepCounts(After(w, run[..|run| - 1]), run[|run| - 1], k);
    }
  }

  /** From then on every attempt that validates and can read the ledger answers with that reference. */
  lemma RecordedIsReturned(w: World, run: seq<Step>, key: Key, p: Payload, g: Grant, git: Git, f: Fates)
    requires key in w.intents && f.lookup
    ensures var a := Execute(After(w, run), key, Ok(p), g, git, f);
      a.result == Ok(Outcome(w.intents[key].ref, true)) && a.world == After(w, run)
  {
    RecordedIsFinal(w, run, key);
  }

  // ---------- the bound is reached ----------

  /** One key attempted `n` times, each time with the record refused after the write. */
  function UnrecordedAttempts(key: Key, p: Payload, g: Grant, git: Git, n: nat): seq<Step> {
    if n == 0 then [] else UnrecordedAttempts(key, p, g, git, n - 1) + [Execution(key, Ok(p), g, git, ALL_WELL.(record := Refused))]
  }

  /** An attempt at an unrecorded key that passes its checks writes, and is recorded if that call works. */
  lemma AttemptWrites(w: World, key: Key, p: Payload, g: Grant, git: Git, f: Fates)
    requires key !in w.intents && !p.Malformed? && f in {ALL_WELL, ALL_WELL.(record := Refused)} && Preflight(p, g, git, ALL_WELL).None?
    ensures var a := Execute(w, key, Ok(p), g, git, f);
      && a.started && (a.result.Ok? <==> f.record == Done) && (key in a.world.intents <==> f.record == Done)
      && a.world.writes == w.writes + [Entry(key, Resolve(p, g, git, Mapped(w, ThreadOf(g))))]
  {
    var mapped := Mapped(w, ThreadOf(g));
    var e := Entry(key, Resolve(p, g, git, mapped));
    assert Preflight(p, g, git, f) == Preflight(p, g, git, ALL_WELL);
    assert Execute(w, key, Ok(p), g, git, f) == Finish(w, key, p, g, git, f);
    AllWellNames(w, p, g, mapped, e, f);
    FinalWriteFrame(w, p, g, mapped, e, f);
    hide FinalWrite, Preflight, Resolve, Ref;
  }

  lemma AllWellNames(w: World, p: Payload, g: Grant, mapped: int, e: Entry, f: Fates)
    requires f in {ALL_WELL, ALL_WELL.(record := Refused)}
    ensures FinalWrite(w, p, g, mapped, e, f).id.Some?
  {
    hide Render.Rendered, Contains, FindOwned, Edited, Has;
  }

  lemma OneMoreAttempt(run: seq<Step>, s: Step, key: Key, write: Write)
    requires s.Execution? && s.key == key
    requires var w := After(EMPTY, run); Next(w, s).writes == w.writes + [Entry(key, write)]
    ensures var w := After(EMPTY, run);
      && After(EMPTY, run + [s]) == Next(w, s)
      && Effects(Next(w, s).writes, key) == Effects(w.writes, key) + 1
      && Spent(EMPTY, run + [s], key) == Spent(EMPTY, run, key) + Spends(w, s, key)
  {
    hide Next, Spends;
    assert (run + [s])[..|run|] == run;
    EffectsAppended(After(EMPTY, run).writes, Entry(key, write), key);
  }

  /** The key was written `n` times, is recorded or not, and every attempt but a recorded one was spent. */
  ghost predicate Wrote(run: seq<Step>, key: Key, n: nat, recorded: bool) {
    var w := After(EMPTY, run);
    && Effects(w.writes, key) == n && (key in w.intents <==> recorded)
    && n == Spent(EMPTY, run, key) + if recorded then 1 else 0
  }

  lemma OneMoreWrite(run: seq<Step>, key: Key, p: Payload, g: Grant, git: Git, f: Fates, n: nat)
    requires Wrote(run, key, n, false) && !p.Malformed? && Preflight(p, g, git, ALL_WELL).None?
    requires f in {ALL_WELL, ALL_WELL.(record := Refused)}
    ensures Wrote(run + [Execution(key, Ok(p), g, git, f)], key, n + 1, f.record == Done)
  {
    var s, w := Execution(key, Ok(p), g, git, f), After(EMPTY, run);
    AttemptWrites(w, key, p, g, git, f);
    hide Execute, Preflight, Resolve, Effects, After, Spent;
    OneMoreAttempt(run, s, key, Resolve(p, g, git, Mapped(w, ThreadOf(g))));
  }

  lemma NothingWritten(key: Key)
    ensures Wrote([], key, 0, false)
  {
  }

  lemma {:induction false} UnrecordedAttemptsRepeat(key: Key, p: Payload, g: Grant, git: Git, n: nat)
    requires !p.Malformed? && Preflight(p, g, git, ALL_WELL).None?
    ensures Wrote(UnrecordedAttempts(key, p, g, git, n), key, n, false)
  {
    hide Wrote, Preflight;
    if n == 0 {
      NothingWritten(key);
    } else {
      UnrecordedAttemptsRepeat(key, p, g, git, n - 1);
      OneMoreWrite(UnrecordedAttempts(key, p, g, git, n - 1), key, p, g, git, ALL_WELL.(record := Refused), n - 1);
    }
  }

  /** The count of writes is the best bound there is: for every kind and every n, n attempts that are lost
      between write and record write n times, and the one that is recorded writes once more. */
  lemma WritesReachTheBound(key: Key, p: Payload, g: Grant, git: Git, n: nat)
    requires !p.Malformed? && Preflight(p, g, git, ALL_WELL).None?
    ensures Wrote(UnrecordedAttempts(key, p, g, git, n), key, n, false)
    ensures Wrote(UnrecordedAttempts(key, p, g, git, n) + [Execution(key, Ok(p), g, git, ALL_WELL)], key, n + 1, true)
  {
    hide Wrote, Preflight, UnrecordedAttempts;
    UnrecordedAttemptsRepeat(key, p, g, git, n);
    OneMoreWrite(UnrecordedAttempts(key, p, g, git, n), key, p, g, git, ALL_WELL, n);
  }

  // ---------- placement ----------

  /** The part of a write that decides where it lands. */
  datatype Placement = Placement(repo: Repo, tier: TokenScope, branch: string, base: string, number: int, commentId: int, headSHA: string)

  function PlacementOf(w: Write): Placement {
    match w
    case OpenPRWrite(repo, tier, branch, base, _, _, _) => Placement(repo, tier, branch, base, 0, 0, "")
    case UpdatePRWrite(repo, tier, n, _, _) => Placement(repo, tier, "", "", n, 0, "")
    case PostReviewWrite(repo, tier, n, id, head, _, _, _) => Placement(repo, tier, "", "", n, id, head)
    case PostCommentWrite(repo, tier, n, _) => Placement(repo, tier, "", "", n, 0, "")
    case SetLabelsWrite(repo, tier, n, _, _) => Placement(repo, tier, "", "", n, 0, "")
  }

  /** The entry an attempt adds is resolved from the sanitised payload. */
  lemma WrittenEntry(w: World, key: Key, p: Payload, g: Grant, git: Git, f: Fates)
    requires Execute(w, key, Ok(p), g, git, f).world.writes != w.writes
    ensures !p.Malformed?
    ensures p.OpenPRPayload? ==> git.branch.Some? && git.base.Some? && HasPrefix(git.branch.value, "bot/" + g.runId + "-")
    ensures Execute(w, key, Ok(p), g, git, f).world.writes == w.writes + [Entry(key, Resolve(p, g, git, Mapped(w, ThreadOf(g))))]
  {
    var mapped := Mapped(w, ThreadOf(g));
    assert Execute(w, key, Ok(p), g, git, f) == Finish(w, key, p, g, git, f);
    FinalWriteFrame(w, p, g, mapped, Entry(key, Resolve(p, g, git, mapped)), f);
    hide FinalWrite, Resolve, ValidateDiff;
  }

  /** Where the write of an attempt landed, if it made one. */
  function Landed(w: World, a: Attempt): Option<Placement> {
    if |a.world.writes| > |w.writes| then Some(PlacementOf(a.world.writes[|w.writes|].write)) else None
  }

  /** The agent writes words, not addresses: two payloads of one kind that reach GitHub under the same
      grant, git state and comment mapping land in the same place with the same credential tier,
      whatever they say and whatever fails; and that place is the grant's repository and number, or the
      run's own branch. */
  lemma PayloadDoesNotSteer(w: World, k1: Key, k2: Key, p1: Payload, p2: Payload, g: Grant, git: Git, f1: Fates, f2: Fates)
    requires KindOf(p1) == KindOf(p2)
    ensures var l1, l2 := Landed(w, Execute(w, k1, Ok(p1), g, git, f1)), Landed(w, Execute(w, k2, Ok(p2), g, git, f2));
      && (l1.Some? && l2.Some? ==> l1 == l2)
      && (l1.Some? ==>
        && l1.value.repo == g.repo
        && (l1.value.branch == "" || HasPrefix(l1.value.branch, "bot/" + g.runId + "-"))
        && l1.value.number in {0, g.scope.number} && l1.value.commentId in {0, Mapped(w, ThreadOf(g))}
        && l1.value.tier == (if p1.PostReviewPayload? then IssuesWrite else g.tokenScope))
  {
    hide Execute;
    if Landed(w, Execute(w, k1, Ok(p1), g, git, f1)).Some? { WrittenEntry(w, k1, p1, g, git, f1); }
    if Landed(w, Execute(w, k2, Ok(p2), g, git, f2)).Some? { WrittenEntry(w, k2, p2, g, git, f2); }
  }
}
