/** On whose authority anything happens: why a run was allowed, and why a write reached GitHub. */
module AuthorityProofs {
  import opened Text
  import opened Intent
  import opened Validation
  import opened Protocol
  import opened Policy
  import opened Lifecycle
  import opened IdempotencyProofs
  import opened AttemptProofs
  import opened AcceptanceProofs
  import LifecycleProofs

  // ---------- why a run was allowed ----------

  predicate TriggerOf(rt: RunTrigger, t: Trigger) {
    match rt
    case WebhookPullRequest => t.kind == PullRequestTrigger
    case WebhookIssueLabeled => t.kind == IssueLabeledTrigger
    case Upgrade => false
  }

  /** The event dispatched the run on a trigger that the rules permit. */
  ghost predicate DispatchedBy(e: Event, id: string, row: Row) {
    && e.Dispatch? && e.id == id && row.decision.Allow?
    && TriggerOf(row.trigger, e.trigger) && row.repoId == e.trigger.owner + "/" + e.trigger.name
    && Permitted(e.trigger, e.rules) && GrantedFor(row.decision.grant, e.trigger, e.rules, id, e.now)
  }

  /** The event is the count of an enabled call about that repository. */
  predicate CountedBy(e: Event, call: string, t: Target) { e.Count? && e.call == call && e.target == t && e.enabled && e.counted }

  ghost predicate CountedBefore(run: seq<Event>, i: int, call: string, t: Target) { exists j :: 0 <= j < i <= |run| && CountedBy(run[j], call, t) }

  /** The event inserted the run for a call of the scheduler. */
  ghost predicate InsertedBy(run: seq<Event>, i: int, id: string, row: Row, t: Target)
    requires 0 <= i < |run|
  {
    && run[i].Insert? && run[i].id == id && CountedBefore(run, i, run[i].call, t)
    && row.trigger == Upgrade && row.repoId == t.owner + "/" + t.name && row.decision.Allow?
    && GrantedForUpgrade(row.decision.grant, id, t.owner, t.name, run[i].now)
  }

  ghost predicate IsReason(run: seq<Event>, i: int, id: string, row: Row) {
    0 <= i < |run| && (DispatchedBy(run[i], id, row) || exists t :: InsertedBy(run, i, id, row, t))
  }

  /** Some event of the run is the reason for this row. */
  ghost predicate Authorised(run: seq<Event>, id: string, row: Row) { exists i :: IsReason(run, i, id, row) }

  ghost predicate AllAuthorised(run: seq<Event>) {
    var s := Later(START, run);
    && (forall id :: id in s.runs && s.runs[id].decision.Allow? ==> Authorised(run, id, s.runs[id]))
    && (forall call :: call in s.scheduling ==> CountedBefore(run, |run|, call, s.scheduling[call]))
  }

  /** Two rows with the same decision, trigger and repository have the same reason. */
  predicate SameRun(a: Row, b: Row) { a.decision == b.decision && a.trigger == b.trigger && a.repoId == b.repoId }

  lemma AuthorisedOn(run: seq<Event>, e: Event, id: string, row: Row, row': Row)
    requires Authorised(run, id, row) && SameRun(row, row')
    ensures Authorised(run + [e], id, row')
  {
    var after := run + [e];
    var i :| IsReason(run, i, id, row);
    assert after[i] == run[i];
    hide GrantedFor, GrantedForUpgrade, Permitted, CountedBy;
    if t :| InsertedBy(run, i, id, row, t) {
      var j :| 0 <= j < i && CountedBy(run[j], run[i].call, t);
      assert after[j] == run[j];
      assert InsertedBy(after, i, id, row', t);
    } else {
      assert DispatchedBy(after[i], id, row');
    }
    assert IsReason(after, i, id, row');
  }

  lemma CountedOn(run: seq<Event>, e: Event, call: string, t: Target)
    requires CountedBefore(run, |run|, call, t)
    ensures CountedBefore(run + [e], |run| + 1, call, t)
  {
    var j :| 0 <= j < |run| && CountedBy(run[j], call, t);
    assert (run + [e])[j] == run[j];
  }

  lemma DeliveryOnRows(s: System, id: string, e: Event)
    requires id in s.runs && s.runs[id].decision.Allow?
    ensures var s' := Delivered(s, id, e);
      && s'.runs.Keys == s.runs.Keys && (forall x :: x in s.runs ==> SameRun(s.runs[x], s'.runs[x]))
      && s'.scheduling == s.scheduling
  {
    hide Execute, Validate, Protocol.Acknowledge, Fits;
  }

  /** What an event may do to the runs table: put a new row in, or change status and reference of old ones. */
  lemma EventsOnRows(s: System, e: Event)
    ensures var s' := Happens(s, e);
      && (forall id :: id in s.runs ==> id in s'.runs && SameRun(s.runs[id], s'.runs[id]))
      && (forall id :: id in s'.runs && id !in s.runs ==> (e.Dispatch? || e.Insert?) && e.id == id)
      && (!e.Insert? && !e.Count? ==> s'.scheduling == s.scheduling)
  {
    hide Delivered, Next, Decide, AlreadyScheduled, UpgradeRow;
    if !e.Dispatch? && !e.Count? && !e.Insert? && !e.Outside? {
      if e.id in s.runs && s.runs[e.id].decision.Allow? { DeliveryOnRows(s, e.id, e); }
    }
  }

  lemma DispatchIsPermitted(s: System, e: Event)
    requires e.Dispatch?
    ensures var s' := Happens(s, e);
      e.id in s'.runs && e.id !in s.runs && s'.runs[e.id].decision.Allow? ==> DispatchedBy(e, e.id, s'.runs[e.id])
  {
    DecidesExactly(e.trigger, e.rules, e.id, e.now);
    hide Decide, Permitted, GrantedFor;
  }

  lemma UpgradeRowIsGranted(t: Target, base: string, id: string, now: int)
    ensures var row := UpgradeRow(t, base, id, now);
      row.trigger == Upgrade && row.repoId == t.owner + "/" + t.name && row.decision.Allow? && GrantedForUpgrade(row.decision.grant, id, t.owner, t.name, now)
  {
  }

  lemma InsertOnRows(s: System, e: Event)
    requires e.Insert?
    ensures var s' := Happens(s, e);
      && (e.id in s'.runs && e.id !in s.runs ==>
          e.call in s.scheduling && e.base.Some? && s'.runs[e.id] == UpgradeRow(s.scheduling[e.call], e.base.value, e.id, e.now))
      && (forall c :: c in s'.scheduling ==> c in s.scheduling && s'.scheduling[c] == s.scheduling[c])
  {
    hide UpgradeRow, Delivered, Decide, Next;
  }

  lemma InsertIsCounted(run: seq<Event>, e: Event, t: Target, row: Row)
    requires e.Insert? && e.base.Some? && row == UpgradeRow(t, e.base.value, e.id, e.now) && CountedBefore(run, |run|, e.call, t)
    ensures Authorised(run + [e], e.id, row)
  {
    UpgradeRowIsGranted(t, e.base.value, e.id, e.now);
    CountedOn(run, e, e.call, t);
    var after := run + [e];
    assert after[|run|] == e;
    hide UpgradeRow, GrantedForUpgrade, CountedBy;
    var j :| 0 <= j < |run| && CountedBy(run[j], e.call, t);
    assert after[j] == run[j];
    assert InsertedBy(after, |run|, e.id, row, t);
    assert IsReason(after, |run|, e.id, row);
  }

  lemma CountIsCounted(s: System, e: Event)
    requires e.Count?
    ensures var s' := Happens(s, e);
      forall c :: c in s'.scheduling ==> (c in s.scheduling && s'.scheduling[c] == s.scheduling[c]) || CountedBy(e, c, s'.scheduling[c])
  {
    hide AlreadyScheduled, Execute, Validate, Next, Decide, Protocol.Acknowledge;
  }

  lemma StillAuthorised(run: seq<Event>, e: Event)
    requires AllAuthorised(run)
    ensures AllAuthorised(run + [e])
  {
    var after, s := run + [e], Later(START, run);
    assert after[..|run|] == run && after[|run|] == e;
    var s' := Happens(s, e);
    assert Later(START, after) == s';
    EventsOnRows(s, e);
    if e.Dispatch? {
      DispatchIsPermitted(s, e);
      assert e.id in s'.runs && e.id !in s.runs && s'.runs[e.id].decision.Allow? ==> IsReason(after, |run|, e.id, s'.runs[e.id]);
    }
    if e.Insert? {
      InsertOnRows(s, e);
      if e.id in s'.runs && e.id !in s.runs { InsertIsCounted(run, e, s.scheduling[e.call], s'.runs[e.id]); }
    }
    if e.Count? { CountIsCounted(s, e); }
    hide Happens, Later, DispatchedBy, InsertedBy, SameRun;
    forall id | id in s'.runs && s'.runs[id].decision.Allow? ensures Authorised(after, id, s'.runs[id]) {
      if id in s.runs {
        assert s.runs[id].decision.Allow? by { assert SameRun(s.runs[id], s'.runs[id]); SameDecision(s.runs[id], s'.runs[id]); }
        AuthorisedOn(run, e, id, s.runs[id], s'.runs[id]);
      }
    }
    forall c | c in s'.scheduling ensures CountedBefore(after, |after|, c, s'.scheduling[c]) {
      if c in s.scheduling && s'.scheduling[c] == s.scheduling[c] { CountedOn(run, e, c, s.scheduling[c]); }
    }
  }

  lemma SameDecision(a: Row, b: Row)
    requires SameRun(a, b)
    ensures a.decision == b.decision
  {
  }

  /** In every reachable state, an allowed run was dispatched on a trigger that the rules permitted, with the
      grant of that trigger, or inserted by a call of the scheduler that the repository had opted into. */
  lemma {:induction false} AllowedRunsAreAuthorised(run: seq<Event>)
    ensures AllAuthorised(run)
  {
    hide Happens;
    if run != [] {
      AllowedRunsAreAuthorised(run[..|run| - 1]);
      StillAuthorised(run[..|run| - 1], run[|run| - 1]);
      assert run[..|run| - 1] + [run[|run| - 1]] == run;
    }
  }

  // ---------- why a write reached GitHub ----------

  /** The write was made by this event: by a run that was allowed and under way, on an envelope its grant entitles
      it to send, with everything in order, and it is that envelope's payload, defanged, in the grant's place. */
  ghost predicate MadeBy(s: System, e: Event, x: Entry) {
    && e.Perform? && e.id in s.runs && s.runs[e.id].decision.Allow? && PhaseOf(s, e.id) == Some(Working)
    && var g := s.runs[e.id].decision.grant;
      && x.key == IdempotencyKey(e.env, g)
      && Entitled(e.env, g, e.now)
      && Ready(s.world, x.key, Validate(e.env, g, e.now), g, e.git, e.fates)
      && AcceptedAs(Content(x.write), e.env.payload, g) && WellPlaced(x.write, g)
  }

  lemma PerformedWrite(s: System, e: Event, g: Grant)
    requires e.Perform? && e.id in s.runs && s.runs[e.id].decision == Allow(g) && PhaseOf(s, e.id) == Some(Working)
    ensures var w' := Performed(s.world, g, e.env, e.now, e.git, e.fates).world;
      w'.writes == s.world.writes || exists x :: w'.writes == s.world.writes + [x] && MadeBy(s, e, x)
  {
    var key, r := IdempotencyKey(e.env, g), Validate(e.env, g, e.now);
    AttemptStartsExactly(s.world, key, r, g, e.git, e.fates);
    AcceptsExactly(e.env, g, e.now);
    WrittenIsDefanged(s.world, e.env, g, e.now, e.git, e.fates);
    hide Execute, Validate, Ready, Entitled, Whole, AcceptedAs, Content, WellPlaced;
    var w' := Performed(s.world, g, e.env, e.now, e.git, e.fates).world;
    if w'.writes != s.world.writes {
      var x := w'.writes[|s.world.writes|];
      assert w'.writes == s.world.writes + [x];
      assert r.Ok? by { ReadyIsAccepted(s.world, key, r, g, e.git, e.fates); }
      assert MadeBy(s, e, x);
    }
  }

  lemma ReadyIsAccepted(w: World, key: Key, accepted: Result<Payload, Error>, g: Grant, git: Git, f: Fates)
    requires Ready(w, key, accepted, g, git, f)
    ensures accepted.Ok?
  {
  }

  lemma AcknowledgementWritesNothing(w: World, g: Grant, f: Fates)
    ensures Protocol.Acknowledge(w, g, f).0.writes == w.writes
  {
    OtherStepsRecordNothing(w, Acknowledgement(g, f));
    hide WriterAcknowledge, Protocol.Acknowledge, Execute;
  }

  lemma EventWrites(s: System, e: Event)
    ensures var after := Happens(s, e).world.writes;
      after == s.world.writes || exists x :: after == s.world.writes + [x] && MadeBy(s, e, x)
  {
    hide MadeBy, Execute, Validate, Decide, AlreadyScheduled, UpgradeRow, Performed, Fits;
    if e.Perform? {
      if e.id in s.runs && s.runs[e.id].decision.Allow? && PhaseOf(s, e.id) == Some(Working) { PerformedWrite(s, e, s.runs[e.id].decision.grant); }
    } else if e.Greet? {
      if e.id in s.runs && s.runs[e.id].decision.Allow? { AcknowledgementWritesNothing(s.world, s.runs[e.id].decision.grant, e.fates); }
      hide Protocol.Acknowledge;
    } else if e.Outside? {
      if !e.interference.Execution? { OtherStepsRecordNothing(s.world, e.interference); }
      hide Next;
    } else {
      hide Advance, Next, Protocol.Acknowledge;
    }
  }

  ghost predicate Accountable(run: seq<Event>, x: Entry) { exists i :: 0 <= i < |run| && MadeBy(Later(START, run[..i]), run[i], x) }

  lemma AccountableOn(run: seq<Event>, e: Event, x: Entry)
    requires Accountable(run, x)
    ensures Accountable(run + [e], x)
  {
    hide MadeBy, Later;
    var i :| 0 <= i < |run| && MadeBy(Later(START, run[..i]), run[i], x);
    assert (run + [e])[..i] == run[..i] && (run + [e])[i] == run[i];
  }

  /** In every reachable state, every write that GitHub holds was made so. */
  lemma {:induction false} EveryWriteIsAccountable(run: seq<Event>)
    ensures forall x :: x in Later(START, run).world.writes ==> Accountable(run, x)
  {
    hide MadeBy, Happens, Accountable;
    if run != [] {
      var before, e := run[..|run| - 1], run[|run| - 1];
      var s := Later(START, before);
      EveryWriteIsAccountable(before);
      EventWrites(s, e);
      assert before + [e] == run;
      forall x | x in Later(START, run).world.writes ensures Accountable(run, x) {
        if x in s.world.writes { AccountableOn(before, e, x); } else { NewlyMade(before, e, x); }
      }
    }
  }

  lemma NewlyMade(before: seq<Event>, e: Event, x: Entry)
    requires MadeBy(Later(START, before), e, x)
    ensures Accountable(before + [e], x)
  {
    hide MadeBy, Later;
    assert (before + [e])[..|before|] == before && (before + [e])[|before|] == e;
  }

  lemma {:induction false} EffectsAreEntries(writes: seq<Entry>, k: Key)
    requires Effects(writes, k) >= 1
    ensures exists x :: x in writes && x.key == k
  {
    var front, last := writes[..|writes| - 1], writes[|writes| - 1];
    if last.key != k { EffectsAreEntries(front, k); }
    assert writes == front + [last];
  }

  lemma RecordedIsWritten(run: seq<Event>, k: Key)
    requires k in Later(START, run).world.intents
    ensures exists x :: x in Later(START, run).world.writes && x.key == k
  {
    hide Later, LifecycleProofs.Steps, After, Effects;
    LifecycleProofs.TheWorldFollowsTheProtocol(run);
    WritesAreAccountedFor(LifecycleProofs.Steps(run), k);
    EffectsAreEntries(Later(START, run).world.writes, k);
  }

  /** The write was made by this event, for the same run and with the same payload. */
  ghost predicate MadeAlike(run: seq<Event>, i: int, x: Entry, env: Envelope, g: Grant) {
    && 0 <= i < |run| && MadeBy(Later(START, run[..i]), run[i], x)
    && run[i].id == g.runId && run[i].env.kind == env.kind && run[i].env.payload == env.payload
  }

  lemma MadeForItsRun(s: System, e: Event, x: Entry)
    requires MadeBy(s, e, x) && LifecycleProofs.Sound(s)
    ensures e.Perform? && x.key.run == e.id && x.key.kind == e.env.kind && x.key.payload == e.env.payload
  {
    assert LifecycleProofs.RowSound(s.world, e.id, s.runs[e.id]);
    hide LifecycleProofs.Sound, Ready, Entitled, AcceptedAs, WellPlaced, Validate;
  }

  /** In every reachable state an attempt that finds its key recorded repeats what was written, under that key, by an
      attempt of the same run with the same payload of the same kind; so no run is answered for another, and none for
      a payload that never reached GitHub. */
  lemma RecordsAreAccountable(run: seq<Event>, env: Envelope, g: Grant)
    requires IdempotencyKey(env, g) in Later(START, run).world.intents
    ensures exists x, i :: x in Later(START, run).world.writes && MadeAlike(run, i, x, env, g)
  {
    RecordedIsWritten(run, IdempotencyKey(env, g));
    EveryWriteIsAccountable(run);
    hide Later, MadeBy, LifecycleProofs.Sound, MadeAlike;
    var x :| x in Later(START, run).world.writes && x.key == IdempotencyKey(env, g);
    assert Accountable(run, x);
    AlikeMade(run, x, env, g);
  }

  lemma AlikeMade(run: seq<Event>, x: Entry, env: Envelope, g: Grant)
    requires Accountable(run, x) && x.key == IdempotencyKey(env, g)
    ensures exists i :: MadeAlike(run, i, x, env, g)
  {
    hide Later, MadeBy, LifecycleProofs.Sound;
    var i :| 0 <= i < |run| && MadeBy(Later(START, run[..i]), run[i], x);
    LifecycleProofs.RunsStaySound(run[..i]);
    MadeForItsRun(Later(START, run[..i]), run[i], x);
    assert MadeAlike(run, i, x, env, g);
  }
}
