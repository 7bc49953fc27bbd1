/** What every reachable state of the system keeps: which runs have jobs, what a final status means, and
    how many upgrade runs of a repository can be under way. */
module LifecycleProofs {
  import opened Text
  import opened Intent
  import opened Validation
  import opened Protocol
  import opened Policy
  import opened Lifecycle
  import opened IdempotencyProofs
  import opened SetSizes

  // ---------- the invariant ----------

  predicate Allowed(s: System, id: string) { id in s.runs && s.runs[id].decision.Allow? }

  /** The ledger holds an intent of this kind, executed by this run, with this reference. */
  ghost predicate Backed(w: World, id: string, ref: string, kind: Kind) {
    exists k :: k in w.intents && k.run == id && k.kind == kind && w.intents[k] == Recorded(id, ref)
  }

  ghost predicate RowSound(w: World, id: string, row: Row) {
    match row.decision
    case Deny(_) => row.status == DeniedRun && row.ref == None
    case Allow(g) =>
      && g.runId == id
      && row.status != DeniedRun
      && (row.status == Succeeded ==> row.ref.Some? && Backed(w, id, row.ref.value, FinalKind(row.trigger)))
      && (row.status == NeedsInput ==> row.trigger == WebhookIssueLabeled && row.ref.Some? && Backed(w, id, row.ref.value, PostComment))
  }

  ghost predicate PhaseSound(w: World, id: string, row: Row, p: Phase) {
    match p
    case Claimed => true
    case Failing => true
    case Working => row.status == Running
    case Wrote(ref, kind) => row.status == Running && Fits(row.trigger, kind) && Backed(w, id, ref, kind)
    case Placed(ref, kind) => row.status == Running && Fits(row.trigger, kind) && Backed(w, id, ref, kind) && row.ref == Some(ref)
  }

  /** Jobs and allow rows are the same runs, one job each. */
  ghost predicate JobsMatch(s: System) {
    && NoRepeats(s.jobs)
    && (forall id :: id in s.jobs <==> Allowed(s, id))
    && (forall id :: id in s.active ==> id in s.jobs)
  }

  ghost predicate LedgerSound(s: System) {
    && (forall k :: k in s.world.intents ==> Allowed(s, k.run) && s.world.intents[k].run == k.run)
    && (forall e :: e in s.world.writes ==> Allowed(s, e.key.run))
  }

  ghost predicate Sound(s: System) {
    && JobsMatch(s) && LedgerSound(s)
    && (forall id :: id in s.runs ==> RowSound(s.world, id, s.runs[id]))
    && (forall id :: id in s.active ==> id in s.runs && PhaseSound(s.world, id, s.runs[id], s.active[id]))
  }

  // ---------- every event keeps it ----------

  /** No intent is lost or rewritten. */
  ghost predicate Extends(w: World, w': World) { forall k :: k in w.intents ==> k in w'.intents && w'.intents[k] == w.intents[k] }

  lemma BackedExtends(w: World, w': World)
    requires Extends(w, w')
    ensures forall id, ref, kind :: Backed(w, id, ref, kind) ==> Backed(w', id, ref, kind)
    ensures forall id, row :: RowSound(w, id, row) ==> RowSound(w', id, row)
    ensures forall id, row, p :: PhaseSound(w, id, row, p) ==> PhaseSound(w', id, row, p)
  {
    forall id, ref, kind | Backed(w, id, ref, kind) ensures Backed(w', id, ref, kind) {
      var k :| k in w.intents && k.run == id && k.kind == kind && w.intents[k] == Recorded(id, ref);
      assert k in w'.intents;
    }
  }

  /** An attempt that answers has left, or found, the record of its key with that reference. */
  lemma AnsweredIsRecorded(w: World, key: Key, accepted: Result<Payload, Error>, g: Grant, git: Git, f: Fates)
    ensures var a := Execute(w, key, accepted, g, git, f);
      a.result.Ok? ==> key in a.world.intents && a.world.intents[key].ref == a.result.value.ref
  {
    var a := Execute(w, key, accepted, g, git, f);
    if key !in w.intents && a.started {
      var p := accepted.value;
      var mapped := Mapped(w, ThreadOf(g));
      FinalWriteFrame(w, p, g, mapped, Entry(key, Resolve(p, g, git, mapped)), f);
      hide FinalWrite, Preflight, Resolve, Ref;
      assert a == Finish(w, key, p, g, git, f);
    }
  }

  /** What an attempt may add to the ledger and to the log: its own key only. */
  lemma AttemptAdds(w: World, key: Key, accepted: Result<Payload, Error>, g: Grant, git: Git, f: Fates)
    requires key.run == g.runId
    ensures var w' := Execute(w, key, accepted, g, git, f).world;
      && Extends(w, w')
      && (forall k :: k in w'.intents ==> k in w.intents || (k == key && w'.intents[k].run == key.run))
      && (forall e :: e in w'.writes ==> e in w.writes || e.key == key)
  {
    ExecuteLedger(w, key, accepted, g, git, f);
    hide Execute;
  }

  /** Changing the row and the phase of an allowed run is sound if both stay so. */
  lemma RunMoves(s: System, id: string, row: Row, p: Option<Phase>)
    requires Sound(s) && Allowed(s, id)
    requires row.decision == s.runs[id].decision && RowSound(s.world, id, row)
    requires p.Some? ==> PhaseSound(s.world, id, row, p.value)
    ensures Sound(Put(s, id, row, p))
  {
    hide RowSound, PhaseSound;
    assert forall other :: Allowed(Put(s, id, row, p), other) <==> Allowed(s, other);
  }

  lemma WorldMoves(s: System, s': System)
    requires Sound(s) && s' == s.(world := s'.world)
    requires Extends(s.world, s'.world) && LedgerSound(s')
    ensures Sound(s')
  {
    BackedExtends(s.world, s'.world);
    hide RowSound, PhaseSound;
    assert forall id :: Allowed(s', id) <==> Allowed(s, id);
  }

  /** A new row, with a job if it is allowed. */
  lemma RowAdded(s: System, s': System, id: string, row: Row)
    requires Sound(s) && id !in s.runs && RowSound(s.world, id, row)
    requires s' == s.(runs := s.runs[id := row], jobs := if row.decision.Allow? then s.jobs + [id] else s.jobs)
    ensures Sound(s')
  {
    hide RowSound, PhaseSound;
    assert id !in s.jobs && id !in s.active;
    forall other ensures other in s'.jobs <==> Allowed(s', other) {
      if other != id { assert Allowed(s', other) <==> Allowed(s, other); }
    }
    forall other | Allowed(s, other) ensures Allowed(s', other) {}
  }

  lemma DispatchKeeps(s: System, t: Trigger, r: Rules, id: string, now: int, f: Fate)
    requires Sound(s)
    ensures Sound(Dispatched(s, t, r, id, now, f))
  {
    var s' := Dispatched(s, t, r, id, now, f);
    if s' != s {
      var row := RowFor(t, r, id, now).value;
      if Decide(t, r, id, now).Ok? { DecidedGrantsListWhatTheyAllow(t, r, id, now); }
      assert RowSound(s.world, id, row);
      hide Sound, RowSound, Decide;
      RowAdded(s, s', id, row);
    }
  }

  lemma SchedulingIsFree(s: System, scheduling: map<string, Target>)
    requires Sound(s)
    ensures Sound(s.(scheduling := scheduling))
  {
    hide RowSound, PhaseSound;
    assert forall id :: Allowed(s.(scheduling := scheduling), id) <==> Allowed(s, id);
  }

  lemma InsertKeeps(s: System, call: string, base: Option<string>, id: string, now: int, f: Fate)
    requires Sound(s)
    ensures Sound(Inserted(s, call, base, id, now, f))
  {
    if call in s.scheduling {
      var s1 := s.(scheduling := s.scheduling - {call});
      SchedulingIsFree(s, s1.scheduling);
      var s' := Inserted(s, call, base, id, now, f);
      if s' != s1 {
        var row := UpgradeRow(s.scheduling[call], base.value, id, now);
        assert RowSound(s.world, id, row);
        hide Sound, RowSound;
        RowAdded(s1, s', id, row);
      }
    }
  }

  lemma PerformKeeps(s: System, id: string, row: Row, g: Grant, env: Envelope, now: int, git: Git, f: Fates)
    requires Sound(s) && Allowed(s, id) && row == s.runs[id] && g == row.decision.grant
    requires PhaseOf(s, id) == Some(Working) && Fits(row.trigger, env.kind)
    ensures var a := Performed(s.world, g, env, now, git, f);
      Sound(Put(s.(world := a.world), id, row, Some(PhaseAfter(a, env.kind))))
  {
    var key := IdempotencyKey(env, g);
    var accepted := Validate(env, g, now);
    hide Execute, Validate, Fits, JobsMatch;
    var a := Execute(s.world, key, accepted, g, git, f);
    assert RowSound(s.world, id, row) && PhaseSound(s.world, id, row, Working);
    AttemptAdds(s.world, key, accepted, g, git, f);
    AnsweredIsRecorded(s.world, key, accepted, g, git, f);
    var moved := s.(world := a.world);
    LedgerGrows(s, moved, key);
    WorldMoves(s, moved);
    if a.result.Ok? {
      assert a.world.intents[key] == Recorded(id, a.result.value.ref);
      assert Backed(a.world, id, a.result.value.ref, env.kind);
    }
    assert RowSound(a.world, id, row) && PhaseSound(a.world, id, row, PhaseAfter(a, env.kind));
    hide Sound, RowSound, PhaseSound;
    RunMoves(moved, id, row, Some(PhaseAfter(a, env.kind)));
  }

  lemma LedgerGrows(s: System, s': System, key: Key)
    requires LedgerSound(s) && s' == s.(world := s'.world) && Allowed(s, key.run)
    requires forall k :: k in s'.world.intents ==> (k in s.world.intents && s'.world.intents[k] == s.world.intents[k]) || (k == key && s'.world.intents[k].run == key.run)
    requires forall e :: e in s'.world.writes ==> e in s.world.writes || e.key == key
    ensures LedgerSound(s')
  {
    assert forall id :: Allowed(s', id) <==> Allowed(s, id);
  }

  lemma OutsideKeeps(s: System, step: Step, w': World)
    requires Sound(s) && !step.Execution? && w' == Next(s.world, step)
    ensures Sound(s.(world := w'))
  {
    OtherStepsRecordNothing(s.world, step);
    hide Next;
    var s' := s.(world := w');
    assert forall id :: Allowed(s', id) <==> Allowed(s, id);
    WorldMoves(s, s');
  }

  lemma AdvanceKeeps(w: World, id: string, row: Row, p: Option<Phase>, e: Event)
    requires row.decision.Allow? && RowSound(w, id, row) && (p.Some? ==> PhaseSound(w, id, row, p.value))
    ensures var (row', p') := Advance(row, p, e);
      row'.decision == row.decision && RowSound(w, id, row') && (p'.Some? ==> PhaseSound(w, id, row', p'.value))
  {
    hide Backed;
  }

  lemma GreetKeeps(s: System, g: Grant, f: Fates)
    requires Sound(s)
    ensures Sound(s.(world := Protocol.Acknowledge(s.world, g, f).0))
  {
    hide Sound, Protocol.Acknowledge;
    OutsideKeeps(s, Acknowledgement(g, f), Protocol.Acknowledge(s.world, g, f).0);
  }

  lemma RunSound(s: System, id: string)
    requires Sound(s) && Allowed(s, id)
    ensures RowSound(s.world, id, s.runs[id])
    ensures PhaseOf(s, id).Some? ==> PhaseSound(s.world, id, s.runs[id], PhaseOf(s, id).value)
  {
    hide RowSound, PhaseSound, JobsMatch, LedgerSound;
  }

  lemma DeliveryKeeps(s: System, id: string, e: Event)
    requires Sound(s) && Allowed(s, id)
    ensures Sound(Delivered(s, id, e))
  {
    hide Sound, RowSound, PhaseSound, Performed, Advance, Put, Protocol.Acknowledge, Fits;
    var row, p, g := s.runs[id], PhaseOf(s, id), s.runs[id].decision.grant;
    match e
    case Greet(_, f) => GreetKeeps(s, g, f);
    case Perform(_, env, now, git, f) =>
      if p == Some(Working) && Fits(row.trigger, env.kind) { PerformKeeps(s, id, row, g, env, now, git, f); }
    case _ =>
      RunSound(s, id);
      AdvanceKeeps(s.world, id, row, p, e);
      var (row', p') := Advance(row, p, e);
      RunMoves(s, id, row', p');
  }

  /** Whatever happens, and wherever it fails, the system stays sound. */
  lemma EventsKeep(s: System, e: Event)
    requires Sound(s)
    ensures Sound(Happens(s, e))
  {
    hide Sound, Delivered, Dispatched, Inserted, AlreadyScheduled, Next;
    match e
    case Dispatch(t, r, id, now, f) => DispatchKeeps(s, t, r, id, now, f);
    case Count(call, target, enabled, counted) => SchedulingIsFree(s, Counted(s, call, target, enabled, counted).scheduling);
    case Insert(call, base, id, now, f) => InsertKeeps(s, call, base, id, now, f);
    case Outside(step) => if step.Deleted? || step.Foreign? { OutsideKeeps(s, step, Next(s.world, step)); }
    case _ => if e.id in s.jobs && Allowed(s, e.id) { DeliveryKeeps(s, e.id, e); }
  }

  lemma {:induction false} RunsStaySound(run: seq<Event>)
    ensures Sound(Later(START, run))
  {
    if run != [] {
      RunsStaySound(run[..|run| - 1]);
      EventsKeep(Later(START, run[..|run| - 1]), run[|run| - 1]);
    }
  }

  // ---------- what it means ----------

  /** The steps of the write protocol that an event consists of. */
  function Projected(s: System, e: Event): seq<Step> {
    match e
    case Outside(step) => if step.Deleted? || step.Foreign? then [step] else []
    case Greet(id, f) => if id in s.jobs && Allowed(s, id) && PhaseOf(s, id) == Some(Working) then [Acknowledgement(s.runs[id].decision.grant, f)] else []
    case Perform(id, env, now, git, f) =>
      if id in s.jobs && Allowed(s, id) && PhaseOf(s, id) == Some(Working) && Fits(s.runs[id].trigger, env.kind) then
        var g := s.runs[id].decision.grant;
        [Execution(IdempotencyKey(env, g), Validate(env, g, now), g, git, f)]
      else []
    case _ => []
  }

  function Steps(run: seq<Event>): seq<Step> {
    if run == [] then [] else Steps(run[..|run| - 1]) + Projected(Later(START, run[..|run| - 1]), run[|run| - 1])
  }

  lemma EventProjects(s: System, e: Event)
    ensures |Projected(s, e)| <= 1
    ensures Happens(s, e).world == if Projected(s, e) == [] then s.world else Next(s.world, Projected(s, e)[0])
  {
    hide Execute, Validate, Protocol.Acknowledge, Without, Fits, AlreadyScheduled, Decide;
  }

  /** The ledger and GitHub see exactly a run of the write protocol, so that all that is proved of those
      runs holds here. */
  lemma {:induction false} TheWorldFollowsTheProtocol(run: seq<Event>)
    ensures Later(START, run).world == After(EMPTY, Steps(run))
  {
    if run != [] {
      var before, s := run[..|run| - 1], Later(START, run[..|run| - 1]);
      TheWorldFollowsTheProtocol(before);
      EventProjects(s, run[|run| - 1]);
      var steps := Projected(s, run[|run| - 1]);
      hide Happens, Next, Projected;
      if steps == [] { assert Steps(run) == Steps(before); }
      else { assert Steps(run)[..|Steps(run)| - 1] == Steps(before); }
    }
  }

  /** An intent of this kind was recorded for the run with this reference, and its write reached GitHub. */
  ghost predicate Carried(w: World, id: string, ref: string, kind: Kind) {
    exists k :: k in w.intents && k.run == id && k.kind == kind && w.intents[k] == Recorded(id, ref) && Effects(w.writes, k) >= 1
  }

  lemma BackedIsCarried(steps: seq<Step>, id: string, ref: string, kind: Kind)
    requires Backed(After(EMPTY, steps), id, ref, kind)
    ensures Carried(After(EMPTY, steps), id, ref, kind)
  {
    var w := After(EMPTY, steps);
    var k :| k in w.intents && k.run == id && k.kind == kind && w.intents[k] == Recorded(id, ref);
    WritesAreAccountedFor(steps, k);
  }

  /** In every reachable state: a run marked succeeded carries the reference of an intent of its own
      kind, recorded under its id, whose write took effect on GitHub; and a run that needs input is an
      issue run that carries the reference of its recorded comment. */
  lemma FinalStatusesAreBacked(run: seq<Event>, id: string)
    requires id in Later(START, run).runs
    ensures var row, w := Later(START, run).runs[id], Later(START, run).world;
      && (row.status == Succeeded ==> row.ref.Some? && Carried(w, id, row.ref.value, if row.trigger == WebhookPullRequest then PostReview else OpenPR))
      && (row.status == NeedsInput ==> row.trigger == WebhookIssueLabeled && row.ref.Some? && Carried(w, id, row.ref.value, PostComment))
  {
    RunsStaySound(run);
    TheWorldFollowsTheProtocol(run);
    hide Later, After, Steps, Happens, Carried;
    var row, w := Later(START, run).runs[id], Later(START, run).world;
    assert RowSound(w, id, row);
    hide Sound, Backed;
    if row.status == Succeeded { BackedIsCarried(Steps(run), id, row.ref.value, FinalKind(row.trigger)); }
    if row.status == NeedsInput { BackedIsCarried(Steps(run), id, row.ref.value, PostComment); }
  }

  /** In every reachable state: an allowed run has exactly one job and a denied run none, nor any
      reference, intent or write; and every job, intent and write belongs to an allowed run. */
  lemma RowsJobsAndLedgerAgree(run: seq<Event>)
    ensures var s := Later(START, run);
      && (forall id :: multiset(s.jobs)[id] == if Allowed(s, id) then 1 else 0)
      && (forall id :: id in s.runs && s.runs[id].decision.Deny? ==> s.runs[id].status == DeniedRun && s.runs[id].ref == None && id !in s.active)
      && (forall k :: k in s.world.intents ==> Allowed(s, k.run) && s.world.intents[k].run == k.run)
      && (forall e :: e in s.world.writes ==> Allowed(s, e.key.run))
  {
    RunsStaySound(run);
    var s := Later(START, run);
    NoRepeatsCounts(s.jobs);
    forall id | id in s.runs && s.runs[id].decision.Deny? ensures s.runs[id].status == DeniedRun && s.runs[id].ref == None && id !in s.active {
      assert RowSound(s.world, id, s.runs[id]);
      assert !Allowed(s, id);
    }
  }

  lemma {:induction false} NoRepeatsCounts(jobs: seq<string>)
    requires NoRepeats(jobs)
    ensures forall id :: multiset(jobs)[id] == if id in jobs then 1 else 0
  {
    if jobs != [] {
      var front, last := jobs[..|jobs| - 1], jobs[|jobs| - 1];
      NoRepeatsCounts(front);
      assert jobs == front + [last];
      assert last !in front;
    }
  }

  /** A decision is never taken back. */
  lemma DecisionsAreFinal(s: System, e: Event, id: string)
    requires id in s.runs
    ensures id in Happens(s, e).runs && Happens(s, e).runs[id].decision == s.runs[id].decision
  {
    hide Execute, Validate, Protocol.Acknowledge, Next, Fits, AlreadyScheduled, Decide;
  }

  /** Wherever a delivery has come, a crash leaves row, job, ledger and GitHub as they are, and the run can be delivered
      again from the start. */
  lemma CrashedRunsStartAgain(s: System, id: string)
    requires id in s.jobs && Allowed(s, id)
    ensures var s' := Happens(Happens(s, Crash(id)), Claim(id));
      s'.world == s.world && s'.runs == s.runs && s'.jobs == s.jobs && s'.active == s.active[id := Claimed]
  {
    hide Execute, Validate, Protocol.Acknowledge, Next, Decide, AlreadyScheduled;
    var s1 := Happens(s, Crash(id));
    assert s1.active == s.active - {id} && s1.runs == s.runs;
    assert (s.active - {id})[id := Claimed] == s.active[id := Claimed];
  }

  // ---------- one upgrade run at a time ----------

  /** The upgrade runs of a repository that are queued or running. */
  function UnderWay(runs: map<string, Row>, repoId: string): set<string> {
    set id | id in runs && runs[id].trigger == Upgrade && runs[id].repoId == repoId && (runs[id].status == Queued || runs[id].status == Running)
  }

  /** A finished upgrade run of the repository, delivered again, is marked running. */
  predicate Revives(s: System, e: Event, repoId: string) {
    && e.Begin? && TookEffect(e.fate) && e.id in s.jobs && Allowed(s, e.id) && PhaseOf(s, e.id) == Some(Claimed)
    && s.runs[e.id].trigger == Upgrade && s.runs[e.id].repoId == repoId && s.runs[e.id].status !in {Queued, Running}
  }

  function Revivals(run: seq<Event>, repoId: string): nat {
    if run == [] then 0
    else Revivals(run[..|run| - 1], repoId) + (if Revives(Later(START, run[..|run| - 1]), run[|run| - 1], repoId) then 1 else 0)
  }

  /** A call of the scheduler inserts a run for the repository. */
  predicate Inserts(s: System, e: Event, repoId: string) {
    && e.Insert? && e.call in s.scheduling && s.scheduling[e.call].Slug() == repoId
    && e.base.Some? && TookEffect(e.fate) && e.id !in s.runs
  }

  /** It does so on a count that no longer holds. */
  predicate InsertsStale(s: System, e: Event, repoId: string) { Inserts(s, e, repoId) && AlreadyScheduled(s.runs, repoId) }

  function StaleInserts(run: seq<Event>, repoId: string): nat {
    if run == [] then 0
    else StaleInserts(run[..|run| - 1], repoId) + (if InsertsStale(Later(START, run[..|run| - 1]), run[|run| - 1], repoId) then 1 else 0)
  }

  lemma UnderWayIsScheduled(runs: map<string, Row>, repoId: string)
    ensures AlreadyScheduled(runs, repoId) <==> UnderWay(runs, repoId) != {}
  {
    if AlreadyScheduled(runs, repoId) {
      var id :| id in runs && Outstanding(runs[id], repoId);
      assert id in UnderWay(runs, repoId);
    }
  }

  lemma AdvanceOutstanding(row: Row, p: Option<Phase>, e: Event, repoId: string)
    ensures Outstanding(Advance(row, p, e).0, repoId) && !Outstanding(row, repoId) ==>
      e.Begin? && TookEffect(e.fate) && p == Some(Claimed) && row.trigger == Upgrade && row.repoId == repoId
  {
  }

  lemma InsertOutstanding(s: System, e: Event, repoId: string)
    requires e.Insert?
    ensures var before, after := UnderWay(s.runs, repoId), UnderWay(Happens(s, e).runs, repoId);
      if Inserts(s, e, repoId) then e.id !in before && after == before + {e.id} else after == before
  {
    hide Execute, Validate, Protocol.Acknowledge, Next, Fits, Decide, Advance, AlreadyScheduled, GrantForUpgrade;
  }

  lemma DispatchOutstanding(s: System, e: Event, repoId: string)
    requires e.Dispatch? || e.Count? || e.Outside?
    ensures UnderWay(Happens(s, e).runs, repoId) == UnderWay(s.runs, repoId)
  {
    hide Execute, Validate, Protocol.Acknowledge, Next, Fits, Decide, Advance, AlreadyScheduled;
  }

  /** An event adds a run to those under way exactly if it revives or inserts one. */
  lemma EventOutstanding(s: System, e: Event, repoId: string)
    ensures var before, after := UnderWay(s.runs, repoId), UnderWay(Happens(s, e).runs, repoId);
      if Revives(s, e, repoId) || Inserts(s, e, repoId) then e.id !in before && after == before + {e.id} else after <= before
  {
    if e.Insert? {
      InsertOutstanding(s, e, repoId);
    } else if e.Dispatch? || e.Count? || e.Outside? {
      DispatchOutstanding(s, e, repoId);
    } else if Revives(s, e, repoId) {
      RevivalAdds(s, e, repoId);
    } else {
      hide Execute, Validate, Protocol.Acknowledge, Next, Fits, Decide, Advance;
      if e.id in s.jobs && Allowed(s, e.id) { AdvanceOutstanding(s.runs[e.id], PhaseOf(s, e.id), e, repoId); }
    }
  }

  /** Reviving a run adds it to those under way. */
  lemma RevivalAdds(s: System, e: Event, repoId: string)
    requires Revives(s, e, repoId)
    ensures e.id !in UnderWay(s.runs, repoId) && UnderWay(Happens(s, e).runs, repoId) == UnderWay(s.runs, repoId) + {e.id}
  {
    hide Execute, Validate, Protocol.Acknowledge, Next, Fits, Decide;
  }

  /** Event by event, the upgrade runs of a repository that are under way become more, and more than one,
      exactly when a finished one is revived while another is under way, or a call of the scheduler inserts
      one although its count no longer holds. */
  lemma OverlapExactly(s: System, e: Event, repoId: string)
    ensures var before, after := |UnderWay(s.runs, repoId)|, |UnderWay(Happens(s, e).runs, repoId)|;
      after > before && after > 1 <==> (Revives(s, e, repoId) && AlreadyScheduled(s.runs, repoId)) || InsertsStale(s, e, repoId)
  {
    EventOutstanding(s, e, repoId);
    UnderWayIsScheduled(s.runs, repoId);
    hide Happens, UnderWay, AlreadyScheduled;
    var old', new' := UnderWay(s.runs, repoId), UnderWay(Happens(s, e).runs, repoId);
    if Revives(s, e, repoId) || Inserts(s, e, repoId) { SingletonSize(old', e.id); } else { SubsetSize(new', old'); }
  }

  /** A repository has at most one upgrade run queued or running, and one more for each time a finished one
      was revived or one was inserted on a stale count. */
  lemma {:induction false} UpgradeRunsAreBounded(run: seq<Event>, repoId: string)
    ensures |UnderWay(Later(START, run).runs, repoId)| <= 1 + Revivals(run, repoId) + StaleInserts(run, repoId)
  {
    if run != [] {
      var before, s, e := run[..|run| - 1], Later(START, run[..|run| - 1]), run[|run| - 1];
      UpgradeRunsAreBounded(before, repoId);
      EventOutstanding(s, e, repoId);
      UnderWayIsScheduled(s.runs, repoId);
      hide Happens, UnderWay, AlreadyScheduled;
      var old', new' := UnderWay(s.runs, repoId), UnderWay(Later(START, run).runs, repoId);
      if Revives(s, e, repoId) || Inserts(s, e, repoId) { SingletonSize(old', e.id); } else { SubsetSize(new', old'); }
    }
  }

  // ---------- calls that do not overlap ----------

  /** At most one call of the scheduler is on its way for the repository. */
  ghost predicate OneCall(s: System, repoId: string) {
    forall c, d :: c in s.scheduling && d in s.scheduling && s.scheduling[c].Slug() == repoId && s.scheduling[d].Slug() == repoId ==> c == d
  }

  ghost predicate CallsApart(run: seq<Event>, repoId: string) { forall i :: 0 <= i <= |run| ==> OneCall(Later(START, run[..i]), repoId) }

  /** While a call is on its way, what it counted still holds. */
  ghost predicate CountHolds(s: System, repoId: string) {
    forall c :: c in s.scheduling && s.scheduling[c].Slug() == repoId ==> UnderWay(s.runs, repoId) == {}
  }

  lemma CountKeepsHolding(s: System, e: Event, repoId: string)
    requires CountHolds(s, repoId) && OneCall(s, repoId) && !Revives(s, e, repoId)
    ensures CountHolds(Happens(s, e), repoId) && !InsertsStale(s, e, repoId)
  {
    EventOutstanding(s, e, repoId);
    UnderWayIsScheduled(s.runs, repoId);
    if e.Count? {
      hide UnderWay, AlreadyScheduled, Revives;
    } else if e.Insert? {
      hide UnderWay, AlreadyScheduled, Revives, Enqueue;
      SchedulingAfterInsert(s, e);
    } else {
      SchedulingElsewhere(s, e);
      hide UnderWay, AlreadyScheduled, Revives, Happens;
    }
  }

  lemma SchedulingAfterInsert(s: System, e: Event)
    requires e.Insert?
    ensures Happens(s, e).scheduling == s.scheduling - {e.call}
  {
    hide UpgradeRow;
  }

  lemma SchedulingElsewhere(s: System, e: Event)
    requires !e.Count? && !e.Insert?
    ensures Happens(s, e).scheduling == s.scheduling
  {
    hide Execute, Validate, Protocol.Acknowledge, Next, Fits, Decide, Advance;
  }

  lemma {:induction false} CountsHold(run: seq<Event>, repoId: string)
    requires CallsApart(run, repoId) && Revivals(run, repoId) == 0
    ensures CountHolds(Later(START, run), repoId) && StaleInserts(run, repoId) == 0
  {
    hide CountHolds, OneCall, Revives, InsertsStale, Happens;
    if run == [] {
      NothingCounted(repoId);
    } else {
      var before, s, e := run[..|run| - 1], Later(START, run[..|run| - 1]), run[|run| - 1];
      forall i | 0 <= i <= |before| ensures OneCall(Later(START, before[..i]), repoId) { assert before[..i] == run[..i]; }
      CountsHold(before, repoId);
      assert OneCall(s, repoId) by { assert run[..|before|] == before; }
      CountKeepsHolding(s, e, repoId);
    }
  }

  lemma NothingCounted(repoId: string)
    ensures CountHolds(START, repoId)
  {
  }

  /** Where calls of the scheduler do not overlap and no finished run is revived, a repository has at most one
      upgrade run queued or running. */
  lemma OneUpgradeRunAtATime(run: seq<Event>, repoId: string)
    requires CallsApart(run, repoId) && Revivals(run, repoId) == 0
    ensures |UnderWay(Later(START, run).runs, repoId)| <= 1
  {
    CountsHold(run, repoId);
    UpgradeRunsAreBounded(run, repoId);
  }

  // ---------- the bound is reached, either way ----------

  /** The run leads to this state, with this many revivals and stale inserts. */
  ghost predicate Leads(run: seq<Event>, repoId: string, s: System, n: nat, k: nat) {
    Later(START, run) == s && Revivals(run, repoId) == n && StaleInserts(run, repoId) == k
  }

  lemma LeadsOn(run: seq<Event>, repoId: string, s: System, n: nat, k: nat, e: Event, s': System)
    requires Leads(run, repoId, s, n, k) && Happens(s, e) == s'
    ensures Leads(run + [e], repoId, s', if Revives(s, e, repoId) then n + 1 else n, if InsertsStale(s, e, repoId) then k + 1 else k)
  {
    assert (run + [e])[..|run|] == run;
    hide Happens, Revives, InsertsStale;
  }

  lemma CountLeads(run: seq<Event>, repoId: string, s: System, n: nat, k: nat, call: string, t: Target)
    requires Leads(run, repoId, s, n, k) && t.Slug() == repoId && !AlreadyScheduled(s.runs, repoId) && call !in s.scheduling
    ensures Leads(run + [Count(call, t, true, true)], repoId, s.(scheduling := s.scheduling[call := t]), n, k)
  {
    var e := Count(call, t, true, true);
    hide AlreadyScheduled, Leads, Execute, Validate, Next, Protocol.Acknowledge, Decide;
    LeadsOn(run, repoId, s, n, k, e, Happens(s, e));
  }

  lemma InsertLeads(run: seq<Event>, repoId: string, s: System, n: nat, k: nat, call: string, t: Target, base: string, id: string, now: int, row: Row)
    requires Leads(run, repoId, s, n, k) && call in s.scheduling && s.scheduling[call] == t && t.Slug() == repoId
    requires id !in s.runs && row == UpgradeRow(t, base, id, now)
    ensures Leads(run + [Insert(call, Some(base), id, now, Done)], repoId,
      s.(runs := s.runs[id := row], jobs := s.jobs + [id], scheduling := s.scheduling - {call}), n, if AlreadyScheduled(s.runs, repoId) then k + 1 else k)
  {
    var e := Insert(call, Some(base), id, now, Done);
    hide AlreadyScheduled, UpgradeRow, Leads, Execute, Validate, Next, Protocol.Acknowledge, Decide;
    LeadsOn(run, repoId, s, n, k, e, Happens(s, e));
  }

  /** A call of the scheduler that nothing comes between. */
  function Scheduling(t: Target, base: string, id: string, now: int): seq<Event> {
    [Count(id, t, true, true), Insert(id, Some(base), id, now, Done)]
  }

  lemma ScheduleLeads(run: seq<Event>, repoId: string, s: System, n: nat, t: Target, base: string, id: string, now: int, row: Row)
    requires Leads(run, repoId, s, n, 0) && id !in s.runs && repoId == t.Slug() && !AlreadyScheduled(s.runs, repoId)
    requires row == UpgradeRow(t, base, id, now) && s.scheduling == map[]
    ensures Leads(run + Scheduling(t, base, id, now), repoId, s.(runs := s.runs[id := row], jobs := s.jobs + [id]), n, 0)
  {
    hide Leads, UpgradeRow, AlreadyScheduled;
    CountLeads(run, repoId, s, n, 0, id, t);
    var s1 := s.(scheduling := map[id := t]);
    InsertLeads(run + [Count(id, t, true, true)], repoId, s1, n, 0, id, t, base, id, now, row);
    assert s1.scheduling - {id} == map[];
    assert run + Scheduling(t, base, id, now) == run + [Count(id, t, true, true)] + [Insert(id, Some(base), id, now, Done)];
  }

  lemma AdvanceLeads(run: seq<Event>, repoId: string, s: System, n: nat, e: Event)
    requires Leads(run, repoId, s, n, 0) && Advances(e) && e.id in s.jobs && Allowed(s, e.id)
    ensures var (row, p) := Advance(s.runs[e.id], PhaseOf(s, e.id), e);
      Leads(run + [e], repoId, Put(s, e.id, row, p), if Revives(s, e, repoId) then n + 1 else n, 0)
  {
    hide Advance, Put, Leads, Revives, Execute, Validate, Next, Protocol.Acknowledge, Decide, AlreadyScheduled;
    var (row, p) := Advance(s.runs[e.id], PhaseOf(s, e.id), e);
    assert Happens(s, e) == Put(s, e.id, row, p);
    LeadsOn(run, repoId, s, n, 0, e, Put(s, e.id, row, p));
  }

  /** A delivery that fails before it starts. */
  function Fails(id: string): seq<Event> { [Claim(id), GiveUp(id), MarkFailed(id, Done), Leave(id)] }

  lemma FailureLeads(run: seq<Event>, repoId: string, s: System, n: nat, id: string, row: Row)
    requires Leads(run, repoId, s, n, 0) && s.active == map[] && id in s.jobs && Allowed(s, id) && row == s.runs[id].(status := FailedRun)
    ensures Leads(run + Fails(id), repoId, s.(runs := s.runs[id := row]), n, 0)
  {
    hide Leads;
    var s1 := s.(active := map[id := Claimed]);
    var s2 := s.(active := map[id := Failing]);
    var s3 := s2.(runs := s.runs[id := row]);
    assert Put(s, id, s.runs[id], Some(Claimed)) == s1;
    AdvanceLeads(run, repoId, s, n, Claim(id));
    assert Put(s1, id, s.runs[id], Some(Failing)) == s2;
    AdvanceLeads(run + [Claim(id)], repoId, s1, n, GiveUp(id));
    assert Put(s2, id, row, Some(Failing)) == s3;
    AdvanceLeads(run + [Claim(id)] + [GiveUp(id)], repoId, s2, n, MarkFailed(id, Done));
    assert Put(s3, id, row, None) == s.(runs := s.runs[id := row]);
    AdvanceLeads(run + [Claim(id)] + [GiveUp(id)] + [MarkFailed(id, Done)], repoId, s3, n, Leave(id));
    assert run + Fails(id) == run + [Claim(id)] + [GiveUp(id)] + [MarkFailed(id, Done)] + [Leave(id)];
  }

  lemma RevivalLeads(run: seq<Event>, repoId: string, s: System, n: nat, id: string, row: Row)
    requires Leads(run, repoId, s, n, 0) && s.active == map[] && id in s.jobs && Allowed(s, id) && row == s.runs[id].(status := Running)
    requires row.trigger == Upgrade && row.repoId == repoId && s.runs[id].status == FailedRun
    ensures Leads(run + [Claim(id)] + [Begin(id, Done)], repoId, s.(runs := s.runs[id := row], active := map[id := Working]), n + 1, 0)
  {
    hide Leads;
    var s1 := s.(active := map[id := Claimed]);
    assert Put(s, id, s.runs[id], Some(Claimed)) == s1;
    AdvanceLeads(run, repoId, s, n, Claim(id));
    assert Put(s1, id, row, Some(Working)) == s.(runs := s.runs[id := row], active := map[id := Working]);
    AdvanceLeads(run + [Claim(id)], repoId, s1, n, Begin(id, Done));
  }

  lemma NothingLeads(repoId: string)
    ensures Leads([], repoId, START, 0, 0)
  {
  }

  lemma UpgradeRowIs(t: Target, base: string, id: string, now: int)
    ensures var row := UpgradeRow(t, base, id, now);
      row.repoId == t.Slug() && row.trigger == Upgrade && row.decision.Allow? && row.status == Queued
  {
  }

  lemma OverlapLeads(repoId: string, t: Target, base: string, id1: string, id2: string, now: int, row1: Row, row2: Row)
    returns (run: seq<Event>, s: System)
    requires id1 != id2 && repoId == t.Slug() && row1.repoId == repoId && row1.trigger == Upgrade && row1.decision.Allow?
    requires row1 == UpgradeRow(t, base, id1, now) && row2 == UpgradeRow(t, base, id2, now)
    ensures Leads(run, repoId, s, 1, 0) && s.runs == map[id1 := row1.(status := Running), id2 := row2]
  {
    hide Leads, UpgradeRow, Fails, Scheduling;
    NothingLeads(repoId);
    ScheduleLeads([], repoId, START, 0, t, base, id1, now, row1);
    var run1 := [] + Scheduling(t, base, id1, now);
    var s1 := START.(runs := START.runs[id1 := row1], jobs := START.jobs + [id1]);
    var failed := row1.(status := FailedRun);
    FailureLeads(run1, repoId, s1, 0, id1, failed);
    var run2 := run1 + Fails(id1);
    var s2 := s1.(runs := s1.runs[id1 := failed]);
    ScheduleLeads(run2, repoId, s2, 0, t, base, id2, now, row2);
    var run3 := run2 + Scheduling(t, base, id2, now);
    var s3 := s2.(runs := s2.runs[id2 := row2], jobs := s2.jobs + [id2]);
    var again := row1.(status := Running);
    RevivalLeads(run3, repoId, s3, 0, id1, again);
    run := run3 + [Claim(id1)] + [Begin(id1, Done)];
    s := s3.(runs := s3.runs[id1 := again], active := map[id1 := Working]);
  }

  /** A run is scheduled and fails, a second one is scheduled, and the first is delivered again. */
  lemma RevivedRunsOverlap(t: Target, base: string, id1: string, id2: string, now: int)
    requires id1 != id2
    ensures exists run, s :: Leads(run, t.Slug(), s, 1, 0) && UnderWay(s.runs, t.Slug()) == {id1, id2}
  {
    var row1, row2 := UpgradeRow(t, base, id1, now), UpgradeRow(t, base, id2, now);
    UpgradeRowIs(t, base, id1, now);
    UpgradeRowIs(t, base, id2, now);
    var run, s := OverlapLeads(t.Slug(), t, base, id1, id2, now, row1, row2);
    hide Leads, UpgradeRow;
    assert UnderWay(s.runs, t.Slug()) == {id1, id2};
  }

  /** Two calls of the scheduler both count before either inserts. */
  lemma OverlappingCallsOverlap(t: Target, base: string, id1: string, id2: string, now: int)
    requires id1 != id2
    ensures exists run, s :: Leads(run, t.Slug(), s, 0, 1) && UnderWay(s.runs, t.Slug()) == {id1, id2}
  {
    var repoId := t.Slug();
    var row1, row2 := UpgradeRow(t, base, id1, now), UpgradeRow(t, base, id2, now);
    UpgradeRowIs(t, base, id1, now);
    UpgradeRowIs(t, base, id2, now);
    hide Leads, UpgradeRow;
    NothingLeads(repoId);
    CountLeads([], repoId, START, 0, 0, id1, t);
    var run1 := [] + [Count(id1, t, true, true)];
    var s1 := START.(scheduling := START.scheduling[id1 := t]);
    CountLeads(run1, repoId, s1, 0, 0, id2, t);
    var run2 := run1 + [Count(id2, t, true, true)];
    var s2 := s1.(scheduling := s1.scheduling[id2 := t]);
    InsertLeads(run2, repoId, s2, 0, 0, id1, t, base, id1, now, row1);
    var run3 := run2 + [Insert(id1, Some(base), id1, now, Done)];
    var s3 := s2.(runs := s2.runs[id1 := row1], jobs := s2.jobs + [id1], scheduling := s2.scheduling - {id1});
    assert id1 in s3.runs && Outstanding(s3.runs[id1], repoId);
    InsertLeads(run3, repoId, s3, 0, 0, id2, t, base, id2, now, row2);
    var run4 := run3 + [Insert(id2, Some(base), id2, now, Done)];
    var s4 := s3.(runs := s3.runs[id2 := row2], jobs := s3.jobs + [id2], scheduling := s3.scheduling - {id2});
    assert UnderWay(s4.runs, repoId) == {id1, id2};
    assert Leads(run4, repoId, s4, 0, 1);
  }
}
