/** The agent harness of internal/agent/rpc.go: waiting on the event stream, and the bounded loop in
    which an external verifier, not the agent, decides how a security run ends. Whatever the agent
    process, the pipe and the verifier do is an input. */
module AgentLoop {
  import opened Text
  import opened Verifier

  // ---------- the event stream ----------

  datatype EventType = Response | AgentSettled | AgentEnd | OtherType

  /** A line of the agent's output; one that is no JSON is `Noise`. */
  datatype Event = Noise | Event(id: string, typ: EventType, command: string, success: Option<bool>, willRetry: bool)

  /** The event answers the config command `id`. */
  predicate Answers(e: Event, id: string) { e.Event? && e.typ == Response && e.id != "" && e.id == id }

  predicate AnsweredBy(events: seq<Event>, n: nat, id: string) { exists i :: 0 <= i < n && i < |events| && Answers(events[i], id) }

  /** The first answer to `id` is a success. */
  predicate Granted(events: seq<Event>, n: nat, id: string) {
    exists i :: 0 <= i < n && i < |events| && Answers(events[i], id) && events[i].success == Some(true)
      && forall j :: 0 <= j < i ==> !Answers(events[j], id)
  }

  /** Some command has no answer among the first `n` events. */
  ghost predicate Waiting(events: seq<Event>, n: nat, ids: set<string>) { exists id :: id in ids && !AnsweredBy(events, n, id) }

  /** `awaitConfigAcksLoop`; `broken` says that the stream ends in a scanner error. It succeeds just when
      the first answer to every command is a success, and it reads no further than it has to: up to the
      last outstanding answer, or to the end if one never comes. */
  method AwaitConfigAcks(ids: set<string>, events: seq<Event>, broken: bool) returns (ok: bool, used: nat)
    ensures used <= |events|
    ensures ok <==> forall id :: id in ids ==> Granted(events, |events|, id)
    ensures (forall id :: id in ids ==> AnsweredBy(events, used, id)) || used == |events|
    ensures forall n :: 0 <= n < used ==> Waiting(events, n, ids)
  {
    var pending := ids;
    var rejected := false;
    used := 0;
    while pending != {} && used < |events|
      invariant used <= |events| && pending <= ids
      invariant forall id :: id in ids ==> (id in pending <==> !AnsweredBy(events, used, id))
      invariant !rejected <==> forall id :: id in ids - pending ==> Granted(events, used, id)
      invariant forall n :: 0 <= n < used ==> Waiting(events, n, ids)
      decreases |events| - used
    {
      var e := events[used];
      ghost var waiting :| waiting in pending;
      assert waiting in ids && !AnsweredBy(events, used, waiting);
      assert Waiting(events, used, ids);
      AckStep(events, used, ids);
      hide Granted, AnsweredBy;
      used := used + 1;
      if e.Noise? || e.typ != Response || e.id == "" || e.id !in pending { continue; }
      if e.success != Some(true) { rejected := true; }
      pending := pending - {e.id};
    }
    GrantedWithin(events, used, ids);
    if broken && pending != {} {
      ghost var missing :| missing in pending;
      return false, used;
    }
    if rejected { return false, used; }
    if pending != {} {
      ghost var missing :| missing in pending;
      return false, used;
    }
    ok := true;
  }

  /** What one more event does to the answers. */
  lemma AckStep(events: seq<Event>, n: nat, ids: set<string>)
    requires n < |events|
    ensures forall id :: AnsweredBy(events, n + 1, id) <==> AnsweredBy(events, n, id) || Answers(events[n], id)
    ensures forall id :: AnsweredBy(events, n, id) ==> (Granted(events, n + 1, id) <==> Granted(events, n, id))
    ensures forall id :: !AnsweredBy(events, n, id) && Answers(events[n], id) ==> (Granted(events, n + 1, id) <==> events[n].success == Some(true))
  {
    forall id | !AnsweredBy(events, n, id) && Answers(events[n], id)
      ensures Granted(events, n + 1, id) <==> events[n].success == Some(true)
    {
      assert forall j :: 0 <= j < n ==> !Answers(events[j], id);
    }
  }

  lemma GrantedWithin(events: seq<Event>, n: nat, ids: set<string>)
    requires n <= |events|
    ensures forall id :: AnsweredBy(events, n, id) ==> (Granted(events, |events|, id) <==> Granted(events, n, id))
    ensures n == |events| ==> forall id :: Granted(events, n, id) ==> AnsweredBy(events, n, id)
  {
    forall id | AnsweredBy(events, n, id) && Granted(events, |events|, id) ensures Granted(events, n, id) {
      var i :| 0 <= i < |events| && Answers(events[i], id) && events[i].success == Some(true) && forall j :: 0 <= j < i ==> !Answers(events[j], id);
      assert i < n;
    }
  }

  // ---------- settling ----------

  predicate EndSignal(e: Event) { e.Event? && (e.typ == AgentSettled || (e.typ == AgentEnd && !e.willRetry)) }

  predicate Rejection(e: Event) { e.Event? && e.typ == Response && e.command == "prompt" && e.success == Some(false) }

  predicate Stops(e: Event) { EndSignal(e) || Rejection(e) }

  /** The position just behind the first stopping event from `from` on, or the end of the stream. */
  function SettleEnd(events: seq<Event>, from: nat): (n: nat)
    requires from <= |events|
    ensures from <= n <= |events|
    decreases |events| - from
  {
    if from == |events| then from else if Stops(events[from]) then from + 1 else SettleEnd(events, from + 1)
  }

  /** The agent has settled, or its run has ended for good; an end that will be retried is none. */
  predicate IsEnd(e: Event) {
    e.Event? && ((e.typ == AgentSettled) || (e.typ == AgentEnd && e.willRetry == false))
  }

  /** The agent answers that it does not take the prompt. */
  predicate IsRefusal(e: Event) {
    match e
    case Event(_, Response, command, Some(success), _) => command == "prompt" && success == false
    case _ => false
  }

  /** `awaitSettled`: it reads up to the first end or refusal and succeeds just on an end. */
  method AwaitSettled(events: seq<Event>, from: nat) returns (ok: bool, next: nat)
    requires from <= |events|
    ensures next == SettleEnd(events, from)
    ensures ok <==> next > from && IsEnd(events[next - 1])
    ensures !ok ==> next == |events| || (next > from && IsRefusal(events[next - 1]))
    ensures forall k :: from <= k < next - 1 ==> !IsEnd(events[k]) && !IsRefusal(events[k])
  {
    next := from;
    while next < |events|
      invariant from <= next <= |events| && SettleEnd(events, from) == SettleEnd(events, next)
      invariant forall k :: from <= k < next ==> !IsEnd(events[k]) && !IsRefusal(events[k])
    {
      var e := events[next];
      next := next + 1;
      if e.Event? {
        match e.typ {
          case Response => if e.command == "prompt" && e.success == Some(false) { return false, next; }
          case AgentSettled => return true, next;
          case AgentEnd => if !e.willRetry { return true, next; }
          case OtherType =>
        }
      }
    }
    ok := false;
  }

  function Flatten(turns: seq<seq<Event>>): seq<Event> {
    if turns == [] then [] else Flatten(turns[..|turns| - 1]) + turns[|turns| - 1]
  }

  /** The stream position after `k` waits. */
  function AfterWaits(events: seq<Event>, k: nat): (n: nat)
    ensures n <= |events|
  {
    if k == 0 then 0 else SettleEnd(events, AfterWaits(events, k - 1))
  }

  /** A turn that says it is over once, at its end. */
  ghost predicate OneSignal(turn: seq<Event>) { turn != [] && forall i :: 0 <= i < |turn| ==> (Stops(turn[i]) <==> i == |turn| - 1) }

  lemma {:induction false} SettleWithin(events: seq<Event>, from: nat, turn: seq<Event>, at: nat)
    requires turn != [] && Stops(turn[|turn| - 1]) && at < |turn|
    requires from + (|turn| - at) <= |events| && events[from..from + (|turn| - at)] == turn[at..]
    ensures from < SettleEnd(events, from) <= from + (|turn| - at)
    ensures SettleEnd(events, from) == from + (|turn| - at) <==> forall i :: at <= i < |turn| - 1 ==> !Stops(turn[i])
    decreases |turn| - at
  {
    assert events[from] == events[from..from + (|turn| - at)][0] == turn[at];
    if !Stops(events[from]) {
      assert events[from + 1..from + 1 + (|turn| - at - 1)] == events[from..from + (|turn| - at)][1..] == turn[at + 1..];
      SettleWithin(events, from + 1, turn, at + 1);
    }
  }

  lemma {:induction false} FlattenPrefix(turns: seq<seq<Event>>, k: nat)
    requires k <= |turns|
    ensures |Flatten(turns[..k])| <= |Flatten(turns)| && Flatten(turns)[..|Flatten(turns[..k])|] == Flatten(turns[..k])
    decreases |turns| - k
  {
    if k < |turns| {
      FlattenPrefix(turns, k + 1);
      assert turns[..k + 1][..k] == turns[..k];
      assert Flatten(turns[..k + 1]) == Flatten(turns[..k]) + turns[k];
      assert Flatten(turns)[..|Flatten(turns[..k])|] == Flatten(turns)[..|Flatten(turns[..k + 1])|][..|Flatten(turns[..k])|];
    } else {
      assert turns[..k] == turns;
    }
  }

  /** The stream position after k waits is the end of turn k. */
  ghost predicate InStep(turns: seq<seq<Event>>, k: nat)
    requires k <= |turns|
  {
    AfterWaits(Flatten(turns), k) == |Flatten(turns[..k])|
  }

  /** Turns and waits keep step, for every turn, exactly when every turn gives one stop signal. An agent
      that reports both the end of its run and, after it, that it settled leaves a signal behind, and the
      next wait returns before its turn has begun. */
  lemma {:induction false} WaitsMatchTurns(turns: seq<seq<Event>>)
    requires forall k :: 0 <= k < |turns| ==> turns[k] != [] && Stops(turns[k][|turns[k]| - 1])
    ensures (forall k :: 0 <= k <= |turns| ==> InStep(turns, k)) <==> forall k :: 0 <= k < |turns| ==> OneSignal(turns[k])
  {
    hide Stops, InStep, OneSignal;
    if forall k :: 0 <= k < |turns| ==> OneSignal(turns[k]) {
      forall k | 0 <= k <= |turns| ensures InStep(turns, k) { StepsWithTurns(turns, k); }
    }
    if forall k :: 0 <= k <= |turns| ==> InStep(turns, k) {
      forall k | 0 <= k < |turns| ensures OneSignal(turns[k]) { StepHasOneSignal(turns, k); }
    }
  }

  lemma {:induction false} StepHasOneSignal(turns: seq<seq<Event>>, k: nat)
    requires k < |turns| && InStep(turns, k) && InStep(turns, k + 1)
    requires turns[k] != [] && Stops(turns[k][|turns[k]| - 1])
    ensures OneSignal(turns[k])
  {
    hide Stops;
    TurnSegment(turns, k);
    SettleWithin(Flatten(turns), AfterWaits(Flatten(turns), k), turns[k], 0);
  }

  /** An agent that reports the end of its run and then that it has settled ends two waits with one turn:
      the second is over before anything of the next turn is read. */
  lemma EndingTwiceIsEarly(later: seq<Event>)
    ensures var turn := [Event("", AgentEnd, "", None, false), Event("", AgentSettled, "", None, false)];
      var events := turn + later;
      !OneSignal(turn) && AfterWaits(events, 1) == 1 && AfterWaits(events, 2) == |turn|
  {
    var turn := [Event("", AgentEnd, "", None, false), Event("", AgentSettled, "", None, false)];
    var events := turn + later;
    assert events[0] == turn[0] && events[1] == turn[1];
    assert Stops(turn[0]) && Stops(turn[1]);
    assert SettleEnd(events, 0) == 1 && SettleEnd(events, 1) == 2;
    assert AfterWaits(events, 0) == 0;
  }

  lemma TurnSegment(turns: seq<seq<Event>>, k: nat)
    requires k < |turns|
    ensures var events, at := Flatten(turns), |Flatten(turns[..k])|;
      && at + |turns[k]| <= |events| && events[at..at + |turns[k]|] == turns[k][0..]
      && |Flatten(turns[..k + 1])| == at + |turns[k]|
  {
    FlattenPrefix(turns, k + 1);
    assert turns[..k + 1][..k] == turns[..k];
    var events, at := Flatten(turns), |Flatten(turns[..k])|;
    assert Flatten(turns[..k + 1]) == Flatten(turns[..k]) + turns[k];
    assert events[at..at + |turns[k]|] == events[..at + |turns[k]|][at..];
  }

  lemma {:induction false} StepsWithTurns(turns: seq<seq<Event>>, k: nat)
    requires k <= |turns| && forall k :: 0 <= k < |turns| ==> OneSignal(turns[k])
    ensures InStep(turns, k)
  {
    hide Stops;
    if k > 0 {
      StepsWithTurns(turns, k - 1);
      TurnSegment(turns, k - 1);
      assert OneSignal(turns[k - 1]);
      SettleWithin(Flatten(turns), AfterWaits(Flatten(turns), k - 1), turns[k - 1], 0);
    } else {
      assert turns[..0] == [];
    }
  }

  // ---------- the verifier loop ----------

  datatype Mode = Security | IssueMode | ReviewMode

  datatype Status = Finished | Unverified | Blocked

  datatype AgentVerdict = AgentVerdict(status: Status, summary: string, verification: string)

  predicate IsBlocked(v: Option<AgentVerdict>) { v.Some? && v.value.status == Blocked }

  /** What the outside does: for the first prompt (0), the nudge (1) and the feedback after round r (1 + r),
      whether it could be written, whether the wait after it settles, and the verdict file read then; the
      verifier's answer in round r; and how the process ends. */
  datatype Script = Script(
    config: bool,
    sends: nat -> bool,
    settles: nat -> bool,
    verdicts: nat -> Option<AgentVerdict>,
    verify: nat -> Result<Verdict, string>,
    exits: bool,
    commits: bool,
    review: bool)

  /** What the harness does, in order. */
  datatype Act = Prompt(delivered: bool) | Settle(ok: bool) | Verified(result: Verdict)

  datatype Outcome =
    | Failed
    | StoodDown
    | Proposed(title: string, body: string, verdict: Option<AgentVerdict>, checked: Option<Verdict>)
    | Reviewed

  /** A verifier error is a red result. */
  function Outcomes(s: Script, round: nat): Verdict {
    match s.verify(round)
    case Ok(v) => v
    case Err(message) => Verdict(false, [Failure("scanner_error", "verify: " + message, "")])
  }

  /** The verifier's own result, or a red one if it could not be had. */
  predicate Judges(v: Verdict, answer: Result<Verdict, string>) {
    match answer
    case Ok(result) => v == result
    case Err(message) => !v.pass && |v.failures| == 1 && HasSuffix(v.failures[0].detail, message)
  }

  // ---------- the pull request ----------

  function FirstLine(s: string): (line: string)
    ensures '\n' !in line
  {
    if s == "" || s[0] == '\n' then "" else [s[0]] + FirstLine(s[1..])
  }

  function Title(v: Option<AgentVerdict>): string {
    var line := if v.Some? then TrimSpace(FirstLine(v.value.summary)) else "";
    if line == "" then "chore(deps): security upgrades"
    else
      var title := Join(Fields(line), " ");
      if |title| > 120 then title[..120] else title
  }

  const UNREPORTED := "the agent did not report a run status"
  const CAREFULLY := "**Agent report (unverified change \U{00E2}\U{0080}\U{0094} review carefully):**"

  function Heading(v: Option<AgentVerdict>): string {
    match v
    case None => CAREFULLY
    case Some(AgentVerdict(Finished, _, _)) => "**Agent report:**"
    case Some(AgentVerdict(Unverified, _, _)) => CAREFULLY
    case Some(AgentVerdict(Blocked, _, _)) => "**Agent report (BLOCKED \U{00E2}\U{0080}\U{0094} change incomplete):**"
  }

  function Report(v: Option<AgentVerdict>): string {
    var (summary, checks) := if v.Some? then (v.value.summary, v.value.verification) else (UNREPORTED, UNREPORTED);
    Heading(v) + " " + summary + "\n\n**Verification:** " + checks
  }

  function FailureLine(f: Failure): string { "- " + f.rule + ": " + f.detail + "\n" }

  function FailureLines(fs: seq<Failure>): string {
    if fs == [] then "" else FailureLine(fs[0]) + FailureLines(fs[1..])
  }

  function KnownFailures(checked: Option<Verdict>): string {
    if checked.Some? && !checked.value.pass then "\n\n**Known failures (external verifier):**\n" + FailureLines(checked.value.failures)
    else ""
  }

  // ---------- reading a trace ----------

  function Prompts(trace: seq<Act>): nat {
    if trace == [] then 0 else Prompts(trace[..|trace| - 1]) + (if trace[|trace| - 1].Prompt? then 1 else 0)
  }

  /** The verifier's results, in order. */
  function Results(trace: seq<Act>): seq<Verdict> {
    if trace == [] then []
    else Results(trace[..|trace| - 1]) + (if trace[|trace| - 1].Verified? then [trace[|trace| - 1].result] else [])
  }

  /** No prompt was delivered after the last verification. */
  predicate CheckedLast(trace: seq<Act>) {
    trace != [] && (trace[|trace| - 1].Verified? || (trace[|trace| - 1] == Prompt(false) && CheckedLast(trace[..|trace| - 1])))
  }

  /** Every delivered prompt is waited for before anything else happens. */
  predicate Waited(trace: seq<Act>) {
    forall i :: 0 <= i < |trace| && trace[i] == Prompt(true) ==> i + 1 < |trace| && trace[i + 1].Settle?
  }

  lemma Traced(trace: seq<Act>, a: Act)
    ensures Prompts(trace + [a]) == Prompts(trace) + (if a.Prompt? then 1 else 0)
    ensures Results(trace + [a]) == Results(trace) + (if a.Verified? then [a.result] else [])
    ensures CheckedLast(trace + [a]) <==> a.Verified? || (a == Prompt(false) && CheckedLast(trace))
  {
    assert (trace + [a])[..|trace|] == trace;
  }

  lemma Turn(trace: seq<Act>, ok: bool)
    ensures var after := trace + [Prompt(true), Settle(ok)];
      && Prompts(after) == Prompts(trace) + 1 && Results(after) == Results(trace)
      && (Waited(trace) ==> Waited(after))
  {
    Traced(trace, Prompt(true));
    Traced(trace + [Prompt(true)], Settle(ok));
    assert trace + [Prompt(true)] + [Settle(ok)] == trace + [Prompt(true), Settle(ok)];
  }

  /** The round with these results so far does not go on: passed, out of rounds, or the same failures again. */
  predicate Stopping(rs: seq<Verdict>, rounds: nat) {
    rs != [] && (rs[|rs| - 1].pass || |rs| == rounds
      || (|rs| > 1 && Signature(rs[|rs| - 1].failures) == Signature(rs[|rs| - 2].failures)))
  }

  /** None of the first `n` results was a reason to stop. */
  predicate GoesOn(rs: seq<Verdict>, n: nat, rounds: nat) { forall i :: 0 < i <= n && i <= |rs| ==> !Stopping(rs[..i], rounds) }

  /** The results of a loop that stopped as soon as it had to, and, unless a prompt could not be written, no
      sooner. */
  predicate Ended(trace: seq<Act>, rounds: nat) {
    var rs := Results(trace);
    && (rs != [] ==> GoesOn(rs, |rs| - 1, rounds))
    && (Stopping(rs, rounds) || (trace != [] && trace[|trace| - 1] == Prompt(false)))
  }

  lemma AnotherRound(rs: seq<Verdict>, r: Verdict, rounds: nat)
    requires GoesOn(rs, |rs|, rounds)
    ensures GoesOn(rs + [r], |rs|, rounds)
    ensures Stopping(rs + [r], rounds) <==> r.pass || |rs| + 1 == rounds || (rs != [] && Signature(r.failures) == Signature(rs[|rs| - 1].failures))
    ensures GoesOn(rs + [r], |rs| + 1, rounds) <==> !Stopping(rs + [r], rounds)
  {
    hide Signature;
    forall i | 0 < i <= |rs| ensures !Stopping((rs + [r])[..i], rounds) { assert (rs + [r])[..i] == rs[..i]; }
    assert (rs + [r])[..|rs| + 1] == rs + [r];
  }

  function Rounds(maxRounds: int): nat { if maxRounds <= 0 then 3 else maxRounds }

  /** The verdict after the first turn and the one nudge. */
  function FirstVerdict(s: Script): Option<AgentVerdict> {
    if s.verdicts(0).Some? then s.verdicts(0) else if s.sends(1) then s.verdicts(1) else None
  }

  /** The last verdict that could be read, after `n` rounds of feedback. */
  function LatestVerdict(s: Script, v0: Option<AgentVerdict>, n: nat): Option<AgentVerdict> {
    if n == 0 then v0 else if s.verdicts(1 + n).Some? then s.verdicts(1 + n) else LatestVerdict(s, v0, n - 1)
  }

  /** How a run ends that went through all its turns, by its last verdict and last result. */
  function Conclusion(mode: Mode, s: Script, v: Option<AgentVerdict>, checked: Option<Verdict>): Outcome {
    if IsBlocked(v) then StoodDown
    else if !s.commits then if mode == IssueMode && v.None? then StoodDown else Failed
    else Proposed(Title(v), Report(v) + KnownFailures(checked), v, checked)
  }

  function LastOf(rs: seq<Verdict>): Option<Verdict> { if rs == [] then None else Some(rs[|rs| - 1]) }

  function Feedbacks(rs: seq<Verdict>): nat { if rs == [] then 0 else |rs| - 1 }

  /** The loop of `RPC.Run`, lines 272 to 309. */
  method VerifyLoop(rounds: nat, s: Script, v0: Option<AgentVerdict>, before: seq<Act>)
    returns (v: Option<AgentVerdict>, checked: Verdict, trace: seq<Act>)
    requires rounds > 0 && Results(before) == [] && Waited(before)
    ensures before <= trace && Waited(trace)
    ensures 0 < |Results(trace)| <= rounds && Some(checked) == LastOf(Results(trace))
    ensures v == LatestVerdict(s, v0, Feedbacks(Results(trace)))
    ensures forall i :: 0 <= i < |Results(trace)| ==> Results(trace)[i] == Outcomes(s, i + 1)
    ensures forall i :: 0 <= i < |Results(trace)| ==> Judges(Results(trace)[i], s.verify(i + 1))
    ensures Prompts(trace) < Prompts(before) + rounds
    ensures CheckedLast(trace) && Ended(trace, rounds)
  {
    hide CheckedLast, Prompts, Results, Stopping, GoesOn, Signature;
    v := v0;
    trace := before;
    var previous: Option<Digest> := None;
    var round := 1;
    NoRounds(rounds);
    while true
      invariant 1 <= round <= rounds && before <= trace && Waited(trace)
      invariant Prompts(trace) == Prompts(before) + round - 1
      invariant |Results(trace)| == round - 1
      invariant previous == if round == 1 then None else Some(Signature(Results(trace)[round - 2].failures))
      invariant GoesOn(Results(trace), round - 1, rounds)
      invariant v == LatestVerdict(s, v0, round - 1)
      invariant forall i :: 0 <= i < |Results(trace)| ==> Results(trace)[i] == Outcomes(s, i + 1) && Judges(Results(trace)[i], s.verify(i + 1))
      decreases rounds - round
    {
      checked := Outcomes(s, round);
      Traced(trace, Verified(checked));
      AnotherRound(Results(trace), checked, rounds);
      WaitedMore(trace, Verified(checked));
      trace := trace + [Verified(checked)];
      if checked.pass { return; }
      var signature := ComputeSignature(checked.failures);
      if round == rounds || Some(signature) == previous { return; }
      previous := Some(signature);
      if !s.sends(1 + round) {
        Traced(trace, Prompt(false));
        WaitedMore(trace, Prompt(false));
        ghost var rs := Results(trace);
        trace := trace + [Prompt(false)];
        assert Results(trace) == rs && trace[|trace| - 1] == Prompt(false);
        return;
      }
      Turn(trace, s.settles(1 + round));
      trace := trace + [Prompt(true), Settle(s.settles(1 + round))];
      if s.verdicts(1 + round).Some? { v := s.verdicts(1 + round); }
      round := round + 1;
    }
  }

  lemma NoFeedback(s: Script, v0: Option<AgentVerdict>)
    ensures LatestVerdict(s, v0, 0) == v0
  {
  }

  lemma NoRounds(rounds: nat)
    ensures GoesOn([], 0, rounds)
  {
  }

  lemma WaitedMore(trace: seq<Act>, a: Act)
    requires Waited(trace) && a != Prompt(true)
    ensures Waited(trace + [a])
  {
  }

  /** `RPC.Run`, from the config commands to the result. */
  method RunAgent(mode: Mode, maxRounds: int, s: Script) returns (out: Outcome, trace: seq<Act>)
    ensures |Results(trace)| <= (if maxRounds <= 0 then 3 else maxRounds) && Prompts(trace) <= (if maxRounds <= 0 then 3 else maxRounds) + 1
    ensures Waited(trace)
    ensures Results(trace) != [] ==> mode == Security && Ended(trace, Rounds(maxRounds)) && CheckedLast(trace)
    ensures forall i :: 0 <= i < |Results(trace)| ==> Results(trace)[i] == Outcomes(s, i + 1)
    ensures forall i :: 0 <= i < |Results(trace)| ==> Judges(Results(trace)[i], s.verify(i + 1))
    ensures out.Proposed? ==> s.commits && s.exits && s.settles(0) && !(out.verdict.Some? && out.verdict.value.status == Blocked)
    ensures out == if !s.config || !s.sends(0) || !s.exits || !s.settles(0) then Failed
      else if mode == ReviewMode then if s.review then Reviewed else Failed
      else Conclusion(mode, s, LatestVerdict(s, FirstVerdict(s), Feedbacks(Results(trace))), LastOf(Results(trace)))
    ensures out.Proposed? && mode == Security ==> out.checked.Some?
  {
    hide CheckedLast, Prompts, Results, Ended, Title, Report, KnownFailures, Waited, LatestVerdict;
    NoFeedback(s, FirstVerdict(s));
    trace := [];
    EmptyTrace();
    if !s.config { return Failed, trace; }
    if !s.sends(0) {
      Traced(trace, Prompt(false));
      WaitedMore(trace, Prompt(false));
      return Failed, trace + [Prompt(false)];
    }
    Turn(trace, s.settles(0));
    trace := trace + [Prompt(true), Settle(s.settles(0))];
    var v: Option<AgentVerdict> := None;
    if s.settles(0) && mode != ReviewMode {
      v := s.verdicts(0);
      if v.None? {
        if s.sends(1) {
          Turn(trace, s.settles(1));
          trace := trace + [Prompt(true), Settle(s.settles(1))];
          v := s.verdicts(1);
        } else {
          Traced(trace, Prompt(false));
          WaitedMore(trace, Prompt(false));
          trace := trace + [Prompt(false)];
        }
      }
    }
    var checked: Option<Verdict> := None;
    if mode == Security && !IsBlocked(v) {
      var last;
      v, last, trace := VerifyLoop(Rounds(maxRounds), s, v, trace);
      checked := Some(last);
    }
    if !s.exits || !s.settles(0) { return Failed, trace; }
    if mode == ReviewMode { return if s.review then Reviewed else Failed, trace; }
    if IsBlocked(v) { return StoodDown, trace; }
    if !s.commits { return if mode == IssueMode && v.None? then StoodDown else Failed, trace; }
    out := Proposed(Title(v), Report(v) + KnownFailures(checked), v, checked);
  }

  lemma EmptyTrace()
    ensures Prompts([]) == 0 && Results([]) == [] && Waited([])
  {
  }

  lemma {:induction false} LinesContain(fs: seq<Failure>, k: nat)
    requires k < |fs|
    ensures Contains(FailureLines(fs), FailureLine(fs[k]))
  {
    if k == 0 {
      PrefixContains(FailureLine(fs[0]), FailureLines(fs[1..]));
    } else {
      LinesContain(fs[1..], k - 1);
      ContainsBehind(FailureLine(fs[0]), FailureLines(fs[1..]), FailureLine(fs[k]));
    }
  }

  lemma ContainsBehind(front: string, s: string, p: string)
    requires Contains(s, p)
    ensures Contains(front + s, p)
  {
    var i :| 0 <= i <= |s| && OccursAt(s, p, i);
    assert (front + s)[|front| + i..|front| + i + |p|] == s[i..i + |p|];
    assert OccursAt(front + s, p, |front| + i);
  }

  /** The body lists every failure of a red last result, one per line, and mentions none otherwise. */
  lemma RedResultsAreListed(checked: Option<Verdict>)
    ensures KnownFailures(checked) != "" <==> checked.Some? && !checked.value.pass
    ensures checked.Some? && !checked.value.pass ==>
      forall f :: f in checked.value.failures ==> Contains(KnownFailures(checked), "- " + f.rule + ": " + f.detail + "\n")
  {
    if checked.Some? && !checked.value.pass {
      var fs := checked.value.failures;
      forall f | f in fs ensures Contains(KnownFailures(checked), FailureLine(f)) {
        hide FailureLine, Contains;
        var k :| 0 <= k < |fs| && fs[k] == f;
        LinesContain(fs, k);
        ContainsBehind("\n\n**Known failures (external verifier):**\n", FailureLines(fs), FailureLine(f));
      }
    }
  }

  lemma {:induction false} FieldsKeep(s: string, c: char)
    requires c !in s
    ensures c == ' ' || c !in Join(Fields(s), " ")
    decreases |s|
  {
    if s != "" {
      var n := if SpaceLen(s) > 0 then SpaceLen(s) else FieldLen(s);
      FieldsKeep(s[n..], c);
    }
  }

  lemma {:induction false} TrimKeeps(s: string, c: char)
    requires c !in s
    ensures c !in TrimLeft(s) && c !in TrimRight(s)
    ensures TrimLeft(s) == "" || SpaceLen(TrimLeft(s)) == 0
    ensures TrimRight(s) <= s
    decreases |s|
  {
    if s != "" {
      if SpaceLen(s) > 0 { TrimKeeps(s[SpaceLen(s)..], c); }
      TrimKeeps(s[1..], c);
      assert s == [s[0]] + s[1..];
    }
  }

  /** A proposed title is one non-empty line of at most 120 bytes. */
  lemma TitleIsOneLine(v: Option<AgentVerdict>)
    ensures 0 < |Title(v)| <= 120 && '\n' !in Title(v)
  {
    if v.Some? {
      var first := FirstLine(v.value.summary);
      var left, line := TrimLeft(first), TrimSpace(first);
      TrimKeeps(first, '\n');
      TrimKeeps(left, '\n');
      if line != "" {
        assert SpaceLen(line) == 0;
        FieldsKeep(line, '\n');
        assert FieldLen(line) > 0 && Fields(line)[0] == line[..FieldLen(line)];
        var title := Join(Fields(line), " ");
        assert |title| >= |Fields(line)[0]|;
      }
    }
  }

  // ---------- what a proposal says ----------

  lemma {:induction false} FirstLineIs(s: string)
    ensures FirstLine(s) <= s && (|FirstLine(s)| < |s| ==> s[|FirstLine(s)|] == '\n')
  {
    if s != "" && s[0] != '\n' { FirstLineIs(s[1..]); }
  }

  lemma OneFirstLine(s: string, a: string, b: string)
    requires a <= s && '\n' !in a && (|a| < |s| ==> s[|a|] == '\n')
    requires b <= s && '\n' !in b && (|b| < |s| ==> s[|b|] == '\n')
    ensures a == b
  {
    forall i | 0 <= i < |a| ensures s[i] != '\n' { assert s[i] == a[i]; }
    forall i | 0 <= i < |b| ensures s[i] != '\n' { assert s[i] == b[i]; }
    assert |a| == |b|;
  }

  /** The title is made of the words on the first line of what the agent reports, as many as fit; where there are
      none it is the standing one. */
  lemma TitleIsTheFirstLine(v: Option<AgentVerdict>, line: string)
    requires v.Some? ==> line <= v.value.summary && '\n' !in line && (|line| < |v.value.summary| ==> v.value.summary[|line|] == '\n')
    requires v.None? ==> line == ""
    ensures var words := Join(Fields(TrimSpace(line)), " ");
      if TrimSpace(line) == "" then Title(v) == "chore(deps): security upgrades"
      else Title(v) <= words && |Title(v)| == if |words| < 120 then |words| else 120
  {
    if v.Some? {
      FirstLineIs(v.value.summary);
      var first := FirstLine(v.value.summary);
      OneFirstLine(v.value.summary, first, line);
      hide TrimSpace, Fields, Join;
    }
  }

  const UNSURE := "**Agent report (unverified change \U{00E2}\U{0080}\U{0094} review carefully):** "
  const VERIFICATION := "\n\n**Verification:** "

  lemma HeadingText(v: Option<AgentVerdict>)
    requires !IsBlocked(v)
    ensures Heading(v) + " " == if v.Some? && v.value.status == Finished then "**Agent report:** " else UNSURE
  {
  }

  /** The report calls a change unverified unless the agent says that it is finished, and then quotes what the
      agent reports about the change and about its verification, if it reports anything. */
  lemma ReportQuotesTheAgent(v: Option<AgentVerdict>)
    requires !(v.Some? && v.value.status == Blocked)
    ensures Report(v) == (if v.Some? && v.value.status == Finished then "**Agent report:** " else UNSURE)
      + (if v.Some? then v.value.summary else "the agent did not report a run status")
      + VERIFICATION + (if v.Some? then v.value.verification else "the agent did not report a run status")
  {
    HeadingText(v);
    hide Heading, UNSURE, VERIFICATION;
    assert VERIFICATION == "\n\n**Verification:** " by { VerificationText(); }
  }

  lemma VerificationText()
    ensures VERIFICATION == "\n\n**Verification:** "
  {
  }

  /** The verdict a run ends with is the last one that could be read: after the feedback of some round, or else before
      any. */
  lemma {:induction false} LatestIsLatest(s: Script, v0: Option<AgentVerdict>, n: nat)
    ensures var v := LatestVerdict(s, v0, n);
      || (exists k :: 1 < k <= n + 1 && s.verdicts(k).Some? && v == s.verdicts(k) && forall j :: k < j <= n + 1 ==> s.verdicts(j).None?)
      || (v == v0 && forall j :: 1 < j <= n + 1 ==> s.verdicts(j).None?)
  {
    if n > 0 && s.verdicts(1 + n).None? { LatestIsLatest(s, v0, n - 1); }
  }
}
