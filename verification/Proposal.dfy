/** From the agent harness to the executor: the one intent that internal/agent/rpc.go builds from a run, and
    why validation never stands in its way. */
module Proposal {
  import opened Text
  import opened Intent
  import opened Validation
  import opened AcceptanceProofs
  import AgentLoop
  import Policy
  import Verifier

  /** `openPRIntent`: always a draft. */
  function ProposalEnvelope(runId: string, title: string, body: string): Envelope {
    Envelope(SCHEMA_VERSION, runId, OpenPR, OpenPRPayload(title, body, true))
  }

  /** A word, and what follows it in a line, start with no white space. */
  lemma WordIsNoSpace(line: string, t: string)
    requires line != "" && SpaceLen(line) == 0 && t != ""
    requires var n := FieldLen(line);
      (|t| <= n && t == line[..|t|]) || (|t| > n && t[..n] == line[..n] && t[n] == ' ')
    ensures SpaceLen(t) == 0
  {
    var n := FieldLen(line);
    assert n >= 1;
    forall i | 0 <= i < n && i < |t| ensures t[i] == line[i] {
      if |t| <= n { assert t[i] == line[..|t|][i]; } else { assert t[i] == t[..n][i] == line[..n][i]; }
    }
  }

  /** The words of a line start with its first word. */
  lemma FirstWord(line: string)
    requires line != "" && SpaceLen(line) == 0
    ensures var words, n := Join(Fields(line), " "), FieldLen(line);
      n >= 1 && |words| >= n && words[..n] == line[..n] && (|words| > n ==> words[n] == ' ')
  {
    var n := FieldLen(line);
    assert Fields(line) == [line[..n]] + Fields(line[n..]);
    hide Fields;
    var rest := Fields(line[n..]);
    if rest == [] {
      assert Fields(line) == [line[..n]];
    } else {
      assert Fields(line)[1..] == rest;
      assert Join(Fields(line), " ") == line[..n] + " " + Join(rest, " ");
    }
  }

  lemma {:induction false} TrimLeftNoSpace(s: string)
    ensures TrimLeft(s) == "" || SpaceLen(TrimLeft(s)) == 0
    decreases |s|
  {
    if SpaceLen(s) > 0 { TrimLeftNoSpace(s[SpaceLen(s)..]); }
  }

  lemma {:induction false} TrimRightPrefix(s: string)
    ensures TrimRight(s) <= s
  {
    if !Blank(s) {
      TrimRightPrefix(s[1..]);
      assert s == [s[0]] + s[1..];
    }
  }

  /** What is trimmed starts with no white space, cut wherever. */
  lemma TrimmedHead(s: string)
    ensures var line := TrimSpace(s); line == "" || SpaceLen(line) == 0
  {
    TrimLeftNoSpace(s);
    TrimRightPrefix(TrimLeft(s));
  }

  lemma StandingTitle()
    ensures !Blank("chore(deps): security upgrades")
  {
    assert SpaceLen("chore(deps): security upgrades") == 0;
  }

  lemma TitleIsVisible(v: Option<AgentLoop.AgentVerdict>)
    ensures !Blank(AgentLoop.Title(v))
  {
    StandingTitle();
    AgentLoop.TitleIsOneLine(v);
    if v.Some? {
      var line := TrimSpace(AgentLoop.FirstLine(v.value.summary));
      TrimmedHead(AgentLoop.FirstLine(v.value.summary));
      hide TrimSpace, Fields, FieldLen, SpaceLen, Join;
      if line != "" {
        FirstWord(line);
        var words, t := Join(Fields(line), " "), AgentLoop.Title(v);
        assert t <= words;
        var n := FieldLen(line);
        if |t| <= n { assert t == words[..n][..|t|] == line[..|t|]; } else { assert t[..n] == words[..n]; }
        WordIsNoSpace(line, t);
      }
    }
  }

  /** Whatever the agent reports and whatever the verifier finds, a proposed pull request is accepted as a draft under
      the grant that policy gave an issue run with a number or a scheduled run, or under the scheduler's own, exactly
      until the grant expires. */
  lemma ProposalIsAccepted(v: Option<AgentLoop.AgentVerdict>, checked: Option<Verifier.Verdict>, g: Grant, now: int)
    requires OpenPR in g.allowedKinds && g.tokenScope == ContentsWrite
    requires g.scope.kind == Scheduled || (g.scope.kind == Issue && g.scope.number != 0)
    ensures var r := Validate(ProposalEnvelope(g.runId, AgentLoop.Title(v), AgentLoop.Report(v) + AgentLoop.KnownFailures(checked)), g, now);
      (r.Ok? <==> now <= g.expiresAt) && (r.Ok? ==> r.value.OpenPRPayload? && r.value.draft)
  {
    var env := ProposalEnvelope(g.runId, AgentLoop.Title(v), AgentLoop.Report(v) + AgentLoop.KnownFailures(checked));
    TitleIsVisible(v);
    AcceptsExactly(env, g, now);
    if Validate(env, g, now).Ok? { AcceptedIsDefanged(env, g, now); }
    hide Validate, AgentLoop.Title, AgentLoop.Report, AgentLoop.KnownFailures, Blank, Defanged, OneLine;
  }

  /** Those are the grants that open pull requests. */
  lemma OpeningGrants(t: Policy.Trigger, r: Policy.Rules, runId: string, now: int, repo: Repo, baseRef: string)
    requires Policy.Decide(t, r, runId, now).Ok? && OpenPR in Policy.Decide(t, r, runId, now).value.allowedKinds
    requires t.kind == Policy.IssueLabeledTrigger ==> t.number != 0
    ensures forall g :: g == Policy.Decide(t, r, runId, now).value || g == Policy.GrantForUpgrade(runId, repo, baseRef, now) ==>
      && OpenPR in g.allowedKinds && g.tokenScope == ContentsWrite
      && (g.scope.kind == Scheduled || (g.scope.kind == Issue && g.scope.number != 0))
  {
    Policy.DecidesExactly(t, r, runId, now);
    hide Policy.Decide;
  }
}
