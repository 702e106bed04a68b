/**
 * What the council endpoint promises about a session, proved about the runs
 * of `Council`: the stream ends with exactly one terminal event, the first
 * failure stops every later call, the calls follow the role order whatever
 * order the members arrive in, each prompt carries the evidence gathered
 * before it, and with the shipped registry a fully answered session is the
 * exact sequence of eleven events and four calls.
 */
module CouncilProperties {
  import opened Wrappers
  import opened Text
  import opened Inference
  import opened ModelSelector
  import opened Synthesizer
  import opened Council

  /** No event of the list ends the stream. */
  predicate NoTerminal(events: seq<Event>) {
    forall i :: 0 <= i < |events| ==> !Terminal(events[i])
  }

  lemma NoTerminalAppend(a: seq<Event>, b: seq<Event>)
    requires NoTerminal(a) && NoTerminal(b)
    ensures NoTerminal(a + b)
  {
    forall i | 0 <= i < |a + b| ensures !Terminal((a + b)[i]) {
      if i >= |a| {
        assert (a + b)[i] == b[i - |a|];
      }
    }
  }

  /** The first three stages only report member statuses. */
  lemma StageSendsNoTerminal(members: seq<Member>, answer: Provider, e: Evidence, stage: nat)
    requires stage < 3
    ensures NoTerminal(Stage(members, answer, e, stage).events)
  {
  }

  /**
   * A run that throws sends no terminal event; one that returns sends its
   * synthesis as its last event and no terminal event before it.
   */
  predicate EndsWell(r: Run<string>) {
    if r.outcome.Failure? then NoTerminal(r.events)
    else
      |r.events| > 0 && r.events[|r.events| - 1] == SynthesisComplete(r.outcome.value) &&
      NoTerminal(r.events[..|r.events| - 1])
  }

  /** The Judge's stage ends with the synthesis exactly when it returns one, and has no other terminal event. */
  lemma VerdictEnds(members: seq<Member>, answer: Provider, e: Evidence)
    ensures EndsWell(Verdict(members, answer, e))
  {
    var r := Verdict(members, answer, e);
    match FindRole(members, Judge)
    case None =>
      assert r.events == [];
    case Some(m) =>
      var head := [MemberStatus(m.id, Judging), Phase(Synthesizing, SynthesizingMessage)];
      assert NoTerminal(head);
      EndsAfter(head, r);
  }

  /** A run whose events are `head`, followed by the synthesis when it returns one. */
  lemma EndsAfter(head: seq<Event>, r: Run<string>)
    requires NoTerminal(head)
    requires r.events == if r.outcome.Success? then head + [SynthesisComplete(r.outcome.value)] else head
    ensures EndsWell(r)
  {
    if r.outcome.Success? {
      assert r.events[..|r.events| - 1] == head;
    }
  }

  /**
   * A run of the stages never sends a terminal event before its last one; a
   * run that throws sends none, and one that returns ends with its synthesis.
   */
  lemma {:induction false} FromStageEnds(members: seq<Member>, answer: Provider, e: Evidence, stage: nat)
    requires stage <= 3
    ensures EndsWell(FromStage(members, answer, e, stage))
    decreases 3 - stage
  {
    if stage == 3 {
      VerdictEnds(members, answer, e);
    } else {
      var s := Stage(members, answer, e, stage);
      StageSendsNoTerminal(members, answer, e, stage);
      if s.outcome.Failure? {
        StopsAt(members, answer, e, stage);
      } else {
        GoesOn(members, answer, e, stage);
        FromStageEnds(members, answer, s.outcome.value, stage + 1);
        EndsAfterStage(s.events, FromStage(members, answer, s.outcome.value, stage + 1));
      }
    }
  }

  /** Events without a terminal one, then a run that ends well, make a run that ends well. */
  lemma EndsAfterStage(first: seq<Event>, rest: Run<string>)
    requires NoTerminal(first) && EndsWell(rest)
    ensures EndsWell(Run(first + rest.events, [], rest.outcome))
  {
    if rest.outcome.Failure? {
      NoTerminalAppend(first, rest.events);
    } else {
      var n := |rest.events|;
      assert (first + rest.events)[..|first| + n - 1] == first + rest.events[..n - 1];
      NoTerminalAppend(first, rest.events[..n - 1]);
    }
  }

  /**
   * The stream carries exactly one terminal event, as its last: the synthesis
   * when the session returns it, the `error` event with the thrown message
   * otherwise.
   */
  lemma SessionEndsOnce(prompt: string, table: seq<(string, Member)>, answer: Provider)
    ensures var events := SessionEvents(prompt, table, answer);
      var run := Proceedings(prompt, table, answer);
      |events| > 0 && NoTerminal(events[..|events| - 1]) &&
      events[|events| - 1] == (if run.outcome.Success? then SynthesisComplete(run.outcome.value) else Error(run.outcome.error))
  {
    var opening, rest := SessionSplit(prompt, table, answer);
    EndsOnce(opening, rest, Proceedings(prompt, table, answer), SessionEvents(prompt, table, answer));
  }

  /** The session's run: an opening of two non-terminal events, then the stages' run. */
  lemma SessionSplit(prompt: string, table: seq<(string, Member)>, answer: Provider)
    returns (opening: seq<Event>, rest: Run<string>)
    ensures NoTerminal(opening) && EndsWell(rest) && forall ev :: ev in opening ==> !ev.MemberStatus?
    ensures rest == FromStage(SelectOptimalModels(table), answer, Evidence(prompt, "", "", ""), 0)
    ensures Proceedings(prompt, table, answer) == Run(opening + rest.events, rest.requests, rest.outcome)
  {
    opening := Opening(SelectOptimalModels(table));
    OpeningPlain(SelectOptimalModels(table));
    rest := FromStage(SelectOptimalModels(table), answer, Evidence(prompt, "", "", ""), 0);
    FromStageEnds(SelectOptimalModels(table), answer, Evidence(prompt, "", "", ""), 0);
    ProceedingsRun(prompt, table, answer);
  }

  /** The opening reports neither a member's status nor the end of the stream. */
  lemma OpeningPlain(members: seq<Member>)
    ensures NoTerminal(Opening(members)) && forall ev :: ev in Opening(members) ==> !ev.MemberStatus?
  {
  }

  /** The stream's events after an opening without terminal events and a run that ends well. */
  lemma EndsOnce(opening: seq<Event>, rest: Run<string>, run: Run<string>, events: seq<Event>)
    requires NoTerminal(opening) && EndsWell(rest)
    requires run == Run(opening + rest.events, rest.requests, rest.outcome)
    requires events == if run.outcome.Success? then run.events else run.events + [Error(run.outcome.error)]
    ensures |events| > 0 && NoTerminal(events[..|events| - 1])
    ensures events[|events| - 1] == if run.outcome.Success? then SynthesisComplete(run.outcome.value) else Error(run.outcome.error)
  {
    if rest.outcome.Success? {
      var n := |rest.events|;
      assert events[..|events| - 1] == opening + rest.events[..n - 1];
      NoTerminalAppend(opening, rest.events[..n - 1]);
    } else {
      assert events[..|events| - 1] == opening + rest.events;
      NoTerminalAppend(opening, rest.events);
    }
  }

  /** Every call of the list got a reply. */
  predicate AllReplied(answer: Provider, requests: seq<ChatRequest>) {
    forall i :: 0 <= i < |requests| ==> answer(requests[i]).Reply?
  }

  /**
   * Fail-fast, for the stages from `stage` on: a run that returns made one
   * call per stage and every call got a reply; a run that throws stopped at
   * its first failure, which is either its last call's error or the missing
   * member of the next stage's role, after calls that all got replies.
   */
  predicate StopsAtFirstFailure(members: seq<Member>, answer: Provider, stage: nat, r: Run<string>) {
    var n := |r.requests|;
    stage + n <= 4 &&
    if r.outcome.Success? then n == 4 - stage && AllReplied(answer, r.requests)
    else
      (n > 0 && AllReplied(answer, r.requests[..n - 1]) && answer(r.requests[n - 1]) == Failed(r.outcome.error)) ||
      (stage + n < 4 && FindRole(members, Roles[stage + n]).None? && r.outcome.error == MissingRoleMessage &&
       AllReplied(answer, r.requests))
  }

  /**
   * The calls go to the stages' roles in order: the `i`-th call of a run from
   * `stage` uses the model id and the token budget of the member holding role
   * `Roles[stage + i]`.
   */
  predicate FollowsRoles(members: seq<Member>, stage: nat, requests: seq<ChatRequest>) {
    forall i :: 0 <= i < |requests| ==> Serves(members, stage + i, requests[i])
  }

  /** The call goes to the member of role `Roles[k]`, with its model id and its token budget. */
  predicate Serves(members: seq<Member>, k: int, q: ChatRequest) {
    0 <= k < 4 && FindRole(members, Roles[k]).Some? &&
    q.model == FindRole(members, Roles[k]).value.id && q.maxTokens == FindRole(members, Roles[k]).value.allocatedTokens
  }

  /** What one stage asks and returns: nothing without its member, else one call whose result it passes on. */
  predicate OneCall(members: seq<Member>, answer: Provider, stage: nat, requests: seq<ChatRequest>, outcome: Result<Evidence>)
    requires stage < 4
  {
    match FindRole(members, Roles[stage])
    case None => requests == [] && outcome == Failure(MissingRoleMessage)
    case Some(m) =>
      |requests| == 1 && requests[0].model == m.id && requests[0].maxTokens == m.allocatedTokens &&
      (outcome.Success? <==> answer(requests[0]).Reply?) &&
      (outcome.Failure? ==> outcome.error == answer(requests[0]).message)
  }

  lemma StageOneCall(members: seq<Member>, answer: Provider, e: Evidence, stage: nat)
    requires stage < 3
    ensures var s := Stage(members, answer, e, stage); OneCall(members, answer, stage, s.requests, s.outcome)
  {
  }

  lemma VerdictOneCall(members: seq<Member>, answer: Provider, e: Evidence)
    ensures var r := Verdict(members, answer, e);
      OneCall(members, answer, 3, r.requests, if r.outcome.Success? then Success(e) else Failure(r.outcome.error))
  {
    match FindRole(members, Judge)
    case None =>
    case Some(m) =>
      var q := JudgeRequest(e, m);
      assert q.model == m.id && q.maxTokens == m.allocatedTokens;
  }

  /** The Judge's stage stops at its first failure and calls the Judge. */
  lemma LastCall(members: seq<Member>, answer: Provider, outcome: Result<Evidence>, r: Run<string>)
    requires OneCall(members, answer, 3, r.requests, outcome)
    requires outcome.Success? <==> r.outcome.Success?
    requires outcome.Failure? ==> outcome.error == r.outcome.error
    ensures StopsAtFirstFailure(members, answer, 3, r) && FollowsRoles(members, 3, r.requests)
  {
  }

  /** A stage that throws ends the run there. */
  lemma CallFails(members: seq<Member>, answer: Provider, stage: nat, s: Run<Evidence>, r: Run<string>)
    requires stage < 3 && OneCall(members, answer, stage, s.requests, s.outcome) && s.outcome.Failure?
    requires r == Run(s.events, s.requests, Failure(s.outcome.error))
    ensures StopsAtFirstFailure(members, answer, stage, r) && FollowsRoles(members, stage, r.requests)
  {
  }

  /** A stage that returns had its call answered, and the rest of the run follows it. */
  lemma CallReplied(members: seq<Member>, answer: Provider, stage: nat, s: Run<Evidence>, rest: Run<string>, r: Run<string>)
    requires stage < 3 && OneCall(members, answer, stage, s.requests, s.outcome) && s.outcome.Success?
    requires StopsAtFirstFailure(members, answer, stage + 1, rest) && FollowsRoles(members, stage + 1, rest.requests)
    requires r == Run(s.events + rest.events, s.requests + rest.requests, rest.outcome)
    ensures StopsAtFirstFailure(members, answer, stage, r) && FollowsRoles(members, stage, r.requests)
  {
    var q := s.requests[0];
    assert r.requests == [q] + rest.requests;
    FollowsCons(members, stage, q, rest.requests);
    RepliedCons(answer, q, rest.requests);
    if rest.outcome.Failure? && |rest.requests| > 0 {
      var m := |rest.requests|;
      assert r.requests[..m] == [q] + rest.requests[..m - 1];
      RepliedCons(answer, q, rest.requests[..m - 1]);
    }
  }

  lemma FollowsCons(members: seq<Member>, stage: nat, q: ChatRequest, requests: seq<ChatRequest>)
    requires Serves(members, stage, q) && FollowsRoles(members, stage + 1, requests)
    ensures FollowsRoles(members, stage, [q] + requests)
  {
    var r := [q] + requests;
    forall i | 0 <= i < |r| ensures Serves(members, stage + i, r[i]) {
      if i > 0 {
        assert r[i] == requests[i - 1] && stage + 1 + (i - 1) == stage + i;
      }
    }
  }

  lemma RepliedCons(answer: Provider, q: ChatRequest, requests: seq<ChatRequest>)
    requires answer(q).Reply?
    ensures AllReplied(answer, [q] + requests) <==> AllReplied(answer, requests)
  {
    if AllReplied(answer, requests) {
      forall i | 0 < i < |[q] + requests| ensures answer(([q] + requests)[i]).Reply? {
        assert ([q] + requests)[i] == requests[i - 1];
      }
    }
    if AllReplied(answer, [q] + requests) {
      forall i | 0 <= i < |requests| ensures answer(requests[i]).Reply? {
        assert ([q] + requests)[i + 1] == requests[i];
      }
    }
  }

  /**
   * From `stage` on, the calls follow the roles in order and the run stops at
   * its first failure.
   */
  lemma {:induction false} FromStageCalls(members: seq<Member>, answer: Provider, e: Evidence, stage: nat)
    requires stage <= 3
    ensures var r := FromStage(members, answer, e, stage);
      StopsAtFirstFailure(members, answer, stage, r) && FollowsRoles(members, stage, r.requests)
    decreases 3 - stage
  {
    if stage == 3 {
      VerdictOneCall(members, answer, e);
      var r := Verdict(members, answer, e);
      LastCall(members, answer, if r.outcome.Success? then Success(e) else Failure(r.outcome.error), r);
    } else {
      var s := Stage(members, answer, e, stage);
      StageOneCall(members, answer, e, stage);
      if s.outcome.Failure? {
        StopsAt(members, answer, e, stage);
        CallFails(members, answer, stage, s, FromStage(members, answer, e, stage));
      } else {
        GoesOn(members, answer, e, stage);
        FromStageCalls(members, answer, s.outcome.value, stage + 1);
        CallReplied(members, answer, stage, s, FromStage(members, answer, s.outcome.value, stage + 1),
          FromStage(members, answer, e, stage));
      }
    }
  }

  /** The run of the stages depends on the members only through the member each role finds. */
  lemma {:induction false} FromStageByRoles(m1: seq<Member>, m2: seq<Member>, answer: Provider, e: Evidence, stage: nat)
    requires stage <= 3
    requires forall k :: 0 <= k < 4 ==> FindRole(m1, Roles[k]) == FindRole(m2, Roles[k])
    ensures FromStage(m1, answer, e, stage) == FromStage(m2, answer, e, stage)
    decreases 3 - stage
  {
    if stage == 3 {
      assert Roles[3] == Judge;
    } else {
      assert Stage(m1, answer, e, stage) == Stage(m2, answer, e, stage);
      var s := Stage(m1, answer, e, stage);
      if s.outcome.Success? {
        FromStageByRoles(m1, m2, answer, s.outcome.value, stage + 1);
      }
    }
  }

  /** No two members share a role. */
  predicate UniqueRoles(members: seq<Member>) {
    forall i, j :: 0 <= i < j < |members| ==> members[i].role != members[j].role
  }

  /** Reordering members with distinct roles does not change which member a role finds. */
  lemma FindRoleOfPermutation(m1: seq<Member>, m2: seq<Member>, role: string)
    requires multiset(m1) == multiset(m2) && UniqueRoles(m1)
    ensures FindRole(m1, role) == FindRole(m2, role)
  {
    var r1, r2 := FindRole(m1, role), FindRole(m2, role);
    if r1.Some? {
      assert r1.value in multiset(m2);
    }
    if r2.Some? {
      assert r2.value in multiset(m1);
      if r1.Some? {
        var i :| 0 <= i < |m1| && m1[i] == r1.value;
        var j :| 0 <= j < |m1| && m1[j] == r2.value;
        assert i == j;
      }
    }
  }

  /**
   * Stages run in the fixed role order whatever order the member list arrives
   * in: for a registry with distinct roles, the run over the selection sorted
   * by priority is the run over the registry's values as they come.
   */
  lemma SelectionOrderIrrelevant(table: seq<(string, Member)>, answer: Provider, e: Evidence)
    requires UniqueRoles(Values(table))
    ensures FromStage(SelectOptimalModels(table), answer, e, 0) == FromStage(Values(table), answer, e, 0)
  {
    var sorted := SelectOptimalModels(table);
    forall k | 0 <= k < 4 ensures FindRole(sorted, Roles[k]) == FindRole(Values(table), Roles[k]) {
      FindRoleOfPermutation(Values(table), sorted, Roles[k]);
    }
    FromStageByRoles(sorted, Values(table), answer, e, 0);
  }

  /**
   * The Judge never gets a `complete` status: `complete` is only ever sent
   * for the member of one of the first three stages, so an id none of them
   * carries never receives it.
   */
  lemma {:induction false} NoCompleteFor(members: seq<Member>, answer: Provider, e: Evidence, stage: nat, id: string)
    requires stage <= 3
    requires forall k :: stage <= k < 3 && FindRole(members, Roles[k]).Some? ==> FindRole(members, Roles[k]).value.id != id
    ensures MemberStatus(id, Complete) !in FromStage(members, answer, e, stage).events
    decreases 3 - stage
  {
    if stage < 3 {
      var s := Stage(members, answer, e, stage);
      CompleteOnlyForStageMember(members, answer, e, stage, id);
      if s.outcome.Failure? {
        StopsAt(members, answer, e, stage);
      } else {
        GoesOn(members, answer, e, stage);
        NoCompleteFor(members, answer, s.outcome.value, stage + 1, id);
        NotInAppend(MemberStatus(id, Complete), s.events, FromStage(members, answer, s.outcome.value, stage + 1).events);
      }
    }
  }

  /** A stage reports `complete` only for the member of its own role. */
  lemma CompleteOnlyForStageMember(members: seq<Member>, answer: Provider, e: Evidence, stage: nat, id: string)
    requires stage < 3
    ensures MemberStatus(id, Complete) in Stage(members, answer, e, stage).events ==>
      FindRole(members, Roles[stage]).Some? && FindRole(members, Roles[stage]).value.id == id
  {
  }

  lemma NotInAppend<T>(x: T, a: seq<T>, b: seq<T>)
    requires x !in a && x !in b
    ensures x !in a + b
  {
  }

  /** The shipped registry: each role finds the member of that role, and the four ids are distinct. */
  lemma RolesOfMembers()
    ensures forall k :: 0 <= k < 4 ==> FindRole(Members, Roles[k]) == Some(Members[k])
    ensures forall i, j :: 0 <= i < j < 4 ==> Members[i].id != Members[j].id
  {
    MembersInRoleOrder();
    assert FindRole(Members, Roles[0]) == Some(Members[0]);
    assert FindRole(Members, Roles[1]) == Some(Members[1]);
    assert FindRole(Members, Roles[2]) == Some(Members[2]);
    assert FindRole(Members, Roles[3]) == Some(Members[3]);
  }

  /** With the shipped registry, no session ever reports the Judge `complete`. */
  lemma JudgeNeverComplete(prompt: string, answer: Provider)
    ensures MemberStatus(JudgeMember.id, Complete) !in SessionEvents(prompt, Table, answer)
  {
    var opening, rest := SessionSplit(prompt, Table, answer);
    SelectionOfTable();
    JudgeNeverCompleteInStages(answer, Evidence(prompt, "", "", ""));
    NotInSession(MemberStatus(JudgeMember.id, Complete), opening, rest, Proceedings(prompt, Table, answer),
      SessionEvents(prompt, Table, answer));
  }

  lemma JudgeNeverCompleteInStages(answer: Provider, e: Evidence)
    ensures MemberStatus(JudgeMember.id, Complete) !in FromStage(Members, answer, e, 0).events
  {
    RolesOfMembers();
    NoCompleteFor(Members, answer, e, 0, JudgeMember.id);
  }

  /** A member status that is neither in the opening nor in the stages' run is not in the stream. */
  lemma NotInSession(x: Event, opening: seq<Event>, rest: Run<string>, run: Run<string>, events: seq<Event>)
    requires x.MemberStatus? && x !in rest.events && forall ev :: ev in opening ==> !ev.MemberStatus?
    requires run == Run(opening + rest.events, rest.requests, rest.outcome)
    requires events == if run.outcome.Success? then run.events else run.events + [Error(run.outcome.error)]
    ensures x !in events
  {
  }

  /** Over a whole session the calls follow the roles and stop at the first failure. */
  lemma SessionCalls(prompt: string, table: seq<(string, Member)>, answer: Provider)
    ensures var run := Proceedings(prompt, table, answer); var members := SelectOptimalModels(table);
      StopsAtFirstFailure(members, answer, 0, run) && FollowsRoles(members, 0, run.requests)
  {
    var opening, rest := SessionSplit(prompt, table, answer);
    FromStageCalls(SelectOptimalModels(table), answer, Evidence(prompt, "", "", ""), 0);
  }

  /** A stage whose member replies: its two statuses and its call, then the rest run on the filled evidence. */
  lemma Replied(members: seq<Member>, answer: Provider, e: Evidence, stage: nat, m: Member, c: string)
    requires stage < 3 && FindRole(members, Roles[stage]) == Some(m) && answer(StageRequest(m, stage, e)) == Reply(c)
    ensures var rest := FromStage(members, answer, Fill(e, stage, c), stage + 1);
      FromStage(members, answer, e, stage) ==
      Run([MemberStatus(m.id, Working(stage)), MemberStatus(m.id, Complete)] + rest.events,
        [StageRequest(m, stage, e)] + rest.requests, rest.outcome)
  {
    StageReplied(members, answer, e, stage, m, c);
    GoesOn(members, answer, e, stage);
  }

  /** The Judge's stage when the Judge replies: its status, the synthesizing phase, and the report. */
  lemma JudgeReplied(members: seq<Member>, answer: Provider, e: Evidence, m: Member, c: string)
    requires FindRole(members, Judge) == Some(m) && answer(JudgeRequest(e, m)) == Reply(c)
    ensures FromStage(members, answer, e, 3) ==
      Run([MemberStatus(m.id, Judging), Phase(Synthesizing, SynthesizingMessage), SynthesisComplete(FinalReport(e, c))],
        [JudgeRequest(e, m)], Success(FinalReport(e, c)))
  {
  }

  /**
   * A session in which every member replies: each stage's prompt carries the
   * replies before it, each evidence slot is filled once with its member's
   * reply, and the events and calls are exactly these, in this order.
   */
  lemma FullRun(members: seq<Member>, answer: Provider, prompt: string, rm: Member, am: Member, pm: Member, jm: Member,
                c0: string, c1: string, c2: string, c3: string)
    requires FindRole(members, Researcher) == Some(rm) && FindRole(members, Analyst) == Some(am)
    requires FindRole(members, Philosopher) == Some(pm) && FindRole(members, Judge) == Some(jm)
    requires answer(StageRequest(rm, 0, Evidence(prompt, "", "", ""))) == Reply(c0)
    requires answer(StageRequest(am, 1, Evidence(prompt, c0, "", ""))) == Reply(c1)
    requires answer(StageRequest(pm, 2, Evidence(prompt, c0, c1, ""))) == Reply(c2)
    requires answer(JudgeRequest(Evidence(prompt, c0, c1, c2), jm)) == Reply(c3)
    ensures var r := FromStage(members, answer, Evidence(prompt, "", "", ""), 0);
      var report := FinalReport(Evidence(prompt, c0, c1, c2), c3);
      r.events ==
        [MemberStatus(rm.id, "researching"), MemberStatus(rm.id, Complete)] +
        [MemberStatus(am.id, "analyzing"), MemberStatus(am.id, Complete)] +
        [MemberStatus(pm.id, "pondering"), MemberStatus(pm.id, Complete)] +
        [MemberStatus(jm.id, Judging), Phase(Synthesizing, SynthesizingMessage), SynthesisComplete(report)] &&
      r.requests ==
        [StageRequest(rm, 0, Evidence(prompt, "", "", "")), StageRequest(am, 1, Evidence(prompt, c0, "", "")),
         StageRequest(pm, 2, Evidence(prompt, c0, c1, "")), JudgeRequest(Evidence(prompt, c0, c1, c2), jm)] &&
      r.outcome == Success(report)
  {
    var e0, e1, e2, e3 := Evidence(prompt, "", "", ""), Evidence(prompt, c0, "", ""), Evidence(prompt, c0, c1, ""),
      Evidence(prompt, c0, c1, c2);
    assert Roles[0] == Researcher && Roles[1] == Analyst && Roles[2] == Philosopher;
    assert Fill(e0, 0, c0) == e1 && Fill(e1, 1, c1) == e2 && Fill(e2, 2, c2) == e3;
    Replied(members, answer, e0, 0, rm, c0);
    Replied(members, answer, e1, 1, am, c1);
    Replied(members, answer, e2, 2, pm, c2);
    JudgeReplied(members, answer, e3, jm, c3);
    Chain(FromStage(members, answer, e0, 0), FromStage(members, answer, e1, 1), FromStage(members, answer, e2, 2),
      FromStage(members, answer, e3, 3),
      [MemberStatus(rm.id, Working(0)), MemberStatus(rm.id, Complete)],
      [MemberStatus(am.id, Working(1)), MemberStatus(am.id, Complete)],
      [MemberStatus(pm.id, Working(2)), MemberStatus(pm.id, Complete)],
      StageRequest(rm, 0, e0), StageRequest(am, 1, e1), StageRequest(pm, 2, e2));
  }

  /** Three stages that each returned, one after the other, then the Judge's run of one call. */
  lemma Chain(r0: Run<string>, r1: Run<string>, r2: Run<string>, r3: Run<string>, h0: seq<Event>, h1: seq<Event>, h2: seq<Event>,
              q0: ChatRequest, q1: ChatRequest, q2: ChatRequest)
    requires r0 == Run(h0 + r1.events, [q0] + r1.requests, r1.outcome)
    requires r1 == Run(h1 + r2.events, [q1] + r2.requests, r2.outcome)
    requires r2 == Run(h2 + r3.events, [q2] + r3.requests, r3.outcome)
    requires |r3.requests| == 1
    ensures r0.events == h0 + h1 + h2 + r3.events && r0.requests == [q0, q1, q2, r3.requests[0]] && r0.outcome == r3.outcome
  {
    assert h0 + (h1 + (h2 + r3.events)) == h0 + h1 + h2 + r3.events;
    assert [q0] + ([q1] + ([q2] + r3.requests)) == [q0, q1, q2, r3.requests[0]];
  }

  /** In the shipped registry each role finds its own member. */
  lemma RegistryRoles()
    ensures FindRole(Members, Researcher) == Some(ResearcherMember) && FindRole(Members, Analyst) == Some(AnalystMember)
    ensures FindRole(Members, Philosopher) == Some(PhilosopherMember) && FindRole(Members, Judge) == Some(JudgeMember)
  {
    RolesOfMembers();
    assert Roles[0] == Researcher && Roles[1] == Analyst && Roles[2] == Philosopher && Roles[3] == Judge;
    assert Members[0] == ResearcherMember && Members[1] == AnalystMember;
    assert Members[2] == PhilosopherMember && Members[3] == JudgeMember;
  }

  /**
   * With the shipped registry and every member replying, the stream is
   * exactly: the selecting phase, the four members, each of the three
   * members working then complete, the Judge judging, the synthesizing
   * phase and the synthesis; the four calls go to the four models in role
   * order, each prompt built from the replies before it.
   */
  lemma TableSession(prompt: string, answer: Provider, c0: string, c1: string, c2: string, c3: string)
    requires answer(StageRequest(ResearcherMember, 0, Evidence(prompt, "", "", ""))) == Reply(c0)
    requires answer(StageRequest(AnalystMember, 1, Evidence(prompt, c0, "", ""))) == Reply(c1)
    requires answer(StageRequest(PhilosopherMember, 2, Evidence(prompt, c0, c1, ""))) == Reply(c2)
    requires answer(JudgeRequest(Evidence(prompt, c0, c1, c2), JudgeMember)) == Reply(c3)
    ensures var report := FinalReport(Evidence(prompt, c0, c1, c2), c3);
      var run := Proceedings(prompt, Table, answer);
      SessionEvents(prompt, Table, answer) ==
        [Phase(Selecting, SelectingMessage), MembersSelected(Members)] +
        ([MemberStatus(ResearcherMember.id, "researching"), MemberStatus(ResearcherMember.id, Complete)] +
         [MemberStatus(AnalystMember.id, "analyzing"), MemberStatus(AnalystMember.id, Complete)] +
         [MemberStatus(PhilosopherMember.id, "pondering"), MemberStatus(PhilosopherMember.id, Complete)] +
         [MemberStatus(JudgeMember.id, Judging), Phase(Synthesizing, SynthesizingMessage), SynthesisComplete(report)]) &&
      run.requests ==
        [StageRequest(ResearcherMember, 0, Evidence(prompt, "", "", "")),
         StageRequest(AnalystMember, 1, Evidence(prompt, c0, "", "")),
         StageRequest(PhilosopherMember, 2, Evidence(prompt, c0, c1, "")),
         JudgeRequest(Evidence(prompt, c0, c1, c2), JudgeMember)] &&
      run.outcome == Success(report)
  {
    var opening, rest := SessionSplit(prompt, Table, answer);
    SelectionOfTable();
    RegistryRoles();
    FullRun(Members, answer, prompt, ResearcherMember, AnalystMember, PhilosopherMember, JudgeMember, c0, c1, c2, c3);
  }

  /** Two slots of a five-part text sit at the indices the parts before them add up to. */
  lemma TwoSlots(s: string, a: string, x: string, b: string, y: string, c: string)
    requires s == a + x + b + y + c
    ensures OccursAt(s, x, |a|) && OccursAt(s, y, |a| + |x| + |b|)
  {
    OccursBetween(a, x, b + y + c);
    assert a + x + (b + y + c) == s;
    OccursBetween(a + x + b, y, c);
  }

  /** Three slots of a seven-part text, likewise. */
  lemma ThreeSlots(s: string, a: string, x: string, b: string, y: string, c: string, z: string, d: string)
    requires s == a + x + b + y + c + z + d
    ensures OccursAt(s, x, |a|) && OccursAt(s, y, |a| + |x| + |b|)
    ensures OccursAt(s, z, |a| + |x| + |b| + |y| + |c|)
  {
    TwoSlots(s, a, x, b, y, c + z + d);
    assert a + x + b + y + (c + z + d) == s;
    OccursBetween(a + x + b + y + c, z, d);
  }

  /** The Researcher's prompt quotes the question right after its instruction. */
  lemma ResearchPromptCarries(e: Evidence)
    ensures OccursAt(StagePrompt(0, e), Quoted(e.prompt), |ResearchAsk|)
  {
    OccursBetween(ResearchAsk, Quoted(e.prompt), ResearchEnd);
  }

  /** The Analyst's prompt holds the research, then the quoted question. */
  lemma AnalysisPromptCarries(e: Evidence)
    ensures var p := StagePrompt(1, e);
      OccursAt(p, e.research, |AnalysisAsk|) &&
      OccursAt(p, Quoted(e.prompt), |AnalysisAsk| + |e.research| + |AnalysisMid|)
  {
    TwoSlots(StagePrompt(1, e), AnalysisAsk, e.research, AnalysisMid, Quoted(e.prompt), AnalysisEnd);
  }

  /** The Philosopher's prompt holds the quoted question, then the research, then the analysis. */
  lemma PhilosophyPromptCarries(e: Evidence)
    ensures var p := StagePrompt(2, e);
      var q := Quoted(e.prompt);
      OccursAt(p, q, |PhilosophyAsk|) &&
      OccursAt(p, e.research, |PhilosophyAsk| + |q| + |PhilosophyResearch|) &&
      OccursAt(p, e.analysis, |PhilosophyAsk| + |q| + |PhilosophyResearch| + |e.research| + |PhilosophyAnalysis|)
  {
    ThreeSlots(StagePrompt(2, e), PhilosophyAsk, Quoted(e.prompt), PhilosophyResearch, e.research,
      PhilosophyAnalysis, e.analysis, PhilosophyEnd);
  }

  /**
   * A stage's prompt depends only on the question and the replies of the
   * stages before it: the slot it is about to fill and the later ones are
   * never read.
   */
  lemma PromptReadsEarlierSlots(stage: nat, e: Evidence, f: Evidence)
    requires stage < 3 && e.prompt == f.prompt
    requires stage >= 1 ==> e.research == f.research
    requires stage >= 2 ==> e.analysis == f.analysis
    ensures StagePrompt(stage, e) == StagePrompt(stage, f)
  {
  }

  /** The i-th frame is the i-th event's frame. */
  lemma {:induction false} FrameAt(json: Json, events: seq<Event>, i: nat)
    requires i < |events|
    ensures Frames(json, events)[i] == Frame(json, events[i])
  {
    if i > 0 {
      FrameAt(json, events[1..], i - 1);
    }
  }

  /**
   * An accepted request is answered with one `data:` frame per session
   * event, in order, each the event's JSON between the prefix and a blank
   * line; a refused one makes no call to the provider.
   */
  lemma StreamFrames(req: Request, table: seq<(string, Member)>, service: string -> Provider, json: Json, i: nat)
    requires Respond(req, table, service, json).EventStream?
    ensures var events := SessionEvents(req.body.value.prompt.value, table, service(req.body.value.apiKey.value));
      var frames := Respond(req, table, service, json).frames;
      |frames| == |events| &&
      (i < |frames| ==> frames[i] == DataPrefix + json(events[i]) + FrameEnd)
  {
    var events := SessionEvents(req.body.value.prompt.value, table, service(req.body.value.apiKey.value));
    if i < |events| {
      FrameAt(json, events, i);
    }
  }

  /** A refused request makes no call; an accepted one calls the Researcher first, if there is one. */
  lemma RefusalMakesNoCalls(req: Request, table: seq<(string, Member)>, service: string -> Provider, json: Json)
    ensures Respond(req, table, service, json).Refused? ==> RequestsMade(req, table, service) == []
    ensures Respond(req, table, service, json).EventStream? && FindRole(SelectOptimalModels(table), Researcher).None? ==>
      RequestsMade(req, table, service) == []
    ensures Respond(req, table, service, json).EventStream? && FindRole(SelectOptimalModels(table), Researcher).Some? ==>
      var m := FindRole(SelectOptimalModels(table), Researcher).value;
      |RequestsMade(req, table, service)| > 0 &&
      RequestsMade(req, table, service)[0] == StageRequest(m, 0, Evidence(req.body.value.prompt.value, "", "", ""))
  {
    if Respond(req, table, service, json).EventStream? {
      var members := SelectOptimalModels(table);
      var e := Evidence(req.body.value.prompt.value, "", "", "");
      var answer := service(req.body.value.apiKey.value);
      assert Roles[0] == Researcher;
      var s := Stage(members, answer, e, 0);
      assert FromStage(members, answer, e, 0).requests[..|s.requests|] == s.requests;
    }
  }
}
