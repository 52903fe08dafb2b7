/** The permission loop of the ACP server: the two maps it keeps, and the handlers that
    check and update them between the awaits of one another. */
module AcpPermissions {
  import opened Wrappers
  import opened PermissionHistory

  /** An interrupt's action requests; none when its value is not a dict. */
  datatype Interrupt = Interrupt(actions: seq<Action>)

  datatype HandleResult = Decisions(decisions: seq<Decision>) | AttributeError

  lemma NothingGranted(an: Analyzer, a: Action)
    ensures !Allowed(an, {}, [], a)
  {
    if a.args.Dict? && an.commandTypes(a.args.command) != [] {
      assert an.commandTypes(a.args.command)[0] in an.commandTypes(a.args.command);
    }
  }

  lemma UnfinishedPlanAllows(an: Analyzer, grants: set<Grant>, plan: seq<Todo>, a: Action)
    requires PlanUpdate(a) && !AllCompleted(plan)
    ensures Allowed(an, grants, plan, a)
  {
  }

  lemma PlanIsNoReason(an: Analyzer, grants: set<Grant>, plan: seq<Todo>, a: Action)
    requires !PlanUpdate(a) || AllCompleted(plan)
    ensures Allowed(an, grants, plan, a) <==> Allowed(an, grants, [], a)
  {
  }

  lemma NoEvents(session: string)
    ensures Matches(session, [], []) && DecisionsOf([]) == [] && AllActions([]) == []
  {
  }

  lemma MatchesConcat(session: string, e1: seq<Event>, a1: seq<Action>, e2: seq<Event>, a2: seq<Action>,
                      all: seq<Action>)
    requires |e1| == |a1| && Matches(session, e1, a1) && a1 + a2 <= all
    requires |e2| <= |a2| && Matches(session, e2, a2[..|e2|])
    ensures Matches(session, e1 + e2, all[..|e1 + e2|])
    ensures |e2| == |a2| ==> Matches(session, e1 + e2, a1 + a2)
    ensures forall a :: a in a2 ==> a in all
    ensures DecisionsOf(e1 + e2) == DecisionsOf(e1) + DecisionsOf(e2)
  {
    forall a | a in a2 ensures a in all {
      var k :| 0 <= k < |a2| && a2[k] == a;
      assert all[|a1| + k] == a;
    }
  }

  function AllActions(interrupts: seq<Interrupt>): seq<Action> {
    if interrupts == [] then []
    else AllActions(interrupts[..|interrupts| - 1]) + interrupts[|interrupts| - 1].actions
  }

  /** Where the actions of the `i`-th interrupt stand among all actions. */
  lemma {:induction false} ActionsAt(interrupts: seq<Interrupt>, i: nat)
    requires i < |interrupts|
    ensures AllActions(interrupts[..i]) + interrupts[i].actions <= AllActions(interrupts)
    ensures AllActions(interrupts[..i + 1]) == AllActions(interrupts[..i]) + interrupts[i].actions
    decreases |interrupts|
  {
    assert interrupts[..i + 1][..i] == interrupts[..i];
    var n := |interrupts| - 1;
    if i < n {
      ActionsAt(interrupts[..n], i);
      assert interrupts[..n][..i] == interrupts[..i];
    }
  }

  /** The one stretch of a request that is not put to the user. */
  lemma CheckStretches(an: Analyzer, history: seq<Event>, session: string, a: Action, answer: Answer)
    requires AllowedBy(an, history, session, a) || !Askable(a)
    ensures Run(an, history, ActionStretches(an, history, session, a, answer)) == After(an, history, Check(session, a))
  {
    hide Run, AllowedBy, After;
    RunOne(an, history, Check(session, a));
  }

  /** The stretches of one asked request, up to its answer and past its clearing. */
  lemma AskedStretches(an: Analyzer, history: seq<Event>, session: string, a: Question, answer: Answer)
    requires !AllowedBy(an, history, session, a)
    ensures var asked := Run(an, history, answer.asking);
      var replied := asked + [Asked(session, a, answer.outcome)];
      var refused := PlanUpdate(a) && Refusal(answer.outcome);
      && PlanRefused(Asked(session, a, answer.outcome), session) == refused
      && Run(an, history, ActionStretches(an, history, session, a, answer)) ==
           if refused then Run(an, replied, answer.clearing) + [Cleared(session)] else replied
  {
    hide Run, AllowedBy;
    var check, reply := Check(session, a), Reply(session, a, answer.outcome);
    var replied := Run(an, history, answer.asking) + [Asked(session, a, answer.outcome)];
    RunOne(an, history, check);
    RunConcat(an, history, [check], answer.asking);
    RunConcat(an, history, [check] + answer.asking, [reply]);
    RunOne(an, Run(an, history, answer.asking), reply);
    var first := [check] + answer.asking + [reply];
    if PlanUpdate(a) && Refusal(answer.outcome) {
      RunConcat(an, history, first, answer.clearing + [Clear(session)]);
      RunConcat(an, replied, answer.clearing, [Clear(session)]);
      RunOne(an, Run(an, replied, answer.clearing), Clear(session));
    } else {
      assert first + [] == first;
    }
  }

  /** What the decisions for these requests tell the graph, and what their approvals go back to. */
  lemma DecisionsTell(an: Analyzer, start: seq<Event>, session: string, actions: seq<Action>, answers: nat -> Answer,
                      events: seq<Event>)
    requires |events| == |actions| && Requests(events) && InTurn(an, start, session, actions, answers, 0, events)
    requires AllComplete(an, start, session, actions, answers, 0, |actions|)
    ensures forall k: nat :: k < |actions| ==>
      var before, a, d := Before(an, start, session, actions, answers, k), actions[k], DecisionsOf(events)[k];
      if AllowedBy(an, before, session, a) then d.kind == "approve" && !d.feedback
      else match answers(k).outcome
        case Dismissed => d.kind == "reject" && !d.feedback
        case Selected(id) =>
          && d.kind == (if id == "approve_always" then "approve" else id)
          && (d.feedback <==> id == "reject" && a.name == "write_todos")
    ensures forall k: nat :: k < |actions| ==>
      var before, a := Before(an, start, session, actions, answers, k), actions[k];
      AllowedBy(an, before, session, a) ==>
        || (a.name == "write_todos" && PlanHolds(before, session)
            && (PlanStands(before, session) <==> !Clearing(before, session)))
        || (a.name == "execute" && a.args.Dict? && !an.dangerous(a.args.command)
            && an.commandTypes(a.args.command) != []
            && forall t :: t in an.commandTypes(a.args.command) ==>
                 GrantedBefore(an, before, session, Grant("execute", Some(t))))
        || (a.name != "execute" && GrantedBefore(an, before, session, Grant(a.name, None)))
  {
    hide Before, AllowedBy, PlanHolds, PlanStands, Clearing, GrantedBefore, EventOf, DecisionOf, Completes;
    forall k: nat | k < |actions|
      ensures var before, a, d := Before(an, start, session, actions, answers, k), actions[k], DecisionsOf(events)[k];
        if AllowedBy(an, before, session, a) then d.kind == "approve" && !d.feedback
        else match answers(k).outcome
          case Dismissed => d.kind == "reject" && !d.feedback
          case Selected(id) =>
            && d.kind == (if id == "approve_always" then "approve" else id)
            && (d.feedback <==> id == "reject" && a.name == "write_todos")
    {
      assert Completes(an, Before(an, start, session, actions, answers, k), session, actions[k], answers(k).outcome);
      DecisionTells(an, Before(an, start, session, actions, answers, k), session, actions[k], answers(k));
      assert EventOf(an, Before(an, start, session, actions, answers, 0 + k), session, actions[0 + k], answers(0 + k))
          == Some(events[k]);
    }
    forall k: nat | k < |actions| && AllowedBy(an, Before(an, start, session, actions, answers, k), session, actions[k])
      ensures var before, a := Before(an, start, session, actions, answers, k), actions[k];
        || (a.name == "write_todos" && PlanHolds(before, session)
            && (PlanStands(before, session) <==> !Clearing(before, session)))
        || (a.name == "execute" && a.args.Dict? && !an.dangerous(a.args.command)
            && an.commandTypes(a.args.command) != []
            && forall t :: t in an.commandTypes(a.args.command) ==>
                 GrantedBefore(an, before, session, Grant("execute", Some(t))))
        || (a.name != "execute" && GrantedBefore(an, before, session, Grant(a.name, None)))
    {
      AllowedIsEarned(an, Before(an, start, session, actions, answers, k), session, actions[k]);
    }
  }

  lemma NoneInTurn(an: Analyzer, start: seq<Event>, session: string, actions: seq<Action>, answers: nat -> Answer,
                   from: nat)
    requires from <= |actions|
    ensures InTurn(an, start, session, actions, answers, from, [])
    ensures AllComplete(an, start, session, actions, answers, from, from)
  {
  }

  function Held(grants: map<string, set<Grant>>, s: string): set<Grant> {
    if s in grants then grants[s] else {}
  }

  function Planned(plans: map<string, seq<Todo>>, s: string): seq<Todo> {
    if s in plans then plans[s] else []
  }

  class PermissionServer {
    const an: Analyzer
    var allowedCommandTypes: map<string, set<Grant>>
    var sessionPlans: map<string, seq<Todo>>
    ghost var history: seq<Event>

    /** The two maps say what the history says, for every session. */
    ghost predicate Valid()
      reads this
    {
      && (forall s :: GrantsOf(s) == Grants(an, history, s))
      && (forall s :: PlanOf(s) == Plan(history, s))
      && Justified(an, history)
    }

    function GrantsOf(s: string): set<Grant>
      reads this
    {
      Held(allowedCommandTypes, s)
    }

    function PlanOf(s: string): seq<Todo>
      reads this
    {
      Planned(sessionPlans, s)
    }

    constructor (an: Analyzer)
      ensures Valid() && history == [] && this.an == an
    {
      this.an := an;
      allowedCommandTypes, sessionPlans, history := map[], map[], [];
    }

    /** Logs an event whose effect on every session's grants and plan has been carried out. */
    ghost method Log(ev: Event, grants: map<string, set<Grant>>, plans: map<string, seq<Todo>>)
      requires Justified(an, history)
      requires forall s :: Held(grants, s) == Grants(an, history, s) && Planned(plans, s) == Plan(history, s)
      requires ev.Unasked? ==> Allowed(an, Held(grants, ev.session), Planned(plans, ev.session), ev.action)
      requires forall s :: GrantsOf(s) == GrantsAfter(an, Held(grants, s), ev, s)
      requires forall s :: PlanOf(s) == PlanAfter(Planned(plans, s), ev, s)
      modifies this`history
      ensures Valid() && history == old(history) + [ev]
    {
      hide Allowed, GrantsAfter, PlanAfter, Grants, Plan, Justified;
      JustifiedAfter(an, history, ev);
      history := history + [ev];
    }

    /** The stretch before the user is asked: approves the action if the state allows it. */
    method ApproveFromState(session: string, a: Action) returns (approved: bool)
      requires Valid()
      modifies this
      ensures Valid() && history == After(an, old(history), Check(session, a))
      ensures approved <==> AllowedBy(an, old(history), session, a)
      ensures forall s :: GrantsOf(s) == old(GrantsOf(s)) && (s != session || !approved ==> PlanOf(s) == old(PlanOf(s)))
      ensures var plan := old(PlanOf(session));
        if a.name == "write_todos" && a.args.Dict? && exists i :: 0 <= i < |plan| && plan[i].status != "completed"
        then approved && PlanOf(session) == a.args.todos
        else PlanOf(session) == plan
    {
      hide Grants, Plan, Allowed, Justified;
      ghost var grants, plans := allowedCommandTypes, sessionPlans;
      if session in sessionPlans && a.name == WRITE_TODOS && a.args.Dict? && !AllCompleted(sessionPlans[session]) {
        UnfinishedPlanAllows(an, GrantsOf(session), PlanOf(session), a);
        sessionPlans := sessionPlans[session := a.args.todos];
        Log(Unasked(session, a), grants, plans);
        return true;
      }
      PlanIsNoReason(an, GrantsOf(session), PlanOf(session), a);
      if session in allowedCommandTypes {
        approved := GrantedAlready(allowedCommandTypes[session], a);
        if approved { Log(Unasked(session, a), grants, plans); }
      } else {
        NothingGranted(an, a);
        approved := false;
      }
    }

    /** The stretch after the user has answered, from whatever state there is by then; a plan
        that was refused stays until `ClearPlan`. */
    method Resolve(session: string, a: Question, outcome: Outcome) returns (d: Option<Decision>, clearing: bool)
      requires Valid()
      modifies this
      ensures Valid() && history == After(an, old(history), Reply(session, a, outcome))
      ensures d == if Unreadable(a, outcome) then None else Some(DecisionOf(Asked(session, a, outcome)))
      ensures clearing <==> PlanRefused(Asked(session, a, outcome), session)
      ensures forall s :: s != session ==> GrantsOf(s) == old(GrantsOf(s)) && PlanOf(s) == old(PlanOf(s))
      ensures old(GrantsOf(session)) <= GrantsOf(session)
    {
      hide Grants, Plan, Allowed, Justified;
      ghost var grants, plans := allowedCommandTypes, sessionPlans;
      d, clearing := Answered(session, a, outcome);
      Log(Asked(session, a, outcome), grants, plans);
    }

    /** The stretch once the client has been told that the plan is empty. */
    method ClearPlan(session: string)
      requires Valid()
      modifies this
      ensures Valid() && history == After(an, old(history), Clear(session))
      ensures forall s :: GrantsOf(s) == old(GrantsOf(s)) && (s != session ==> PlanOf(s) == old(PlanOf(s)))
      ensures PlanOf(session) == []
    {
      hide Grants, Plan, Allowed, Justified;
      ghost var grants, plans := allowedCommandTypes, sessionPlans;
      sessionPlans := sessionPlans[session := []];
      Log(Cleared(session), grants, plans);
    }

    /** Stretches of any handlers, interleaved at will. */
    method RunStretches(stretches: seq<Stretch>)
      requires Valid()
      modifies this
      ensures Valid() && history == Run(an, old(history), stretches) && old(history) <= history
      ensures forall s :: old(GrantsOf(s)) <= GrantsOf(s)
      ensures forall s :: Elsewhere(stretches, s) ==> GrantsOf(s) == old(GrantsOf(s)) && PlanOf(s) == old(PlanOf(s))
    {
      hide Grants, Plan, Allowed, Justified, Valid, After;
      for n := 0 to |stretches|
        invariant Valid() && history == Run(an, old(history), stretches[..n])
        invariant forall s :: old(GrantsOf(s)) <= GrantsOf(s)
        invariant forall s :: Elsewhere(stretches[..n], s) ==>
          GrantsOf(s) == old(GrantsOf(s)) && PlanOf(s) == old(PlanOf(s))
      {
        assert stretches[..n + 1][..n] == stretches[..n] && stretches[..n + 1][n] == stretches[n];
        forall s | Elsewhere(stretches[..n + 1], s) ensures Elsewhere(stretches[..n], s) && stretches[n].session != s {
          assert forall k :: 0 <= k < n ==> stretches[..n + 1][k] == stretches[..n][k];
        }
        match stretches[n]
        case Check(session, a) => var _ := ApproveFromState(session, a);
        case Reply(session, a, outcome) => var _, _ := Resolve(session, a, outcome);
        case Clear(session) => ClearPlan(session);
      }
      assert stretches[..|stretches|] == stretches;
      RunExtends(an, old(history), stretches);
    }

    /** One action request, approved from the state or put to the user, with whatever other
        handlers do at its awaits. */
    method HandleAction(session: string, a: Action, answer: Answer)
      returns (d: Option<Decision>, ghost ev: Option<Event>)
      requires Valid()
      modifies this
      ensures Valid() && old(history) <= history
      ensures history == Run(an, old(history), ActionStretches(an, old(history), session, a, answer))
      ensures ev == EventOf(an, old(history), session, a, answer)
      ensures ev.Some? ==> Embeds([ev.value], history[|old(history)|..])
      ensures d == if ev.None? || (ev.value.Asked? && Unreadable(a, answer.outcome)) then None
                   else Some(DecisionOf(ev.value))
      ensures forall s :: s != session && Leaves(answer, s) ==>
        GrantsOf(s) == old(GrantsOf(s)) && PlanOf(s) == old(PlanOf(s))
      ensures forall s :: old(GrantsOf(s)) <= GrantsOf(s)
    {
      hide Grants, Plan, Allowed, Justified, Valid, Elsewhere, Run, AllowedBy, Embeds, ActionStretches, Held,
        Planned;
      ghost var was := history;
      if AllowedBy(an, was, session, a) || !Askable(a) { CheckStretches(an, was, session, a, answer); }
      var approved := ApproveFromState(session, a);
      if approved {
        EmbedsOne(Unasked(session, a), [], []);
        assert history[|was|..] == [] + [Unasked(session, a)] + [];
        return Some(Decision("approve", false)), Some(Unasked(session, a));
      }
      if a.name == WRITE_TODOS && a.args.NotADict? {
        return None, None;  // the title of the request reads the todos of a non-dict
      }
      AskedStretches(an, was, session, a, answer);
      RunStretches(answer.asking);
      ghost var asked := history;
      var clearing;
      d, clearing := Resolve(session, a, answer.outcome);
      ev := Some(Asked(session, a, answer.outcome));
      ghost var replied := history;
      if clearing {
        RunStretches(answer.clearing);
        ClearPlan(session);
      }
      assert history == asked + [ev.value] + history[|replied|..];
      EmbedsOne(ev.value, asked[|was|..], history[|replied|..]);
      assert history[|was|..] == asked[|was|..] + [ev.value] + history[|replied|..];
    }

    /** The grant check, on the grants of a session that has any. */
    method GrantedAlready(grants: set<Grant>, a: Action) returns (granted: bool)
      ensures granted <==> Allowed(an, grants, [], a)
    {
      if a.name == EXECUTE && a.args.Dict? {
        if !an.dangerous(a.args.command) {
          var types := an.commandTypes(a.args.command);
          if types != [] && forall t :: t in types ==> Grant(EXECUTE, Some(t)) in grants {
            return true;
          }
        }
      } else if Grant(a.name, None) in grants {
        return true;
      }
      return false;
    }

    /** What the user's answer does to the session's grants and plan at once, and whether the
        plan remains to be cleared. */
    method Answered(session: string, a: Question, outcome: Outcome) returns (d: Option<Decision>, clearing: bool)
      modifies this`allowedCommandTypes, this`sessionPlans
      ensures var ev := Asked(session, a, outcome);
        && (forall s :: GrantsOf(s) == GrantsAfter(an, old(GrantsOf(s)), ev, s))
        && (forall s :: PlanOf(s) == PlanAfter(old(PlanOf(s)), ev, s))
        && d == (if Unreadable(a, outcome) then None else Some(DecisionOf(ev)))
        && (clearing <==> PlanRefused(ev, session))
      ensures d.None? <==> a.name == "execute" && a.args.NotADict? && outcome == Selected("approve_always")
      ensures d.Some? ==>
        match outcome
        case Dismissed => d.value.kind == "reject" && !d.value.feedback
        case Selected(id) =>
          && d.value.kind == (if id == "approve_always" then "approve" else id)
          && (d.value.feedback <==> id == "reject" && a.name == "write_todos")
      ensures PlanOf(session) == if a.name == "write_todos" && outcome == Selected("approve") then a.args.todos
                                 else old(PlanOf(session))
      ensures forall g :: g in GrantsOf(session) <==>
        || g in old(GrantsOf(session))
        || (outcome == Selected("approve_always") && a.name != "execute" && g == Grant(a.name, None))
        || (outcome == Selected("approve_always") && a.name == "execute" && a.args.Dict? && g.tool == "execute"
            && g.commandType.Some? && g.commandType.value in an.commandTypes(a.args.command))
      ensures clearing <==> a.name == "write_todos" && outcome in {Dismissed, Selected("reject")}
    {
      clearing := false;
      match outcome
      case Dismissed =>
        return Some(Decision("reject", false)), a.name == WRITE_TODOS;
      case Selected(id) =>
        if id == "approve_always" {
          if session !in allowedCommandTypes {
            allowedCommandTypes := allowedCommandTypes[session := {}];
          }
          if a.name == EXECUTE {
            if a.args.NotADict? { return None, false; }
            var types := an.commandTypes(a.args.command);
            allowedCommandTypes := allowedCommandTypes[session := allowedCommandTypes[session] +
              set t | t in types :: Grant(EXECUTE, Some(t))];
          } else {
            allowedCommandTypes := allowedCommandTypes[session := allowedCommandTypes[session] + {Grant(a.name, None)}];
          }
          return Some(Decision("approve", false)), false;
        } else if a.name == WRITE_TODOS && id == "reject" {
          return Some(Decision(id, true)), true;
        } else if a.name == WRITE_TODOS && id == "approve" {
          sessionPlans := sessionPlans[session := a.args.todos];
        }
        return Some(Decision(id, false)), false;
    }

    /** The action requests of one interrupt, after those `done` since the history was `start`. */
    method HandleActions(session: string, actions: seq<Action>, answers: nat -> Answer, from: nat,
                         ghost start: seq<Event>, ghost done: seq<Action>)
      returns (decisions: seq<Decision>, ok: bool, ghost events: seq<Event>, ghost handled: nat)
      requires Valid() && |done| == from && history == Looped(an, start, session, done, answers)
      modifies this
      ensures Valid() && old(history) <= history && Embeds(events, history[|old(history)|..])
      ensures |events| <= handled <= |actions|
      ensures history == Looped(an, start, session, done + actions[..handled], answers)
      ensures Matches(session, events, actions[..|events|])
      ensures ok ==> |events| == handled == |actions| && decisions == DecisionsOf(events)
      ensures !ok ==> exists a :: a in actions && a.args.NotADict?
      ensures InTurn(an, start, session, done + actions, answers, from, events)
      ensures ok ==> AllComplete(an, start, session, done + actions, answers, from, from + |actions|)
      ensures !ok ==> FailsLast(an, start, session, done + actions, answers, from + handled)
      ensures forall s :: s != session && (forall n: nat :: Leaves(answers(n), s)) ==>
        GrantsOf(s) == old(GrantsOf(s)) && PlanOf(s) == old(PlanOf(s))
      ensures forall s :: old(GrantsOf(s)) <= GrantsOf(s)
    {
      hide AllowedBy, DecisionOf, Valid, Leaves, Run, ActionStretches, Embeds, Looped, EventOf, Completes, InTurn,
        AllComplete, FailsLast, Unreadable;
      ghost var was := history;
      NothingEmbeds(history[|was|..]);
      NoneInTurn(an, start, session, done + actions, answers, from);
      decisions, events, handled := [], [], 0;
      assert done + actions[..0] == done;
      for j := 0 to |actions|
        invariant Valid() && was <= history && |events| == j == handled && Embeds(events, history[|was|..])
        invariant history == Looped(an, start, session, done + actions[..j], answers)
        invariant Matches(session, events, actions[..j]) && decisions == DecisionsOf(events)
        invariant InTurn(an, start, session, done + actions, answers, from, events)
        invariant AllComplete(an, start, session, done + actions, answers, from, from + j)
        invariant forall s :: s != session && (forall n: nat :: Leaves(answers(n), s)) ==>
          GrantsOf(s) == old(GrantsOf(s)) && PlanOf(s) == old(PlanOf(s))
        invariant forall s :: old(GrantsOf(s)) <= GrantsOf(s)
      {
        ghost var now := history;
        LoopedPush(an, start, session, done + actions[..j], actions[j], answers);
        assert done + actions[..j + 1] == done + actions[..j] + [actions[j]];
        assert (done + actions)[..from + j] == done + actions[..j] && (done + actions)[from + j] == actions[j];
        EventCompletes(an, now, session, actions[j], answers(from + j));
        var d, ev := HandleAction(session, actions[j], answers(from + j));
        InTurnPush(an, start, session, done + actions, answers, from, j, events, ev);
        handled := j + 1;
        if ev.Some? {
          EmbedsSince(events, [ev.value], was, now, history);
          events := events + [ev.value];
        } else {
          NothingEmbeds(history[|now|..]);
          EmbedsSince(events, [], was, now, history);
          assert events + [] == events;
        }
        if d.None? {
          assert actions[j] in actions;
          return decisions, false, events, handled;
        }
        decisions := decisions + [d.value];
      }
      ok := true;
    }

    /** All action requests of a session's interrupts. */
    method HandleAll(session: string, interrupts: seq<Interrupt>, answers: nat -> Answer)
      returns (decisions: seq<Decision>, ok: bool, ghost events: seq<Event>, ghost handled: nat)
      requires Valid()
      modifies this
      ensures Valid() && old(history) <= history && Embeds(events, history[|old(history)|..])
      ensures var actions := AllActions(interrupts);
        && |events| <= handled <= |actions| && Matches(session, events, actions[..|events|])
        && history == Looped(an, old(history), session, actions[..handled], answers)
        && (ok ==> |events| == |actions| && decisions == DecisionsOf(events))
        && (!ok ==> exists a :: a in actions && a.args.NotADict?)
        && InTurn(an, old(history), session, actions, answers, 0, events)
        && (ok ==> AllComplete(an, old(history), session, actions, answers, 0, |actions|))
        && (!ok ==> FailsLast(an, old(history), session, actions, answers, handled))
      ensures forall s :: s != session && (forall n: nat :: Leaves(answers(n), s)) ==>
        GrantsOf(s) == old(GrantsOf(s)) && PlanOf(s) == old(PlanOf(s))
      ensures forall s :: old(GrantsOf(s)) <= GrantsOf(s)
    {
      hide DecisionOf, Valid, Matches, DecisionsOf, Leaves, Embeds, Looped, AllActions, EventOf, InTurn, AllComplete,
        FailsLast;
      ghost var was := history;
      NothingEmbeds(history[|was|..]);
      NoEvents(session);
      NothingLooped(an, history, session, answers);
      NoneInTurn(an, was, session, AllActions(interrupts), answers, 0);
      decisions, events, handled := [], [], 0;
      assert interrupts[..0] == [];
      for i := 0 to |interrupts|
        invariant Valid() && was <= history && Embeds(events, history[|was|..])
        invariant |events| == handled == |AllActions(interrupts[..i])|
        invariant Matches(session, events, AllActions(interrupts[..i]))
        invariant history == Looped(an, was, session, AllActions(interrupts[..i]), answers)
        invariant Requests(events) && decisions == DecisionsOf(events) && |decisions| == |events|
        invariant InTurn(an, was, session, AllActions(interrupts), answers, 0, events)
        invariant AllComplete(an, was, session, AllActions(interrupts), answers, 0, |events|)
        invariant forall s :: s != session && (forall n: nat :: Leaves(answers(n), s)) ==>
          GrantsOf(s) == old(GrantsOf(s)) && PlanOf(s) == old(PlanOf(s))
        invariant forall s :: old(GrantsOf(s)) <= GrantsOf(s)
      {
        ghost var before, mid := AllActions(interrupts[..i]), history;
        ActionsAt(interrupts, i);
        var actions := interrupts[i].actions;
        var more, fine, now, m := HandleActions(session, actions, answers, |decisions|, was, before);
        MatchesConcat(session, events, before, now, actions, AllActions(interrupts));
        InTurnConcat(an, was, session, before + actions, AllActions(interrupts), answers, events, now, handled + m);
        EmbedsSince(events, now, was, mid, history);
        events, handled := events + now, handled + m;
        assert AllActions(interrupts)[..handled] == before + actions[..m];
        if !fine { return decisions, false, events, handled; }
        assert actions[..m] == actions;
        decisions := decisions + more;
      }
      assert interrupts[..|interrupts|] == interrupts;
      assert AllActions(interrupts)[..|events|] == AllActions(interrupts);
      ok := true;
    }

    /** All pending action requests of a session, in order, one decision each; `answers(k)` is
        what happens when the k-th request is put to the user. */
    method HandleInterrupts(session: string, pending: seq<Interrupt>, stateInterrupts: seq<Interrupt>, hasNext: bool,
                            answers: nat -> Answer)
      returns (r: HandleResult, ghost events: seq<Event>, ghost handled: nat)
      requires Valid()
      modifies this
      ensures Valid() && old(history) <= history && Embeds(events, history[|old(history)|..])
      ensures var actions :=
          if pending != [] then AllActions(pending) else if hasNext then AllActions(stateInterrupts) else [];
        && |events| <= handled <= |actions| && Matches(session, events, actions[..|events|])
        && history == Looped(an, old(history), session, actions[..handled], answers)
        && (r.Decisions? ==> |events| == |actions| && r.decisions == DecisionsOf(events))
        && (r.AttributeError? ==> exists a :: a in actions && a.args.NotADict?)
        && (r.Decisions? ==> forall k: nat :: k < |actions| ==>
              var before, a, d := Before(an, old(history), session, actions, answers, k), actions[k], r.decisions[k];
              if AllowedBy(an, before, session, a) then d.kind == "approve" && !d.feedback
              else match answers(k).outcome
                case Dismissed => d.kind == "reject" && !d.feedback
                case Selected(id) =>
                  && d.kind == (if id == "approve_always" then "approve" else id)
                  && (d.feedback <==> id == "reject" && a.name == "write_todos"))
        && (r.Decisions? ==> forall k: nat :: k < |actions| && r.decisions[k].kind == "approve" ==>
              var before, a := Before(an, old(history), session, actions, answers, k), actions[k];
              || answers(k).outcome in {Selected("approve"), Selected("approve_always")}
              || (a.name == "write_todos" && PlanHolds(before, session)
                  && (PlanStands(before, session) <==> !Clearing(before, session)))
              || (a.name == "execute" && a.args.Dict? && !an.dangerous(a.args.command)
                  && an.commandTypes(a.args.command) != []
                  && forall t :: t in an.commandTypes(a.args.command) ==>
                       GrantedBefore(an, before, session, Grant("execute", Some(t))))
              || (a.name != "execute" && GrantedBefore(an, before, session, Grant(a.name, None))))
        && (r.AttributeError? ==> 0 < handled <= |actions|)
        && (r.AttributeError? ==>
              var k := handled - 1;
              && !AllowedBy(an, Before(an, old(history), session, actions, answers, k), session, actions[k])
              && actions[k].args.NotADict?
              && (|| actions[k].name == "write_todos"
                  || (actions[k].name == "execute" && answers(k).outcome == Selected("approve_always"))))
      ensures forall s :: s != session && (forall n: nat :: Leaves(answers(n), s)) ==>
        GrantsOf(s) == old(GrantsOf(s)) && PlanOf(s) == old(PlanOf(s))
      ensures forall s :: old(GrantsOf(s)) <= GrantsOf(s)
    {
      hide DecisionOf, Valid, AllActions, Leaves, Embeds, Looped, Before, AllowedBy, PlanHolds, PlanStands, Clearing,
        GrantedBefore, InTurn, AllComplete;
      var interrupts := if pending != [] then pending else stateInterrupts;
      if pending != [] || hasNext {
        var decisions, ok;
        ghost var start := history;
        decisions, ok, events, handled := HandleAll(session, interrupts, answers);
        if ok { DecisionsTell(an, start, session, AllActions(interrupts), answers, events); }
        return if ok then Decisions(decisions) else AttributeError, events, handled;
      }
      NothingEmbeds(history[|old(history)|..]);
      NothingLooped(an, history, session, answers);
      return Decisions([]), [], 0;
    }
  }
}
