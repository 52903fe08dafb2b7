/** The history of a session's permission requests: what it grants, which plan it leaves
    in force, and why every approval without asking goes back to something the user said. */
module PermissionHistory {
  import opened Wrappers

  datatype Todo = Todo(content: string, status: string)

  /** Tool arguments: a dict, with its `command` and `todos` entries (or their defaults). */
  datatype Args = Dict(command: string, todos: seq<Todo>) | NotADict

  datatype Action = Action(name: string, args: Args)

  /** An action that can be put to the user: the title of a plan reads the todos of a dict. */
  type Question = a: Action | Askable(a) witness Action("", NotADict)

  /** The client's answer to a permission request. */
  datatype Outcome = Selected(optionId: string) | Dismissed

  /** `(tool, None)` or `("execute", command_type)` */
  datatype Grant = Grant(tool: string, commandType: Option<string>)

  /** The command analysis functions, about which nothing is known. */
  datatype Analyzer = Analyzer(commandTypes: string -> seq<string>, dangerous: string -> bool)

  const WRITE_TODOS := "write_todos"
  const EXECUTE := "execute"

  predicate Askable(a: Action) {
    a.name == WRITE_TODOS ==> a.args.Dict?
  }

  function AllCompleted(plan: seq<Todo>): bool {
    forall i :: 0 <= i < |plan| ==> plan[i].status == "completed"
  }

  // ---- History ----

  /** An action request of a session, answered by the user or approved without asking; or
      the session's plan emptied, which is some time after the user has refused one. */
  datatype Event =
    | Asked(session: string, question: Question, outcome: Outcome)
    | Unasked(session: string, action: Action)
    | Cleared(session: string)

  /** What answering "always allow" grants. */
  function Granted(an: Analyzer, a: Action): set<Grant> {
    if a.name != EXECUTE then {Grant(a.name, None)}
    else if a.args.Dict? then
      set t | t in an.commandTypes(a.args.command) :: Grant(EXECUTE, Some(t))
    else {}
  }

  /** A session's grants after one more event. */
  function GrantsAfter(an: Analyzer, before: set<Grant>, ev: Event, session: string): set<Grant> {
    if AlwaysAllowed(ev, session) then before + Granted(an, ev.question) else before
  }

  /** The grants a session has been given. */
  function Grants(an: Analyzer, history: seq<Event>, session: string): set<Grant> {
    if history == [] then {} else
    GrantsAfter(an, Grants(an, history[..|history| - 1], session), history[|history| - 1], session)
  }

  /** A session's plan after one more event. */
  function PlanAfter(before: seq<Todo>, ev: Event, session: string): seq<Todo> {
    if ev == Cleared(session) then []
    else if PlanApproved(ev, session) then ev.question.args.todos
    else if ev.Unasked? && ev.session == session && ev.action.name == WRITE_TODOS && ev.action.args.Dict?
         && !AllCompleted(before)
    then ev.action.args.todos
    else before
  }

  /** The session's plan, as its history left it. */
  function Plan(history: seq<Event>, session: string): seq<Todo> {
    if history == [] then [] else
    PlanAfter(Plan(history[..|history| - 1], session), history[|history| - 1], session)
  }

  /** The state so far allows this action without asking. */
  predicate Allowed(an: Analyzer, grants: set<Grant>, plan: seq<Todo>, a: Action) {
    || (a.name == WRITE_TODOS && a.args.Dict? && !AllCompleted(plan))
    || (a.name == EXECUTE && a.args.Dict? && !an.dangerous(a.args.command)
        && an.commandTypes(a.args.command) != []
        && forall t :: t in an.commandTypes(a.args.command) ==> Grant(EXECUTE, Some(t)) in grants)
    || (!(a.name == EXECUTE && a.args.Dict?) && Grant(a.name, None) in grants)
  }

  predicate AllowedBy(an: Analyzer, history: seq<Event>, session: string, a: Action) {
    Allowed(an, Grants(an, history, session), Plan(history, session), a)
  }

  /** Every approval without asking was allowed by what came before it in its session. */
  predicate Justified(an: Analyzer, history: seq<Event>) {
    forall i :: 0 <= i < |history| && history[i].Unasked? ==>
      AllowedBy(an, history[..i], history[i].session, history[i].action)
  }

  lemma JustifiedAfter(an: Analyzer, history: seq<Event>, ev: Event)
    requires Justified(an, history)
    requires ev.Unasked? ==> AllowedBy(an, history, ev.session, ev.action)
    ensures Justified(an, history + [ev])
    ensures forall s :: Grants(an, history + [ev], s) == GrantsAfter(an, Grants(an, history, s), ev, s)
    ensures forall s :: Plan(history + [ev], s) == PlanAfter(Plan(history, s), ev, s)
  {
    hide AllowedBy, GrantsAfter, PlanAfter;
    var now := history + [ev];
    assert now[..|history|] == history;
    forall i | 0 <= i < |now| && now[i].Unasked? ensures AllowedBy(an, now[..i], now[i].session, now[i].action) {
      if i < |history| {
        assert now[..i] == history[..i];
      }
    }
  }

  // ---- What handlers do between two awaits ----

  /** One stretch of a handler: the check of the state before the user is asked, what it does
      with the answer, or the emptying of a refused plan once the client has been told. */
  datatype Stretch =
    | Check(session: string, action: Action)
    | Reply(session: string, question: Question, outcome: Outcome)
    | Clear(session: string)

  function After(an: Analyzer, history: seq<Event>, x: Stretch): seq<Event> {
    match x
    case Check(s, a) => if AllowedBy(an, history, s, a) then history + [Unasked(s, a)] else history
    case Reply(s, a, outcome) => history + [Asked(s, a, outcome)]
    case Clear(s) => history + [Cleared(s)]
  }

  /** Stretches of any handlers, in any order; among them is every interleaving. */
  function Run(an: Analyzer, history: seq<Event>, xs: seq<Stretch>): seq<Event> {
    if xs == [] then history else After(an, Run(an, history, xs[..|xs| - 1]), xs[|xs| - 1])
  }

  lemma {:induction false} RunConcat(an: Analyzer, history: seq<Event>, xs: seq<Stretch>, ys: seq<Stretch>)
    ensures Run(an, history, xs + ys) == Run(an, Run(an, history, xs), ys)
  {
    hide After;
    if ys == [] {
      assert xs + [] == xs;
    } else {
      assert (xs + ys)[..|xs + ys| - 1] == xs + ys[..|ys| - 1];
      RunConcat(an, history, xs, ys[..|ys| - 1]);
    }
  }

  lemma RunOne(an: Analyzer, history: seq<Event>, x: Stretch)
    ensures Run(an, history, [x]) == After(an, history, x)
  {
    hide After;
    assert [x][..0] == [];
  }

  lemma {:induction false} RunExtends(an: Analyzer, history: seq<Event>, xs: seq<Stretch>)
    ensures history <= Run(an, history, xs)
  {
    hide AllowedBy;
    if xs != [] { RunExtends(an, history, xs[..|xs| - 1]); }
  }

  /** Whatever the interleaving, every approval without asking is one the state allowed. */
  lemma {:induction false} RunIsJustified(an: Analyzer, history: seq<Event>, xs: seq<Stretch>)
    requires Justified(an, history)
    ensures Justified(an, Run(an, history, xs))
  {
    hide Justified, AllowedBy;
    if xs != [] {
      var before, last := Run(an, history, xs[..|xs| - 1]), xs[|xs| - 1];
      RunIsJustified(an, history, xs[..|xs| - 1]);
      match last
      case Check(s, a) => if AllowedBy(an, before, s, a) { JustifiedAfter(an, before, Unasked(s, a)); }
      case Reply(s, a, outcome) => JustifiedAfter(an, before, Asked(s, a, outcome));
      case Clear(s) => JustifiedAfter(an, before, Cleared(s));
    }
  }

  // ---- Grants ----

  /** The user answered "always allow" to this action of the session. */
  predicate AlwaysAllowed(ev: Event, session: string) {
    ev.Asked? && ev.session == session && ev.outcome == Selected("approve_always")
  }

  /** One of these actions was answered "always allow" and granted `g`. */
  ghost predicate GrantedBefore(an: Analyzer, history: seq<Event>, session: string, g: Grant) {
    exists j :: 0 <= j < |history| && AlwaysAllowed(history[j], session) && g in Granted(an, history[j].question)
  }

  /** A session holds a grant exactly when the user once answered "always allow" to an
      action that grants it. */
  lemma {:induction false} GrantOrigin(an: Analyzer, history: seq<Event>, session: string, g: Grant)
    ensures g in Grants(an, history, session) <==> GrantedBefore(an, history, session, g)
  {
    hide Granted;
    if history != [] {
      var n := |history| - 1;
      GrantOrigin(an, history[..n], session, g);
      assert forall j :: 0 <= j < n ==> history[..n][j] == history[j];
    }
  }

  /** `execute` as a whole is never granted, only single command types are. */
  lemma ExecuteIsTyped(an: Analyzer, history: seq<Event>, session: string)
    ensures !GrantedBefore(an, history, session, Grant(EXECUTE, None))
  {
  }

  // ---- Plans ----

  /** The user approved the plan in this action of the session. */
  predicate PlanApproved(ev: Event, session: string) {
    ev.Asked? && ev.session == session && ev.question.name == WRITE_TODOS && ev.outcome == Selected("approve")
  }

  predicate Refusal(outcome: Outcome) {
    outcome == Dismissed || outcome == Selected("reject")
  }

  /** The user rejected or dismissed a plan in this action of the session. */
  predicate PlanRefused(ev: Event, session: string) {
    ev.Asked? && ev.session == session && ev.question.name == WRITE_TODOS && Refusal(ev.outcome)
  }

  predicate NoClear(history: seq<Event>, from: nat, session: string) {
    forall i :: from <= i < |history| ==> history[i] != Cleared(session)
  }

  predicate NoRefusal(history: seq<Event>, from: nat, session: string) {
    forall i :: from <= i < |history| ==> !PlanRefused(history[i], session)
  }

  /** The user approved a plan in one of these actions, and it has not been emptied since. */
  ghost predicate PlanHolds(history: seq<Event>, session: string) {
    exists j :: 0 <= j < |history| && PlanApproved(history[j], session) && NoClear(history, j + 1, session)
  }

  /** The user approved a plan in one of these actions and has refused none since. */
  ghost predicate PlanStands(history: seq<Event>, session: string) {
    exists j :: 0 <= j < |history| && PlanApproved(history[j], session) && NoRefusal(history, j + 1, session)
  }

  /** An unfinished plan goes back to one the user approved and that was not emptied since. */
  lemma {:induction false} PlanOrigin(history: seq<Event>, session: string)
    requires !AllCompleted(Plan(history, session))
    ensures PlanHolds(history, session)
  {
    var n := |history| - 1;
    if !PlanApproved(history[n], session) {
      PlanOrigin(history[..n], session);
      var j :| 0 <= j < n && PlanApproved(history[..n][j], session) && NoClear(history[..n], j + 1, session);
      assert history[..n][j] == history[j];
      assert forall i :: j < i < n ==> history[i] == history[..n][i];
      assert NoClear(history, j + 1, session);
    } else {
      assert NoClear(history, n + 1, session);
    }
  }

  // ---- Refusals take effect late ----

  datatype Verdict = Unsaid | Approved | Refused

  /** The user's last word on a session's plans, and whether the plan was emptied since. */
  datatype Standing = Standing(verdict: Verdict, cleared: bool)

  function StandingAfter(before: Standing, ev: Event, session: string): Standing {
    if PlanApproved(ev, session) then Standing(Approved, false)
    else if PlanRefused(ev, session) then Standing(Refused, false)
    else if ev == Cleared(session) then before.(cleared := true)
    else before
  }

  function StandingOf(history: seq<Event>, session: string): Standing {
    if history == [] then Standing(Unsaid, false) else
    StandingAfter(StandingOf(history[..|history| - 1], session), history[|history| - 1], session)
  }

  /** A plan was refused last, and the client is still being told before it is emptied. */
  predicate Clearing(history: seq<Event>, session: string) {
    StandingOf(history, session) == Standing(Refused, false)
  }

  /** The plan was emptied for a refusal that an approval had already followed. */
  predicate ClearedLate(history: seq<Event>, session: string) {
    StandingOf(history, session) == Standing(Approved, true)
  }

  /** The plan as the user's answers alone leave it: a refusal takes it away at once. */
  function WantedAfter(before: seq<Todo>, ev: Event, session: string): seq<Todo> {
    if PlanRefused(ev, session) then [] else if ev.Cleared? then before else PlanAfter(before, ev, session)
  }

  function Wanted(history: seq<Event>, session: string): seq<Todo> {
    if history == [] then [] else
    WantedAfter(Wanted(history[..|history| - 1], session), history[|history| - 1], session)
  }

  lemma {:induction false} PlanOfStanding(history: seq<Event>, session: string)
    ensures var standing := StandingOf(history, session);
      && (standing.verdict == Unsaid || standing.cleared ==> Plan(history, session) == [])
      && (standing.verdict != Approved ==> Wanted(history, session) == [])
      && (standing == Standing(Approved, false) ==> Plan(history, session) == Wanted(history, session))
  {
    if history != [] { PlanOfStanding(history[..|history| - 1], session); }
  }

  lemma {:induction false} StandsIsApproved(history: seq<Event>, session: string)
    ensures PlanStands(history, session) <==> StandingOf(history, session).verdict == Approved
  {
    if history != [] {
      var n := |history| - 1;
      StandsIsApproved(history[..n], session);
      StandsPush(history[..n], history[n], session);
      assert history[..n] + [history[n]] == history;
      hide PlanStands, PlanApproved, PlanRefused;
    }
  }

  lemma StandsPush(before: seq<Event>, last: Event, session: string)
    ensures PlanStands(before + [last], session) <==>
            PlanApproved(last, session) || (PlanStands(before, session) && !PlanRefused(last, session))
  {
    hide PlanApproved, PlanRefused;
    var history, n := before + [last], |before|;
    if PlanApproved(last, session) {
      assert PlanApproved(history[n], session) && NoRefusal(history, n + 1, session);
    } else if PlanStands(history, session) {
      var j :| 0 <= j < |history| && PlanApproved(history[j], session) && NoRefusal(history, j + 1, session);
      assert !PlanRefused(history[n], session);
      assert forall i :: 0 <= i < n ==> before[i] == history[i];
      assert PlanApproved(before[j], session) && NoRefusal(before, j + 1, session);
    } else if PlanStands(before, session) {
      var j :| 0 <= j < n && PlanApproved(before[j], session) && NoRefusal(before, j + 1, session);
      assert PlanApproved(history[j], session) && !NoRefusal(history, j + 1, session);
    }
  }

  /** A plan in force is one the user approved and has not refused since, if and only if no
      refusal of the session is still waiting for the plan to be emptied. */
  lemma {:induction false} PlanStandsIff(history: seq<Event>, session: string)
    requires !AllCompleted(Plan(history, session))
    ensures PlanStands(history, session) <==> !Clearing(history, session)
  {
    hide Plan, Wanted, PlanStands, StandingOf;
    PlanOfStanding(history, session);
    StandsIsApproved(history, session);
  }

  /** Of the plan in force and the one the user's answers leave, one unfinished: they are the
      same if and only if neither a refusal is waiting for the plan to be emptied nor it was
      emptied late. */
  lemma PlanIsWantedIff(history: seq<Event>, session: string)
    requires !AllCompleted(Plan(history, session)) || !AllCompleted(Wanted(history, session))
    ensures Plan(history, session) == Wanted(history, session) <==>
            !Clearing(history, session) && !ClearedLate(history, session)
  {
    hide Plan, Wanted, StandingOf;
    PlanOfStanding(history, session);
  }

  lemma AllowedAt(an: Analyzer, history: seq<Event>, i: nat)
    requires Justified(an, history) && i < |history| && history[i].Unasked?
    ensures AllowedBy(an, history[..i], history[i].session, history[i].action)
  {
  }

  /** What the state allows goes back to what the user said earlier in the same session. */
  lemma AllowedIsEarned(an: Analyzer, before: seq<Event>, s: string, a: Action)
    requires AllowedBy(an, before, s, a)
    ensures
      || (a.name == WRITE_TODOS && PlanHolds(before, s) && (PlanStands(before, s) <==> !Clearing(before, s)))
      || (a.name == EXECUTE && a.args.Dict? && !an.dangerous(a.args.command)
          && an.commandTypes(a.args.command) != []
          && forall t :: t in an.commandTypes(a.args.command) ==> GrantedBefore(an, before, s, Grant(EXECUTE, Some(t))))
      || (a.name != EXECUTE && GrantedBefore(an, before, s, Grant(a.name, None)))
  {
    hide Grants, Plan, AllCompleted, GrantedBefore, PlanStands, PlanHolds, Clearing, Granted;
    if a.name == WRITE_TODOS && a.args.Dict? && !AllCompleted(Plan(before, s)) {
      PlanOrigin(before, s);
      PlanStandsIff(before, s);
    } else if a.name == EXECUTE && a.args.Dict? {
      forall t | t in an.commandTypes(a.args.command) ensures GrantedBefore(an, before, s, Grant(EXECUTE, Some(t))) {
        GrantOrigin(an, before, s, Grant(EXECUTE, Some(t)));
      }
    } else {
      GrantOrigin(an, before, s, Grant(a.name, None));
      ExecuteIsTyped(an, before, s);
    }
  }

  /** Every approval without asking goes back to what the user said earlier in the same
      session: an approved plan not emptied since, which the user has not refused since
      either unless that refusal still waits for its plan to be emptied; an "always allow"
      for the tool; or one for each command type of a command without dangerous patterns. */
  lemma ApprovalsAreEarned(an: Analyzer, history: seq<Event>, i: nat)
    requires Justified(an, history) && i < |history| && history[i].Unasked?
    ensures var Unasked(s, a) := history[i];
      var before := history[..i];
      || (a.name == WRITE_TODOS && PlanHolds(before, s) && (PlanStands(before, s) <==> !Clearing(before, s)))
      || (a.name == EXECUTE && a.args.Dict? && !an.dangerous(a.args.command)
          && an.commandTypes(a.args.command) != []
          && forall t :: t in an.commandTypes(a.args.command) ==> GrantedBefore(an, before, s, Grant(EXECUTE, Some(t))))
      || (a.name != EXECUTE && GrantedBefore(an, before, s, Grant(a.name, None)))
  {
    hide AllowedBy, Justified, GrantedBefore, PlanStands, PlanHolds, Clearing;
    AllowedAt(an, history, i);
    AllowedIsEarned(an, history[..i], history[i].session, history[i].action);
  }

  /** The user once answered "always allow" to this tool. */
  ghost predicate AlwaysTool(history: seq<Event>, s: string, tool: string) {
    exists j :: && 0 <= j < |history| && history[j].Asked? && history[j].session == s
      && history[j].outcome == Selected("approve_always") && history[j].question.name == tool
  }

  /** The user once answered "always allow" to a command of this type. */
  ghost predicate AlwaysCommand(an: Analyzer, history: seq<Event>, s: string, commandType: string) {
    exists j :: && 0 <= j < |history| && history[j].Asked? && history[j].session == s
      && history[j].outcome == Selected("approve_always") && history[j].question.name == "execute"
      && history[j].question.args.Dict? && commandType in an.commandTypes(history[j].question.args.command)
  }

  lemma CommandAllowed(an: Analyzer, history: seq<Event>, s: string, a: Action)
    requires a.name == EXECUTE
    ensures AllowedBy(an, history, s, a) <==>
      && a.args.Dict? && !an.dangerous(a.args.command) && an.commandTypes(a.args.command) != []
      && forall t :: t in an.commandTypes(a.args.command) ==> AlwaysCommand(an, history, s, t)
  {
    hide Plan, GrantedBefore, AlwaysCommand, Grants, AllCompleted;
    forall t ensures Grant(EXECUTE, Some(t)) in Grants(an, history, s) <==> AlwaysCommand(an, history, s, t) {
      GrantOrigin(an, history, s, Grant(EXECUTE, Some(t)));
      CommandGranted(an, history, s, t);
    }
    GrantOrigin(an, history, s, Grant(EXECUTE, None));
    ExecuteIsTyped(an, history, s);
  }

  lemma OtherAllowed(an: Analyzer, history: seq<Event>, s: string, a: Action)
    requires a.name != EXECUTE
    ensures AllowedBy(an, history, s, a) <==>
      (PlanUpdate(a) && !AllCompleted(Plan(history, s))) || AlwaysTool(history, s, a.name)
  {
    hide Plan, GrantedBefore, AlwaysTool, Grants, AllCompleted;
    GrantOrigin(an, history, s, Grant(a.name, None));
    ToolGranted(an, history, s, a.name);
  }

  /** An action is allowed without asking exactly when it updates a plan some entry of which
      is not completed; or is a command without dangerous patterns whose types, at least one,
      were all answered "always allow" before; or calls another tool that was. */
  lemma AllowedIff(an: Analyzer, history: seq<Event>, s: string, a: Action)
    ensures AllowedBy(an, history, s, a) <==>
      || (a.name == "write_todos" && a.args.Dict?
          && exists i :: 0 <= i < |Plan(history, s)| && Plan(history, s)[i].status != "completed")
      || (a.name == "execute" && a.args.Dict? && !an.dangerous(a.args.command)
          && an.commandTypes(a.args.command) != []
          && forall t :: t in an.commandTypes(a.args.command) ==> AlwaysCommand(an, history, s, t))
      || (a.name != "execute" && AlwaysTool(history, s, a.name))
  {
    hide Plan, AlwaysTool, AlwaysCommand, AllowedBy;
    if a.name == EXECUTE { CommandAllowed(an, history, s, a); } else { OtherAllowed(an, history, s, a); }
  }

  lemma CommandGranted(an: Analyzer, history: seq<Event>, s: string, t: string)
    ensures GrantedBefore(an, history, s, Grant("execute", Some(t))) <==> AlwaysCommand(an, history, s, t)
  {
  }

  lemma ToolGranted(an: Analyzer, history: seq<Event>, s: string, tool: string)
    ensures GrantedBefore(an, history, s, Grant(tool, None)) <==> tool != "execute" && AlwaysTool(history, s, tool)
  {
  }

  // ---- A session in which nothing runs between a refusal and its clearing ----

  /** Between the refusal of a plan of the session and the emptying of it no stretch of that
      session runs. */
  predicate Undisturbed(an: Analyzer, history: seq<Event>, xs: seq<Stretch>, session: string) {
    xs == [] ||
    (var before, last := xs[..|xs| - 1], xs[|xs| - 1];
     && Undisturbed(an, history, before, session)
     && (last.session == session ==> (last.Clear? <==> Clearing(Run(an, history, before), session))))
  }

  lemma StandingPush(history: seq<Event>, ev: Event, session: string)
    ensures StandingOf(history + [ev], session) == StandingAfter(StandingOf(history, session), ev, session)
  {
    assert (history + [ev])[..|history|] == history;
  }

  lemma {:induction false} NeverClearedLate(an: Analyzer, history: seq<Event>, xs: seq<Stretch>, session: string)
    requires Undisturbed(an, history, xs, session) && !ClearedLate(history, session)
    ensures !ClearedLate(Run(an, history, xs), session)
  {
    hide AllowedBy, StandingOf;
    if xs != [] {
      var before, last := Run(an, history, xs[..|xs| - 1]), xs[|xs| - 1];
      NeverClearedLate(an, history, xs[..|xs| - 1], session);
      match last
      case Check(s, a) => StandingPush(before, Unasked(s, a), session);
      case Reply(s, a, outcome) => StandingPush(before, Asked(s, a, outcome), session);
      case Clear(s) => StandingPush(before, Cleared(s), session);
    }
  }

  /** As long as nothing runs between a refusal and its clearing, the plan in force is the one
      the user's answers leave, except for that while itself. */
  lemma UndisturbedIsWanted(an: Analyzer, history: seq<Event>, xs: seq<Stretch>, session: string)
    requires Undisturbed(an, history, xs, session) && !ClearedLate(history, session)
    ensures var now := Run(an, history, xs);
      Plan(now, session) == Wanted(now, session) || Clearing(now, session)
  {
    hide Run, Plan, Wanted, StandingOf, Undisturbed;
    NeverClearedLate(an, history, xs, session);
    PlanOfStanding(Run(an, history, xs), session);
  }

  /** ... and every update of a plan approved without asking is to one the user approved and
      has not refused since. */
  lemma {:induction false} UndisturbedStands(an: Analyzer, history: seq<Event>, xs: seq<Stretch>, session: string,
                                             i: nat)
    requires Undisturbed(an, history, xs, session) && |history| <= i < |Run(an, history, xs)|
    requires var now := Run(an, history, xs);
      now[i].Unasked? && now[i].session == session && !AllCompleted(Plan(now[..i], session))
    ensures PlanStands(Run(an, history, xs)[..i], session)
  {
    hide AllowedBy, Plan, PlanStands, Clearing;
    var n := |xs| - 1;
    var before, now := Run(an, history, xs[..n]), Run(an, history, xs);
    if i < |before| {
      assert now[..i] == before[..i];
      UndisturbedStands(an, history, xs[..n], session, i);
    } else {
      assert now[..i] == before;
      PlanStandsIff(before, session);
    }
  }

  // ---- What running in between does ----

  predicate PlanUpdate(a: Action) {
    a.name == WRITE_TODOS && a.args.Dict?
  }

  /** Any plan update checked while an unfinished plan is being refused is approved against
      that refusal; checked after the clearing it is put to the user, unless `write_todos` as
      such was granted. */
  lemma CheckWhileClearing(an: Analyzer, history: seq<Event>, s: string, q: Question, refusal: Outcome, update: Action)
    requires !AllCompleted(Plan(history, s)) && PlanUpdate(q) && Refusal(refusal) && PlanUpdate(update)
    ensures var refused := Run(an, history, [Reply(s, q, refusal)]);
      && After(an, refused, Check(s, update)) == refused + [Unasked(s, update)]
      && !PlanStands(refused, s)
    ensures var cleared := Run(an, history, [Reply(s, q, refusal), Clear(s)]);
      After(an, cleared, Check(s, update)) == cleared <==>
      !GrantedBefore(an, cleared, s, Grant(WRITE_TODOS, None))
  {
    hide GrantedBefore, PlanStands, Grants, GrantsAfter, StandingOf, Plan, Run;
    var reply := Reply(s, q, refusal);
    var refused := history + [Asked(s, q, refusal)];
    var cleared := refused + [Cleared(s)];
    RunOne(an, history, reply);
    RunConcat(an, history, [reply], [Clear(s)]);
    RunOne(an, refused, Clear(s));
    assert [reply] + [Clear(s)] == [reply, Clear(s)];
    PlanPush(history, Asked(s, q, refusal), s);
    PlanPush(refused, Cleared(s), s);
    StandingPush(history, Asked(s, q, refusal), s);
    PlanStandsIff(refused, s);
    GrantOrigin(an, cleared, s, Grant(WRITE_TODOS, None));
  }

  lemma PlanPush(history: seq<Event>, ev: Event, s: string)
    ensures Plan(history + [ev], s) == PlanAfter(Plan(history, s), ev, s)
    ensures Wanted(history + [ev], s) == WantedAfter(Wanted(history, s), ev, s)
  {
    assert (history + [ev])[..|history|] == history;
  }

  /** Any plan approved while an earlier one is being refused is lost with it. */
  lemma ApproveWhileClearing(an: Analyzer, history: seq<Event>, s: string, q: Question, refusal: Outcome, p: Question)
    requires PlanUpdate(q) && Refusal(refusal) && PlanUpdate(p)
    ensures var now := Run(an, history, [Reply(s, q, refusal), Reply(s, p, Selected("approve")), Clear(s)]);
      PlanStands(now, s) && Wanted(now, s) == p.args.todos && Plan(now, s) == []
  {
    hide StandingOf, PlanStands, Plan, Wanted, Run;
    var refuse, approve := Reply(s, q, refusal), Reply(s, p, Selected("approve"));
    var one := history + [Asked(s, q, refusal)];
    var two := one + [Asked(s, p, Selected("approve"))];
    RunOne(an, history, refuse);
    RunOne(an, one, approve);
    RunOne(an, two, Clear(s));
    RunConcat(an, history, [refuse], [approve]);
    RunConcat(an, history, [refuse, approve], [Clear(s)]);
    assert [refuse] + [approve] == [refuse, approve];
    assert [refuse, approve] + [Clear(s)] == [refuse, approve, Clear(s)];
    PlanPush(one, Asked(s, p, Selected("approve")), s);
    PlanPush(two, Cleared(s), s);
    StandingPush(one, Asked(s, p, Selected("approve")), s);
    StandingPush(two, Cleared(s), s);
    StandsIsApproved(two + [Cleared(s)], s);
  }

  /** An unfinished plan of one entry. */
  const PLAN: Question := Action(WRITE_TODOS, Dict("", [Todo("write it", "pending")]))

  lemma FirstPlan(an: Analyzer, s: string)
    ensures After(an, [], Check(s, PLAN)) == []
    ensures var one := [Asked(s, PLAN, Selected("approve"))];
      Plan(one, s) == PLAN.args.todos && !AllCompleted(Plan(one, s))
  {
    assert Plan([], s) == [] && Grants(an, [], s) == {};
    assert PLAN.args.todos[0].status == "pending";
  }

  /** Two handlers that have both asked, and what the user answers them. */
  lemma BothAnswered(an: Analyzer, s: string)
    ensures Run(an, [], [Check(s, PLAN), Check(s, PLAN)] +
                        [Reply(s, PLAN, Selected("approve")), Reply(s, PLAN, Selected("reject"))])
         == Run(an, [Asked(s, PLAN, Selected("approve"))], [Reply(s, PLAN, Selected("reject"))])
  {
    var check, approve := Check(s, PLAN), Reply(s, PLAN, Selected("approve"));
    var reject := Reply(s, PLAN, Selected("reject"));
    FirstPlan(an, s);
    hide Run;
    var one := [Asked(s, PLAN, Selected("approve"))];
    assert [] + one == one;
    hide AllowedBy;
    RunOne(an, [], check);
    RunConcat(an, [], [check], [check]);
    assert [check] + [check] == [check, check];
    RunConcat(an, [], [check, check], [approve]);
    RunOne(an, [], approve);
    RunConcat(an, [], [check, check] + [approve], [reject]);
    assert [check, check] + [approve] + [reject] == [check, check] + [approve, reject];
  }

  /** Two handlers of a session that have both asked: the one's plan is approved, the other's
      rejected, and before it is emptied the first has an update approved without asking. */
  lemma ApprovedAfterRefusal(an: Analyzer, s: string)
    ensures var asking := [Check(s, PLAN), Check(s, PLAN)];
      var replies := [Reply(s, PLAN, Selected("approve")), Reply(s, PLAN, Selected("reject"))];
      var refused := [Asked(s, PLAN, Selected("approve")), Asked(s, PLAN, Selected("reject"))];
      && Run(an, [], asking + replies) == refused
      && Run(an, [], asking + replies + [Check(s, PLAN)]) == refused + [Unasked(s, PLAN)]
      && !PlanStands(refused, s)
  {
    var asking := [Check(s, PLAN), Check(s, PLAN)];
    var replies := [Reply(s, PLAN, Selected("approve")), Reply(s, PLAN, Selected("reject"))];
    var one := [Asked(s, PLAN, Selected("approve"))];
    FirstPlan(an, s);
    hide Run, AllowedBy, PlanStands, Plan;
    BothAnswered(an, s);
    RunOne(an, one, Reply(s, PLAN, Selected("reject")));
    CheckWhileClearing(an, one, s, PLAN, Selected("reject"), PLAN);
    RunConcat(an, [], asking + replies, [Check(s, PLAN)]);
    RunOne(an, Run(an, [], asking + replies), Check(s, PLAN));
  }

  // ---- One decision per action ----

  datatype Decision = Decision(kind: string, feedback: bool)

  /** The decision returned for an action request. */
  function DecisionOf(ev: Event): Decision
    requires !ev.Cleared?
  {
    match ev
    case Unasked(_, _) => Decision("approve", false)
    case Asked(_, _, Dismissed) => Decision("reject", false)
    case Asked(_, a, Selected(id)) =>
      if id == "approve_always" then Decision("approve", false)
      else Decision(id, a.name == WRITE_TODOS && id == "reject")
  }

  /** The requests of one handler; clearings are none. */
  predicate Requests(events: seq<Event>) {
    forall k :: 0 <= k < |events| ==> !events[k].Cleared?
  }

  function ActionOf(ev: Event): Action
    requires !ev.Cleared?
  {
    if ev.Asked? then ev.question else ev.action
  }

  function DecisionsOf(events: seq<Event>): (decisions: seq<Decision>)
    requires Requests(events)
    ensures |decisions| == |events|
  {
    seq(|events|, i requires 0 <= i < |events| => DecisionOf(events[i]))
  }

  /** Granting "always" for an `execute` call reads the command of its arguments. */
  predicate Unreadable(a: Action, outcome: Outcome) {
    a.name == EXECUTE && a.args.NotADict? && outcome == Selected("approve_always")
  }

  /** One event per action, in order. */
  predicate Matches(session: string, events: seq<Event>, actions: seq<Action>) {
    && |events| == |actions| && Requests(events)
    && forall k :: 0 <= k < |events| ==> events[k].session == session && ActionOf(events[k]) == actions[k]
  }

  /** `events` occur in the trace, in this order. */
  predicate Embeds(events: seq<Event>, trace: seq<Event>)
    decreases |trace|
  {
    || events == []
    || (trace != [] &&
        var rest := trace[..|trace| - 1];
        || Embeds(events, rest)
        || (events[|events| - 1] == trace[|trace| - 1] && Embeds(events[..|events| - 1], rest)))
  }

  lemma {:induction false} EmbedsConcat(e1: seq<Event>, t1: seq<Event>, e2: seq<Event>, t2: seq<Event>)
    requires Embeds(e1, t1) && Embeds(e2, t2)
    ensures Embeds(e1 + e2, t1 + t2)
    decreases |t2|
  {
    if t2 == [] {
      assert e1 + e2 == e1 && t1 + t2 == t1;
    } else {
      var rest := t2[..|t2| - 1];
      assert (t1 + t2)[..|t1 + t2| - 1] == t1 + rest;
      if Embeds(e2, rest) {
        EmbedsConcat(e1, t1, e2, rest);
      } else {
        EmbedsConcat(e1, t1, e2[..|e2| - 1], rest);
        assert (e1 + e2)[..|e1 + e2| - 1] == e1 + e2[..|e2| - 1];
      }
    }
  }

  /** Later events in what a history has gained since. */
  lemma EmbedsSince(e1: seq<Event>, e2: seq<Event>, was: seq<Event>, mid: seq<Event>, now: seq<Event>)
    requires was <= mid <= now && Embeds(e1, mid[|was|..]) && Embeds(e2, now[|mid|..])
    ensures Embeds(e1 + e2, now[|was|..])
  {
    hide Embeds;
    EmbedsConcat(e1, mid[|was|..], e2, now[|mid|..]);
    assert now[|was|..] == mid[|was|..] + now[|mid|..];
  }

  lemma NothingEmbeds(trace: seq<Event>)
    ensures Embeds([], trace)
  {
  }

  lemma EmbedsOne(ev: Event, before: seq<Event>, after: seq<Event>)
    ensures Embeds([ev], before + [ev] + after)
  {
    assert (before + [ev])[..|before + [ev]| - 1] == before && [ev][..0] == [];
    EmbedsConcat([ev], before + [ev], [], after);
    assert [ev] + [] == [ev];
  }

  // ---- One request, among the stretches of other handlers ----

  /** What comes back for a question, what other handlers do until then, and what they do
      while the client is told that a refused plan is empty. */
  datatype Answer = Answer(outcome: Outcome, asking: seq<Stretch>, clearing: seq<Stretch>)

  predicate Elsewhere(xs: seq<Stretch>, session: string) {
    forall k :: 0 <= k < |xs| ==> xs[k].session != session
  }

  /** No stretch of the session among those the answer comes with. */
  predicate Leaves(answer: Answer, session: string) {
    Elsewhere(answer.asking, session) && Elsewhere(answer.clearing, session)
  }

  /** The event of one action request, none when its title fails. */
  function EventOf(an: Analyzer, history: seq<Event>, session: string, a: Action, answer: Answer): (ev: Option<Event>)
    ensures ev.Some? ==> !ev.value.Cleared? && ev.value.session == session && ActionOf(ev.value) == a
  {
    if AllowedBy(an, history, session, a) then Some(Unasked(session, a))
    else if Askable(a) then Some(Asked(session, a, answer.outcome))
    else None
  }

  /** All stretches while one action request is handled, its own and those in between. */
  function ActionStretches(an: Analyzer, history: seq<Event>, session: string, a: Action, answer: Answer)
    : seq<Stretch>
  {
    if AllowedBy(an, history, session, a) || !Askable(a) then [Check(session, a)]
    else [Check(session, a)] + answer.asking + [Reply(session, a, answer.outcome)] +
         (if PlanUpdate(a) && Refusal(answer.outcome) then answer.clearing + [Clear(session)] else [])
  }

  /** All stretches while a handler works through its requests, one after another. */
  function LoopStretches(an: Analyzer, history: seq<Event>, session: string, actions: seq<Action>,
                         answers: nat -> Answer): seq<Stretch>
  {
    if actions == [] then [] else
    var n := |actions| - 1;
    var before := LoopStretches(an, history, session, actions[..n], answers);
    before + ActionStretches(an, Run(an, history, before), session, actions[n], answers(n))
  }

  /** The history once a handler has worked through these requests. */
  function Looped(an: Analyzer, history: seq<Event>, session: string, actions: seq<Action>, answers: nat -> Answer)
    : seq<Event>
  {
    Run(an, history, LoopStretches(an, history, session, actions, answers))
  }

  lemma NothingLooped(an: Analyzer, history: seq<Event>, session: string, answers: nat -> Answer)
    ensures Looped(an, history, session, [], answers) == history
    ensures Undisturbed(an, history, [], session)
  {
  }

  lemma LoopedPush(an: Analyzer, history: seq<Event>, session: string, actions: seq<Action>, a: Action,
                   answers: nat -> Answer)
    ensures var now := Looped(an, history, session, actions, answers);
      Looped(an, history, session, actions + [a], answers) ==
      Run(an, now, ActionStretches(an, now, session, a, answers(|actions|)))
  {
    hide Run, ActionStretches;
    assert (actions + [a])[..|actions|] == actions;
    var before := LoopStretches(an, history, session, actions, answers);
    RunConcat(an, history, before, ActionStretches(an, Run(an, history, before), session, a, answers(|actions|)));
  }

  /** The history that the handler of these requests finds when it checks the `k`-th. */
  function Before(an: Analyzer, start: seq<Event>, session: string, actions: seq<Action>, answers: nat -> Answer,
                  k: nat): seq<Event>
    requires k <= |actions|
  {
    Looped(an, start, session, actions[..k], answers)
  }

  /** Handling this request fails neither on its title nor on its arguments. */
  predicate Completes(an: Analyzer, before: seq<Event>, session: string, a: Action, outcome: Outcome) {
    AllowedBy(an, before, session, a) || (Askable(a) && !Unreadable(a, outcome))
  }

  /** These are the events of the requests from `from` on, each checked in its turn. */
  ghost predicate InTurn(an: Analyzer, start: seq<Event>, session: string, actions: seq<Action>, answers: nat -> Answer,
                         from: nat, events: seq<Event>)
  {
    && from + |events| <= |actions|
    && forall k: nat :: k < |events| ==>
         EventOf(an, Before(an, start, session, actions, answers, from + k), session, actions[from + k],
                 answers(from + k)) == Some(events[k])
  }

  ghost predicate AllComplete(an: Analyzer, start: seq<Event>, session: string, actions: seq<Action>,
                              answers: nat -> Answer, from: nat, to: nat)
  {
    && to <= |actions|
    && forall k: nat :: from <= k < to ==>
         Completes(an, Before(an, start, session, actions, answers, k), session, actions[k], answers(k).outcome)
  }

  /** The request was the last to be handled, and handling it failed. */
  ghost predicate FailsLast(an: Analyzer, start: seq<Event>, session: string, actions: seq<Action>,
                            answers: nat -> Answer, handled: nat)
  {
    0 < handled <= |actions| && var k := handled - 1;
    !Completes(an, Before(an, start, session, actions, answers, k), session, actions[k], answers(k).outcome)
  }

  lemma BeforeExtends(an: Analyzer, start: seq<Event>, session: string, actions: seq<Action>, more: seq<Action>,
                      answers: nat -> Answer, k: nat)
    requires k <= |actions| && actions <= more
    ensures Before(an, start, session, more, answers, k) == Before(an, start, session, actions, answers, k)
  {
    assert more[..k] == actions[..k];
  }

  lemma EventCompletes(an: Analyzer, before: seq<Event>, session: string, a: Action, answer: Answer)
    ensures var ev := EventOf(an, before, session, a, answer);
      Completes(an, before, session, a, answer.outcome) <==>
      ev.Some? && !(ev.value.Asked? && Unreadable(a, answer.outcome))
    ensures !Completes(an, before, session, a, answer.outcome) ==> a.args.NotADict?
  {
  }

  /** One more request handled in its turn. */
  lemma InTurnPush(an: Analyzer, start: seq<Event>, session: string, actions: seq<Action>, answers: nat -> Answer,
                   from: nat, j: nat, events: seq<Event>, ev: Option<Event>)
    requires from + j < |actions| && |events| == j && InTurn(an, start, session, actions, answers, from, events)
    requires var now := Looped(an, start, session, actions[..from + j], answers);
      ev == EventOf(an, now, session, actions[from + j], answers(from + j))
    ensures ev.Some? ==> InTurn(an, start, session, actions, answers, from, events + [ev.value])
    ensures AllComplete(an, start, session, actions, answers, from, from + j) ==>
      var now := Looped(an, start, session, actions[..from + j], answers);
      if Completes(an, now, session, actions[from + j], answers(from + j).outcome)
      then AllComplete(an, start, session, actions, answers, from, from + j + 1)
      else FailsLast(an, start, session, actions, answers, from + j + 1)
  {
    hide EventOf, Completes, Looped;
  }

  /** The events of further requests come after. */
  lemma InTurnConcat(an: Analyzer, start: seq<Event>, session: string, actions: seq<Action>, all: seq<Action>,
                     answers: nat -> Answer, e1: seq<Event>, e2: seq<Event>, handled: nat)
    requires actions <= all && InTurn(an, start, session, all, answers, 0, e1)
    requires InTurn(an, start, session, actions, answers, |e1|, e2)
    ensures InTurn(an, start, session, all, answers, 0, e1 + e2)
    ensures AllComplete(an, start, session, all, answers, 0, |e1|)
         && AllComplete(an, start, session, actions, answers, |e1|, |actions|)
        ==> AllComplete(an, start, session, all, answers, 0, |actions|)
    ensures FailsLast(an, start, session, actions, answers, handled)
        ==> FailsLast(an, start, session, all, answers, handled)
  {
    hide Completes, EventOf, Before;
    forall k: nat | k <= |actions|
      ensures Before(an, start, session, all, answers, k) == Before(an, start, session, actions, answers, k)
    {
      BeforeExtends(an, start, session, actions, all, answers, k);
    }
    forall k: nat | k < |e1 + e2|
      ensures EventOf(an, Before(an, start, session, all, answers, k), session, all[k], answers(k))
           == Some((e1 + e2)[k])
    {
      if k >= |e1| { assert e2[k - |e1|] == (e1 + e2)[k]; } else { assert e1[0 + k] == (e1 + e2)[k]; }
    }
  }

  /** What the decision for a request tells the graph. */
  lemma DecisionTells(an: Analyzer, before: seq<Event>, session: string, a: Action, answer: Answer)
    requires Completes(an, before, session, a, answer.outcome)
    ensures var ev := EventOf(an, before, session, a, answer);
      ev.Some? && var d := DecisionOf(ev.value);
      if AllowedBy(an, before, session, a) then d.kind == "approve" && !d.feedback
      else match answer.outcome
        case Dismissed => d.kind == "reject" && !d.feedback
        case Selected(id) =>
          && d.kind == (if id == "approve_always" then "approve" else id)
          && (d.feedback <==> id == "reject" && a.name == "write_todos")
  {
    hide AllowedBy;
  }

  // ---- One handler at a time ----

  lemma {:induction false} UndisturbedConcat(an: Analyzer, history: seq<Event>, xs: seq<Stretch>, ys: seq<Stretch>,
                                             session: string)
    requires Undisturbed(an, history, xs, session) && Undisturbed(an, Run(an, history, xs), ys, session)
    ensures Undisturbed(an, history, xs + ys, session)
    decreases |ys|
  {
    hide Run, Clearing;
    if ys == [] {
      assert xs + [] == xs;
    } else {
      var n := |ys| - 1;
      UndisturbedConcat(an, history, xs, ys[..n], session);
      RunConcat(an, history, xs, ys[..n]);
      assert (xs + ys)[..|xs + ys| - 1] == xs + ys[..n];
    }
  }

  /** Stretches of other sessions neither disturb this one nor move its standing. */
  lemma {:induction false} ElsewhereIsUndisturbed(an: Analyzer, history: seq<Event>, xs: seq<Stretch>, session: string)
    requires Elsewhere(xs, session)
    ensures Undisturbed(an, history, xs, session)
    ensures StandingOf(Run(an, history, xs), session) == StandingOf(history, session)
  {
    hide AllowedBy, StandingOf;
    if xs != [] {
      var n := |xs| - 1;
      var before := Run(an, history, xs[..n]);
      assert forall k :: 0 <= k < n ==> xs[..n][k] == xs[k];
      ElsewhereIsUndisturbed(an, history, xs[..n], session);
      match xs[n]
      case Check(s, a) => StandingPush(before, Unasked(s, a), session);
      case Reply(s, a, outcome) => StandingPush(before, Asked(s, a, outcome), session);
      case Clear(s) => StandingPush(before, Cleared(s), session);
    }
  }

  lemma OneUndisturbed(an: Analyzer, history: seq<Event>, x: Stretch)
    requires x.Clear? <==> Clearing(history, x.session)
    ensures Undisturbed(an, history, [x], x.session)
  {
    hide Clearing;
    assert [x][..0] == [];
  }

  /** A request of a session is handled undisturbed when the others leave its session alone. */
  lemma ActionIsUndisturbed(an: Analyzer, history: seq<Event>, session: string, a: Action, answer: Answer)
    requires Leaves(answer, session) && !Clearing(history, session)
    ensures var xs := ActionStretches(an, history, session, a, answer);
      Undisturbed(an, history, xs, session) && !Clearing(Run(an, history, xs), session)
  {
    hide AllowedBy, StandingOf, Run, Undisturbed, Elsewhere;
    var check := Check(session, a);
    OneUndisturbed(an, history, check);
    RunOne(an, history, check);
    if AllowedBy(an, history, session, a) {
      StandingPush(history, Unasked(session, a), session);
    } else if Askable(a) {
      var reply := Reply(session, a, answer.outcome);
      var asked := Run(an, history, answer.asking);
      var replied := asked + [Asked(session, a, answer.outcome)];
      ElsewhereIsUndisturbed(an, history, answer.asking, session);
      UndisturbedConcat(an, history, [check], answer.asking, session);
      RunConcat(an, history, [check], answer.asking);
      OneUndisturbed(an, asked, reply);
      UndisturbedConcat(an, history, [check] + answer.asking, [reply], session);
      RunConcat(an, history, [check] + answer.asking, [reply]);
      RunOne(an, asked, reply);
      StandingPush(asked, Asked(session, a, answer.outcome), session);
      var first := [check] + answer.asking + [reply];
      if PlanUpdate(a) && Refusal(answer.outcome) {
        ClearingIsUndisturbed(an, replied, session, answer.clearing);
        UndisturbedConcat(an, history, first, answer.clearing + [Clear(session)], session);
        RunConcat(an, history, first, answer.clearing + [Clear(session)]);
      } else {
        assert first + [] == first;
      }
    }
  }

  lemma ClearingIsUndisturbed(an: Analyzer, history: seq<Event>, session: string, others: seq<Stretch>)
    requires Elsewhere(others, session) && Clearing(history, session)
    ensures var xs := others + [Clear(session)];
      Undisturbed(an, history, xs, session) && !Clearing(Run(an, history, xs), session)
  {
    hide StandingOf, Run, Undisturbed, Elsewhere;
    var now := Run(an, history, others);
    ElsewhereIsUndisturbed(an, history, others, session);
    OneUndisturbed(an, now, Clear(session));
    UndisturbedConcat(an, history, others, [Clear(session)], session);
    RunConcat(an, history, others, [Clear(session)]);
    RunOne(an, now, Clear(session));
    StandingPush(now, Cleared(session), session);
  }

  /** One handler of a session at a time: however those of other sessions run in between, all
      its requests are handled undisturbed. */
  lemma {:induction false} OneHandlerIsUndisturbed(an: Analyzer, history: seq<Event>, session: string,
                                                   actions: seq<Action>, answers: nat -> Answer)
    requires (forall n: nat :: Leaves(answers(n), session)) && !Clearing(history, session)
    ensures Undisturbed(an, history, LoopStretches(an, history, session, actions, answers), session)
    ensures !Clearing(Looped(an, history, session, actions, answers), session)
  {
    hide Run, Undisturbed, Leaves, Clearing, ActionStretches;
    if actions == [] {
      NothingLooped(an, history, session, answers);
    } else {
      var n := |actions| - 1;
      OneHandlerIsUndisturbed(an, history, session, actions[..n], answers);
      var before := LoopStretches(an, history, session, actions[..n], answers);
      var now := Run(an, history, before);
      ActionIsUndisturbed(an, now, session, actions[n], answers(n));
      UndisturbedConcat(an, history, before, ActionStretches(an, now, session, actions[n], answers(n)), session);
      RunConcat(an, history, before, ActionStretches(an, now, session, actions[n], answers(n)));
    }
  }
}
