// The approval chain of planning items, and the Finance entry point on top of it.
module PlanningApproval {
  import opened Wrappers
  import opened Approval
  import opened ApprovalRuns
  import Text

  /** The chain createPlanningInspection configures. */
  function PlanningChain(): Config {
    Config(
      PlanningItem,
      [Stage(Manager, "Department Manager", None, None),
       Stage(Finance, "Finance Review", Some(Manager), Some(Manager)),
       Stage(Gm, "GM Review", Some(Manager), None),
       Stage(ExecutiveDirector, "Executive Director Approval", Some(Gm), None)],
      ConfiguredRole)
  }

  /** A new inspection plan stands at Finance, submitted by its Department Manager. */
  function Created(manager: string, comment: string): State {
    State(1, Open, SentToFinance, [Entry(manager, Manager, Submitted, comment)], None)
  }

  lemma PlanningTargets(i: int)
    requires 0 <= i < 4
    ensures ReturnTarget(PlanningChain(), i) == (if i == 3 then 2 else 0)
    ensures RefusalTarget(PlanningChain(), i) == 0
  {
    var chain := PlanningChain().chain;
    assert chain[0].role == Manager && chain[1].role == Finance && chain[2].role == Gm;
    assert StageIndex(chain, Manager, 0) == 0;
    assert StageIndex(chain, Gm, 2) == 2;
    assert StageIndex(chain, Gm, 1) == 2;
    assert StageIndex(chain, Gm, 0) == 2;
  }

  lemma PlanningChainIsOrderly()
    ensures DistinctRoles(PlanningChain()) && TurnsBack(PlanningChain())
    ensures var chain := PlanningChain().chain;
            && |chain| == 4 && PlanningChain().kind == PlanningItem && PlanningChain().policy == ConfiguredRole
            && chain[0].title == "Department Manager" && chain[0].role == Manager
            && chain[1].title == "Finance Review" && chain[1].role == Finance
            && chain[2].title == "GM Review" && chain[2].role == Gm
            && chain[3].title == "Executive Director Approval" && chain[3].role == ExecutiveDirector
  {
    forall i | 0 <= i < 4
      ensures ReturnTarget(PlanningChain(), i) <= i && RefusalTarget(PlanningChain(), i) <= i
    {
      PlanningTargets(i);
    }
  }

  predicate StandsFor(history: seq<Entry>, role: Role) {
    LastBy(history, role).Some? && IsAdvance(LastBy(history, role).value)
  }

  /** Finance, the General Manager and the Executive Director all stand approved in a history. */
  predicate FullyApproved(history: seq<Entry>) {
    StandsFor(history, Finance) && StandsFor(history, Gm) && StandsFor(history, ExecutiveDirector)
  }

  lemma ApprovedIsFullyApproved(s: State)
    requires Standing(PlanningChain(), s) && s.outcome == Approved
    ensures FullyApproved(s.history) && StandsFor(s.history, Manager)
  {
    hide LastBy;
    var c := PlanningChain();
    assert StandsAt(c, s, 0) && StandsAt(c, s, 1) && StandsAt(c, s, 2) && StandsAt(c, s, 3);
  }

  /** On every run from creation, an approved plan has standing Finance, GM and Executive Director approvals. */
  lemma ApprovedPlanStands(manager: string, comment: string, inputs: seq<Input>)
    requires After(PlanningChain(), Created(manager, comment), inputs).outcome == Approved
    ensures FullyApproved(After(PlanningChain(), Created(manager, comment), inputs).history)
  {
    var s := Created(manager, comment);
    CreatedStands(manager, comment);
    PlanningChainIsOrderly();
    ApprovalsStand(PlanningChain(), s, inputs);
    ApprovedIsFullyApproved(After(PlanningChain(), s, inputs));
  }

  /** The status a reader expects: the outcome once there is one, otherwise whose turn it is. */
  function Shown(index: int, outcome: Outcome): Status {
    match outcome
    case Approved => PlanApproved
    case Rejected => PlanRejected
    case Open =>
      if index == 0 then ReturnedToDepartmentManager
      else if index == 1 then SentToFinance
      else if index == 2 then UnderGmReview
      else PendingEdApproval
  }

  lemma DecisionShows(s: State, input: Input)
    requires InRange(PlanningChain(), s) && Decide(PlanningChain(), s, input).Ok?
    ensures var t := Decide(PlanningChain(), s, input).state;
            InRange(PlanningChain(), t) && t.status == Shown(t.index, t.outcome)
  {
    hide Decide, ReturnTarget, RefusalTarget;
    DecisionShape(PlanningChain(), s, input);
    DecisionIsReplayed(PlanningChain(), s, input);
  }

  /** On every run from creation the stored status is the one its index and outcome show, and tells them apart. */
  lemma {:induction false} StatusIsShown(manager: string, comment: string, inputs: seq<Input>)
    ensures var t := After(PlanningChain(), Created(manager, comment), inputs);
            && InRange(PlanningChain(), t) && t.status == Shown(t.index, t.outcome)
            && (t.status == PlanApproved <==> t.outcome == Approved)
            && (t.outcome == Open ==> forall i: int :: 0 <= i < 4 && Shown(i, Open) == t.status ==> i == t.index)
  {
    if inputs != [] {
      hide Decide;
      StatusIsShown(manager, comment, inputs[..|inputs| - 1]);
      var before := After(PlanningChain(), Created(manager, comment), inputs[..|inputs| - 1]);
      if Decide(PlanningChain(), before, inputs[|inputs| - 1]).Ok? {
        DecisionShows(before, inputs[|inputs| - 1]);
      }
    }
  }

  lemma CreatedStands(manager: string, comment: string)
    ensures Standing(PlanningChain(), Created(manager, comment)) && InRange(PlanningChain(), Created(manager, comment))
  {
    assert LastBy(Created(manager, comment).history, Manager) == Some(Submitted);
  }

  /** Every approved plan can still be reopened: a return by its last approver sends it back to the General Manager. */
  lemma ApprovedPlanCanBeReopened(s: State)
    requires Standing(PlanningChain(), s) && s.outcome == Approved
    ensures var r := Decide(PlanningChain(), s, Input(Return, Actor(ExecutiveDirector, "E"), "", "x"));
            r.Ok? && r.state.outcome == Open && r.state.index == 2 && r.state.status == UnderGmReview
  {
    hide LastBy;
    PlanningTargets(3);
    TrimOfLetter();
  }

  lemma TrimOfLetter()
    ensures Text.Trim("x") == "x"
  {
  }

  // ---------------------------------------------------------------- Finance

  datatype Budget = Budget(currency: string, requested: int, lines: seq<int>)

  function Total(lines: seq<int>): int {
    if lines == [] then 0 else Total(lines[..|lines| - 1]) + lines[|lines| - 1]
  }

  /** validatePlanningBudget, for numeric amounts. */
  predicate ValidBudget(budget: Option<Budget>) {
    && budget.Some?
    && budget.value.currency != "" && budget.value.lines != []
    && Total(budget.value.lines) == budget.value.requested
  }

  datatype FinanceChoice = ApproveBudget | ReturnBudget | OtherChoice

  /** applyFinancePlanningDecision; None when it refuses and leaves the item alone. */
  function FinanceDecide(s: State, budget: Option<Budget>, choice: FinanceChoice, actor: Actor, text: string): Option<State> {
    var comment := Text.Trim(text);
    if !ValidBudget(budget) || choice == OtherChoice then None
    else if choice == ReturnBudget && comment == "" then None
    else
      var decision := if choice == ApproveBudget then Approve else FinanceNotApproved;
      match Decide(PlanningChain(), s, Input(decision, actor, comment, comment))
      case Ok(t) => Some(t)
      case Failed(_) => None
  }

  datatype Act =
    | Generic(input: Input)
    | ByFinance(budget: Option<Budget>, choice: FinanceChoice, actor: Actor, text: string)

  function ApplyAct(s: State, m: Act): State {
    match m
    case Generic(input) => (match Decide(PlanningChain(), s, input) case Ok(t) => t case Failed(_) => s)
    case ByFinance(budget, choice, actor, text) =>
      match FinanceDecide(s, budget, choice, actor, text) case Some(t) => t case None => s
  }

  function AfterActs(s: State, acts: seq<Act>): State {
    if acts == [] then s else ApplyAct(AfterActs(s, acts[..|acts| - 1]), acts[|acts| - 1])
  }

  predicate IsFinanceApproval(f: Option<FinanceReview>) {
    f.Some? && f.value.decision != VNotApproved
  }

  /** Past Finance, the recorded review is an approval. */
  predicate Reviewed(s: State) {
    s.index >= 2 ==> IsFinanceApproval(s.finance)
  }

  /** Any accepted decision keeps that exactly when it is not a bare forward by Finance without an earlier approval. */
  lemma ReviewedIff(s: State, t: State, input: Input)
    requires InRange(PlanningChain(), s) && Reviewed(s) && Decide(PlanningChain(), s, input) == Ok(t)
    ensures Reviewed(t) <==> !(s.index == 1 && input.decision == Forward && !IsFinanceApproval(s.finance))
  {
    hide Text.Trim, StatusAfter;
    PlanningTargets(s.index);
  }

  /** When Finance acts only through its own entry point, a plan past Finance carries its approval. */
  lemma {:induction false} FinanceReviewStands(manager: string, comment: string, acts: seq<Act>)
    requires forall i :: 0 <= i < |acts| && acts[i].Generic? ==> acts[i].input.actor.role != Finance
    ensures var t := AfterActs(Created(manager, comment), acts);
            Reviewed(t) && InRange(PlanningChain(), t)
  {
    if acts != [] {
      hide Decide, PlanningChain;
      var shorter, m := acts[..|acts| - 1], acts[|acts| - 1];
      FinanceReviewStands(manager, comment, shorter);
      ActKeepsReview(AfterActs(Created(manager, comment), shorter), m);
    }
  }

  lemma ActKeepsReview(s: State, m: Act)
    requires Reviewed(s) && InRange(PlanningChain(), s)
    requires m.Generic? ==> m.input.actor.role != Finance
    ensures Reviewed(ApplyAct(s, m)) && InRange(PlanningChain(), ApplyAct(s, m))
  {
    hide Decide, Text.Trim, ValidBudget;
    var t := ApplyAct(s, m);
    if t != s {
      var comment := if m.ByFinance? then Text.Trim(m.text) else "";
      var input := if m.Generic? then m.input
                   else Input(if m.choice == ApproveBudget then Approve else FinanceNotApproved, m.actor, comment, comment);
      assert Decide(PlanningChain(), s, input) == Ok(t);
      DecisionIsReplayed(PlanningChain(), s, input);
      DecisionShape(PlanningChain(), s, input);
      ReviewedIff(s, t, input);
    }
  }
}
