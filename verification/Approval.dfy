// The reusable approval chain: decisions on a record, the history they leave,
// and what the history says about the record.
module Approval {
  import opened Wrappers
  import Text

  datatype Role = NoRole | Manager | Finance | Gm | ExecutiveDirector | LeadInspector | OtherRole(name: string)

  datatype Stage = Stage(role: Role, title: string, returnTo: Option<Role>, notApprovedReturnTo: Option<Role>)

  datatype Kind = PlanningItem | Checklist | Report

  datatype Policy = ConfiguredRole | PreviousStage | Origin

  /** The configured part of a record. */
  datatype Config = Config(kind: Kind, chain: seq<Stage>, policy: Policy)

  datatype Outcome = Open | Approved | Rejected

  datatype Action =
    Submitted | Forwarded | ApprovedStage | ApprovedWithAdjustment | ReturnedBack | RejectedHere | FinanceRefused

  datatype Entry = Entry(actor: string, role: Role, action: Action, comment: string)

  datatype Verdict = VApproved | VApprovedWithAdjustment | VNotApproved

  datatype FinanceReview = FinanceReview(decision: Verdict, reviewer: string, text: string)

  datatype Status =
    | Draft | UnderGmReview | ReturnedToDepartmentManager | SentToFinance | PendingEdApproval
    | PlanApproved | PlanRejected
    | ChecklistUnderReview | ChecklistReturned | ChecklistApproved | ChecklistRejected
    | ReleasedToServiceProvider | ReturnedToLead | ReturnedToDm | SubmittedToDm | SubmittedToDmFinal
    | ReturnedToGm | SubmittedToGm | SubmittedToEd | FinalReportGenerated | ReportRejected
    | OtherStatus(name: string)

  /** The changing part of a record. */
  datatype State = State(
    index: int,
    outcome: Outcome,
    status: Status,
    history: seq<Entry>,
    finance: Option<FinanceReview>)

  datatype Decision = Return | Reject | FinanceNotApproved | ApproveWithAdjustment | Approve | Forward | Unsupported

  datatype Actor = Actor(role: Role, name: string)

  datatype Input = Input(decision: Decision, actor: Actor, comment: string, reason: string)

  datatype Error = NoCurrentStage | OwnerRequired | ReasonRequired | NotAtFinanceReview | UnsupportedDecision

  datatype Result = Ok(state: State) | Failed(error: Error)

  // ---------------------------------------------------------------- reading the chain

  function StageAt(c: Config, index: int): Option<Stage> {
    if 0 <= index < |c.chain| then Some(c.chain[index]) else None
  }

  /** approvalStageIndex: the first stage of a role, or -1. */
  function StageIndex(chain: seq<Stage>, role: Role, from: nat := 0): int
    requires from <= |chain|
    decreases |chain| - from
  {
    if from == |chain| then -1
    else if chain[from].role == role then from
    else StageIndex(chain, role, from + 1)
  }

  function Back(index: int): int {
    if index - 1 > 0 then index - 1 else 0
  }

  /** approvalReturnIndex for the role a decision names or the stage is configured with. */
  function ReturnIndex(c: Config, index: int, role: Option<Role>): int {
    match role
    case None =>
      if c.policy == PreviousStage then Back(index)
      else if c.policy == Origin then 0
      else Back(index)
    case Some(r) =>
      var i := StageIndex(c.chain, r);
      if i < 0 then Back(index) else i
  }

  /** Where a plain return from a stage goes. */
  function ReturnTarget(c: Config, index: int): int {
    match StageAt(c, index)
    case Some(stage) => ReturnIndex(c, index, stage.returnTo)
    case None => ReturnIndex(c, index, None)
  }

  /** Where a finance refusal goes. */
  function RefusalTarget(c: Config, index: int): int {
    match StageAt(c, index)
    case Some(stage) => ReturnIndex(c, index, Some(match stage.notApprovedReturnTo case Some(r) => r case None => Manager))
    case None => ReturnIndex(c, index, Some(Manager))
  }

  /** setApprovalStatusFromChain, after the given history action. */
  function StatusAfter(c: Config, index: int, outcome: Outcome, action: Action, status: Status): Status {
    var stage := StageAt(c, index);
    var role := if outcome == Open && stage.Some? then stage.value.role else NoRole;
    var title := if stage.Some? then stage.value.title else "";
    match c.kind
    case Checklist =>
      if outcome == Approved then ChecklistApproved
      else if outcome == Rejected then ChecklistRejected
      else if role == Manager then ChecklistReturned
      else if role == Gm then ChecklistUnderReview
      else status
    case Report =>
      if outcome == Approved then FinalReportGenerated
      else if outcome == Rejected then ReportRejected
      else if role == LeadInspector then
        if Text.Mentions(title, "finalization") && action != ReturnedBack then ReleasedToServiceProvider else ReturnedToLead
      else if role == Manager then
        if action == ReturnedBack then ReturnedToDm
        else if Text.Mentions(title, "final approval") then SubmittedToDmFinal
        else SubmittedToDm
      else if role == Gm then if action == ReturnedBack then ReturnedToGm else SubmittedToGm
      else if role == ExecutiveDirector then SubmittedToEd
      else status
    case PlanningItem =>
      if outcome == Approved then PlanApproved
      else if outcome == Rejected then PlanRejected
      else if role == Manager then ReturnedToDepartmentManager
      else if role == Finance then SentToFinance
      else if role == Gm then UnderGmReview
      else if role == ExecutiveDirector then PendingEdApproval
      else status
  }

  // ---------------------------------------------------------------- decisions

  function Logged(s: State, actor: Actor, action: Action, comment: string): State {
    var name := if actor.name == "" then "Unknown actor" else actor.name;
    s.(history := s.history + [Entry(name, actor.role, action, Text.Trim(comment))])
  }

  /** Moves the record, logs the action and recomputes the status. */
  function Settled(c: Config, s: State, index: int, outcome: Outcome, actor: Actor, action: Action, comment: string): State {
    var moved := Logged(s.(index := index, outcome := outcome), actor, action, comment);
    moved.(status := StatusAfter(c, index, outcome, action, s.status))
  }

  function Advanced(c: Config, s: State, actor: Actor, comment: string, action: Action): State {
    if s.index + 1 >= |c.chain| then Settled(c, s, s.index, Approved, actor, ApprovedStage, comment)
    else Settled(c, s, s.index + 1, s.outcome, actor, action, comment)
  }

  /** applyApprovalDecision */
  function Decide(c: Config, s: State, input: Input): Result {
    var comment := Text.Trim(input.comment);
    var reason := Text.Trim(if input.reason != "" then input.reason else input.comment);
    match StageAt(c, s.index)
    case None => Failed(NoCurrentStage)
    case Some(stage) =>
      if input.actor.role != stage.role then Failed(OwnerRequired)
      else match input.decision
        case Return =>
          if reason == "" then Failed(ReasonRequired)
          else Ok(Settled(c, s, ReturnTarget(c, s.index), Open, input.actor, ReturnedBack, reason))
        case Reject =>
          if reason == "" then Failed(ReasonRequired)
          else Ok(Settled(c, s, s.index, Rejected, input.actor, RejectedHere, reason))
        case FinanceNotApproved =>
          if reason == "" then Failed(ReasonRequired)
          else if stage.role != Finance then Failed(NotAtFinanceReview)
          else
            var reviewed := s.(finance := Some(FinanceReview(VNotApproved, input.actor.name, reason)));
            Ok(Settled(c, reviewed, RefusalTarget(c, s.index), Open, input.actor, FinanceRefused, reason))
        case ApproveWithAdjustment =>
          if stage.role != Finance then Failed(NotAtFinanceReview)
          else
            var reviewed := s.(finance := Some(FinanceReview(VApprovedWithAdjustment, input.actor.name, comment)));
            Ok(Advanced(c, reviewed, input.actor, comment, Action.ApprovedWithAdjustment))
        case Approve =>
          var reviewed := if stage.role == Finance then s.(finance := Some(FinanceReview(VApproved, input.actor.name, comment))) else s;
          Ok(Advanced(c, reviewed, input.actor, comment, if stage.role == Manager then Submitted else ApprovedStage))
        case Forward =>
          Ok(Advanced(c, s, input.actor, comment, if stage.role == Manager then Submitted else Forwarded))
        case Unsupported => Failed(UnsupportedDecision)
  }

  /** The record as the application keeps it, updated in place. */
  class ApprovalRecord {
    const config: Config
    var currentIndex: int
    var outcome: Outcome
    var status: Status
    var history: seq<Entry>
    var financeReview: Option<FinanceReview>

    constructor (c: Config, s: State)
      ensures config == c && Value() == s
    {
      config := c;
      currentIndex, outcome, status, history, financeReview := s.index, s.outcome, s.status, s.history, s.finance;
    }

    function Value(): State
      reads this
    {
      State(currentIndex, outcome, status, history, financeReview)
    }

    method AppendHistory(actor: Actor, action: Action, comment: string)
      modifies this`history
      ensures Value() == Logged(old(Value()), actor, action, comment)
    {
      var name := if actor.name == "" then "Unknown actor" else actor.name;
      history := history + [Entry(name, actor.role, action, Text.Trim(comment))];
    }

    method SetStatusFromChain(action: Action)
      modifies this`status
      ensures Value() == old(Value()).(status := StatusAfter(config, currentIndex, outcome, action, old(status)))
    {
      status := StatusAfter(config, currentIndex, outcome, action, status);
    }

    method AdvanceApproval(actor: Actor, comment: string, action: Action)
      modifies this
      ensures Value() == Advanced(config, old(Value()), actor, comment, action)
    {
      var nextIndex := currentIndex + 1;
      if nextIndex >= |config.chain| {
        outcome := Approved;
        AppendHistory(actor, ApprovedStage, comment);
        SetStatusFromChain(ApprovedStage);
        return;
      }
      currentIndex := nextIndex;
      AppendHistory(actor, action, comment);
      SetStatusFromChain(action);
    }

    method MoveBack(target: int, actor: Actor, action: Action, reason: string)
      modifies this
      ensures Value() == Settled(config, old(Value()), target, Open, actor, action, reason)
    {
      currentIndex := target;
      outcome := Open;
      AppendHistory(actor, action, reason);
      SetStatusFromChain(action);
    }

    method ApplyDecision(input: Input) returns (error: Option<Error>)
      modifies this
      ensures match error
              case None => Decide(config, old(Value()), input) == Ok(Value())
              case Some(e) => Decide(config, old(Value()), input) == Failed(e) && Value() == old(Value())
    {
      hide StatusAfter, Text.Trim;
      var comment := Text.Trim(input.comment);
      var reason := Text.Trim(if input.reason != "" then input.reason else input.comment);
      var stage := StageAt(config, currentIndex);
      if stage == None {
        return Some(NoCurrentStage);
      }
      if input.actor.role != stage.value.role {
        return Some(OwnerRequired);
      }
      match input.decision {
        case Return =>
          if reason == "" {
            return Some(ReasonRequired);
          }
          MoveBack(ReturnTarget(config, currentIndex), input.actor, ReturnedBack, reason);
        case Reject =>
          if reason == "" {
            return Some(ReasonRequired);
          }
          outcome := Rejected;
          AppendHistory(input.actor, RejectedHere, reason);
          SetStatusFromChain(RejectedHere);
        case FinanceNotApproved =>
          if reason == "" {
            return Some(ReasonRequired);
          }
          if stage.value.role != Finance {
            return Some(NotAtFinanceReview);
          }
          financeReview := Some(FinanceReview(VNotApproved, input.actor.name, reason));
          MoveBack(RefusalTarget(config, currentIndex), input.actor, FinanceRefused, reason);
        case ApproveWithAdjustment =>
          if stage.value.role != Finance {
            return Some(NotAtFinanceReview);
          }
          financeReview := Some(FinanceReview(VApprovedWithAdjustment, input.actor.name, comment));
          AdvanceApproval(input.actor, comment, Action.ApprovedWithAdjustment);
        case Approve =>
          if stage.value.role == Finance {
            financeReview := Some(FinanceReview(VApproved, input.actor.name, comment));
          }
          AdvanceApproval(input.actor, comment, if stage.value.role == Manager then Submitted else ApprovedStage);
        case Forward =>
          AdvanceApproval(input.actor, comment, if stage.value.role == Manager then Submitted else Forwarded);
        case Unsupported =>
          return Some(UnsupportedDecision);
      }
      error := None;
    }
  }
}
