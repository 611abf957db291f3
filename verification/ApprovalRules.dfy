// Approval decisions told rule by rule: when one is refused and why, what it
// records, where a return goes, and which status a reader is shown.
module ApprovalRules {
  import opened Wrappers
  import opened Approval
  import opened ApprovalRuns
  import Text

  // ---------------------------------------------------------------- refusals

  predicate HasText(s: string) {
    !Text.IsBlank(s)
  }

  predicate NeedsReason(d: Decision) {
    d == Return || d == Reject || d == FinanceNotApproved
  }

  predicate NeedsFinance(d: Decision) {
    d == FinanceNotApproved || d == ApproveWithAdjustment
  }

  /** The reason given, or the comment in its place. */
  function ReasonGiven(input: Input): string {
    if input.reason == "" then input.comment else input.reason
  }

  /** The first thing wrong with a requested decision, in the order in which it is looked for. */
  function FirstError(c: Config, s: State, input: Input): Option<Error> {
    if s.index < 0 || s.index >= |c.chain| then Some(NoCurrentStage)
    else if c.chain[s.index].role != input.actor.role then Some(OwnerRequired)
    else if NeedsReason(input.decision) && !HasText(ReasonGiven(input)) then Some(ReasonRequired)
    else if NeedsFinance(input.decision) && c.chain[s.index].role != Finance then Some(NotAtFinanceReview)
    else if input.decision == Unsupported then Some(UnsupportedDecision)
    else None
  }

  lemma RefusedIff(c: Config, s: State, input: Input)
    ensures match FirstError(c, s, input)
            case Some(error) => Decide(c, s, input) == Failed(error)
            case None => Decide(c, s, input).Ok?
  {
    Text.TrimIsEmptyIff(ReasonGiven(input));
    hide Text.Trim, Text.IsBlank, StatusAfter, ReturnIndex;
  }

  // ---------------------------------------------------------------- what is recorded

  /** What a decision is logged as; the last approval of a chain is an approval whatever it was called. */
  function ActionOf(d: Decision, role: Role, last: bool): Action {
    match d
    case Return => ReturnedBack
    case Reject => RejectedHere
    case FinanceNotApproved => FinanceRefused
    case ApproveWithAdjustment => if last then ApprovedStage else Action.ApprovedWithAdjustment
    case _ =>
      if last then ApprovedStage
      else if role == Manager then Submitted
      else if d == Approve then ApprovedStage
      else Forwarded
  }

  /** An accepted decision adds one entry, and Finance's own decisions leave its review. */
  lemma DecisionIsRecorded(c: Config, s: State, input: Input)
    requires InRange(c, s) && Decide(c, s, input).Ok?
    ensures var t := Decide(c, s, input).state;
            var role := c.chain[s.index].role;
            var name := input.actor.name;
            && |t.history| == |s.history| + 1 && t.history[..|s.history|] == s.history
            && t.history[|s.history|] == Entry(
                 if name == "" then "Unknown actor" else name, role,
                 ActionOf(input.decision, role, s.index == |c.chain| - 1),
                 Text.Trim(if NeedsReason(input.decision) then ReasonGiven(input) else input.comment))
            && t.finance == (if role != Finance then s.finance
                             else match input.decision
                               case FinanceNotApproved => Some(FinanceReview(VNotApproved, name, Text.Trim(ReasonGiven(input))))
                               case ApproveWithAdjustment => Some(FinanceReview(VApprovedWithAdjustment, name, Text.Trim(input.comment)))
                               case Approve => Some(FinanceReview(VApproved, name, Text.Trim(input.comment)))
                               case _ => s.finance)
  {
    Text.TrimTwice(input.comment);
    Text.TrimTwice(ReasonGiven(input));
    hide Text.Trim, StatusAfter, ReturnIndex;
  }

  // ---------------------------------------------------------------- where a return goes

  /** The first stage of a role, if the chain has one. */
  predicate IsFirstStage(c: Config, role: Role, i: int) {
    0 <= i < |c.chain| && c.chain[i].role == role && forall j :: 0 <= j < i ==> c.chain[j].role != role
  }

  predicate HasStage(c: Config, role: Role) {
    exists i :: 0 <= i < |c.chain| && c.chain[i].role == role
  }

  lemma {:induction false} StageIndexIsFirst(c: Config, role: Role, from: nat)
    requires from <= |c.chain| && forall j :: 0 <= j < from ==> c.chain[j].role != role
    ensures var i := StageIndex(c.chain, role, from);
            if HasStage(c, role) then IsFirstStage(c, role, i) else i == -1
    decreases |c.chain| - from
  {
    if from < |c.chain| && c.chain[from].role != role {
      StageIndexIsFirst(c, role, from + 1);
    }
  }

  /** One stage back, or the first one. */
  function OneBack(index: int): int {
    if index == 0 then 0 else index - 1
  }

  /** A return goes to the first stage of the configured role; without one, to the origin or one stage back, as the policy says. */
  lemma ReturnGoesTo(c: Config, index: int)
    requires 0 <= index < |c.chain|
    ensures match c.chain[index].returnTo
            case Some(role) => if HasStage(c, role) then IsFirstStage(c, role, ReturnTarget(c, index)) else ReturnTarget(c, index) == OneBack(index)
            case None => ReturnTarget(c, index) == if c.policy == Origin then 0 else OneBack(index)
  {
    match c.chain[index].returnTo
    case Some(role) => StageIndexIsFirst(c, role, 0);
    case None =>
  }

  /** A refusal by Finance goes to the configured role, the Department Manager by default. */
  lemma RefusalGoesTo(c: Config, index: int)
    requires 0 <= index < |c.chain|
    ensures var role := match c.chain[index].notApprovedReturnTo case Some(r) => r case None => Manager;
            if HasStage(c, role) then IsFirstStage(c, role, RefusalTarget(c, index)) else RefusalTarget(c, index) == OneBack(index)
  {
    StageIndexIsFirst(c, match c.chain[index].notApprovedReturnTo case Some(r) => r case None => Manager, 0);
  }

  // ---------------------------------------------------------------- what is shown

  /** The title names the word, in capitals or not. */
  ghost predicate Mentions(title: string, word: string) {
    exists a: string, x: string, b: string :: title == a + x + b && Text.LowerText(x) == word
  }

  /** The status of a checklist after an accepted decision: the outcome, or whose turn it is. */
  lemma ChecklistShows(c: Config, s: State, input: Input)
    requires InRange(c, s) && c.kind == Checklist && Decide(c, s, input).Ok?
    ensures var t := Decide(c, s, input).state;
            && InRange(c, t)
            && var owner := c.chain[t.index].role;
               t.status == (match t.outcome
                            case Approved => ChecklistApproved
                            case Rejected => ChecklistRejected
                            case Open =>
                              if owner == Manager then ChecklistReturned
                              else if owner == Gm then ChecklistUnderReview
                              else s.status)
  {
    hide Decide, ReturnTarget, RefusalTarget;
    DecisionShape(c, s, input);
    DecisionIsReplayed(c, s, input);
  }

  /** The status of a report in the generic chain: the outcome, or whose turn it is and whether it came back. */
  lemma ReportShows(c: Config, s: State, input: Input)
    requires InRange(c, s) && c.kind == Report && Decide(c, s, input).Ok?
    ensures var t := Decide(c, s, input).state;
            && InRange(c, t)
            && var owner, title, back := c.chain[t.index].role, c.chain[t.index].title, input.decision == Return;
               && (t.outcome == Approved ==> t.status == FinalReportGenerated)
               && (t.outcome == Rejected ==> t.status == ReportRejected)
               && (t.outcome == Open && owner == LeadInspector ==>
                     t.status == if !back && Mentions(title, "finalization") then ReleasedToServiceProvider else ReturnedToLead)
               && (t.outcome == Open && owner == Manager ==>
                     t.status == if back then ReturnedToDm
                                 else if Mentions(title, "final approval") then SubmittedToDmFinal else SubmittedToDm)
               && (t.outcome == Open && owner == Gm ==> t.status == if back then ReturnedToGm else SubmittedToGm)
               && (t.outcome == Open && owner == ExecutiveDirector ==> t.status == SubmittedToEd)
               && (t.outcome == Open && owner != LeadInspector && owner != Manager && owner != Gm && owner != ExecutiveDirector ==>
                     t.status == s.status)
  {
    hide Decide, ReturnTarget, RefusalTarget, Text.Mentions;
    DecisionShape(c, s, input);
    DecisionIsReplayed(c, s, input);
    var title := c.chain[Decide(c, s, input).state.index].title;
    Text.MentionsIff(title, "finalization");
    Text.MentionsIff(title, "final approval");
  }
}
