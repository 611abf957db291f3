// Planning told rule by rule: Finance's own entry point, the five preparation
// steps and what the created Audit takes over from the proposal.
module PlanningRules {
  import opened Wrappers
  import Approval
  import opened ApprovalRuns
  import ApprovalRules
  import opened PlanningApproval
  import opened Planning
  import Decimal
  import Text

  predicate HasText(s: string) {
    !Text.IsBlank(s)
  }

  // ---------------------------------------------------------------- Finance

  lemma {:induction false} TotalOfConcat(a: seq<int>, b: seq<int>)
    ensures Total(a + b) == Total(a) + Total(b)
  {
    if b == [] {
      assert a + b == a;
    } else {
      TotalOfConcat(a, b[..|b| - 1]);
      assert (a + b)[..|a + b| - 1] == a + b[..|b| - 1];
    }
  }

  lemma TotalOfOne(x: int)
    ensures Total([x]) == x
  {
    assert [x][..0] == [];
  }

  /**
   * Finance's entry point acts on a budget that adds up, with a reason for a return,
   * and for whoever owns the current stage: only a return tests that it is Finance.
   */
  lemma FinanceActsIff(s: Approval.State, budget: Option<Budget>, choice: FinanceChoice, actor: Approval.Actor, text: string)
    requires InRange(PlanningChain(), s)
    ensures FinanceDecide(s, budget, choice, actor, text).Some? <==>
            && budget.Some? && budget.value.currency != "" && budget.value.lines != []
            && Total(budget.value.lines) == budget.value.requested
            && (choice == ApproveBudget || (choice == ReturnBudget && HasText(text)))
            && actor.role == PlanningChain().chain[s.index].role && (choice == ReturnBudget ==> s.index == 1)
  {
    var comment := Text.Trim(text);
    Text.TrimIsEmptyIff(text);
    Text.TrimIsEmptyIff(comment);
    Text.TrimTwice(text);
    var decision := if choice == ApproveBudget then Approval.Approve else Approval.FinanceNotApproved;
    ApprovalRules.RefusedIff(PlanningChain(), s, Approval.Input(decision, actor, comment, comment));
    hide Approval.Decide, Text.Trim, Text.IsBlank;
    var chain := PlanningChain().chain;
    assert chain[s.index].role == Approval.Finance <==> s.index == 1;
  }

  /** At Finance's turn it sends the plan on to the General Manager, or back to the Department Manager, with the review recorded. */
  lemma FinanceActsSo(s: Approval.State, budget: Option<Budget>, choice: FinanceChoice, actor: Approval.Actor, text: string)
    requires InRange(PlanningChain(), s) && s.index == 1 && FinanceDecide(s, budget, choice, actor, text).Some?
    ensures var t := FinanceDecide(s, budget, choice, actor, text).value;
            && t.finance == Some(Approval.FinanceReview(
                 if choice == ApproveBudget then Approval.VApproved else Approval.VNotApproved, actor.name, Text.Trim(text)))
            && t.index == (if choice == ApproveBudget then 2 else 0)
            && t.outcome == (if choice == ApproveBudget then s.outcome else Approval.Open)
            && t.status == Shown(t.index, t.outcome)
  {
    FinanceActsIff(s, budget, choice, actor, text);
    Text.TrimTwice(text);
    var comment := Text.Trim(text);
    var decision := if choice == ApproveBudget then Approval.Approve else Approval.FinanceNotApproved;
    var input := Approval.Input(decision, actor, comment, comment);
    hide Text.Trim, Approval.Decide, Approval.StatusAfter;
    PlanningTargets(s.index);
    DecisionShape(PlanningChain(), s, input);
    ApprovalRules.DecisionIsRecorded(PlanningChain(), s, input);
    DecisionShows(s, input);
  }

  // ---------------------------------------------------------------- preparation steps

  /** Who may take which step, from which status, with what filled in; a release needs the approved plan. */
  lemma StepIsTakenIff(item: Item, m: Move)
    requires m != CreateAudit && !m.Decide?
    ensures StepItem(item, m).Some? <==>
            match m
            case ReleaseBy(actor) => item.approval.outcome == Approval.Approved && actor.role == Approval.Gm
            case AcceptBy(actor) => actor.role == Approval.Manager && item.prep.status == Released
            case AssignBy(actor, lead, _) => actor.role == Approval.Manager && item.prep.status == Accepted && HasText(lead)
            case ProposeBy(actor, team, startDate, endDate) =>
              && actor.role == Approval.LeadInspector && item.prep.status == LeadAssigned
              && team != [] && startDate != "" && endDate != ""
              && (item.prep.leadUserId == "" || actor.userId == item.prep.leadUserId
                  || (actor.userId == "" && actor.name == item.prep.lead))
            case ConfirmBy(actor) =>
              && actor.role == Approval.Manager
              && (item.prep.status == TeamProposed || (item.prep.status == Ready && item.prep.package.Some?))
            case _ => false
  {
    if m.AssignBy? {
      Text.TrimIsEmptyIff(m.lead);
    }
  }

  /** What the step records, and that everything else stays; confirming a ready item changes nothing. */
  lemma StepRecords(item: Item, m: Move)
    requires m != CreateAudit && !m.Decide? && StepItem(item, m).Some?
    ensures var after := StepItem(item, m).value;
            var p, q := item.prep, after.prep;
            && after.approval == item.approval && after.category == item.category && after.auditId == item.auditId
            && (m.ConfirmBy? && p.status == Ready ==> after == item)
            && (!(m.ConfirmBy? && p.status == Ready) ==>
                  && q.status == (match m
                                  case ReleaseBy(_) => Released
                                  case AcceptBy(_) => Accepted
                                  case AssignBy(_, _, _) => LeadAssigned
                                  case ProposeBy(_, _, _, _) => TeamProposed
                                  case _ => Ready)
                  && |q.history| == |p.history| + 1 && q.history[..|p.history|] == p.history
                  && q.history[|p.history|].action == q.status && q.history[|p.history|].role == m.actor.role
                  && q.history[|p.history|].actor == (if m.actor.name == "" then "Unknown actor" else m.actor.name))
            && q.lead == (if m.AssignBy? then m.lead else p.lead)
            && q.leadUserId == (if m.AssignBy? then m.leadUserId else p.leadUserId)
            && q.team == (if m.ProposeBy? then m.team else p.team)
            && q.startDate == (if m.ProposeBy? then m.startDate else p.startDate)
            && q.endDate == (if m.ProposeBy? then m.endDate else p.endDate)
            && q.package == (if m.ConfirmBy? && p.status != Ready then Some(Package(p.lead, p.team, None)) else p.package)
  {
  }

  // ---------------------------------------------------------------- Audit creation

  /** Creation goes through for a ready item with a package and a category, or with an Audit already. */
  lemma CreatedIff(w: World, id: ItemId)
    requires id in w.items
    ensures var item := w.items[id];
            Materialize(w, id).Some? <==>
            && item.prep.status == Ready
            && ((item.category != NoCategory && item.prep.package.Some?)
                || (item.auditId.Some? && exists a :: a in w.audits && a.id == item.auditId.value))
  {
    var item := w.items[id];
    if i :| 0 <= i < |w.audits| && item.auditId == Some(w.audits[i].id) {
      assert w.audits[i] in w.audits;
    }
    if a :| a in w.audits && item.auditId == Some(a.id) {
      var i :| 0 <= i < |w.audits| && w.audits[i] == a;
    }
  }

  /**
   * A created Audit is the proposal: its Lead, its dates, and a team of the proposed
   * members with the Lead put first only if missing; it is numbered by the counter,
   * and an unannounced inspection's notice is withheld.
   */
  lemma CreationFollowsProposal(w: World, id: ItemId)
    requires id in w.items && Materialize(w, id).Some? && !HasAudit(w, w.items[id])
    ensures var v, p := Materialize(w, id).value, w.items[id].prep;
            && |v.audits| == |w.audits| + 1 && v.audits[..|w.audits|] == w.audits
            && var a := v.audits[|w.audits|];
               && a.id == "AUD-2026-" + Decimal.PadStart(Decimal.Print(w.auditSeq), 3) && v.auditSeq == w.auditSeq + 1
               && a.item == id && a.lead == p.lead && a.startDate == p.startDate && a.endDate == p.endDate
               && (p.lead in p.team ==> a.team == p.team)
               && (p.lead !in p.team ==> |a.team| == |p.team| + 1 && a.team[0] == p.lead && a.team[1..] == p.team)
               && v.teams == w.teams + [a.id] && v.workspaces == w.workspaces + {a.id}
               && |v.coordinations| == |w.coordinations| + 1 && v.coordinations[..|w.coordinations|] == w.coordinations
               && v.coordinations[|w.coordinations|].auditId == a.id && v.coordinations[|w.coordinations|].item == id
               && (v.coordinations[|w.coordinations|].withheld <==> w.items[id].category == AdHoc)
               && v.items[id].auditId == Some(a.id) && v.items[id].approval == w.items[id].approval
               && v.items[id].prep.package.Some? && v.items[id].prep.package.value.auditId == Some(a.id)
               && v.items[id].prep.package.value.lead == p.package.value.lead
               && v.items[id].prep.package.value.team == p.package.value.team
               && v.items[id].prep.(package := p.package) == p
               && (forall other :: other != id && other in w.items ==> other in v.items && v.items[other] == w.items[other])
  {
    hide Decimal.PadStart, Decimal.Print;
  }

  /** With an Audit already there, creation changes nothing. */
  lemma CreationFindsExisting(w: World, id: ItemId)
    requires id in w.items && w.items[id].prep.status == Ready && HasAudit(w, w.items[id])
    ensures Materialize(w, id) == Some(w)
  {
  }

  // ---------------------------------------------------------------- what a ready item holds

  /** A ready item's proposal is complete and its package names it. */
  predicate IsComplete(p: Prep) {
    && (p.status == LeadAssigned || p.status == TeamProposed || p.status == Ready ==> HasText(p.lead))
    && (p.status == TeamProposed || p.status == Ready ==> p.team != [] && p.startDate != "" && p.endDate != "")
    && (p.status == Ready ==> p.package.Some? && p.package.value.lead == p.lead && p.package.value.team == p.team)
  }

  lemma StepKeepsComplete(item: Item, m: Move)
    requires IsComplete(item.prep) && m != CreateAudit && StepItem(item, m).Some?
    ensures IsComplete(StepItem(item, m).value.prep)
  {
    hide HasText, Text.Trim, Approval.Decide, PlanningChain;
    if m.AssignBy? {
      Text.TrimIsEmptyIff(m.lead);
      LeadHasText(m.lead);
    }
  }

  lemma LeadHasText(lead: string)
    requires Text.Trim(lead) != ""
    ensures HasText(lead)
  {
    Text.TrimIsEmptyIff(lead);
  }

  predicate AllComplete(w: World) {
    forall id :: id in w.items ==> IsComplete(w.items[id].prep)
  }

  /** On every run a ready item has a Lead, a team and dates, and its package names that Lead and team. */
  lemma {:induction false} ReadyIsComplete(w: World, moves: seq<(ItemId, Move)>)
    requires AllComplete(w)
    ensures AllComplete(AfterSteps(w, moves))
  {
    if moves != [] {
      hide StepItem, Materialize, AfterRefusal, IsComplete;
      var n := |moves| - 1;
      ReadyIsComplete(w, moves[..n]);
      var v := AfterSteps(w, moves[..n]);
      var (id, m) := moves[n];
      if id in v.items {
        if m == CreateAudit {
          CreationKeepsComplete(v, id);
        } else if StepItem(v.items[id], m).Some? {
          StepKeepsComplete(v.items[id], m);
        }
      }
    }
  }

  lemma CreationKeepsComplete(w: World, id: ItemId)
    requires AllComplete(w) && id in w.items
    ensures AllComplete(Step(w, id, CreateAudit))
  {
  }
}
