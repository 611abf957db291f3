// Release, preparation and Audit creation of approved planning items.
module Planning {
  import opened Wrappers
  import Approval
  import ApprovalRuns
  import PlanningApproval
  import Decimal
  import Text

  type ItemId = nat
  type AuditId = string

  datatype PrepStatus = NotReleased | Released | Accepted | LeadAssigned | TeamProposed | Ready

  datatype PrepEntry = PrepEntry(actor: string, role: Approval.Role, action: PrepStatus)

  /** The package a confirmation generates; its audit id is filled in when the Audit is created. */
  datatype Package = Package(lead: string, team: seq<string>, auditId: Option<AuditId>)

  datatype Prep = Prep(
    status: PrepStatus,
    lead: string,
    leadUserId: string,
    team: seq<string>,
    startDate: string,
    endDate: string,
    package: Option<Package>,
    history: seq<PrepEntry>)

  datatype Category = Routine | AdHoc | NoCategory

  datatype Item = Item(approval: Approval.State, category: Category, prep: Prep, auditId: Option<AuditId>)

  datatype Audit = Audit(id: AuditId, item: ItemId, lead: string, team: seq<string>, startDate: string, endDate: string)

  datatype Coordination = Coordination(auditId: AuditId, item: ItemId, withheld: bool)

  datatype World = World(
    items: map<ItemId, Item>,
    audits: seq<Audit>,
    auditSeq: nat,
    teams: seq<AuditId>,
    workspaces: set<AuditId>,
    coordinations: seq<Coordination>)

  /** Who acts: the name, the role and, for a Lead, the user id if known. */
  datatype Actor = Actor(name: string, role: Approval.Role, userId: string)

  // ---------------------------------------------------------------- preparation steps

  function Noted(p: Prep, actor: Actor, action: PrepStatus): Prep {
    p.(status := action,
       history := p.history + [PrepEntry(if actor.name == "" then "Unknown actor" else actor.name, actor.role, action)])
  }

  /** releasePlanningItem: allowed again and again, whatever the preparation has reached. */
  function Release(item: Item, actor: Actor): Option<Item> {
    if item.approval.outcome != Approval.Approved || actor.role != Approval.Gm then None
    else Some(item.(prep := Noted(item.prep, actor, Released)))
  }

  function Accept(item: Item, actor: Actor): Option<Item> {
    if actor.role != Approval.Manager || item.prep.status != Released then None
    else Some(item.(prep := Noted(item.prep, actor, Accepted)))
  }

  function AssignLead(item: Item, actor: Actor, lead: string, leadUserId: string): Option<Item> {
    if actor.role != Approval.Manager || item.prep.status != Accepted || Text.Trim(lead) == "" then None
    else Some(item.(prep := Noted(item.prep, actor, LeadAssigned).(lead := lead, leadUserId := leadUserId)))
  }

  /** Only the assigned Lead proposes, known by user id or, failing that, by name. */
  predicate IsAssignedLead(p: Prep, actor: Actor) {
    p.leadUserId == "" || (if actor.userId != "" then actor.userId == p.leadUserId else actor.name == p.lead)
  }

  function Propose(item: Item, actor: Actor, team: seq<string>, startDate: string, endDate: string): Option<Item> {
    if actor.role != Approval.LeadInspector || item.prep.status != LeadAssigned || !IsAssignedLead(item.prep, actor)
       || team == [] || startDate == "" || endDate == "" then None
    else
      Some(item.(prep := Noted(item.prep, actor, TeamProposed).(team := team, startDate := startDate, endDate := endDate)))
  }

  /** Confirming an item that is ready already changes nothing. */
  function Confirm(item: Item, actor: Actor): Option<Item> {
    if actor.role != Approval.Manager then None
    else if item.prep.status == Ready && item.prep.package.Some? then Some(item)
    else if item.prep.status != TeamProposed then None
    else Some(item.(prep := Noted(item.prep, actor, Ready).(package := Some(Package(item.prep.lead, item.prep.team, None)))))
  }

  // ---------------------------------------------------------------- Audit creation

  function NewAuditId(n: nat): AuditId {
    "AUD-2026-" + Decimal.PadStart(Decimal.Print(n), 3)
  }

  lemma NewAuditIdsDiffer(m: nat, n: nat)
    requires NewAuditId(m) == NewAuditId(n)
    ensures m == n
  {
    var a, b := Decimal.PadStart(Decimal.Print(m), 3), Decimal.PadStart(Decimal.Print(n), 3);
    assert NewAuditId(m)[|"AUD-2026-"|..] == a && NewAuditId(n)[|"AUD-2026-"|..] == b;
    Decimal.PadInjective(m, n, 3);
  }

  /** materializedPlanningAudit: the item's Audit, if it names one that exists. */
  predicate HasAudit(w: World, item: Item) {
    item.auditId.Some? && exists i :: 0 <= i < |w.audits| && w.audits[i].id == item.auditId.value
  }

  function AuditFor(w: World, id: ItemId, item: Item): Audit {
    var p := item.prep;
    var team := if p.lead in p.team then p.team else [p.lead] + p.team;
    Audit(NewAuditId(w.auditSeq), id, p.lead, team, p.startDate, p.endDate)
  }

  /** materializeReadyPlanningInspection; None where it throws. */
  function Materialize(w: World, id: ItemId): Option<World>
    requires id in w.items
  {
    var item := w.items[id];
    if item.prep.status != Ready then None
    else if HasAudit(w, item) then Some(w)
    else if item.category == NoCategory || item.prep.package == None then None
    else
      var audit := AuditFor(w, id, item);
      var package := item.prep.package.value.(auditId := Some(audit.id));
      Some(World(
             w.items[id := item.(auditId := Some(audit.id), prep := item.prep.(package := Some(package)))],
             w.audits + [audit],
             w.auditSeq + 1,
             w.teams + [audit.id],
             w.workspaces + {audit.id},
             w.coordinations + [Coordination(audit.id, id, item.category == AdHoc)]))
  }

  /**
   * What a refused creation leaves behind: nothing, unless a ready item had no
   * package, where the Audit is already listed when the code fails.
   */
  function AfterRefusal(w: World, id: ItemId): World
    requires id in w.items
  {
    var item := w.items[id];
    if item.prep.status == Ready && !HasAudit(w, item) && item.category != NoCategory && item.prep.package == None then
      var audit := AuditFor(w, id, item);
      w.(items := w.items[id := item.(auditId := Some(audit.id))], audits := w.audits + [audit], auditSeq := w.auditSeq + 1)
    else w
  }

  /** Actions on one item: an approval decision, a preparation step or Audit creation. */
  datatype Move =
    | Decide(input: Approval.Input)
    | ReleaseBy(actor: Actor)
    | AcceptBy(actor: Actor)
    | AssignBy(actor: Actor, lead: string, leadUserId: string)
    | ProposeBy(actor: Actor, team: seq<string>, startDate: string, endDate: string)
    | ConfirmBy(actor: Actor)
    | CreateAudit

  function StepItem(item: Item, m: Move): Option<Item>
    requires m != CreateAudit
  {
    match m
    case Decide(input) =>
      (match Approval.Decide(PlanningApproval.PlanningChain(), item.approval, input)
       case Ok(s) => Some(item.(approval := s))
       case Failed(_) => None)
    case ReleaseBy(actor) => Release(item, actor)
    case AcceptBy(actor) => Accept(item, actor)
    case AssignBy(actor, lead, userId) => AssignLead(item, actor, lead, userId)
    case ProposeBy(actor, team, startDate, endDate) => Propose(item, actor, team, startDate, endDate)
    case ConfirmBy(actor) => Confirm(item, actor)
  }

  /** A move on an item; one that names no item changes nothing. */
  function Step(w: World, id: ItemId, m: Move): World {
    if id !in w.items then w
    else if m == CreateAudit then
      (match Materialize(w, id) case Some(v) => v case None => AfterRefusal(w, id))
    else
      match StepItem(w.items[id], m)
      case Some(item) => w.(items := w.items[id := item])
      case None => w
  }

  function AfterSteps(w: World, moves: seq<(ItemId, Move)>): World {
    if moves == [] then w
    else
      var last := moves[|moves| - 1];
      Step(AfterSteps(w, moves[..|moves| - 1]), last.0, last.1)
  }

  /** The application state that the steps update in place. */
  class PlanningState {
    var items: map<ItemId, Item>
    var audits: seq<Audit>
    var auditSeq: nat
    var teams: seq<AuditId>
    var workspaces: set<AuditId>
    var coordinations: seq<Coordination>

    constructor (w: World)
      ensures Value() == w
    {
      items, audits, auditSeq := w.items, w.audits, w.auditSeq;
      teams, workspaces, coordinations := w.teams, w.workspaces, w.coordinations;
    }

    function Value(): World
      reads this
    {
      World(items, audits, auditSeq, teams, workspaces, coordinations)
    }

    method Prepare(id: ItemId, m: Move) returns (ok: bool)
      requires id in items && m != CreateAudit
      modifies this`items
      ensures Value() == Step(old(Value()), id, m)
      ensures ok <==> StepItem(old(items)[id], m).Some?
    {
      var changed := StepItem(items[id], m);
      ok := changed.Some?;
      if ok {
        items := items[id := changed.value];
      }
    }

    method MaterializeReady(id: ItemId) returns (created: bool)
      requires id in items
      modifies this
      ensures Value() == Step(old(Value()), id, CreateAudit)
      ensures created <==> Materialize(old(Value()), id).Some? && |audits| == |old(audits)| + 1
    {
      var item := items[id];
      if item.prep.status != Ready {
        return false;
      }
      var existing := false;
      for i := 0 to |audits|
        invariant existing <==> item.auditId.Some? && exists j :: 0 <= j < i && audits[j].id == item.auditId.value
      {
        if item.auditId == Some(audits[i].id) {
          existing := true;
        }
      }
      if existing || item.category == NoCategory {
        return false;
      }
      var audit := AuditFor(Value(), id, item);
      audits := audits + [audit];
      auditSeq := auditSeq + 1;
      item := item.(auditId := Some(audit.id));
      items := items[id := item];
      if item.prep.package == None {
        return false;
      }
      var package := item.prep.package.value.(auditId := Some(audit.id));
      items := items[id := item.(prep := item.prep.(package := Some(package)))];
      teams := teams + [audit.id];
      workspaces := workspaces + {audit.id};
      coordinations := coordinations + [Coordination(audit.id, id, item.category == AdHoc)];
      created := true;
    }
  }
}
