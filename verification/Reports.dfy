// The report machine: Department Manager, General Manager and Executive Director
// decisions on a report, and what a Service Provider is shown.
module Reports {
  import opened Wrappers
  import Text

  type ReportId = string

  datatype Kind = Preliminary | Final | OtherKind

  datatype Desk = Manager | Gm | Executive | Lead | Auditee | Enforcement | NoDesk

  datatype Status =
    | PendingManager | RevisionRequested | ReturnedToLead
    | SubmittedToGm | SubmittedToExecutive
    | ReleasedToServiceProvider | Issued
    | ReturnedToManager | Rejected | EnforcementReferred
    | Closed | OtherStatus(name: string)

  datatype Verdict = Approve | Revision | Return | Reject | EnforcementReferral | Unsupported

  /** A history entry of the decision functions: who decided what. */
  datatype Entry = Entry(desk: Desk, verdict: Verdict, actor: string, at: string, comment: string)

  datatype Report = Report(
    organization: string,
    kind: Kind,
    status: Status,
    owner: Desk,
    locked: bool,
    issued: bool,
    sharedAt: string,
    signature: Option<string>,
    managerVerdict: Option<Verdict>,
    gmVerdict: Option<Verdict>,
    history: seq<Entry>)

  /** A requested decision: the acting role, the verdict, its text, a referral category and the clock. */
  datatype Request = Request(desk: Desk, role: Desk, verdict: Verdict, actor: string, comment: string, category: string, at: string)

  function Name(given: string, default: string): string {
    if given == "" then default else given
  }

  function Logged(r: Report, q: Request, actor: string, comment: string): Report {
    r.(history := r.history + [Entry(q.desk, q.verdict, actor, q.at, comment)])
  }

  /** applyManagerReportDecision, which takes no role: the Department Manager is assumed. */
  function ManagerDecides(r: Report, q: Request): Option<Report> {
    var comment := Text.Trim(q.comment);
    if r.status != PendingManager then None
    else if q.verdict != Approve && q.verdict != Revision && q.verdict != Return then None
    else if q.verdict != Approve && comment == "" then None
    else if q.verdict == Approve && r.kind == OtherKind then None
    else
      var status := if q.verdict == Revision then RevisionRequested
                    else if q.verdict == Return then ReturnedToLead
                    else SubmittedToGm;
      var moved := r.(status := status, owner := if q.verdict == Approve then Gm else Lead, managerVerdict := Some(q.verdict));
      Some(Logged(moved, q, Name(q.actor, "Department Manager"), comment))
  }

  /** applyGeneralManagerReportDecision */
  function GmDecides(r: Report, q: Request): Option<Report> {
    var comment := Text.Trim(q.comment);
    if q.role != Gm || r.kind == OtherKind then None
    else if r.status != SubmittedToGm || r.owner != Gm || r.locked then None
    else if q.verdict != Approve && q.verdict != Return then None
    else if q.verdict == Return && comment == "" then None
    else
      var moved :=
        if q.verdict == Approve then
          r.(status := SubmittedToExecutive, owner := Executive, locked := false, issued := false, signature := None,
             gmVerdict := Some(Approve))
        else r.(status := PendingManager, owner := Manager, locked := false, gmVerdict := Some(Return));
      Some(Logged(moved, q, Name(q.actor, "General Manager"), comment))
  }

  predicate AtExecutive(r: Report) {
    r.status == SubmittedToExecutive && r.owner == Executive && !r.locked
  }

  /** applyExecutivePreliminaryReportDecision */
  function ExecutivePreliminaryDecides(r: Report, q: Request): Option<Report> {
    var comment := Text.Trim(q.comment);
    var actor := Name(q.actor, "Executive Director");
    if q.role != Executive || r.kind != Preliminary || !AtExecutive(r) then None
    else if q.verdict != Approve && q.verdict != Return && q.verdict != Reject then None
    else if q.verdict != Approve && comment == "" then None
    else
      var moved := match q.verdict
        case Approve =>
          r.(status := ReleasedToServiceProvider, owner := Auditee, locked := true, sharedAt := q.at, signature := Some(actor))
        case Return => r.(status := SubmittedToGm, owner := Gm, locked := false)
        case _ => r.(status := Rejected, owner := NoDesk, locked := false);
      Some(Logged(moved, q, actor, comment))
  }

  /** applyExecutiveFinalReportDecision */
  function ExecutiveFinalDecides(r: Report, q: Request): Option<Report> {
    var comment := Text.Trim(q.comment);
    var category := Text.Trim(q.category);
    var actor := Name(q.actor, "Executive Director");
    if q.role != Executive || r.kind != Final || !AtExecutive(r) then None
    else if q.verdict == Revision || q.verdict == Unsupported then None
    else if q.verdict == EnforcementReferral && category == "" then None
    else if q.verdict != Approve && comment == "" then None
    else
      var moved := match q.verdict
        case Approve =>
          r.(status := Issued, owner := Auditee, issued := true, locked := true, signature := Some(actor))
        case EnforcementReferral => r.(status := EnforcementReferred, owner := Enforcement)
        case Return => r.(status := ReturnedToManager, owner := Manager)
        case _ => r.(status := Rejected, owner := NoDesk);
      Some(Logged(moved, q, actor, if q.verdict == EnforcementReferral then category + ": " + comment else comment))
  }

  /** One of the four decision functions; the Executive's choice goes by its caller. */
  function Decides(r: Report, q: Request): Option<Report> {
    match q.desk
    case Manager => ManagerDecides(r, q)
    case Gm => GmDecides(r, q)
    case Executive => if r.kind == Final then ExecutiveFinalDecides(r, q) else ExecutivePreliminaryDecides(r, q)
    case _ => None
  }

  /** A report as the workspace keeps it, updated in place. */
  class ReportRecord {
    const organization: string
    const kind: Kind
    var status: Status
    var owner: Desk
    var locked: bool
    var issued: bool
    var sharedAt: string
    var signature: Option<string>
    var managerVerdict: Option<Verdict>
    var gmVerdict: Option<Verdict>
    var history: seq<Entry>

    constructor (r: Report)
      ensures Value() == r
    {
      organization, kind := r.organization, r.kind;
      status, owner, locked, issued := r.status, r.owner, r.locked, r.issued;
      sharedAt, signature := r.sharedAt, r.signature;
      managerVerdict, gmVerdict, history := r.managerVerdict, r.gmVerdict, r.history;
    }

    function Value(): Report
      reads this
    {
      Report(organization, kind, status, owner, locked, issued, sharedAt, signature, managerVerdict, gmVerdict, history)
    }

    method Log(q: Request, actor: string, comment: string)
      modifies this`history
      ensures Value() == Logged(old(Value()), q, actor, comment)
    {
      history := history + [Entry(q.desk, q.verdict, actor, q.at, comment)];
    }

    method ApplyManager(q: Request) returns (ok: bool)
      requires q.desk == Manager
      modifies this
      ensures ok <==> Decides(old(Value()), q).Some?
      ensures Value() == if ok then Decides(old(Value()), q).value else old(Value())
    {
      hide Text.Trim, Name;
      var comment := Text.Trim(q.comment);
      if status != PendingManager {
        return false;
      }
      if q.verdict != Approve && q.verdict != Revision && q.verdict != Return {
        return false;
      }
      if (q.verdict == Revision || q.verdict == Return) && comment == "" {
        return false;
      }
      if q.verdict == Approve && kind == OtherKind {
        return false;
      }
      if q.verdict == Revision {
        status, owner := RevisionRequested, Lead;
      } else if q.verdict == Return {
        status, owner := ReturnedToLead, Lead;
      } else {
        status, owner := SubmittedToGm, Gm;
      }
      managerVerdict := Some(q.verdict);
      Log(q, Name(q.actor, "Department Manager"), comment);
      ok := true;
    }

    method ApplyGeneralManager(q: Request) returns (ok: bool)
      requires q.desk == Gm
      modifies this
      ensures ok <==> Decides(old(Value()), q).Some?
      ensures Value() == if ok then Decides(old(Value()), q).value else old(Value())
    {
      hide Text.Trim, Name;
      var comment := Text.Trim(q.comment);
      if q.role != Gm || kind == OtherKind || status != SubmittedToGm || owner != Gm || locked {
        return false;
      }
      if (q.verdict != Approve && q.verdict != Return) || (q.verdict == Return && comment == "") {
        return false;
      }
      if q.verdict == Approve {
        status, owner := SubmittedToExecutive, Executive;
        locked, issued, signature := false, false, None;
        gmVerdict := Some(Approve);
      } else {
        status, owner, locked := PendingManager, Manager, false;
        gmVerdict := Some(Return);
      }
      Log(q, Name(q.actor, "General Manager"), comment);
      ok := true;
    }

    method ApplyExecutive(q: Request) returns (ok: bool)
      requires q.desk == Executive
      modifies this
      ensures ok <==> Decides(old(Value()), q).Some?
      ensures Value() == if ok then Decides(old(Value()), q).value else old(Value())
    {
      hide Text.Trim, Name;
      var comment := Text.Trim(q.comment);
      var category := Text.Trim(q.category);
      var actor := Name(q.actor, "Executive Director");
      if q.role != Executive || kind == OtherKind || !AtExecutive(Value()) {
        return false;
      }
      if q.verdict == Revision || q.verdict == Unsupported || (q.verdict == EnforcementReferral && kind != Final) {
        return false;
      }
      if (q.verdict == EnforcementReferral && category == "") || (q.verdict != Approve && comment == "") {
        return false;
      }
      var note := comment;
      if q.verdict == Approve {
        if kind == Final {
          status, issued := Issued, true;
        } else {
          status, sharedAt := ReleasedToServiceProvider, q.at;
        }
        owner, locked, signature := Auditee, true, Some(actor);
      } else if q.verdict == EnforcementReferral {
        status, owner := EnforcementReferred, Enforcement;
        note := category + ": " + comment;
      } else if q.verdict == Return {
        if kind == Final {
          status, owner := ReturnedToManager, Manager;
        } else {
          status, owner, locked := SubmittedToGm, Gm, false;
        }
      } else {
        status, owner := Rejected, NoDesk;
      }
      Log(q, actor, note);
      ok := true;
    }
  }

  // ---------------------------------------------------------------- what is shown

  /** Artifacts are the approval packages; projections are the workspace rows built on them. */
  datatype World = World(artifacts: map<ReportId, Report>, projections: map<ReportId, Report>)

  /** managerReportById and reportReadModelById: the artifact's fields win over the projection's. */
  function Current(w: World, id: ReportId): Option<Report> {
    if id in w.artifacts then Some(w.artifacts[id])
    else if id in w.projections then Some(w.projections[id])
    else None
  }

  /** serviceProviderVisibleReports, as a set of ids. */
  function VisibleReports(w: World, organization: string, kind: Kind): set<ReportId> {
    set id | id in w.projections && IsShown(Current(w, id).value, organization, kind)
  }

  predicate IsShown(r: Report, organization: string, kind: Kind) {
    && r.organization == organization && r.kind == kind
    && match kind
       case Preliminary => r.status == ReleasedToServiceProvider || r.status == Closed || r.sharedAt != ""
       case Final => r.status == Issued && r.issued && r.locked
       case OtherKind => false
  }

  /** A decision on a report by id; refused ones change nothing. */
  function Step(w: World, id: ReportId, q: Request): World {
    match Current(w, id)
    case None => w
    case Some(r) =>
      match Decides(r, q)
      case None => w
      case Some(t) =>
        if id in w.artifacts then w.(artifacts := w.artifacts[id := t]) else w.(projections := w.projections[id := t])
  }

  function After(w: World, steps: seq<(ReportId, Request)>): World {
    if steps == [] then w
    else
      var last := steps[|steps| - 1];
      Step(After(w, steps[..|steps| - 1]), last.0, last.1)
  }

  // ---------------------------------------------------------------- invariant

  /** The most recent entry of a desk, by position. */
  function LastOf(history: seq<Entry>, desk: Desk): int {
    if history == [] then -1
    else if history[|history| - 1].desk == desk then |history| - 1
    else LastOf(history[..|history| - 1], desk)
  }

  lemma LastOfIsEntry(history: seq<Entry>, desk: Desk)
    ensures var i := LastOf(history, desk);
            && -1 <= i < |history|
            && (i >= 0 ==> history[i].desk == desk)
            && forall j :: 0 <= j < |history| && history[j].desk == desk ==> j <= i
  {
    if history != [] {
      LastOfIsEntry(history[..|history| - 1], desk);
    }
  }

  lemma LastOfSnoc(history: seq<Entry>, e: Entry, desk: Desk)
    ensures LastOf(history + [e], desk) == if e.desk == desk then |history| else LastOf(history, desk)
  {
    assert (history + [e])[..|history|] == history;
  }

  predicate LastApproves(history: seq<Entry>, desk: Desk) {
    var i := LastOf(history, desk);
    0 <= i < |history| && history[i].verdict == Approve
  }

  predicate IsOut(s: Status) {
    s == ReleasedToServiceProvider || s == Issued
  }

  /** What a status says of the decisions behind it and of the report's marks. */
  predicate Well(r: Report) {
    && (r.locked <==> IsOut(r.status))
    && (r.signature.Some? <==> IsOut(r.status))
    && (r.sharedAt != "" ==> r.status == ReleasedToServiceProvider)
    && r.status != Closed
    && (r.status == ReleasedToServiceProvider ==> r.kind == Preliminary)
    && (r.status == Issued ==> r.kind == Final && r.issued)
    && (r.status == SubmittedToGm ==> LastApproves(r.history, Manager))
    && (r.status == SubmittedToExecutive ==>
          && LastApproves(r.history, Manager) && LastApproves(r.history, Gm)
          && LastOf(r.history, Manager) < LastOf(r.history, Gm) == |r.history| - 1)
    && (IsOut(r.status) ==> ApprovedInOrder(r.history))
  }

  /** The latest Manager, GM and Executive decisions are approvals, in that order, the last one ending the history. */
  predicate ApprovedInOrder(history: seq<Entry>) {
    && LastApproves(history, Manager) && LastApproves(history, Gm) && LastApproves(history, Executive)
    && LastOf(history, Manager) < LastOf(history, Gm) < LastOf(history, Executive) == |history| - 1
  }

  /** A report that enters the machine at the Department Manager's desk. */
  predicate Entering(r: Report) {
    && r.status == PendingManager && !r.locked && !r.issued && r.sharedAt == "" && r.signature == None
  }

  /** How a new entry changes the latest decision of each desk. */
  lemma LatestAfter(r: Report, t: Report, e: Entry)
    requires t.history == r.history + [e]
    ensures forall desk :: LastOf(t.history, desk) == if e.desk == desk then |r.history| else LastOf(r.history, desk)
    ensures forall desk :: -1 <= LastOf(r.history, desk) < |r.history|
    ensures forall desk :: desk != e.desk ==> (LastApproves(t.history, desk) <==> LastApproves(r.history, desk))
    ensures LastApproves(t.history, e.desk) <==> e.verdict == Approve
  {
    forall desk
      ensures LastOf(t.history, desk) == if e.desk == desk then |r.history| else LastOf(r.history, desk)
      ensures -1 <= LastOf(r.history, desk) < |r.history|
    {
      LastOfSnoc(r.history, e, desk);
      LastOfIsEntry(r.history, desk);
    }
  }

  lemma ManagerKeepsWell(r: Report, q: Request)
    requires Well(r) && q.desk == Manager && ManagerDecides(r, q).Some?
    ensures Well(ManagerDecides(r, q).value)
  {
    hide LastOf, LastApproves, Text.Trim, Name;
    var t := ManagerDecides(r, q).value;
    LatestAfter(r, t, t.history[|r.history|]);
  }

  lemma GmKeepsWell(r: Report, q: Request)
    requires Well(r) && q.desk == Gm && GmDecides(r, q).Some?
    ensures Well(GmDecides(r, q).value)
  {
    hide LastOf, LastApproves, Text.Trim, Name;
    var t := GmDecides(r, q).value;
    LatestAfter(r, t, t.history[|r.history|]);
  }

  lemma PreliminaryKeepsWell(r: Report, q: Request)
    requires Well(r) && q.desk == Executive && ExecutivePreliminaryDecides(r, q).Some?
    ensures Well(ExecutivePreliminaryDecides(r, q).value)
  {
    hide LastOf, LastApproves, Text.Trim, Name;
    var t := ExecutivePreliminaryDecides(r, q).value;
    LatestAfter(r, t, t.history[|r.history|]);
  }

  lemma FinalKeepsWell(r: Report, q: Request)
    requires Well(r) && q.desk == Executive && ExecutiveFinalDecides(r, q).Some?
    ensures Well(ExecutiveFinalDecides(r, q).value)
  {
    hide LastOf, LastApproves, Text.Trim, Name;
    var t := ExecutiveFinalDecides(r, q).value;
    LatestAfter(r, t, t.history[|r.history|]);
  }

  lemma DecisionKeepsWell(r: Report, q: Request)
    requires Well(r) && Decides(r, q).Some?
    ensures Well(Decides(r, q).value)
  {
    hide Well, ManagerDecides, GmDecides, ExecutivePreliminaryDecides, ExecutiveFinalDecides;
    match q.desk
    case Manager => ManagerKeepsWell(r, q);
    case Gm => GmKeepsWell(r, q);
    case Executive =>
      if r.kind == Final {
        FinalKeepsWell(r, q);
      } else {
        PreliminaryKeepsWell(r, q);
      }
    case _ =>
  }

  /** A released or issued report refuses every decision. */
  lemma OutIsFinal(r: Report, q: Request)
    requires IsOut(r.status)
    ensures Decides(r, q) == None
  {
  }

  /** Every run keeps what a report's status says, from the Manager's desk on. */
  lemma {:induction false} RunKeepsWell(w: World, steps: seq<(ReportId, Request)>, id: ReportId)
    requires Current(w, id).Some? && Entering(Current(w, id).value)
    ensures Current(After(w, steps), id).Some? && Well(Current(After(w, steps), id).value)
    ensures After(w, steps).projections.Keys == w.projections.Keys && After(w, steps).artifacts.Keys == w.artifacts.Keys
    ensures var a, b := Current(w, id).value, Current(After(w, steps), id).value;
            a.kind == b.kind && a.organization == b.organization
  {
    if steps != [] {
      hide Decides, Well, Entering;
      var shorter, last := steps[..|steps| - 1], steps[|steps| - 1];
      RunKeepsWell(w, shorter, id);
      var v := After(w, shorter);
      if last.0 == id && Decides(Current(v, id).value, last.1).Some? {
        DecisionKeepsWell(Current(v, id).value, last.1);
        DecisionKeepsIdentity(Current(v, id).value, last.1);
      }
    } else {
      assert LastOf([], Manager) == -1;
    }
  }

  lemma DecisionKeepsIdentity(r: Report, q: Request)
    requires Decides(r, q).Some?
    ensures Decides(r, q).value.kind == r.kind && Decides(r, q).value.organization == r.organization
  {
  }

  /** A released or issued report is locked and carries standing approvals of all three desks, in order. */
  lemma OutMeansApproved(w: World, steps: seq<(ReportId, Request)>, id: ReportId)
    requires Current(w, id).Some? && Entering(Current(w, id).value)
    requires Current(After(w, steps), id).Some? && IsOut(Current(After(w, steps), id).value.status)
    ensures var r := Current(After(w, steps), id).value;
            r.locked && r.signature.Some? && ApprovedInOrder(r.history)
  {
    hide After, Entering, ApprovedInOrder;
    RunKeepsWell(w, steps, id);
  }

  /** No later decision changes a report that is out. */
  lemma {:induction false} OutStaysPut(w: World, steps: seq<(ReportId, Request)>, k: nat, id: ReportId)
    requires k <= |steps| && Current(After(w, steps[..k]), id).Some?
    requires IsOut(Current(After(w, steps[..k]), id).value.status)
    ensures Current(After(w, steps), id) == Current(After(w, steps[..k]), id)
    decreases |steps|
  {
    if k == |steps| {
      assert steps[..k] == steps;
    } else {
      hide Decides;
      var shorter, last := steps[..|steps| - 1], steps[|steps| - 1];
      assert shorter[..k] == steps[..k];
      OutStaysPut(w, shorter, k, id);
      if last.0 == id {
        OutIsFinal(Current(After(w, shorter), id).value, last.1);
      }
    }
  }

  /** A run keeps every report's organization and kind, whatever state it is in. */
  lemma {:induction false} RunKeepsIdentity(w: World, steps: seq<(ReportId, Request)>, id: ReportId)
    ensures var a, b := Current(w, id), Current(After(w, steps), id);
            && (a.Some? <==> b.Some?)
            && (a.Some? ==> a.value.organization == b.value.organization && a.value.kind == b.value.kind)
    ensures After(w, steps).projections.Keys == w.projections.Keys
  {
    if steps != [] {
      hide Decides;
      var shorter, last := steps[..|steps| - 1], steps[|steps| - 1];
      RunKeepsIdentity(w, shorter, id);
      var v := After(w, shorter);
      if Current(v, last.0).Some? && Decides(Current(v, last.0).value, last.1).Some? {
        DecisionKeepsIdentity(Current(v, last.0).value, last.1);
      }
    }
  }

  /**
   * Who is shown a report, on every run from the Manager's desk: the organization
   * and kind it had from the start, and only while it is out, that is from its
   * release on; no other organization at any time.
   */
  lemma ShownExactlyWhenOut(w: World, steps: seq<(ReportId, Request)>, id: ReportId, organization: string, kind: Kind)
    requires id in w.projections && Current(w, id).Some? && Entering(Current(w, id).value)
    ensures Current(After(w, steps), id).Some?
    ensures id in VisibleReports(After(w, steps), organization, kind) <==>
              && IsOut(Current(After(w, steps), id).value.status)
              && organization == Current(w, id).value.organization && kind == Current(w, id).value.kind
  {
    hide After, LastOf, ApprovedInOrder;
    RunKeepsWell(w, steps, id);
  }

  /** On every run, from any state, a report is only ever shown to the organization and under the kind it started with. */
  lemma ShownToItsOrganizationOnly(w: World, steps: seq<(ReportId, Request)>, id: ReportId, organization: string, kind: Kind)
    requires id in VisibleReports(After(w, steps), organization, kind)
    ensures Current(w, id).Some? && Current(w, id).value.organization == organization && Current(w, id).value.kind == kind
  {
    hide After;
    RunKeepsIdentity(w, steps, id);
  }
}
