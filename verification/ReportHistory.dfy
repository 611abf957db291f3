// A report told from its history: who may decide when, where each decision sends
// the report, and that its last entry alone says where it stands.
module ReportHistory {
  import opened Wrappers
  import opened Reports
  import Text

  // ---------------------------------------------------------------- where a decision leads

  /** The status after a history entry, by desk and verdict. */
  function StatusAfter(kind: Kind, e: Entry): Status {
    match e.desk
    case Manager =>
      if e.verdict == Approve then SubmittedToGm
      else if e.verdict == Revision then RevisionRequested
      else ReturnedToLead
    case Gm => if e.verdict == Approve then SubmittedToExecutive else PendingManager
    case _ =>
      if e.verdict == Reject then Status.Rejected
      else if e.verdict == EnforcementReferral then EnforcementReferred
      else if kind == Final then if e.verdict == Approve then Issued else ReturnedToManager
      else if e.verdict == Approve then ReleasedToServiceProvider
      else SubmittedToGm
  }

  function OwnerAt(s: Status): Desk {
    match s
    case PendingManager => Manager
    case RevisionRequested => Lead
    case ReturnedToLead => Lead
    case SubmittedToGm => Gm
    case SubmittedToExecutive => Executive
    case ReleasedToServiceProvider => Auditee
    case Issued => Auditee
    case ReturnedToManager => Manager
    case EnforcementReferred => Enforcement
    case _ => NoDesk
  }

  function Signed(q: Request): string {
    if q.actor != "" then q.actor
    else if q.desk == Manager then "Department Manager"
    else if q.desk == Gm then "General Manager"
    else "Executive Director"
  }

  function NoteOf(q: Request): string {
    if q.verdict == EnforcementReferral then Text.Trim(q.category) + ": " + Text.Trim(q.comment) else Text.Trim(q.comment)
  }

  /** One signed entry, which alone says where the report goes. */
  predicate IsLoggedBy(r: Report, q: Request, t: Report) {
    && |t.history| == |r.history| + 1 && t.history[..|r.history|] == r.history
    && t.history[|r.history|] == Entry(q.desk, q.verdict, Signed(q), q.at, NoteOf(q))
    && t.status == StatusAfter(r.kind, t.history[|r.history|]) && t.owner == OwnerAt(t.status)
  }

  lemma ManagerIsLogged(r: Report, q: Request)
    requires q.desk == Manager && ManagerDecides(r, q).Some?
    ensures IsLoggedBy(r, q, ManagerDecides(r, q).value)
  {
    hide Text.Trim;
  }

  lemma GmIsLogged(r: Report, q: Request)
    requires q.desk == Gm && GmDecides(r, q).Some?
    ensures IsLoggedBy(r, q, GmDecides(r, q).value)
  {
    hide Text.Trim;
  }

  lemma PreliminaryIsLogged(r: Report, q: Request)
    requires q.desk == Executive && r.kind != Final && ExecutivePreliminaryDecides(r, q).Some?
    ensures IsLoggedBy(r, q, ExecutivePreliminaryDecides(r, q).value)
  {
    hide Text.Trim;
  }

  lemma FinalIsLogged(r: Report, q: Request)
    requires q.desk == Executive && r.kind == Final && ExecutiveFinalDecides(r, q).Some?
    ensures IsLoggedBy(r, q, ExecutiveFinalDecides(r, q).value)
  {
    hide Text.Trim;
  }

  lemma DecisionIsLogged(r: Report, q: Request)
    requires Decides(r, q).Some?
    ensures IsLoggedBy(r, q, Decides(r, q).value)
  {
    hide IsLoggedBy, ManagerDecides, GmDecides, ExecutivePreliminaryDecides, ExecutiveFinalDecides;
    if q.desk == Manager {
      ManagerIsLogged(r, q);
    } else if q.desk == Gm {
      GmIsLogged(r, q);
    } else if r.kind == Final {
      FinalIsLogged(r, q);
    } else {
      PreliminaryIsLogged(r, q);
    }
  }

  /** Lock, approval mark and dates change only as the report goes out, or is sent on by the General Manager. */
  lemma MarksOfDecision(r: Report, q: Request)
    requires Decides(r, q).Some?
    ensures var t := Decides(r, q).value;
            && t.organization == r.organization && t.kind == r.kind
            && (q.desk == Executive && q.verdict == Approve ==>
                  && t.locked && t.signature == Some(Signed(q))
                  && (if r.kind == Final then t.issued && t.sharedAt == r.sharedAt else t.sharedAt == q.at && t.issued == r.issued))
            && (q.desk == Gm && q.verdict == Approve ==> !t.locked && !t.issued && t.signature == None)
            && (!(q.desk == Executive && q.verdict == Approve) ==> t.sharedAt == r.sharedAt)
            && (!(q.desk != Manager && q.verdict == Approve) ==> t.signature == r.signature && t.issued == r.issued)
            && (!(q.desk == Executive && q.verdict == Approve) && q.desk != Manager ==> !t.locked)
            && (q.desk == Manager ==> t.locked == r.locked)
            && t.managerVerdict == (if q.desk == Manager then Some(q.verdict) else r.managerVerdict)
            && t.gmVerdict == (if q.desk == Gm then Some(q.verdict) else r.gmVerdict)
  {
    hide Text.Trim;
  }

  // ---------------------------------------------------------------- who may decide when

  predicate HasText(s: string) {
    !Text.IsBlank(s)
  }

  /** A verdict a desk may give on a report of the kind. */
  predicate IsVerdictOf(kind: Kind, desk: Desk, verdict: Verdict) {
    match desk
    case Manager => verdict == Revision || verdict == Return || (verdict == Approve && kind != OtherKind)
    case Gm => kind != OtherKind && (verdict == Approve || verdict == Return)
    case Executive =>
      && kind != OtherKind
      && (verdict == Approve || verdict == Return || verdict == Reject || (verdict == EnforcementReferral && kind == Final))
    case _ => false
  }

  /** The report is at the desk, unlocked; the Department Manager's desk is known by the status alone. */
  predicate IsAtDesk(r: Report, desk: Desk) {
    match desk
    case Manager => r.status == PendingManager
    case Gm => r.status == SubmittedToGm && r.owner == Gm && !r.locked
    case _ => r.status == SubmittedToExecutive && r.owner == Executive && !r.locked
  }

  /** A decision is accepted exactly at its own desk, by its own role, with a verdict of the desk and a reason unless it approves. */
  lemma DecidesIff(r: Report, q: Request)
    ensures Decides(r, q).Some? <==>
            && IsVerdictOf(r.kind, q.desk, q.verdict) && IsAtDesk(r, q.desk)
            && (q.desk != Manager ==> q.role == q.desk)
            && (q.verdict != Approve ==> HasText(q.comment))
            && (q.verdict == EnforcementReferral ==> HasText(q.category))
  {
    Text.TrimIsEmptyIff(q.comment);
    Text.TrimIsEmptyIff(q.category);
    hide Text.Trim, Text.IsBlank;
  }

  // ---------------------------------------------------------------- runs

  /** The last entry of a report's own history, or its entry at the Department Manager's desk, says where it stands. */
  predicate StandsByHistory(before: nat, r: Report) {
    && before <= |r.history|
    && if |r.history| == before then r.status == PendingManager
       else r.status == StatusAfter(r.kind, r.history[|r.history| - 1]) && r.owner == OwnerAt(r.status)
  }

  lemma DecisionStands(before: nat, r: Report, q: Request)
    requires before <= |r.history| && Decides(r, q).Some?
    ensures StandsByHistory(before, Decides(r, q).value)
  {
    hide Decides, StatusAfter, OwnerAt;
    DecisionIsLogged(r, q);
    MarksOfDecision(r, q);
  }

  lemma StandsFrom(before: nat, r: Report)
    requires StandsByHistory(before, r)
    ensures before <= |r.history|
  {
  }

  /** On every run from the Department Manager's desk a report's last decision alone tells its status and its owner. */
  lemma {:induction false} LastDecisionTellsStatus(w: World, steps: seq<(ReportId, Request)>, id: ReportId)
    requires Current(w, id).Some? && Current(w, id).value.status == PendingManager
    ensures Current(After(w, steps), id).Some?
    ensures StandsByHistory(|Current(w, id).value.history|, Current(After(w, steps), id).value)
  {
    if steps != [] {
      hide Decides, StandsByHistory;
      var shorter, last := steps[..|steps| - 1], steps[|steps| - 1];
      LastDecisionTellsStatus(w, shorter, id);
      var v := After(w, shorter);
      if last.0 == id && Decides(Current(v, id).value, last.1).Some? {
        StandsFrom(|Current(w, id).value.history|, Current(v, id).value);
        DecisionStands(|Current(w, id).value.history|, Current(v, id).value, last.1);
      }
    }
  }

  /** The desk that could decide after the first k entries of a history. */
  function DeskAt(kind: Kind, history: seq<Entry>, before: nat, k: nat): Desk
    requires before <= k <= |history|
  {
    if k == before then Manager else OwnerAt(StatusAfter(kind, history[k - 1]))
  }

  /** Every entry a run adds was made by the desk the entry before it sent the report to. */
  predicate IsLegal(kind: Kind, history: seq<Entry>, before: nat) {
    && before <= |history|
    && forall k :: before <= k < |history| ==>
         && history[k].desk == DeskAt(kind, history, before, k)
         && IsVerdictOf(kind, history[k].desk, history[k].verdict)
  }

  lemma LegalSnoc(kind: Kind, history: seq<Entry>, before: nat, e: Entry)
    requires IsLegal(kind, history, before)
    requires e.desk == DeskAt(kind, history, before, |history|) && IsVerdictOf(kind, e.desk, e.verdict)
    ensures IsLegal(kind, history + [e], before)
  {
    hide StatusAfter, OwnerAt, IsVerdictOf;
    var longer := history + [e];
    forall k | before <= k < |longer|
      ensures longer[k].desk == DeskAt(kind, longer, before, k) && IsVerdictOf(kind, longer[k].desk, longer[k].verdict)
    {
      assert k > before ==> longer[k - 1] == history[k - 1];
      assert k < |history| ==> longer[k] == history[k];
    }
  }

  /** One accepted decision extends a legal history. */
  lemma DecisionIsLegal(before: nat, r: Report, q: Request)
    requires StandsByHistory(before, r) && IsLegal(r.kind, r.history, before) && Decides(r, q).Some?
    ensures IsLegal(r.kind, Decides(r, q).value.history, before) && Decides(r, q).value.kind == r.kind
  {
    hide Decides, StatusAfter, OwnerAt, IsVerdictOf, IsAtDesk, IsLegal;
    var t := Decides(r, q).value;
    DecisionIsLogged(r, q);
    MarksOfDecision(r, q);
    DecidesIff(r, q);
    KnownDesk(r.kind, q.desk, q.verdict);
    DeskOfOwner(r, q.desk);
    PendingIsManagers();
    assert t.history == r.history + [t.history[|r.history|]];
    LegalSnoc(r.kind, r.history, before, t.history[|r.history|]);
  }

  lemma KnownDesk(kind: Kind, desk: Desk, verdict: Verdict)
    requires IsVerdictOf(kind, desk, verdict)
    ensures desk == Manager || desk == Gm || desk == Executive
  {
  }

  lemma PendingIsManagers()
    ensures OwnerAt(PendingManager) == Manager
  {
  }

  /** On every run the added history is a legal sequence of decisions from the Department Manager's desk on. */
  lemma {:induction false} HistoryIsLegal(w: World, steps: seq<(ReportId, Request)>, id: ReportId)
    requires Current(w, id).Some? && Current(w, id).value.status == PendingManager
    ensures Current(After(w, steps), id).Some?
    ensures IsLegal(Current(w, id).value.kind, Current(After(w, steps), id).value.history, |Current(w, id).value.history|)
    ensures Current(After(w, steps), id).value.kind == Current(w, id).value.kind
  {
    if steps != [] {
      hide Decides, IsLegal, StandsByHistory;
      var shorter, last := steps[..|steps| - 1], steps[|steps| - 1];
      HistoryIsLegal(w, shorter, id);
      LastDecisionTellsStatus(w, shorter, id);
      var v := After(w, shorter);
      if last.0 == id && Decides(Current(v, id).value, last.1).Some? {
        DecisionIsLegal(|Current(w, id).value.history|, Current(v, id).value, last.1);
      }
    }
  }

  lemma DeskOfOwner(r: Report, desk: Desk)
    requires IsAtDesk(r, desk) && (desk == Manager || desk == Gm || desk == Executive)
    ensures OwnerAt(r.status) == desk
  {
  }
}
