// Findings told from what was done to them: which actions are accepted, what each
// leaves, and what verifications say of the Evidence they name.
module FindingHistory {
  import opened Wrappers
  import opened Findings
  import opened FindingRuns
  import Text

  // ---------------------------------------------------------------- conversion

  predicate IsObservation(severity: int) {
    severity == 0 || severity == 4
  }

  /** A converted finding starts where its requirements say, which an observation has only by choice. */
  lemma ConvertedStarts(id: FindingId, severity: int, cap: Option<bool>, evidence: Option<bool>)
    ensures var f := Converted(id, severity, cap, evidence);
            && f.id == id && f.cap == None && f.evidence == [] && f.verifications == [] && f.closure == None
            && (f.capRequired <==> if cap.Some? then cap.value else !IsObservation(severity))
            && (f.evidenceRequired <==> if evidence.Some? then evidence.value else !IsObservation(severity))
            && (f.capRequired ==> f.status == WaitingCap)
            && (!f.capRequired && f.evidenceRequired ==> f.status == EvidenceRequired)
            && (!f.capRequired && !f.evidenceRequired ==> f.status == OpenObservation)
  {
  }

  // ---------------------------------------------------------------- which actions are accepted

  predicate HasText(s: string) {
    !Text.IsBlank(s)
  }

  predicate MayInspect(role: Role) {
    role == Inspector || role == LeadInspector
  }

  /** Who may do what, with what filled in. */
  lemma AcceptedIff(f: Finding, a: Action)
    ensures Act(f, a).Some? <==>
            match a
            case SubmitCap(complete, _) => complete
            case DecideCap(role, accept, comment) => MayInspect(role) && f.cap.Some? && (accept || HasText(comment))
            case SubmitEvidence(file) => file.Some?
            case Verify(role, _, comment, note) =>
              MayInspect(role) && f.status == EvidenceSubmitted && f.evidence != [] && HasText(comment) && HasText(note)
            case CloseByAuthority(role, reason) => role == Manager && HasText(reason)
  {
    match a
    case DecideCap(_, _, comment) => Text.TrimIsEmptyIff(comment);
    case Verify(_, _, comment, note) =>
      Text.TrimIsEmptyIff(comment);
      Text.TrimIsEmptyIff(note);
    case CloseByAuthority(_, reason) => Text.TrimIsEmptyIff(reason);
    case _ =>
  }

  /** What every accepted action leaves alone. */
  lemma ActionsStayApart(f: Finding, a: Action)
    requires Act(f, a).Some?
    ensures var g := Act(f, a).value;
            && g.id == f.id && g.capRequired == f.capRequired && g.evidenceRequired == f.evidenceRequired
            && (!a.SubmitCap? && !a.DecideCap? ==> g.cap == f.cap)
            && (!a.SubmitEvidence? && !a.Verify? ==> g.evidence == f.evidence)
            && (!a.Verify? ==> g.verifications == f.verifications)
            && (!a.Verify? && !a.CloseByAuthority? ==> g.closure == f.closure && g.status != Closed)
  {
    hide Text.Trim;
  }

  /** What it leaves behind in the part it is about. */
  lemma ActionsLeave(f: Finding, a: Action)
    requires Act(f, a).Some?
    ensures var g := Act(f, a).value;
            match a
            case SubmitCap(_, date) => g.cap == Some(Cap(CapWaiting, date)) && g.status == CapSubmitted
            case DecideCap(_, accept, _) =>
              && g.cap == Some(Cap(if accept then CapAccepted else CapReturned, f.cap.value.submittedDate))
              && g.status == (if !accept then CapMoreInfo else if f.evidenceRequired then EvidenceRequired else ReadyForVerification)
            case SubmitEvidence(file) =>
              && |g.evidence| == |f.evidence| + 1 && g.evidence[..|f.evidence|] == f.evidence
              && g.evidence[|f.evidence|].file == file.value && g.evidence[|f.evidence|].status == Uploaded
              && (forall i :: 0 <= i < |f.evidence| ==> f.evidence[i].version < g.evidence[|f.evidence|].version)
              && g.status == EvidenceSubmitted
            case Verify(role, result, _, _) =>
              && |g.verifications| == |f.verifications| + 1 && g.verifications[..|f.verifications|] == f.verifications
              && g.verifications[|f.verifications|].result == result && g.verifications[|f.verifications|].role == role
              && (if result == Close then g.status == Closed && g.closure == Some(EvidenceVerified)
                  else g.status == EvidenceMoreInfo && g.closure == None)
            case CloseByAuthority(_, _) => g.status == Closed && g.closure == Some(Authorized)
  {
    hide Text.Trim;
    MaxIsMax(f.evidence);
  }

  lemma {:induction false} MaxIsMax(evidence: seq<Evidence>)
    ensures forall i :: 0 <= i < |evidence| ==> evidence[i].version <= MaxVersion(evidence)
  {
    if evidence != [] {
      MaxIsMax(evidence[..|evidence| - 1]);
    }
  }

  // ---------------------------------------------------------------- verifications and Evidence

  /** The result of the last verification that names a version. */
  function LastResult(verifications: seq<Verification>, version: nat): Option<Result> {
    if verifications == [] then None
    else
      var last := verifications[|verifications| - 1];
      if last.evidenceVersion == version then Some(last.result) else LastResult(verifications[..|verifications| - 1], version)
  }

  function StatusAfter(result: Option<Result>): EvidenceStatus {
    match result
    case None => Uploaded
    case Some(r) => if r == Close then Accepted else if r == PartiallyClose then PartiallyAccepted else MoreInformation
  }

  /** Every Evidence version has the status its last verification gave it, and verifications name Evidence that exists. */
  predicate ShowsVerdicts(f: Finding) {
    && Numbered(f.evidence)
    && (forall i :: 0 <= i < |f.evidence| ==> f.evidence[i].status == StatusAfter(LastResult(f.verifications, i + 1)))
    && (forall k :: 0 <= k < |f.verifications| ==> 1 <= f.verifications[k].evidenceVersion <= |f.evidence|)
  }

  lemma {:induction false} UnnamedHasNoResult(verifications: seq<Verification>, version: nat)
    requires forall k :: 0 <= k < |verifications| ==> verifications[k].evidenceVersion != version
    ensures LastResult(verifications, version) == None
  {
    if verifications != [] {
      UnnamedHasNoResult(verifications[..|verifications| - 1], version);
    }
  }

  lemma ActShowsVerdicts(f: Finding, a: Action)
    requires ShowsVerdicts(f) && Act(f, a).Some?
    ensures ShowsVerdicts(Act(f, a).value)
  {
    hide Text.Trim, LastResult;
    NumberedLatest(f.evidence);
    ActionsStayApart(f, a);
    var n := |f.evidence|;
    UnnamedHasNoResult(f.verifications, n + 1);
    if a.Verify? {
      var g := Act(f, a).value;
      var record := Verification(a.result, a.role, n);
      assert g.verifications == f.verifications + [record];
      forall version: nat
        ensures LastResult(g.verifications, version) ==
                if version == n then Some(a.result) else LastResult(f.verifications, version)
      {
        LastResultOfSnoc(f.verifications, record, version);
      }
    }
  }

  lemma LastResultOfSnoc(verifications: seq<Verification>, record: Verification, version: nat)
    ensures LastResult(verifications + [record], version) ==
            if record.evidenceVersion == version then Some(record.result) else LastResult(verifications, version)
  {
    assert (verifications + [record])[..|verifications|] == verifications;
  }

  predicate AllShowVerdicts(w: World) {
    forall i :: 0 <= i < |w.findings| ==> ShowsVerdicts(w.findings[i])
  }

  // ---------------------------------------------------------------- one step of a world

  /** The first finding of an id. */
  predicate IsFirst(findings: seq<Finding>, i: int, id: FindingId) {
    0 <= i < |findings| && findings[i].id == id && forall j :: 0 <= j < i ==> findings[j].id != id
  }

  lemma {:induction false} IndexIsFirst(findings: seq<Finding>, id: FindingId, from: nat)
    requires from <= |findings| && forall j :: 0 <= j < from ==> findings[j].id != id
    ensures var i := IndexOf(findings, id, from);
            if i >= 0 then IsFirst(findings, i, id) else forall j :: 0 <= j < |findings| ==> findings[j].id != id
    decreases |findings| - from
  {
    if from < |findings| && findings[from].id != id {
      IndexIsFirst(findings, id, from + 1);
    }
  }

  /** An action changes the first finding of its id, if it accepts it, and no other; it logs verifications and closures. */
  lemma ActionTouchesOne(w: World, id: FindingId, a: Action)
    ensures var v := Apply(w, On(id, a));
            if exists i :: IsFirst(w.findings, i, id) && Act(w.findings[i], a).Some? then
              && |v.findings| == |w.findings|
              && (forall i :: 0 <= i < |w.findings| ==>
                    v.findings[i] == if IsFirst(w.findings, i, id) then Act(w.findings[i], a).value else w.findings[i])
              && v.log == (match a
                           case Verify(_, result, _, _) => [VerificationLogged(id, result)] + w.log
                           case CloseByAuthority(_, reason) => [ClosureLogged(id, Manager, Text.Trim(reason))] + w.log
                           case _ => w.log)
            else v == w
  {
    hide Text.Trim;
    IndexIsFirst(w.findings, id, 0);
    var i := IndexOf(w.findings, id);
    if i >= 0 {
      assert forall j :: IsFirst(w.findings, j, id) ==> j == i;
      assert [] + w.log == w.log;
    }
  }

  /** A conversion adds its finding at the end and changes nothing else. */
  lemma ConversionAdds(w: World, id: FindingId, severity: int, cap: Option<bool>, evidence: Option<bool>)
    ensures var v, n := Apply(w, Convert(id, severity, cap, evidence)), |w.findings|;
            && |v.findings| == n + 1 && v.findings[..n] == w.findings && v.log == w.log
            && v.findings[n].id == id && v.findings[n].status != Closed && v.findings[n].evidence == []
            && ShowsVerdicts(v.findings[n]) && Sound(v.findings[n], v.log)
  {
  }

  /** On every run each Evidence version has the status its last verification gave it. */
  lemma {:induction false} EvidenceShowsVerdicts(w: World, steps: seq<Step>)
    requires AllShowVerdicts(w)
    ensures AllShowVerdicts(After(w, steps))
  {
    if steps != [] {
      hide Act, ShowsVerdicts;
      EvidenceShowsVerdicts(w, steps[..|steps| - 1]);
      var v := After(w, steps[..|steps| - 1]);
      match steps[|steps| - 1]
      case Convert(id, severity, cap, evidence) =>
        NewShowsVerdicts(Converted(id, severity, cap, evidence));
      case On(id, a) =>
        var i := IndexOf(v.findings, id);
        if i >= 0 && Act(v.findings[i], a).Some? {
          ActShowsVerdicts(v.findings[i], a);
        }
    }
  }

  lemma NewShowsVerdicts(f: Finding)
    requires f.evidence == [] && f.verifications == []
    ensures ShowsVerdicts(f)
  {
  }

  // ---------------------------------------------------------------- lifecycle steps

  /** Each step's state: not required, complete, or open, the first open one being current. */
  lemma {:induction false} StepStatesTell(ms: seq<Milestone>, taken: bool, i: nat)
    requires i < |ms|
    ensures StepStates(ms, taken)[i] ==
            if !ms[i].required then NotRequired
            else if ms[i].complete then Complete
            else if !taken && !Pending(ms[..i]) then Current
            else Incomplete
    decreases |ms|
  {
    if i == 0 {
      assert ms[..0] == [];
    } else {
      var m := ms[0];
      var next := taken || (m.required && !m.complete);
      StepStatesTell(ms[1..], next, i - 1);
      PendingOfCons(ms[..i]);
      assert ms[..i][1..] == ms[1..][..i - 1];
    }
  }

  /** The step a driven open finding waits for, by its stored status: 1 and 2 CAP, 3 and 4 Evidence, 5 closure. */
  lemma DrivenFindingWaitsFor(id: FindingId, severity: int, cap: Option<bool>, evidence: Option<bool>, actions: seq<Action>)
    requires Driven(Converted(id, severity, cap, evidence), actions).status != Closed
    ensures var f := Driven(Converted(id, severity, cap, evidence), actions);
            var step := match f.status
              case WaitingCap => 1
              case CapSubmitted => 2
              case CapMoreInfo => 2
              case EvidenceRequired => 3
              case EvidenceSubmitted => if SomePartlyAccepted(f) then 5 else 4
              case EvidenceMoreInfo => if SomePartlyAccepted(f) then 5 else 4
              case _ => 5;
            && Lifecycle(f)[0] == Complete
            && Lifecycle(f)[step] == Current
            && (forall i :: 0 < i < step ==> Lifecycle(f)[i] == Complete || Lifecycle(f)[i] == NotRequired)
            && (forall i :: step < i < 6 ==> Lifecycle(f)[i] == Incomplete || Lifecycle(f)[i] == NotRequired)
  {
    hide Driven, StepStates, AwaitsReview, NeedsMore, MentionsAccepted, MentionsSubmitted, CapMentionsAccepted;
    DrivenIsShaped(id, severity, cap, evidence, actions);
    var f := Driven(Converted(id, severity, cap, evidence), actions);
    DrivenIsDated(id, severity, cap, evidence, actions);
    WaitsFor(f);
  }

  predicate SomePartlyAccepted(f: Finding) {
    exists i :: 0 <= i < |f.evidence| && (f.evidence[i].status == PartiallyAccepted || f.evidence[i].status == Accepted)
  }

  /** An accepted or waiting CAP counts as submitted whatever its date. */
  lemma DrivenIsDated(id: FindingId, severity: int, cap: Option<bool>, evidence: Option<bool>, actions: seq<Action>)
    ensures var f := Driven(Converted(id, severity, cap, evidence), actions);
            f.cap.Some? && f.status != Closed ==> f.cap.value.status != CapNotSubmitted
  {
    DrivenIsShaped(id, severity, cap, evidence, actions);
  }

  lemma WaitsFor(f: Finding)
    requires Shaped(f) && Numbered(f.evidence) && f.status != Closed
    ensures var step := match f.status
              case WaitingCap => 1
              case CapSubmitted => 2
              case CapMoreInfo => 2
              case EvidenceRequired => 3
              case EvidenceSubmitted => if SomePartlyAccepted(f) then 5 else 4
              case EvidenceMoreInfo => if SomePartlyAccepted(f) then 5 else 4
              case _ => 5;
            && Lifecycle(f)[0] == Complete
            && Lifecycle(f)[step] == Current
            && (forall i :: 0 < i < step ==> Lifecycle(f)[i] == Complete || Lifecycle(f)[i] == NotRequired)
            && (forall i :: step < i < 6 ==> Lifecycle(f)[i] == Incomplete || Lifecycle(f)[i] == NotRequired)
  {
    hide StepStates, AwaitsReview, NeedsMore, MentionsAccepted, MentionsSubmitted, CapMentionsAccepted;
    StatusTexts();
    var ms := Milestones(f);
    forall i | 0 <= i < 6
      ensures Lifecycle(f)[i] ==
              if !ms[i].required then NotRequired
              else if ms[i].complete then Complete
              else if !Pending(ms[..i]) then Current
              else Incomplete
    {
      StepStatesTell(ms, false, i);
    }
    assert ms[4].complete <==> f.evidenceRequired && SomePartlyAccepted(f);
  }

  // ---------------------------------------------------------------- any finding

  /** The latest Evidence is the last one of the highest version. */
  lemma {:induction false} LatestIsLastHighest(evidence: seq<Evidence>)
    ensures var i := LatestIndex(evidence);
            && (evidence != [] ==> i >= 0)
            && forall j :: 0 <= j < |evidence| ==>
                 evidence[j].version <= evidence[i].version && (j > i ==> evidence[j].version < evidence[i].version)
  {
    if evidence != [] {
      LatestIsLastHighest(evidence[..|evidence| - 1]);
    }
  }

  /** Whatever its history, when the CAP counts as submitted and when the Evidence counts as verified. */
  lemma MilestonesTell(f: Finding)
    ensures var ms := Milestones(f);
            && (ms[1].complete <==> f.capRequired && f.cap.Some? && (f.cap.value.submittedDate != "" || f.cap.value.status != CapNotSubmitted))
            && (ms[2].complete <==> f.capRequired && f.cap.Some? && f.cap.value.status == CapAccepted)
            && (ms[3].complete <==> f.evidenceRequired && f.evidence != [])
            && (ms[4].complete <==> (f.evidenceRequired && SomePartlyAccepted(f)) || (f.status == Closed && f.closure == Some(EvidenceVerified)))
            && (ms[5].complete <==> f.status == Closed)
            && ms[0] == Milestone(true, true) && ms[5].required
            && (ms[1].required <==> f.capRequired) && (ms[2].required <==> f.capRequired)
            && (ms[3].required <==> f.evidenceRequired) && (ms[4].required <==> f.evidenceRequired)
  {
    hide AwaitsReview, NeedsMore, MentionsAccepted, MentionsSubmitted, CapMentionsAccepted;
    StatusTexts();
  }

  // ---------------------------------------------------------------- the way on

  /** An action that is offered, accepted and leads to a status. */
  predicate LeadsTo(f: Finding, a: Action, next: Status) {
    Offered(f, a) && Act(f, a).Some? && Act(f, a).value.status == next
  }

  /**
   * From every open status the screens offer the way on: the CAP is submitted,
   * returned and submitted again or accepted, Evidence is uploaded, sent back and
   * uploaded again or accepted, and an authorized closure is always there.
   */
  lemma WayOnIsOffered(f: Finding, role: Role, date: string, file: string)
    requires Shaped(f) && f.status != Closed && MayInspect(role)
    ensures LeadsTo(f, CloseByAuthority(Manager, "R"), Closed)
    ensures f.status == WaitingCap || f.status == CapMoreInfo ==> LeadsTo(f, SubmitCap(true, date), CapSubmitted)
    ensures f.status == CapSubmitted ==>
              && LeadsTo(f, DecideCap(role, true, ""), if f.evidenceRequired then EvidenceRequired else ReadyForVerification)
              && LeadsTo(f, DecideCap(role, false, "R"), CapMoreInfo)
    ensures f.status == EvidenceRequired || f.status == EvidenceMoreInfo ==> LeadsTo(f, SubmitEvidence(Some(file)), EvidenceSubmitted)
    ensures f.status == EvidenceSubmitted ==>
              && LeadsTo(f, Verify(role, Close, "R", "R"), Closed)
              && LeadsTo(f, Verify(role, PartiallyClose, "R", "R"), EvidenceMoreInfo)
              && LeadsTo(f, Verify(role, NotClose, "R", "R"), EvidenceMoreInfo)
  {
    assert Text.Trim("R") == "R";
  }
}
