// Findings: conversion, CAP and Evidence handling, verification and authorized
// closure, and the status recomputed from a finding's parts.
module Findings {
  import opened Wrappers
  import Text

  type FindingId = string

  datatype Status =
    | OpenObservation | WaitingCap | CapSubmitted | CapMoreInfo
    | EvidenceRequired | EvidenceSubmitted | EvidenceMoreInfo
    | ReadyForVerification | Closed

  /** CAP statuses as stored: "Not Submitted", "Submitted", "Accepted", "More Information Requested". */
  datatype CapStatus = CapNotSubmitted | CapWaiting | CapAccepted | CapReturned

  /** Evidence statuses: "Uploaded", "Accepted", "Partially Accepted", "More Information Requested". */
  datatype EvidenceStatus = Uploaded | Accepted | PartiallyAccepted | MoreInformation

  datatype Cap = Cap(status: CapStatus, submittedDate: string)

  datatype Evidence = Evidence(version: nat, file: string, status: EvidenceStatus)

  datatype Result = Close | PartiallyClose | NotClose

  datatype Role = Inspector | LeadInspector | Manager | Auditee | OtherRole

  datatype Verification = Verification(result: Result, role: Role, evidenceVersion: nat)

  datatype Closure = EvidenceVerified | Authorized

  datatype Finding = Finding(
    id: FindingId,
    status: Status,
    capRequired: bool,
    evidenceRequired: bool,
    cap: Option<Cap>,
    evidence: seq<Evidence>,
    verifications: seq<Verification>,
    closure: Option<Closure>)

  datatype LogEntry =
    | ClosureLogged(target: FindingId, role: Role, reason: string)
    | VerificationLogged(target: FindingId, result: Result)

  /** The findings in creation order, the newest log entry first. */
  datatype World = World(findings: seq<Finding>, log: seq<LogEntry>)

  // ---------------------------------------------------------------- actions

  /** findingRequirementDefaults: observations need neither CAP nor Evidence. */
  function RequiredByDefault(severity: int): bool {
    severity != 4 && severity != 0
  }

  /** convertPotentialFindingToFinding: the new finding's requirements and first status. */
  function Converted(id: FindingId, severity: int, cap: Option<bool>, evidence: Option<bool>): Finding {
    var capRequired := match cap case Some(b) => b case None => RequiredByDefault(severity);
    var evidenceRequired := match evidence case Some(b) => b case None => RequiredByDefault(severity);
    var status := if capRequired then WaitingCap else if evidenceRequired then EvidenceRequired else OpenObservation;
    Finding(id, status, capRequired, evidenceRequired, None, [], [], None)
  }

  datatype Action =
    | SubmitCap(complete: bool, date: string)
    | DecideCap(role: Role, accept: bool, comment: string)
    | SubmitEvidence(file: Option<string>)
    | Verify(role: Role, result: Result, comment: string, note: string)
    | CloseByAuthority(role: Role, reason: string)

  /** The highest version so far; submitEvidence numbers the next one after it. */
  function MaxVersion(evidence: seq<Evidence>): nat {
    if evidence == [] then 0
    else
      var before := MaxVersion(evidence[..|evidence| - 1]);
      var last := evidence[|evidence| - 1].version;
      if last > before then last else before
  }

  /** capVerificationLatestEvidence: the last of the highest versions, by position; -1 for none. */
  function LatestIndex(evidence: seq<Evidence>): (i: int)
    ensures -1 <= i < |evidence| && (i == -1 <==> evidence == [])
  {
    if evidence == [] then -1
    else
      var i := LatestIndex(evidence[..|evidence| - 1]);
      if i == -1 || evidence[|evidence| - 1].version >= evidence[i].version then |evidence| - 1 else i
  }

  function EvidenceAfter(result: Result): EvidenceStatus {
    match result
    case Close => Accepted
    case PartiallyClose => PartiallyAccepted
    case NotClose => MoreInformation
  }

  function Verified(f: Finding, role: Role, result: Result): Finding
    requires f.evidence != []
  {
    var i := LatestIndex(f.evidence);
    var latest := f.evidence[i];
    f.(evidence := f.evidence[i := latest.(status := EvidenceAfter(result))],
       verifications := f.verifications + [Verification(result, role, latest.version)],
       status := if result == Close then Closed else EvidenceMoreInfo,
       closure := if result == Close then Some(EvidenceVerified) else None)
  }

  predicate IsInspector(role: Role) {
    role == Inspector || role == LeadInspector
  }

  /** What an action does to a finding; None where the handler refuses it. */
  function Act(f: Finding, a: Action): Option<Finding> {
    match a
    case SubmitCap(complete, date) =>
      if !complete then None else Some(f.(cap := Some(Cap(CapWaiting, date)), status := CapSubmitted))
    case DecideCap(role, accept, comment) =>
      if !IsInspector(role) || f.cap == None then None
      else if accept then
        Some(f.(cap := Some(f.cap.value.(status := CapAccepted)),
                status := if f.evidenceRequired then EvidenceRequired else ReadyForVerification))
      else if Text.Trim(comment) == "" then None
      else Some(f.(cap := Some(f.cap.value.(status := CapReturned)), status := CapMoreInfo))
    case SubmitEvidence(file) =>
      if file == None then None
      else
        Some(f.(evidence := f.evidence + [Evidence(MaxVersion(f.evidence) + 1, file.value, Uploaded)],
                status := EvidenceSubmitted))
    case Verify(role, result, comment, note) =>
      if !IsInspector(role) || f.status != EvidenceSubmitted || f.evidence == [] then None
      else if Text.Trim(comment) == "" || Text.Trim(note) == "" then None
      else Some(Verified(f, role, result))
    case CloseByAuthority(role, reason) =>
      if role != Manager || Text.Trim(reason) == "" then None
      else Some(f.(status := Closed, closure := Some(Authorized)))
  }

  /** The audit-log lines this model keeps: verifications and authorized closures. */
  function LogOf(f: Finding, a: Action): seq<LogEntry> {
    match a
    case Verify(_, result, _, _) => [VerificationLogged(f.id, result)]
    case CloseByAuthority(role, reason) => [ClosureLogged(f.id, role, Text.Trim(reason))]
    case _ => []
  }

  /** findingById: the first finding with the id, or -1. */
  function IndexOf(findings: seq<Finding>, id: FindingId, from: nat := 0): (i: int)
    requires from <= |findings|
    ensures -1 <= i < |findings| && (i >= 0 ==> findings[i].id == id)
    decreases |findings| - from
  {
    if from == |findings| then -1
    else if findings[from].id == id then from
    else IndexOf(findings, id, from + 1)
  }

  datatype Step =
    | Convert(id: FindingId, severity: int, cap: Option<bool>, evidence: Option<bool>)
    | On(id: FindingId, action: Action)

  function Apply(w: World, s: Step): World {
    match s
    case Convert(id, severity, cap, evidence) => w.(findings := w.findings + [Converted(id, severity, cap, evidence)])
    case On(id, a) =>
      var i := IndexOf(w.findings, id);
      if i < 0 then w
      else
        match Act(w.findings[i], a)
        case Some(g) => World(w.findings[i := g], LogOf(w.findings[i], a) + w.log)
        case None => w
  }

  function After(w: World, steps: seq<Step>): World {
    if steps == [] then w else Apply(After(w, steps[..|steps| - 1]), steps[|steps| - 1])
  }

  /** The state the handlers update in place. */
  class FindingState {
    var findings: seq<Finding>
    var log: seq<LogEntry>

    constructor (w: World)
      ensures Value() == w
    {
      findings, log := w.findings, w.log;
    }

    function Value(): World
      reads this
    {
      World(findings, log)
    }

    method UploadEvidence(id: FindingId, file: Option<string>) returns (version: Option<nat>)
      modifies this
      ensures Value() == Apply(old(Value()), On(id, SubmitEvidence(file)))
      ensures version.Some? <==> file.Some? && IndexOf(old(findings), id) >= 0
    {
      var i := IndexOf(findings, id);
      if i < 0 || file == None {
        return None;
      }
      var f := findings[i];
      var maxV := 0;
      for k := 0 to |f.evidence|
        invariant maxV == MaxVersion(f.evidence[..k])
      {
        assert f.evidence[..k + 1][..k] == f.evidence[..k];
        if f.evidence[k].version > maxV {
          maxV := f.evidence[k].version;
        }
      }
      assert f.evidence[..|f.evidence|] == f.evidence;
      var evidence := f.evidence + [Evidence(maxV + 1, file.value, Uploaded)];
      findings := findings[i := f.(evidence := evidence, status := EvidenceSubmitted)];
      version := Some(maxV + 1);
      assert [] + log == log;
    }

    method RecordVerification(id: FindingId, role: Role, result: Result, comment: string, note: string) returns (ok: bool)
      modifies this
      ensures Value() == Apply(old(Value()), On(id, Verify(role, result, comment, note)))
      ensures ok ==> IndexOf(old(findings), id) >= 0 && |log| == |old(log)| + 1
      ensures !ok ==> Value() == old(Value())
    {
      var i := IndexOf(findings, id);
      if !IsInspector(role) || i < 0 {
        return false;
      }
      var f := findings[i];
      if f.status != EvidenceSubmitted || f.evidence == [] || Text.Trim(comment) == "" || Text.Trim(note) == "" {
        return false;
      }
      var latest := 0;
      for k := 1 to |f.evidence|
        invariant latest == LatestIndex(f.evidence[..k])
      {
        assert f.evidence[..k + 1][..k] == f.evidence[..k];
        if f.evidence[k].version >= f.evidence[latest].version {
          latest := k;
        }
      }
      assert f.evidence[..|f.evidence|] == f.evidence;
      var record := Verification(result, role, f.evidence[latest].version);
      var g := f.(verifications := f.verifications + [record]);
      g := g.(evidence := f.evidence[latest := f.evidence[latest].(status := EvidenceAfter(result))]);
      if result == Close {
        g := g.(status := Closed, closure := Some(EvidenceVerified));
      } else {
        g := g.(status := EvidenceMoreInfo, closure := None);
      }
      findings := findings[i := g];
      log := [VerificationLogged(f.id, result)] + log;
      ok := true;
    }

    method Handle(id: FindingId, a: Action) returns (ok: bool)
      requires a.SubmitCap? || a.DecideCap? || a.CloseByAuthority?
      modifies this
      ensures Value() == Apply(old(Value()), On(id, a))
      ensures ok <==> IndexOf(old(findings), id) >= 0 && Act(old(findings)[IndexOf(old(findings), id)], a).Some?
    {
      var i := IndexOf(findings, id);
      if i < 0 {
        return false;
      }
      var f := findings[i];
      var g := f;
      if a.SubmitCap? {
        if !a.complete {
          return false;
        }
        g := g.(cap := Some(Cap(CapWaiting, a.date)), status := CapSubmitted);
      } else if a.DecideCap? {
        if !IsInspector(a.role) || f.cap == None {
          return false;
        }
        if a.accept {
          g := g.(cap := Some(f.cap.value.(status := CapAccepted)));
          g := g.(status := if f.evidenceRequired then EvidenceRequired else ReadyForVerification);
        } else {
          if Text.Trim(a.comment) == "" {
            return false;
          }
          g := g.(cap := Some(f.cap.value.(status := CapReturned)), status := CapMoreInfo);
        }
      } else {
        if a.role != Manager || Text.Trim(a.reason) == "" {
          return false;
        }
        g := g.(status := Closed, closure := Some(Authorized));
        log := [ClosureLogged(f.id, a.role, Text.Trim(a.reason))] + log;
      }
      findings := findings[i := g];
      assert [] + log == log;
      ok := true;
    }
  }

  // ---------------------------------------------------------------- recomputed status

  // The regular expressions of work-items.js, on the texts of the statuses that occur.

  function EvidenceText(s: EvidenceStatus): string {
    match s
    case Uploaded => "Uploaded"
    case Accepted => "Accepted"
    case PartiallyAccepted => "Partially Accepted"
    case MoreInformation => "More Information Requested"
  }

  function CapText(s: CapStatus): string {
    match s
    case CapNotSubmitted => "Not Submitted"
    case CapWaiting => "Submitted"
    case CapAccepted => "Accepted"
    case CapReturned => "More Information Requested"
  }

  /** /uploaded|submitted|pending/i on an Evidence status. */
  predicate AwaitsReview(s: EvidenceStatus) {
    var text := EvidenceText(s);
    Text.Mentions(text, "uploaded") || Text.Mentions(text, "submitted") || Text.Mentions(text, "pending")
  }

  /** /rejected|more information|revision|partially accepted/i */
  predicate NeedsMore(s: EvidenceStatus) {
    var text := EvidenceText(s);
    || Text.Mentions(text, "rejected") || Text.Mentions(text, "more information")
    || Text.Mentions(text, "revision") || Text.Mentions(text, "partially accepted")
  }

  /** /accepted|verified/i */
  predicate MentionsAccepted(s: EvidenceStatus) {
    var text := EvidenceText(s);
    Text.Mentions(text, "accepted") || Text.Mentions(text, "verified")
  }

  /** /submitted|pending/i on a CAP status. */
  predicate MentionsSubmitted(s: CapStatus) {
    var text := CapText(s);
    Text.Mentions(text, "submitted") || Text.Mentions(text, "pending")
  }

  /** /accepted/i on a CAP status. */
  predicate CapMentionsAccepted(s: CapStatus) {
    Text.Mentions(CapText(s), "accepted")
  }

  lemma Contains(s: string, word: string, i: nat)
    requires i + |word| <= |s| && Text.MentionsAt(s, word, i)
    ensures Text.Mentions(s, word)
  {
  }

  /** A text of the given letters only, in small letters. */
  predicate IsOf(s: string, letters: string) {
    forall i :: 0 <= i < |s| ==> Text.Lower(s[i]) in letters
  }

  /** A text without a letter of a word does not contain the word. */
  lemma Lacks(s: string, letters: string, word: string, k: nat)
    requires IsOf(s, letters) && k < |word| && word[k] !in letters
    ensures !Text.Mentions(s, word)
  {
    forall i | 0 <= i <= |s| - |word|
      ensures !Text.MentionsAt(s, word, i)
    {
      assert Text.Lower(s[i + k]) in letters;
    }
  }

  lemma UploadedLetters()
    ensures IsOf("Uploaded", "uploade")
  {
  }

  lemma AcceptedLetters()
    ensures IsOf("Accepted", "aceptd")
  {
  }

  lemma PartiallyAcceptedLetters()
    ensures IsOf("Partially Accepted", "partily ced")
  {
  }

  lemma MoreInformationLetters()
    ensures IsOf("More Information Requested", "more infatqusd")
  {
  }

  lemma NotSubmittedLetters()
    ensures IsOf("Not Submitted", "not submied")
  {
  }

  lemma SubmittedLetters()
    ensures IsOf("Submitted", "submited")
  {
  }

  lemma UploadedText()
    ensures AwaitsReview(Uploaded) && !NeedsMore(Uploaded) && !MentionsAccepted(Uploaded)
  {
    hide Text.Mentions, IsOf;
    UploadedLetters();
    Contains("Uploaded", "uploaded", 0);
    Lacks("Uploaded", "uploade", "submitted", 0);
    Lacks("Uploaded", "uploade", "pending", 2);
    Lacks("Uploaded", "uploade", "rejected", 0);
    Lacks("Uploaded", "uploade", "more information", 0);
    Lacks("Uploaded", "uploade", "revision", 0);
    Lacks("Uploaded", "uploade", "partially accepted", 2);
    Lacks("Uploaded", "uploade", "accepted", 1);
    Lacks("Uploaded", "uploade", "verified", 0);
  }

  lemma AcceptedText()
    ensures !AwaitsReview(Accepted) && !NeedsMore(Accepted) && MentionsAccepted(Accepted)
  {
    hide Text.Mentions, IsOf;
    AcceptedLetters();
    Lacks("Accepted", "aceptd", "uploaded", 0);
    Lacks("Accepted", "aceptd", "submitted", 0);
    Lacks("Accepted", "aceptd", "pending", 2);
    Lacks("Accepted", "aceptd", "rejected", 0);
    Lacks("Accepted", "aceptd", "more information", 0);
    Lacks("Accepted", "aceptd", "revision", 0);
    Lacks("Accepted", "aceptd", "partially accepted", 2);
    Contains("Accepted", "accepted", 0);
    Lacks("Accepted", "aceptd", "verified", 0);
  }

  lemma PartiallyAcceptedIsMentioned()
    ensures NeedsMore(PartiallyAccepted) && MentionsAccepted(PartiallyAccepted)
  {
    hide Text.Mentions;
    Contains("Partially Accepted", "partially accepted", 0);
    Contains("Partially Accepted", "accepted", 10);
  }

  lemma PartiallyAcceptedAwaitsNothing()
    ensures !AwaitsReview(PartiallyAccepted)
  {
    hide Text.Mentions, IsOf;
    PartiallyAcceptedLetters();
    Lacks("Partially Accepted", "partily ced", "uploaded", 0);
    Lacks("Partially Accepted", "partily ced", "submitted", 0);
    Lacks("Partially Accepted", "partily ced", "pending", 2);
  }

  lemma PartiallyAcceptedText()
    ensures !AwaitsReview(PartiallyAccepted) && NeedsMore(PartiallyAccepted) && MentionsAccepted(PartiallyAccepted)
  {
    hide AwaitsReview, NeedsMore, MentionsAccepted;
    PartiallyAcceptedIsMentioned();
    PartiallyAcceptedAwaitsNothing();
  }

  lemma MoreInformationIsMentioned()
    ensures NeedsMore(MoreInformation)
  {
    hide Text.Mentions;
    Contains("More Information Requested", "more information", 0);
  }

  lemma MoreInformationAwaitsNothing()
    ensures !AwaitsReview(MoreInformation)
  {
    hide Text.Mentions, IsOf;
    MoreInformationLetters();
    Lacks("More Information Requested", "more infatqusd", "uploaded", 1);
    Lacks("More Information Requested", "more infatqusd", "submitted", 2);
    Lacks("More Information Requested", "more infatqusd", "pending", 0);
  }

  lemma MoreInformationIsNotAccepted()
    ensures !MentionsAccepted(MoreInformation)
  {
    hide Text.Mentions, IsOf;
    MoreInformationLetters();
    Lacks("More Information Requested", "more infatqusd", "accepted", 1);
    Lacks("More Information Requested", "more infatqusd", "verified", 0);
  }

  lemma MoreInformationText()
    ensures !AwaitsReview(MoreInformation) && NeedsMore(MoreInformation) && !MentionsAccepted(MoreInformation)
  {
    hide AwaitsReview, NeedsMore, MentionsAccepted;
    MoreInformationIsMentioned();
    MoreInformationAwaitsNothing();
    MoreInformationIsNotAccepted();
  }

  lemma EvidenceTexts(s: EvidenceStatus)
    ensures AwaitsReview(s) <==> s == Uploaded
    ensures NeedsMore(s) <==> s == PartiallyAccepted || s == MoreInformation
    ensures MentionsAccepted(s) <==> s == Accepted || s == PartiallyAccepted
  {
    hide AwaitsReview, NeedsMore, MentionsAccepted;
    match s
    case Uploaded => UploadedText();
    case Accepted => AcceptedText();
    case PartiallyAccepted => PartiallyAcceptedText();
    case MoreInformation => MoreInformationText();
  }

  lemma CapNotSubmittedText()
    ensures MentionsSubmitted(CapNotSubmitted) && !CapMentionsAccepted(CapNotSubmitted)
  {
    hide Text.Mentions, IsOf;
    NotSubmittedLetters();
    Contains("Not Submitted", "submitted", 4);
    Lacks("Not Submitted", "not submied", "pending", 0);
    Lacks("Not Submitted", "not submied", "accepted", 0);
  }

  lemma CapWaitingText()
    ensures MentionsSubmitted(CapWaiting) && !CapMentionsAccepted(CapWaiting)
  {
    hide Text.Mentions, IsOf;
    SubmittedLetters();
    Contains("Submitted", "submitted", 0);
    Lacks("Submitted", "submited", "pending", 0);
    Lacks("Submitted", "submited", "accepted", 0);
  }

  lemma CapAcceptedText()
    ensures !MentionsSubmitted(CapAccepted) && CapMentionsAccepted(CapAccepted)
  {
    hide Text.Mentions, IsOf;
    AcceptedLetters();
    Lacks("Accepted", "aceptd", "submitted", 0);
    Lacks("Accepted", "aceptd", "pending", 2);
    Contains("Accepted", "accepted", 0);
  }

  lemma CapReturnedText()
    ensures !MentionsSubmitted(CapReturned) && !CapMentionsAccepted(CapReturned)
  {
    hide Text.Mentions, IsOf;
    MoreInformationLetters();
    Lacks("More Information Requested", "more infatqusd", "submitted", 2);
    Lacks("More Information Requested", "more infatqusd", "pending", 0);
    Lacks("More Information Requested", "more infatqusd", "accepted", 1);
  }

  lemma CapTexts(s: CapStatus)
    ensures MentionsSubmitted(s) <==> s == CapWaiting || s == CapNotSubmitted
    ensures CapMentionsAccepted(s) <==> s == CapAccepted
  {
    hide MentionsSubmitted, CapMentionsAccepted;
    match s
    case CapNotSubmitted => CapNotSubmittedText();
    case CapWaiting => CapWaitingText();
    case CapAccepted => CapAcceptedText();
    case CapReturned => CapReturnedText();
  }

  /** What the expressions find: "Partially Accepted" counts as accepted, and "Not Submitted" as submitted. */
  lemma StatusTexts()
    ensures forall e :: AwaitsReview(e) <==> e == Uploaded
    ensures forall e :: NeedsMore(e) <==> e == PartiallyAccepted || e == MoreInformation
    ensures forall e :: MentionsAccepted(e) <==> e == Accepted || e == PartiallyAccepted
    ensures forall c :: MentionsSubmitted(c) <==> c == CapWaiting || c == CapNotSubmitted
    ensures forall c :: CapMentionsAccepted(c) <==> c == CapAccepted
  {
    hide AwaitsReview, NeedsMore, MentionsAccepted, MentionsSubmitted, CapMentionsAccepted;
    forall e
      ensures AwaitsReview(e) <==> e == Uploaded
      ensures NeedsMore(e) <==> e == PartiallyAccepted || e == MoreInformation
      ensures MentionsAccepted(e) <==> e == Accepted || e == PartiallyAccepted
    {
      EvidenceTexts(e);
    }
    forall c
      ensures MentionsSubmitted(c) <==> c == CapWaiting || c == CapNotSubmitted
      ensures CapMentionsAccepted(c) <==> c == CapAccepted
    {
      CapTexts(c);
    }
  }

  /** findingWorkState's status key. */
  function WorkStatus(f: Finding): Status {
    var n := |f.evidence|;
    if f.status == Closed then Closed
    else if n > 0 && AwaitsReview(f.evidence[n - 1].status) then EvidenceSubmitted
    else if n > 0 && NeedsMore(f.evidence[n - 1].status) then EvidenceMoreInfo
    else if f.cap.Some? && CapMentionsAccepted(f.cap.value.status) && f.evidenceRequired then EvidenceRequired
    else if f.cap.Some? && MentionsSubmitted(f.cap.value.status) then CapSubmitted
    else if !f.capRequired && !f.evidenceRequired then OpenObservation
    else f.status
  }

  datatype StepState = NotRequired | Complete | Current | Incomplete

  /** One lifecycle step: whether it is done and whether the finding needs it. */
  datatype Milestone = Milestone(complete: bool, required: bool)

  function Milestones(f: Finding): (ms: seq<Milestone>)
    ensures |ms| == 6
  {
    var verified :=
      (f.evidenceRequired && exists i :: 0 <= i < |f.evidence| && MentionsAccepted(f.evidence[i].status))
      || (f.status == Closed && f.closure == Some(EvidenceVerified));
    [Milestone(true, true),
     Milestone(f.capRequired && f.cap.Some? && (f.cap.value.submittedDate != "" || f.cap.value.status != CapNotSubmitted), f.capRequired),
     Milestone(f.capRequired && f.cap.Some? && CapMentionsAccepted(f.cap.value.status), f.capRequired),
     Milestone(f.evidenceRequired && f.evidence != [], f.evidenceRequired),
     Milestone(verified, f.evidenceRequired),
     Milestone(WorkStatus(f) == Closed, true)]
  }

  /** The first required step that is not complete is the current one. */
  function StepStates(ms: seq<Milestone>, taken: bool := false): (states: seq<StepState>)
    ensures |states| == |ms|
  {
    if ms == [] then []
    else
      var m := ms[0];
      if !m.required then [NotRequired] + StepStates(ms[1..], taken)
      else if m.complete then [Complete] + StepStates(ms[1..], taken)
      else if !taken then [Current] + StepStates(ms[1..], true)
      else [Incomplete] + StepStates(ms[1..], taken)
  }

  function Lifecycle(f: Finding): seq<StepState> {
    StepStates(Milestones(f))
  }
}
