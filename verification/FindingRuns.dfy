// What every run keeps of a finding: why it is closed, how its Evidence is
// numbered, and that the stored status is the one recomputed from its parts.
module FindingRuns {
  import opened Wrappers
  import opened Findings
  import Text

  // ---------------------------------------------------------------- closure

  predicate Numbered(evidence: seq<Evidence>) {
    forall i :: 0 <= i < |evidence| ==> evidence[i].version == i + 1
  }

  lemma {:induction false} NumberedLatest(evidence: seq<Evidence>)
    requires Numbered(evidence)
    ensures LatestIndex(evidence) == |evidence| - 1 && MaxVersion(evidence) == |evidence|
  {
    if evidence != [] {
      NumberedLatest(evidence[..|evidence| - 1]);
    }
  }

  /** The highest Evidence version is Accepted and named by the last verification, which closed the finding. */
  predicate ClosedByEvidence(f: Finding) {
    && f.evidence != [] && f.verifications != []
    && f.evidence[|f.evidence| - 1].status == Accepted
    && f.verifications[|f.verifications| - 1].result == Close
    && f.verifications[|f.verifications| - 1].evidenceVersion == f.evidence[|f.evidence| - 1].version == |f.evidence|
    && IsInspector(f.verifications[|f.verifications| - 1].role)
  }

  /** The log holds a closure of the finding by the Department Manager with a reason. */
  predicate ClosedByAuthority(f: Finding, log: seq<LogEntry>) {
    exists k :: 0 <= k < |log| && IsAuthority(log[k], f.id)
  }

  predicate IsAuthority(e: LogEntry, id: FindingId) {
    e.ClosureLogged? && e.target == id && e.role == Manager && e.reason != ""
  }

  /** A closed finding says how it was closed, and that is true. */
  predicate Sound(f: Finding, log: seq<LogEntry>) {
    && Numbered(f.evidence)
    && (f.status == Closed ==>
          match f.closure
          case Some(EvidenceVerified) => ClosedByEvidence(f)
          case Some(Authorized) => ClosedByAuthority(f, log)
          case None => false)
  }

  lemma LogOnlyGrows(f: Finding, log: seq<LogEntry>, added: seq<LogEntry>)
    requires Sound(f, log)
    ensures Sound(f, added + log)
  {
    if ClosedByAuthority(f, log) {
      var k :| 0 <= k < |log| && IsAuthority(log[k], f.id);
      assert IsAuthority((added + log)[|added| + k], f.id);
    }
  }

  lemma ActIsSound(f: Finding, a: Action, log: seq<LogEntry>)
    requires Sound(f, log) && Act(f, a).Some?
    ensures Sound(Act(f, a).value, LogOf(f, a) + log) && Act(f, a).value.id == f.id
  {
    hide Text.Trim;
    NumberedLatest(f.evidence);
    if a.CloseByAuthority? {
      assert IsAuthority((LogOf(f, a) + log)[0], f.id);
    }
  }

  predicate AllSound(w: World) {
    forall i :: 0 <= i < |w.findings| ==> Sound(w.findings[i], w.log)
  }

  lemma StepIsSound(w: World, s: Step)
    requires AllSound(w)
    ensures AllSound(Apply(w, s))
  {
    hide Sound, Act, LogOf;
    match s
    case Convert(id, severity, cap, evidence) =>
      ConvertedIsSound(Converted(id, severity, cap, evidence), w.log);
    case On(id, a) =>
      var i := IndexOf(w.findings, id);
      if i >= 0 && Act(w.findings[i], a).Some? {
        var added := LogOf(w.findings[i], a);
        ActIsSound(w.findings[i], a, w.log);
        forall k | 0 <= k < |w.findings|
          ensures Sound(w.findings[k], added + w.log)
        {
          LogOnlyGrows(w.findings[k], w.log, added);
        }
      }
  }

  lemma ConvertedIsSound(f: Finding, log: seq<LogEntry>)
    requires f.evidence == [] && f.status != Closed
    ensures Sound(f, log)
  {
  }

  /**
   * On every run, whatever actions are taken in whatever order, a closed finding
   * was closed the way it says, by accepted Evidence or by a logged authority, and
   * Evidence is 1..n.
   */
  lemma {:induction false} RunsAreSound(w: World, steps: seq<Step>)
    requires AllSound(w)
    ensures AllSound(After(w, steps))
  {
    hide AllSound, Apply;
    if steps != [] {
      RunsAreSound(w, steps[..|steps| - 1]);
      StepIsSound(After(w, steps[..|steps| - 1]), steps[|steps| - 1]);
    }
  }

  // ---------------------------------------------------------------- the recomputed status

  /** The actions the screens offer for a stored status. */
  predicate Offered(f: Finding, a: Action) {
    match a
    case SubmitCap(_, _) => f.status == WaitingCap || f.status == CapMoreInfo
    case DecideCap(_, _, _) => f.status == CapSubmitted
    case SubmitEvidence(_) => f.status == EvidenceRequired || f.status == EvidenceMoreInfo
    case Verify(_, _, _, _) => f.status == EvidenceSubmitted
    case CloseByAuthority(_, _) => f.status != Closed
  }

  /** A finding after actions taken only while offered. */
  function Driven(f: Finding, actions: seq<Action>): Finding {
    if actions == [] then f
    else
      var g := Driven(f, actions[..|actions| - 1]);
      var a := actions[|actions| - 1];
      if Offered(g, a) && Act(g, a).Some? then Act(g, a).value else g
  }

  /** The CAP is accepted if there had to be one, and absent otherwise. */
  predicate CapSettled(f: Finding) {
    if f.capRequired then f.cap.Some? && f.cap.value.status == CapAccepted else f.cap == None
  }

  /** What each stored status says about the parts of a finding. */
  predicate Shaped(f: Finding) {
    var n := |f.evidence|;
    match f.status
    case OpenObservation => !f.capRequired && !f.evidenceRequired && f.cap == None && n == 0
    case WaitingCap => f.capRequired && f.cap == None && n == 0
    case CapSubmitted => f.capRequired && n == 0 && f.cap.Some? && f.cap.value.status == CapWaiting
    case CapMoreInfo => f.capRequired && n == 0 && f.cap.Some? && f.cap.value.status == CapReturned
    case EvidenceRequired => f.evidenceRequired && n == 0 && CapSettled(f)
    case ReadyForVerification => f.capRequired && !f.evidenceRequired && n == 0 && CapSettled(f)
    case EvidenceSubmitted => f.evidenceRequired && n > 0 && CapSettled(f) && f.evidence[n - 1].status == Uploaded
    case EvidenceMoreInfo => f.evidenceRequired && n > 0 && CapSettled(f) && NeedsMore(f.evidence[n - 1].status)
    case Closed =>
      f.closure == Some(Authorized)
      || (f.closure == Some(EvidenceVerified) && f.evidenceRequired && n > 0 && CapSettled(f) && f.evidence[n - 1].status == Accepted)
  }

  lemma ActKeepsShape(f: Finding, a: Action)
    requires Shaped(f) && Numbered(f.evidence) && Offered(f, a) && Act(f, a).Some?
    ensures Shaped(Act(f, a).value) && Numbered(Act(f, a).value.evidence)
  {
    hide AwaitsReview, NeedsMore, MentionsAccepted, MentionsSubmitted, CapMentionsAccepted;
    StatusTexts();
    hide Text.Trim;
    NumberedLatest(f.evidence);
  }

  lemma {:induction false} DrivenIsShaped(id: FindingId, severity: int, cap: Option<bool>, evidence: Option<bool>, actions: seq<Action>)
    ensures var f := Driven(Converted(id, severity, cap, evidence), actions);
            Shaped(f) && Numbered(f.evidence)
  {
    hide Shaped, Act, Offered;
    if actions == [] {
      ConvertedIsShaped(id, severity, cap, evidence);
    } else {
      DrivenIsShaped(id, severity, cap, evidence, actions[..|actions| - 1]);
      var g := Driven(Converted(id, severity, cap, evidence), actions[..|actions| - 1]);
      var a := actions[|actions| - 1];
      if Offered(g, a) && Act(g, a).Some? {
        ActKeepsShape(g, a);
      }
    }
  }

  lemma ConvertedIsShaped(id: FindingId, severity: int, cap: Option<bool>, evidence: Option<bool>)
    ensures Shaped(Converted(id, severity, cap, evidence)) && Numbered(Converted(id, severity, cap, evidence).evidence)
  {
  }

  /** For a converted finding driven by offered actions, the recomputed status is the stored one. */
  lemma StoredStatusIsRecomputed(id: FindingId, severity: int, cap: Option<bool>, evidence: Option<bool>, actions: seq<Action>)
    ensures var f := Driven(Converted(id, severity, cap, evidence), actions);
            WorkStatus(f) == f.status
  {
    hide AwaitsReview, NeedsMore, MentionsAccepted, MentionsSubmitted, CapMentionsAccepted;
    StatusTexts();
    DrivenIsShaped(id, severity, cap, evidence, actions);
  }

  /** Seeded findings may differ: a CAP marked "Not Submitted" is shown as submitted. */
  lemma NotSubmittedCapIsShownAsSubmitted(f: Finding)
    requires f.status == WaitingCap && f.evidence == [] && f.cap.Some? && f.cap.value.status == CapNotSubmitted
    ensures WorkStatus(f) == CapSubmitted
  {
    hide AwaitsReview, NeedsMore, MentionsAccepted, MentionsSubmitted, CapMentionsAccepted;
    StatusTexts();
  }

  /** No Evidence waits for review or for more information. */
  predicate EvidenceIsQuiet(f: Finding) {
    f.evidence != [] ==>
      !AwaitsReview(f.evidence[|f.evidence| - 1].status) && !NeedsMore(f.evidence[|f.evidence| - 1].status)
  }

  /**
   * Offered or not, and whatever the finding was before: after an action the
   * recomputed status is the stored one exactly when the action is not a CAP step
   * taken while Evidence waits, nor a CAP decision on a finding that needs neither.
   */
  lemma RecomputedIff(f: Finding, a: Action)
    requires Numbered(f.evidence) && Act(f, a).Some?
    ensures WorkStatus(Act(f, a).value) == Act(f, a).value.status <==>
            && (a.SubmitCap? || a.DecideCap? ==> EvidenceIsQuiet(f))
            && (a.DecideCap? ==> f.capRequired || f.evidenceRequired)
  {
    hide AwaitsReview, NeedsMore, MentionsAccepted, MentionsSubmitted, CapMentionsAccepted;
    StatusTexts();
    hide Text.Trim;
    NumberedLatest(f.evidence);
  }

  /** For instance, accepting the CAP again while Evidence waits makes them differ. */
  lemma LateCapDecisionSplitsTheStatus(f: Finding, role: Role, comment: string)
    requires f.status == EvidenceSubmitted && Shaped(f) && f.capRequired && IsInspector(role)
    ensures var g := Act(f, DecideCap(role, true, comment));
            g.Some? && g.value.status == EvidenceRequired && WorkStatus(g.value) == EvidenceSubmitted
  {
    hide AwaitsReview, NeedsMore, MentionsAccepted, MentionsSubmitted, CapMentionsAccepted;
    StatusTexts();
  }

  // ---------------------------------------------------------------- lifecycle steps

  function Count(states: seq<StepState>, s: StepState): nat {
    multiset(states)[s]
  }

  lemma CountOfCons(first: StepState, rest: seq<StepState>, s: StepState)
    ensures Count([first] + rest, s) == (if first == s then 1 else 0) + Count(rest, s)
  {
    assert multiset([first] + rest) == multiset{first} + multiset(rest);
  }

  predicate Pending(ms: seq<Milestone>) {
    exists i :: 0 <= i < |ms| && ms[i].required && !ms[i].complete
  }

  /** At most one step is current, and one is exactly when something required is left to do. */
  lemma {:induction false} OneCurrentIffPending(ms: seq<Milestone>, taken: bool)
    ensures Count(StepStates(ms, taken), Current) == if !taken && Pending(ms) then 1 else 0
    decreases |ms|
  {
    hide Count;
    if ms == [] {
      CountOfNothing();
    } else {
      var rest := ms[1..];
      OneCurrentIffPending(rest, true);
      OneCurrentIffPending(rest, false);
      var states := StepStates(ms, taken);
      var first := states[0];
      assert states == [first] + states[1..];
      CountOfCons(first, states[1..], Current);
      PendingOfCons(ms);
    }
  }

  lemma CountOfNothing()
    ensures Count([], Current) == 0
  {
  }

  lemma PendingOfCons(ms: seq<Milestone>)
    requires ms != []
    ensures Pending(ms) <==> (ms[0].required && !ms[0].complete) || Pending(ms[1..])
  {
    if Pending(ms[1..]) {
      var i :| 0 <= i < |ms[1..]| && ms[1..][i].required && !ms[1..][i].complete;
      assert ms[i + 1] == ms[1..][i];
    }
    if Pending(ms) {
      var i :| 0 <= i < |ms| && ms[i].required && !ms[i].complete;
      assert i > 0 ==> ms[1..][i - 1] == ms[i];
    }
  }

  /** An open finding has exactly one current step. */
  lemma OpenFindingHasOneCurrentStep(f: Finding)
    requires f.status != Closed
    ensures Count(Lifecycle(f), Current) == 1
  {
    hide AwaitsReview, NeedsMore, MentionsAccepted, MentionsSubmitted, CapMentionsAccepted;
    StatusTexts();
    hide Count, StepStates;
    OneCurrentIffPending(Milestones(f), false);
    assert Milestones(f)[5].required && !Milestones(f)[5].complete;
  }

  /** After an evidence-verified closure of a driven finding every required step is complete. */
  lemma VerifiedClosureCompletesTheLifecycle(
    id: FindingId, severity: int, cap: Option<bool>, evidence: Option<bool>, actions: seq<Action>)
    requires var f := Driven(Converted(id, severity, cap, evidence), actions);
             f.status == Closed && f.closure == Some(EvidenceVerified)
    ensures var f := Driven(Converted(id, severity, cap, evidence), actions);
            && !Pending(Milestones(f)) && Count(Lifecycle(f), Current) == 0
            && ClosedByEvidenceParts(f)
  {
    hide Count, StepStates, Driven;
    DrivenIsShaped(id, severity, cap, evidence, actions);
    var f := Driven(Converted(id, severity, cap, evidence), actions);
    OneCurrentIffPending(Milestones(f), false);
    CapSettledMilestones(f);
  }

  predicate ClosedByEvidenceParts(f: Finding) {
    CapSettled(f) && f.evidence != [] && f.evidence[|f.evidence| - 1].status == Accepted
  }

  lemma CapSettledMilestones(f: Finding)
    requires Shaped(f) && f.status == Closed && f.closure == Some(EvidenceVerified)
    ensures !Pending(Milestones(f))
  {
    hide AwaitsReview, NeedsMore, MentionsAccepted, MentionsSubmitted, CapMentionsAccepted;
    StatusTexts();
    var ms := Milestones(f);
    assert f.capRequired ==> ms[1].complete && ms[2].complete;
    assert ms[3].complete && ms[4].complete && ms[5].complete;
  }

  /** In a driven open finding the required steps run complete, then current, then incomplete. */
  predicate InSequence(ms: seq<Milestone>) {
    forall i, j :: 0 <= i < j < |ms| && ms[i].required && ms[j].required && ms[j].complete ==> ms[i].complete
  }

  lemma DrivenStepsAreInSequence(
    id: FindingId, severity: int, cap: Option<bool>, evidence: Option<bool>, actions: seq<Action>)
    requires Driven(Converted(id, severity, cap, evidence), actions).status != Closed
    ensures InSequence(Milestones(Driven(Converted(id, severity, cap, evidence), actions)))
  {
    hide AwaitsReview, NeedsMore, MentionsAccepted, MentionsSubmitted, CapMentionsAccepted;
    StatusTexts();
    hide Driven;
    DrivenIsShaped(id, severity, cap, evidence, actions);
  }
}
