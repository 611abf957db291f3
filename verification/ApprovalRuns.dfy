// What every run of approval decisions keeps: the history alone determines the
// record, and the stages behind the current one stand approved.
module ApprovalRuns {
  import opened Wrappers
  import opened Approval

  /** A record after a list of requested decisions; a refused one changes nothing. */
  function After(c: Config, s: State, inputs: seq<Input>): State {
    if inputs == [] then s
    else
      var t := After(c, s, inputs[..|inputs| - 1]);
      match Decide(c, t, inputs[|inputs| - 1])
      case Ok(u) => u
      case Failed(_) => t
  }

  predicate InRange(c: Config, s: State) {
    0 <= s.index < |c.chain|
  }

  predicate IsAdvance(a: Action) {
    a == Submitted || a == Forwarded || a == ApprovedStage || a == Action.ApprovedWithAdjustment
  }

  // ---------------------------------------------------------------- replay

  /** The part of a record that its history determines. */
  datatype Core = Core(index: int, outcome: Outcome, status: Status)

  function CoreOf(s: State): Core {
    Core(s.index, s.outcome, s.status)
  }

  /** One history entry read back; None when it is not by the owner or cannot stand there. */
  function Replay1(c: Config, core: Core, e: Entry): Option<Core> {
    match StageAt(c, core.index)
    case None => None
    case Some(stage) =>
      if e.role != stage.role then None
      else if e.action == FinanceRefused && stage.role != Finance then None
      else if IsAdvance(e.action) && core.index + 1 == |c.chain| && e.action != ApprovedStage then None
      else
        var last := core.index + 1 == |c.chain|;
        var index := match e.action
          case ReturnedBack => ReturnTarget(c, core.index)
          case FinanceRefused => RefusalTarget(c, core.index)
          case RejectedHere => core.index
          case _ => if last then core.index else core.index + 1;
        var outcome := match e.action
          case ReturnedBack => Open
          case FinanceRefused => Open
          case RejectedHere => Rejected
          case _ => if last then Approved else core.outcome;
        Some(Core(index, outcome, StatusAfter(c, index, outcome, e.action, core.status)))
  }

  function Replay(c: Config, core: Core, history: seq<Entry>): Option<Core> {
    if history == [] then Some(core)
    else
      var before :- Replay(c, core, history[..|history| - 1]);
      Replay1(c, before, history[|history| - 1])
  }

  lemma StageIndexInRange(chain: seq<Stage>, role: Role, from: nat)
    requires from <= |chain|
    ensures -1 <= StageIndex(chain, role, from) < |chain|
    ensures StageIndex(chain, role, from) >= 0 ==> chain[StageIndex(chain, role, from)].role == role
    decreases |chain| - from
  {
  }

  lemma TargetsInRange(c: Config, index: int)
    requires 0 <= index < |c.chain|
    ensures 0 <= ReturnTarget(c, index) < |c.chain| && 0 <= RefusalTarget(c, index) < |c.chain|
  {
    forall role: Role
      ensures -1 <= StageIndex(c.chain, role) < |c.chain|
    {
      StageIndexInRange(c.chain, role, 0);
    }
  }

  predicate IsApproval(d: Decision) {
    d == Approve || d == Forward || d == ApproveWithAdjustment
  }

  /** Where an accepted decision leaves the record, and the entry it writes. */
  lemma DecisionShape(c: Config, s: State, input: Input)
    requires InRange(c, s) && Decide(c, s, input).Ok?
    ensures var t := Decide(c, s, input).state;
            var stage := c.chain[s.index];
            var last := s.index + 1 == |c.chain|;
            && |t.history| == |s.history| + 1 && s.history <= t.history
            && t.status == StatusAfter(c, t.index, t.outcome, t.history[|s.history|].action, s.status)
            && var e := t.history[|s.history|];
               && e.role == stage.role == input.actor.role
               && match input.decision
                  case Return => e.action == ReturnedBack && t.index == ReturnTarget(c, s.index) && t.outcome == Open
                  case FinanceNotApproved =>
                    && stage.role == Finance && e.action == FinanceRefused
                    && t.index == RefusalTarget(c, s.index) && t.outcome == Open
                  case Reject => e.action == RejectedHere && t.index == s.index && t.outcome == Rejected
                  case Unsupported => false
                  case _ =>
                    && IsAdvance(e.action) && (last ==> e.action == ApprovedStage)
                    && t.index == (if last then s.index else s.index + 1)
                    && t.outcome == (if last then Approved else s.outcome)
  {
    hide StatusAfter, ReturnTarget, RefusalTarget, Text.Trim;
  }

  /** An accepted decision adds one entry, and that entry replays to the new record. */
  lemma DecisionIsReplayed(c: Config, s: State, input: Input)
    requires InRange(c, s) && Decide(c, s, input).Ok?
    ensures var t := Decide(c, s, input).state;
            && |t.history| == |s.history| + 1 && s.history <= t.history
            && Replay1(c, CoreOf(s), t.history[|s.history|]) == Some(CoreOf(t))
            && InRange(c, t)
  {
    hide StatusAfter, ReturnTarget, RefusalTarget, Decide;
    DecisionShape(c, s, input);
    TargetsInRange(c, s.index);
  }

  /**
   * For every run of decisions, on any chain and from any stage: the index stays
   * in range and replaying the entries added gives exactly the record.
   */
  lemma {:induction false} HistoryDeterminesRecord(c: Config, s: State, inputs: seq<Input>)
    requires InRange(c, s)
    ensures var t := After(c, s, inputs);
            && InRange(c, t) && s.history <= t.history
            && Replay(c, CoreOf(s), t.history[|s.history|..]) == Some(CoreOf(t))
  {
    if inputs != [] {
      hide Decide, Replay1;
      var shorter, input := inputs[..|inputs| - 1], inputs[|inputs| - 1];
      HistoryDeterminesRecord(c, s, shorter);
      var t := After(c, s, shorter);
      if Decide(c, t, input).Ok? {
        DecisionIsReplayed(c, t, input);
        var u := Decide(c, t, input).state;
        var added := u.history[|s.history|..];
        assert added[..|added| - 1] == t.history[|s.history|..];
        assert added[|added| - 1] == u.history[|t.history|];
      }
    }
  }

  /**
   * Every entry a run adds was made at one of its decisions, on the record whose
   * history then ended just before it, by the role that owned that record.
   */
  lemma {:induction false} EntriesAreByOwners(c: Config, s: State, inputs: seq<Input>, k: nat) returns (j: nat)
    requires InRange(c, s) && |s.history| <= k < |After(c, s, inputs).history|
    ensures j < |inputs| && InRange(c, After(c, s, inputs[..j]))
    ensures var at, history := After(c, s, inputs[..j]), After(c, s, inputs).history;
            at.history == history[..k] && history[k].role == c.chain[at.index].role == inputs[j].actor.role
    decreases |inputs|
  {
    hide Decide;
    var n := |inputs| - 1;
    assert inputs != [];
    var before := After(c, s, inputs[..n]);
    HistoryDeterminesRecord(c, s, inputs[..n]);
    if k < |before.history| {
      j := EntriesAreByOwners(c, s, inputs[..n], k);
      assert inputs[..n][..j] == inputs[..j];
      if Decide(c, before, inputs[n]).Ok? {
        DecisionShape(c, before, inputs[n]);
      }
    } else {
      j := n;
      DecisionShape(c, before, inputs[n]);
    }
  }

  // ---------------------------------------------------------------- standing approvals

  /** The most recent action of a role. */
  function LastBy(history: seq<Entry>, role: Role): Option<Action> {
    if history == [] then None
    else if history[|history| - 1].role == role then Some(history[|history| - 1].action)
    else LastBy(history[..|history| - 1], role)
  }

  predicate StandsAt(c: Config, s: State, j: nat)
    requires j < |c.chain|
  {
    var last := LastBy(s.history, c.chain[j].role);
    last.Some? && IsAdvance(last.value)
  }

  /** Every stage behind the current one has an advance as its most recent decision. */
  predicate Standing(c: Config, s: State) {
    && (forall j :: 0 <= j < s.index && j < |c.chain| ==> StandsAt(c, s, j))
    && (s.outcome == Approved ==> s.index == |c.chain| - 1 && s.index >= 0 && StandsAt(c, s, s.index))
  }

  predicate DistinctRoles(c: Config) {
    forall i, j :: 0 <= i < j < |c.chain| ==> c.chain[i].role != c.chain[j].role
  }

  /** No stage is configured to return a record forward. */
  predicate TurnsBack(c: Config) {
    forall i :: 0 <= i < |c.chain| ==>
      ReturnTarget(c, i) <= i && (c.chain[i].role == Finance ==> RefusalTarget(c, i) <= i)
  }

  lemma LastByOwner(c: Config, s: State, t: State, input: Input, j: nat)
    requires DistinctRoles(c) && InRange(c, s) && Decide(c, s, input) == Ok(t) && j < |c.chain|
    ensures LastBy(t.history, c.chain[j].role) ==
            if j == s.index then Some(t.history[|s.history|].action) else LastBy(s.history, c.chain[j].role)
    ensures |t.history| == |s.history| + 1
  {
    hide StatusAfter, Decide;
    DecisionShape(c, s, input);
    assert t.history[..|s.history|] == s.history;
    if j < s.index {
      assert c.chain[j].role != c.chain[s.index].role;
    } else if s.index < j {
      assert c.chain[s.index].role != c.chain[j].role;
    }
  }

  /** An accepted decision keeps the approvals standing exactly when it does not move the record forward by a return. */
  lemma StandingIff(c: Config, s: State, t: State, input: Input)
    requires DistinctRoles(c) && InRange(c, s) && Standing(c, s) && Decide(c, s, input) == Ok(t)
    ensures Standing(c, t) <==>
            (input.decision == Return ==> ReturnTarget(c, s.index) <= s.index)
            && (input.decision == FinanceNotApproved ==> RefusalTarget(c, s.index) <= s.index)
  {
    hide LastBy, StatusAfter, Decide, ReturnTarget, RefusalTarget;
    DecisionShape(c, s, input);
    TargetsInRange(c, s.index);
    forall j: nat | j < |c.chain|
      ensures LastBy(t.history, c.chain[j].role) ==
              if j == s.index then Some(t.history[|s.history|].action) else LastBy(s.history, c.chain[j].role)
    {
      LastByOwner(c, s, t, input, j);
    }
    assert forall j: nat :: j < |c.chain| && j != s.index ==> (StandsAt(c, t, j) <==> StandsAt(c, s, j));
    assert StandsAt(c, t, s.index) <==> IsApproval(input.decision);
  }

  /** On every run over a chain of distinct roles that only turns back, approvals behind the index stand. */
  lemma {:induction false} ApprovalsStand(c: Config, s: State, inputs: seq<Input>)
    requires DistinctRoles(c) && TurnsBack(c) && InRange(c, s) && Standing(c, s)
    ensures Standing(c, After(c, s, inputs)) && InRange(c, After(c, s, inputs))
  {
    HistoryDeterminesRecord(c, s, inputs);
    if inputs != [] {
      var shorter, input := inputs[..|inputs| - 1], inputs[|inputs| - 1];
      ApprovalsStand(c, s, shorter);
      var t := After(c, s, shorter);
      if Decide(c, t, input).Ok? {
        hide Decide, Standing, TurnsBack;
        StandingIff(c, t, Decide(c, t, input).state, input);
        TurnsBackAt(c, t, input);
      }
    }
  }

  lemma TurnsBackAt(c: Config, s: State, input: Input)
    requires TurnsBack(c) && InRange(c, s) && Decide(c, s, input).Ok?
    ensures ReturnTarget(c, s.index) <= s.index
    ensures input.decision == FinanceNotApproved ==> RefusalTarget(c, s.index) <= s.index
  {
    hide Decide;
    DecisionShape(c, s, input);
  }

  // ---------------------------------------------------------------- an approval is not final

  /** Deciding again on an approved record keeps it approved exactly when the decision is another approval. */
  lemma ApprovedStaysIff(c: Config, s: State, input: Input)
    requires InRange(c, s) && Standing(c, s) && s.outcome == Approved && Decide(c, s, input).Ok?
    ensures Decide(c, s, input).state.outcome == Approved <==>
            IsApproval(input.decision)
  {
    hide StatusAfter, Decide;
    DecisionShape(c, s, input);
  }
}
