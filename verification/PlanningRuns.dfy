// What every run of the planning steps keeps: one Audit per item with its own
// records, preparation in order, and approvals behind every release.
module PlanningRuns {
  import opened Wrappers
  import Approval
  import opened ApprovalRuns
  import opened PlanningApproval
  import opened Planning

  // ---------------------------------------------------------------- order of preparation

  predicate Follows(before: PrepStatus, action: PrepStatus) {
    match action
    case NotReleased => false
    case Released => true
    case Accepted => before == Released
    case LeadAssigned => before == Accepted
    case TeamProposed => before == LeadAssigned
    case Ready => before == TeamProposed
  }

  function ActorOf(action: PrepStatus): Approval.Role {
    match action
    case Released => Approval.Gm
    case TeamProposed => Approval.LeadInspector
    case _ => Approval.Manager
  }

  function StatusOf(history: seq<PrepEntry>): PrepStatus {
    if history == [] then NotReleased else history[|history| - 1].action
  }

  /** Every entry follows from the one before it and is by the role that may make it. */
  predicate Orderly(history: seq<PrepEntry>) {
    forall k :: 0 <= k < |history| ==>
      Follows(StatusOf(history[..k]), history[k].action) && history[k].role == ActorOf(history[k].action)
  }

  /** Release, acceptance, lead assignment, proposal and confirmation stand in a row from position k. */
  predicate PreparedAt(history: seq<PrepEntry>, k: nat) {
    && k + 5 <= |history|
    && history[k].action == Released && history[k + 1].action == Accepted && history[k + 2].action == LeadAssigned
    && history[k + 3].action == TeamProposed && history[k + 4].action == Ready
    && history[k].role == Approval.Gm && history[k + 1].role == Approval.Manager && history[k + 2].role == Approval.Manager
    && history[k + 3].role == Approval.LeadInspector && history[k + 4].role == Approval.Manager
  }

  lemma OneBefore(history: seq<PrepEntry>, k: nat, before: PrepStatus)
    requires Orderly(history) && k < |history| && before != NotReleased
    requires forall s :: Follows(s, history[k].action) ==> s == before
    ensures k > 0 && history[k - 1].action == before
  {
    assert Follows(StatusOf(history[..k]), history[k].action);
    assert k > 0 ==> history[..k][k - 1] == history[k - 1];
  }

  /** A ready item has just been through all five steps. */
  lemma ReadyIsPrepared(history: seq<PrepEntry>)
    requires Orderly(history) && StatusOf(history) == Ready
    ensures |history| >= 5 && PreparedAt(history, |history| - 5)
  {
    var n := |history|;
    OneBefore(history, n - 1, TeamProposed);
    OneBefore(history, n - 2, LeadAssigned);
    OneBefore(history, n - 3, Accepted);
    OneBefore(history, n - 4, Released);
  }

  lemma OrderlySnoc(history: seq<PrepEntry>, e: PrepEntry)
    requires Orderly(history) && Follows(StatusOf(history), e.action) && e.role == ActorOf(e.action)
    ensures Orderly(history + [e]) && StatusOf(history + [e]) == e.action
  {
    var h := history + [e];
    forall k | 0 <= k < |h|
      ensures Follows(StatusOf(h[..k]), h[k].action) && h[k].role == ActorOf(h[k].action)
    {
      if k < |history| {
        assert h[..k] == history[..k];
      } else {
        assert h[..k] == history;
      }
    }
  }

  // ---------------------------------------------------------------- one item

  /** At some point of the approval history, Finance, GM and Executive Director all stood approved. */
  ghost predicate WasFullyApproved(history: seq<Approval.Entry>) {
    exists n :: 0 <= n <= |history| && FullyApprovedAt(history, n)
  }

  predicate FullyApprovedAt(history: seq<Approval.Entry>, n: nat)
    requires n <= |history|
  {
    FullyApproved(history[..n])
  }

  ghost predicate ItemWell(item: Item) {
    && Standing(PlanningChain(), item.approval) && InRange(PlanningChain(), item.approval)
    && Orderly(item.prep.history) && item.prep.status == StatusOf(item.prep.history)
    && (item.prep.history != [] ==> WasFullyApproved(item.approval.history))
    && (item.prep.status == Ready ==> item.prep.package.Some?)
    && (item.auditId.Some? ==> exists k :: PreparedAt(item.prep.history, k))
  }

  lemma ApprovalStepKeepsItem(item: Item, input: Approval.Input, s: Approval.State)
    requires ItemWell(item) && Approval.Decide(PlanningChain(), item.approval, input) == Approval.Ok(s)
    ensures ItemWell(item.(approval := s))
  {
    hide Approval.Decide, Orderly, PreparedAt, FullyApproved;
    PlanningChainIsOrderly();
    TurnsBackAt(PlanningChain(), item.approval, input);
    StandingIff(PlanningChain(), item.approval, s, input);
    DecisionIsReplayed(PlanningChain(), item.approval, input);
    if item.prep.history != [] {
      var n :| 0 <= n <= |item.approval.history| && FullyApprovedAt(item.approval.history, n);
      assert s.history[..n] == item.approval.history[..n];
      assert FullyApprovedAt(s.history, n);
    }
  }

  lemma ReleaseNeedsApproval(item: Item)
    requires ItemWell(item) && item.approval.outcome == Approval.Approved
    ensures WasFullyApproved(item.approval.history)
  {
    var h := item.approval.history;
    ApprovedIsFullyApproved(item.approval);
    assert h[..|h|] == h;
    assert FullyApprovedAt(h, |h|);
  }

  /** A noted preparation step keeps everything the item promises. */
  lemma NotedKeepsItem(item: Item, after: Item, e: PrepEntry)
    requires ItemWell(item) && Follows(StatusOf(item.prep.history), e.action) && e.role == ActorOf(e.action)
    requires after.approval == item.approval && after.auditId == item.auditId
    requires after.prep.history == item.prep.history + [e] && after.prep.status == e.action
    requires item.prep.history == [] ==> item.approval.outcome == Approval.Approved
    requires e.action == Ready ==> after.prep.package.Some?
    ensures ItemWell(after)
  {
    hide Standing, InRange, WasFullyApproved, Orderly;
    OrderlySnoc(item.prep.history, e);
    if item.prep.history == [] {
      ReleaseNeedsApproval(item);
    }
    if item.auditId.Some? {
      var k :| PreparedAt(item.prep.history, k);
      assert PreparedAt(after.prep.history, k);
    }
  }

  lemma StepKeepsItem(item: Item, m: Move)
    requires ItemWell(item) && m != CreateAudit && StepItem(item, m).Some?
    ensures ItemWell(StepItem(item, m).value)
  {
    var after := StepItem(item, m).value;
    if m.Decide? {
      ApprovalStepKeepsItem(item, m.input, after.approval);
    } else if after != item {
      hide Standing, InRange, WasFullyApproved, Orderly;
      NotedKeepsItem(item, after, after.prep.history[|item.prep.history|]);
    }
  }

  // ---------------------------------------------------------------- all items and Audits

  function CoordinationIds(cs: seq<Coordination>): seq<AuditId> {
    seq(|cs|, i requires 0 <= i < |cs| => cs[i].auditId)
  }

  /** No record anywhere carries an id that a later Audit will get. */
  ghost predicate FutureIsFresh(w: World) {
    forall n: nat :: n >= w.auditSeq ==> IsFresh(w, NewAuditId(n))
  }

  predicate IsFresh(w: World, id: AuditId) {
    && (forall i :: 0 <= i < |w.audits| ==> w.audits[i].id != id)
    && id !in w.teams && id !in w.workspaces && id !in CoordinationIds(w.coordinations)
  }

  predicate IdsAreUnique(w: World) {
    forall i, j :: 0 <= i < j < |w.audits| ==> w.audits[i].id != w.audits[j].id
  }

  /** An Audit of a planning item is the one the item names, its Lead on its team, with exactly one record of each kind. */
  predicate AuditWell(w: World, a: Audit) {
    a.item in w.items ==>
      && a.lead in a.team
      && w.items[a.item].auditId == Some(a.id)
      && multiset(w.teams)[a.id] == 1
      && a.id in w.workspaces
      && multiset(CoordinationIds(w.coordinations))[a.id] == 1
  }

  ghost predicate Inv(w: World) {
    && FutureIsFresh(w) && IdsAreUnique(w)
    && (forall i :: 0 <= i < |w.audits| ==> AuditWell(w, w.audits[i]))
    && (forall id :: id in w.items ==> ItemWell(w.items[id]))
    && (forall id :: id in w.items && w.items[id].auditId.Some? ==> HasAudit(w, w.items[id]))
  }

  lemma ItemStepKeepsInv(w: World, id: ItemId, item: Item)
    requires Inv(w) && id in w.items && ItemWell(item) && item.auditId == w.items[id].auditId
    ensures Inv(w.(items := w.items[id := item]))
  {
    hide ItemWell;
    var v := w.(items := w.items[id := item]);
    forall i | 0 <= i < |v.audits|
      ensures AuditWell(v, v.audits[i])
    {
      assert AuditWell(w, w.audits[i]);
    }
    forall n: nat | n >= v.auditSeq
      ensures IsFresh(v, NewAuditId(n))
    {
      assert IsFresh(w, NewAuditId(n));
    }
    assert forall other :: other in w.items ==> HasAudit(v, w.items[other]) == HasAudit(w, w.items[other]);
  }

  lemma CreatedItemIsWell(item: Item, id: AuditId, package: Package)
    requires ItemWell(item) && item.prep.status == Ready
    ensures ItemWell(item.(auditId := Some(id), prep := item.prep.(package := Some(package))))
  {
    ReadyIsPrepared(item.prep.history);
  }

  lemma CountOfSnoc(ids: seq<AuditId>, x: AuditId, id: AuditId)
    ensures multiset(ids + [x])[id] == multiset(ids)[id] + (if x == id then 1 else 0)
  {
    assert multiset(ids + [x]) == multiset(ids) + multiset{x};
  }

  lemma CoordinationIdsOfSnoc(cs: seq<Coordination>, c: Coordination)
    ensures CoordinationIds(cs + [c]) == CoordinationIds(cs) + [c.auditId]
  {
  }

  lemma FreshAfterCreation(w: World, id: ItemId)
    requires FutureIsFresh(w) && id in w.items && Materialize(w, id).Some?
    ensures FutureIsFresh(Materialize(w, id).value)
  {
    hide HasAudit;
    var v := Materialize(w, id).value;
    forall n: nat | n >= v.auditSeq
      ensures IsFresh(v, NewAuditId(n))
    {
      assert IsFresh(w, NewAuditId(n));
      if v != w {
        if NewAuditId(n) == NewAuditId(w.auditSeq) {
          NewAuditIdsDiffer(n, w.auditSeq);
        }
        CoordinationIdsOfSnoc(w.coordinations, v.coordinations[|w.coordinations|]);
      }
    }
  }

  /** A world with one Audit more and one record of each kind for it. */
  predicate Extends(w: World, v: World, a: Audit, item: Item, c: Coordination) {
    && v.audits == w.audits + [a] && v.items == w.items[a.item := item]
    && v.teams == w.teams + [a.id] && v.workspaces == w.workspaces + {a.id}
    && v.coordinations == w.coordinations + [c] && c.auditId == a.id
  }

  lemma FreshIdsStayUnique(w: World, v: World, a: Audit, item: Item, c: Coordination)
    requires IdsAreUnique(w) && IsFresh(w, a.id) && Extends(w, v, a, item, c)
    ensures IdsAreUnique(v)
  {
  }

  /** An older Audit keeps its records; its item is not the one that gets the new Audit. */
  lemma OlderAuditStays(w: World, v: World, a: Audit, item: Item, c: Coordination, b: Audit)
    requires AuditWell(w, b) && b.id != a.id && Extends(w, v, a, item, c) && b.item != a.item
    ensures AuditWell(v, b)
  {
    CoordinationIdsOfSnoc(w.coordinations, c);
    CountOfSnoc(w.teams, a.id, b.id);
    CountOfSnoc(CoordinationIds(w.coordinations), a.id, b.id);
  }

  lemma NewAuditIsWell(w: World, v: World, a: Audit, item: Item, c: Coordination)
    requires IsFresh(w, a.id) && Extends(w, v, a, item, c) && item.auditId == Some(a.id) && a.lead in a.team
    ensures AuditWell(v, a)
  {
    CoordinationIdsOfSnoc(w.coordinations, c);
    CountOfSnoc(w.teams, a.id, a.id);
    CountOfSnoc(CoordinationIds(w.coordinations), a.id, a.id);
  }

  lemma AuditsAfterCreation(w: World, id: ItemId)
    requires Inv(w) && id in w.items && w.items[id].prep.status == Ready && !HasAudit(w, w.items[id]) && Materialize(w, id).Some?
    ensures var v := Materialize(w, id).value;
            && IdsAreUnique(v)
            && forall i :: 0 <= i < |v.audits| ==> AuditWell(v, v.audits[i])
  {
    var v := Materialize(w, id).value;
    var a, c, item := v.audits[|w.audits|], v.coordinations[|w.coordinations|], v.items[id];
    assert Extends(w, v, a, item, c) && item.auditId == Some(a.id) && a.lead in a.team && a.id == NewAuditId(w.auditSeq);
    assert IsFresh(w, a.id);
    hide ItemWell, Materialize, IdsAreUnique, AuditWell, IsFresh, FutureIsFresh;
    FreshIdsStayUnique(w, v, a, item, c);
    NewAuditIsWell(w, v, a, item, c);
    forall i | 0 <= i < |w.audits|
      ensures AuditWell(v, w.audits[i])
    {
      OlderIsApart(w, id, a.id, i);
      OlderAuditStays(w, v, a, item, c, w.audits[i]);
    }
  }

  /** An item without an Audit has none in the list, and a fresh id is none of theirs. */
  lemma OlderIsApart(w: World, id: ItemId, fresh_: AuditId, i: nat)
    requires id in w.items && !HasAudit(w, w.items[id]) && IsFresh(w, fresh_) && i < |w.audits| && AuditWell(w, w.audits[i])
    ensures w.audits[i].item != id && w.audits[i].id != fresh_
  {
  }

  lemma CreationOutcome(w: World, id: ItemId)
    requires id in w.items && Materialize(w, id).Some? && !HasAudit(w, w.items[id])
    ensures var v := Materialize(w, id).value;
            && w.items[id].prep.status == Ready && w.items[id].prep.package.Some?
            && v.audits == w.audits + [AuditFor(w, id, w.items[id])]
            && v.items == w.items[id := w.items[id].(
                 auditId := Some(NewAuditId(w.auditSeq)),
                 prep := w.items[id].prep.(package := Some(w.items[id].prep.package.value.(auditId := Some(NewAuditId(w.auditSeq))))))]
            && AuditFor(w, id, w.items[id]).id == NewAuditId(w.auditSeq)
  {
  }

  lemma HasAuditStays(w: World, v: World, item: Item)
    requires HasAudit(w, item) && w.audits <= v.audits
    ensures HasAudit(v, item)
  {
    var i :| 0 <= i < |w.audits| && w.audits[i].id == item.auditId.value;
    assert v.audits[i] == w.audits[i];
  }

  /** One Audit more, named by one item. */
  lemma CreatedKeepsInv(w: World, v: World, id: ItemId, item: Item)
    requires Inv(w) && id in w.items && v.items == w.items[id := item] && ItemWell(item)
    requires FutureIsFresh(v) && IdsAreUnique(v) && forall i :: 0 <= i < |v.audits| ==> AuditWell(v, v.audits[i])
    requires w.audits <= v.audits && HasAudit(v, item)
    ensures Inv(v)
  {
    hide ItemWell, FutureIsFresh, IdsAreUnique, AuditWell, HasAudit;
    forall other | other in v.items && v.items[other].auditId.Some?
      ensures HasAudit(v, v.items[other])
    {
      if other != id {
        HasAuditStays(w, v, w.items[other]);
      }
    }
  }

  lemma CreationKeepsInv(w: World, id: ItemId)
    requires Inv(w) && id in w.items && Materialize(w, id).Some?
    ensures Inv(Materialize(w, id).value)
  {
    hide *;
    var v := Materialize(w, id).value;
    if HasAudit(w, w.items[id]) {
      ExistingIsKept(w, id);
    } else {
      CreationOutcome(w, id);
      InvParts(w, id);
      FreshAfterCreation(w, id);
      AuditsAfterCreation(w, id);
      CreatedItemIsWell(w.items[id], NewAuditId(w.auditSeq), v.items[id].prep.package.value);
      NamesItsAudit(v, v.items[id], |w.audits|);
      CreatedKeepsInv(w, v, id, v.items[id]);
    }
  }

  lemma ExistingIsKept(w: World, id: ItemId)
    requires id in w.items && HasAudit(w, w.items[id]) && Materialize(w, id).Some?
    ensures Materialize(w, id).value == w
  {
  }

  lemma InvParts(w: World, id: ItemId)
    requires Inv(w) && id in w.items
    ensures FutureIsFresh(w) && ItemWell(w.items[id])
  {
  }

  lemma NamesItsAudit(v: World, item: Item, i: nat)
    requires i < |v.audits| && item.auditId == Some(v.audits[i].id)
    ensures HasAudit(v, item)
  {
  }

  /** On a run the code never fails half way: a ready item always has its package. */
  lemma RefusalChangesNothing(w: World, id: ItemId)
    requires Inv(w) && id in w.items
    ensures AfterRefusal(w, id) == w
  {
  }

  lemma StepKeepsAuditId(item: Item, m: Move)
    requires m != CreateAudit && StepItem(item, m).Some?
    ensures StepItem(item, m).value.auditId == item.auditId
  {
  }

  lemma StepKeepsInv(w: World, id: ItemId, m: Move)
    requires Inv(w)
    ensures Inv(Step(w, id, m))
  {
    hide Inv, ItemWell, Materialize, StepItem;
    if id in w.items {
      if m == CreateAudit {
        if Materialize(w, id).Some? {
          CreationKeepsInv(w, id);
        } else {
          RefusalChangesNothing(w, id);
        }
      } else if StepItem(w.items[id], m).Some? {
        ItemIsWell(w, id);
        StepKeepsItem(w.items[id], m);
        StepKeepsAuditId(w.items[id], m);
        ItemStepKeepsInv(w, id, StepItem(w.items[id], m).value);
      }
    }
  }

  lemma ItemIsWell(w: World, id: ItemId)
    requires Inv(w) && id in w.items
    ensures ItemWell(w.items[id])
  {
  }

  /** Where runs start: items fresh from creation, none with an Audit yet. */
  ghost predicate Init(w: World) {
    && FutureIsFresh(w) && IdsAreUnique(w)
    && (forall i :: 0 <= i < |w.audits| ==> w.audits[i].item !in w.items)
    && (forall id :: id in w.items ==>
          && (exists manager, comment :: w.items[id].approval == Created(manager, comment))
          && w.items[id].prep.status == NotReleased && w.items[id].prep.history == [] && w.items[id].auditId == None)
  }

  lemma InitIsInv(w: World)
    requires Init(w)
    ensures Inv(w)
  {
    forall id | id in w.items
      ensures ItemWell(w.items[id])
    {
      var manager, comment :| w.items[id].approval == Created(manager, comment);
      CreatedStands(manager, comment);
    }
  }

  lemma {:induction false} InvAlways(w: World, moves: seq<(ItemId, Move)>)
    requires Init(w)
    ensures Inv(AfterSteps(w, moves))
  {
    if moves == [] {
      InitIsInv(w);
    } else {
      hide Inv, Init, Step;
      InvAlways(w, moves[..|moves| - 1]);
      var last := moves[|moves| - 1];
      StepKeepsInv(AfterSteps(w, moves[..|moves| - 1]), last.0, last.1);
    }
  }

  /** Over every run, repeated releases included, no planning item ever has two Audits, and Audit ids stay unique. */
  lemma OneAuditPerItem(w: World, moves: seq<(ItemId, Move)>, i: nat, j: nat)
    requires Init(w) && i < j < |AfterSteps(w, moves).audits|
    ensures AfterSteps(w, moves).audits[i].id != AfterSteps(w, moves).audits[j].id
    ensures AfterSteps(w, moves).audits[i].item in AfterSteps(w, moves).items ==>
              AfterSteps(w, moves).audits[i].item != AfterSteps(w, moves).audits[j].item
  {
    hide AfterSteps, Init;
    InvAlways(w, moves);
    var v := AfterSteps(w, moves);
    assert AuditWell(v, v.audits[i]) && AuditWell(v, v.audits[j]);
  }

  /** Every created Audit has exactly one team, workspace and coordination record, its Lead is on its team, and its item names it. */
  lemma AuditRecords(w: World, moves: seq<(ItemId, Move)>, i: nat)
    requires Init(w) && i < |AfterSteps(w, moves).audits|
    ensures AuditWell(AfterSteps(w, moves), AfterSteps(w, moves).audits[i])
  {
    hide AfterSteps, Init, AuditWell;
    InvAlways(w, moves);
  }

  /**
   * An item with an Audit has been released, accepted, given a Lead, proposed and
   * confirmed in that order, after Finance, GM and Executive Director had all approved.
   */
  lemma AuditMeansPrepared(w: World, moves: seq<(ItemId, Move)>, id: ItemId)
    requires Init(w) && id in AfterSteps(w, moves).items && AfterSteps(w, moves).items[id].auditId.Some?
    ensures exists k :: PreparedAt(AfterSteps(w, moves).items[id].prep.history, k)
    ensures WasFullyApproved(AfterSteps(w, moves).items[id].approval.history)
    ensures exists a :: a in AfterSteps(w, moves).audits && a.id == AfterSteps(w, moves).items[id].auditId.value
  {
    hide AfterSteps, Init, WasFullyApproved;
    InvAlways(w, moves);
    ItemIsWell(AfterSteps(w, moves), id);
    var v := AfterSteps(w, moves);
    assert HasAudit(v, v.items[id]);
    var i :| 0 <= i < |v.audits| && v.audits[i].id == v.items[id].auditId.value;
    assert v.audits[i] in v.audits;
  }
}
