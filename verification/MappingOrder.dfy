// The forward repair that rebuilds mapping ordinals over a forest of governed
// candidates: roots take the order of the generated artifact, successors keep
// their predecessor's ordinals and append what they reference for the first time.
module MappingOrder {
  import opened Wrappers
  import Sets

  type Id = nat
  type MappingId = string
  type Ordinals = map<MappingId, Option<int>>
  type Table = map<Id, Ordinals>

  /** A candidate; `questions` lists, per question in order, the mapping ids its snapshot names. */
  datatype Candidate = Candidate(
    root: Id,
    parent: Option<Id>,
    run: Option<Id>,
    revision: int,
    digest: string,
    questions: seq<seq<MappingId>>)

  /** A generation run: the mapping ids of its output artifact and the artifact's digest. */
  datatype Run = Run(artifact: seq<MappingId>, digest: string)

  /**
   * `digestOf` stands for the SHA-256 of a candidate's snapshots in ordinal order;
   * `pick` for the occurrence a candidate's artifact join takes when an id occurs twice.
   */
  datatype Env = Env(
    candidates: map<Id, Candidate>,
    runs: map<Id, Run>,
    digestOf: (Id, Ordinals) -> string,
    pick: (Id, seq<MappingId>, MappingId) -> nat)

  // ---------------------------------------------------------------- the work list

  datatype Row = Row(id: Id, depth: nat)

  /** The recursive query: roots that have a run, and what supersedes them, d steps down. */
  predicate InChain(c: map<Id, Candidate>, id: Id, d: nat)
    decreases d
  {
    && id in c
    && if d == 0 then c[id].parent == None && c[id].run.Some?
       else c[id].parent.Some? && InChain(c, c[id].parent.value, d - 1)
  }

  /** ORDER BY candidate_root_id, depth, revision, id */
  predicate Before(c: map<Id, Candidate>, a: Row, b: Row)
    requires a.id in c && b.id in c
  {
    if c[a.id].root != c[b.id].root then c[a.id].root < c[b.id].root
    else if a.depth != b.depth then a.depth < b.depth
    else if c[a.id].revision != c[b.id].revision then c[a.id].revision < c[b.id].revision
    else a.id < b.id
  }

  /** The order is by root, then depth, then revision, then id, and any two different candidates are in it one way round. */
  lemma BeforeIsTotal(c: map<Id, Candidate>, a: Row, b: Row, d: Row)
    requires a.id in c && b.id in c && d.id in c
    ensures !Before(c, a, a)
    ensures a.id != b.id ==> (Before(c, a, b) <==> !Before(c, b, a))
    ensures Before(c, a, b) && Before(c, b, d) ==> Before(c, a, d)
    ensures c[a.id].root < c[b.id].root ==> Before(c, a, b)
    ensures c[a.id].root == c[b.id].root && a.depth < b.depth ==> Before(c, a, b)
    ensures c[a.id].root == c[b.id].root && a.depth == b.depth && c[a.id].revision < c[b.id].revision ==> Before(c, a, b)
    ensures c[a.id].root == c[b.id].root && a.depth == b.depth && c[a.id].revision == c[b.id].revision && a.id < b.id ==>
              Before(c, a, b)
  {
  }

  ghost predicate IsWorkList(c: map<Id, Candidate>, rows: seq<Row>) {
    && (forall i :: 0 <= i < |rows| ==> InChain(c, rows[i].id, rows[i].depth))
    && (forall id, d: nat :: InChain(c, id, d) ==> Row(id, d) in rows)
    && (forall i, j :: 0 <= i < j < |rows| ==> Before(c, rows[i], rows[j]))
  }

  /** A successor carries its predecessor's root, as the lineage trigger demands. */
  predicate RootsAgree(c: map<Id, Candidate>) {
    forall id :: id in c && c[id].parent.Some? && c[id].parent.value in c ==> c[c[id].parent.value].root == c[id].root
  }

  /** A join takes some occurrence of the id it looks for. */
  ghost predicate PicksOccur(e: Env) {
    forall id: Id, a: seq<MappingId>, m :: m in a ==> e.pick(id, a, m) < |a| && a[e.pick(id, a, m)] == m
  }

  ghost predicate IsForest(e: Env, t: Table) {
    && RootsAgree(e.candidates)
    && PicksOccur(e)
    && (forall id :: id in e.candidates && e.candidates[id].run.Some? ==> e.candidates[id].run.value in e.runs)
    && e.candidates.Keys <= t.Keys
  }

  lemma {:induction false} DepthIsUnique(c: map<Id, Candidate>, id: Id, d: nat, d': nat)
    requires InChain(c, id, d) && InChain(c, id, d')
    ensures d == d'
    decreases d
  {
    if d > 0 {
      DepthIsUnique(c, c[id].parent.value, d - 1, d' - 1);
    }
  }

  /** The sort order puts every candidate's predecessor before it. */
  lemma ParentComesFirst(c: map<Id, Candidate>, rows: seq<Row>, i: nat) returns (j: nat)
    requires IsWorkList(c, rows) && RootsAgree(c) && i < |rows| && rows[i].depth > 0
    ensures c[rows[i].id].parent.Some?
    ensures j < i && rows[j] == Row(c[rows[i].id].parent.value, rows[i].depth - 1)
  {
    var p := c[rows[i].id].parent.value;
    assert InChain(c, p, rows[i].depth - 1);
    assert Row(p, rows[i].depth - 1) in rows;
    j :| 0 <= j < |rows| && rows[j] == Row(p, rows[i].depth - 1);
  }

  lemma RowsAreDistinct(c: map<Id, Candidate>, rows: seq<Row>, i: nat, j: nat)
    requires IsWorkList(c, rows) && i < j < |rows|
    ensures rows[i].id != rows[j].id
  {
    if rows[i].id == rows[j].id {
      DepthIsUnique(c, rows[i].id, rows[i].depth, rows[j].depth);
    }
  }

  // ---------------------------------------------------------------- one candidate

  function Flatten(questions: seq<seq<MappingId>>): seq<MappingId> {
    if questions == [] then [] else Flatten(questions[..|questions| - 1]) + questions[|questions| - 1]
  }

  /** First references of the mappings that are the candidate's own and new, in order. */
  function NewOrder(refs: seq<MappingId>, own: set<MappingId>, old_: set<MappingId>): (r: seq<MappingId>)
    ensures forall i :: 0 <= i < |r| ==> r[i] in own && r[i] !in old_ && r[i] in refs
    ensures forall m :: m in refs && m in own && m !in old_ ==> m in r
    ensures forall i, j :: 0 <= i < j < |r| ==> r[i] != r[j]
  {
    if refs == [] then []
    else
      var before := NewOrder(refs[..|refs| - 1], own, old_);
      var m := refs[|refs| - 1];
      assert refs == refs[..|refs| - 1] + [m];
      if m in own && m !in old_ && m !in before then before + [m] else before
  }

  function IndexOf(s: seq<MappingId>, m: MappingId): (i: nat)
    requires m in s
    ensures i < |s| && s[i] == m && m !in s[..i]
  {
    if s[0] == m then 0 else 1 + IndexOf(s[1..], m)
  }

  function Values(o: Ordinals): set<int> {
    set m | m in o && o[m].Some? :: o[m].value
  }

  /** COALESCE(MAX(mapping_ordinal), -1) */
  function Top(o: Ordinals): (top: int)
    ensures forall m :: m in o && o[m].Some? ==> o[m].value <= top
  {
    assert forall m :: m in o && o[m].Some? ==> o[m].value in Values(o);
    Sets.MaxOr(Values(o), -1)
  }

  function RootOrdinals(e: Env, id: Id, own: Ordinals, artifact: seq<MappingId>): (r: Ordinals)
    ensures r.Keys == own.Keys
  {
    map m | m in own :: if m in artifact then Some(e.pick(id, artifact, m)) else own[m]
  }

  function SuccessorOrdinals(own: Ordinals, before: Ordinals, refs: seq<MappingId>): (r: Ordinals)
    ensures r.Keys == own.Keys
  {
    var added := NewOrder(refs, own.Keys, before.Keys);
    map m | m in own ::
      if m in before then before[m]
      else if m in added then Some(Top(before) + 1 + IndexOf(added, m))
      else own[m]
  }

  /** What one iteration writes for a candidate, from the table as it then stands. */
  ghost function Rewritten(e: Env, t: Table, id: Id): (r: Ordinals)
    requires IsForest(e, t) && id in e.candidates
    requires e.candidates[id].parent.Some? ==> e.candidates[id].parent.value in e.candidates
    requires e.candidates[id].parent == None ==> e.candidates[id].run.Some?
    ensures r.Keys == t[id].Keys
  {
    var c := e.candidates[id];
    match c.parent
    case None => RootOrdinals(e, id, t[id], e.runs[c.run.value].artifact)
    case Some(p) => SuccessorOrdinals(t[id], t[p], Flatten(c.questions))
  }

  /** The two checks of an iteration: no ordinal is missing and the digest is the stored one. */
  predicate Accepted(e: Env, id: Id, o: Ordinals)
    requires id in e.candidates
  {
    var c := e.candidates[id];
    && (forall m :: m in o ==> o[m].Some?)
    && match c.parent
       case None => c.run.Some? && c.run.value in e.runs && c.digest == e.runs[c.run.value].digest
       case Some(_) => c.digest == e.digestOf(id, o)
  }

  // ---------------------------------------------------------------- the specification

  /** The ordinals a candidate ends with, by recursion up to its root. */
  ghost function Final(e: Env, t: Table, id: Id, d: nat): (r: Ordinals)
    requires IsForest(e, t) && InChain(e.candidates, id, d)
    ensures r.Keys == t[id].Keys
    decreases d
  {
    var c := e.candidates[id];
    if d == 0 then RootOrdinals(e, id, t[id], e.runs[c.run.value].artifact)
    else SuccessorOrdinals(t[id], Final(e, t, c.parent.value, d - 1), Flatten(c.questions))
  }

  ghost predicate Repairable(e: Env, t: Table, rows: seq<Row>)
    requires IsForest(e, t) && IsWorkList(e.candidates, rows)
  {
    forall i :: 0 <= i < |rows| ==>
      InChain(e.candidates, rows[i].id, rows[i].depth) && Accepted(e, rows[i].id, Final(e, t, rows[i].id, rows[i].depth))
  }

  /**
   * When a repair may succeed: every candidate of the forest ends with no ordinal
   * missing, a root's stored digest is its run's, and a successor's is that of its
   * snapshots in their final order.
   */
  ghost predicate DigestsAgree(e: Env, t: Table)
    requires IsForest(e, t)
  {
    && (forall id, d: nat, m :: InChain(e.candidates, id, d) && m in t[id] ==> Final(e, t, id, d)[m].Some?)
    && (forall id :: InChain(e.candidates, id, 0) ==> e.candidates[id].digest == e.runs[e.candidates[id].run.value].digest)
    && (forall id, d: nat :: d > 0 && InChain(e.candidates, id, d) ==> e.candidates[id].digest == e.digestOf(id, Final(e, t, id, d)))
  }

  /** The checks of the iterations together are exactly that. */
  lemma RepairableIff(e: Env, t: Table, rows: seq<Row>)
    requires IsForest(e, t) && IsWorkList(e.candidates, rows)
    ensures Repairable(e, t, rows) <==> DigestsAgree(e, t)
  {
    hide IsWorkList, Final;
    if Repairable(e, t, rows) {
      forall id, d: nat | InChain(e.candidates, id, d)
        ensures id in e.candidates && Accepted(e, id, Final(e, t, id, d))
      {
        ChainFacts(e, id, d);
        var i := RowOf(e.candidates, rows, id, d);
      }
    }
    if DigestsAgree(e, t) {
      forall i | 0 <= i < |rows|
        ensures InChain(e.candidates, rows[i].id, rows[i].depth)
        ensures rows[i].id in e.candidates && Accepted(e, rows[i].id, Final(e, t, rows[i].id, rows[i].depth))
      {
        RowInChain(e.candidates, rows, i);
        ChainFacts(e, rows[i].id, rows[i].depth);
      }
    }
  }

  lemma RowInChain(c: map<Id, Candidate>, rows: seq<Row>, i: nat)
    requires IsWorkList(c, rows) && i < |rows|
    ensures InChain(c, rows[i].id, rows[i].depth)
  {
  }

  /** The table after the first k rows, each candidate at its final ordinals. */
  ghost predicate RepairedTo(e: Env, t: Table, rows: seq<Row>, k: nat, r: Table)
    requires IsForest(e, t) && IsWorkList(e.candidates, rows) && k <= |rows|
  {
    && r.Keys == t.Keys
    && (forall i :: 0 <= i < k ==> InChain(e.candidates, rows[i].id, rows[i].depth)
                                   && r[rows[i].id] == Final(e, t, rows[i].id, rows[i].depth))
    && (forall id :: id in t && (forall i :: 0 <= i < k ==> rows[i].id != id) ==> r[id] == t[id])
  }

  lemma ChainFacts(e: Env, id: Id, d: nat)
    requires InChain(e.candidates, id, d)
    ensures id in e.candidates
    ensures e.candidates[id].parent.Some? ==> e.candidates[id].parent.value in e.candidates
    ensures e.candidates[id].parent == None ==> e.candidates[id].run.Some?
  {
    if d > 0 {
      assert InChain(e.candidates, e.candidates[id].parent.value, d - 1);
    }
  }

  /** Once the predecessor stands at its final ordinals, one iteration writes the final ordinals. */
  lemma RewrittenIsFinal(e: Env, t: Table, r: Table, id: Id, d: nat)
    requires IsForest(e, t) && IsForest(e, r) && InChain(e.candidates, id, d) && r[id] == t[id]
    requires d > 0 ==> e.candidates[id].parent.value in r
    requires d > 0 ==> r[e.candidates[id].parent.value] == Final(e, t, e.candidates[id].parent.value, d - 1)
    ensures id in e.candidates
    ensures e.candidates[id].parent.Some? ==> e.candidates[id].parent.value in e.candidates
    ensures e.candidates[id].parent == None ==> e.candidates[id].run.Some?
    ensures Rewritten(e, r, id) == Final(e, t, id, d)
  {
    hide RootOrdinals, SuccessorOrdinals;
    ChainFacts(e, id, d);
  }

  lemma RepairedNothing(e: Env, t: Table, rows: seq<Row>)
    requires IsForest(e, t) && IsWorkList(e.candidates, rows)
    ensures RepairedTo(e, t, rows, 0, t)
  {
  }

  lemma ExtendRepaired(e: Env, t: Table, rows: seq<Row>, k: nat, r: Table, o: Ordinals)
    requires IsForest(e, t) && IsWorkList(e.candidates, rows) && k < |rows| && RepairedTo(e, t, rows, k, r)
    requires InChain(e.candidates, rows[k].id, rows[k].depth) && o == Final(e, t, rows[k].id, rows[k].depth)
    ensures RepairedTo(e, t, rows, k + 1, r[rows[k].id := o])
  {
    hide Final, IsWorkList;
    forall i | 0 <= i < k
      ensures rows[i].id != rows[k].id
    {
      RowsAreDistinct(e.candidates, rows, i, k);
    }
  }

  /** A row not yet handled is as it was, and its predecessor already stands at its final ordinals. */
  lemma RowIsNext(e: Env, t: Table, rows: seq<Row>, k: nat, r: Table)
    requires IsForest(e, t) && IsWorkList(e.candidates, rows) && k < |rows| && RepairedTo(e, t, rows, k, r)
    ensures var id, d := rows[k].id, rows[k].depth;
            && InChain(e.candidates, id, d) && id in e.candidates && IsForest(e, r)
            && id in t && id in r && r[id] == t[id]
            && (d > 0 ==> var c := e.candidates[id];
                          && c.parent.Some? && InChain(e.candidates, c.parent.value, d - 1)
                          && c.parent.value in r && r[c.parent.value] == Final(e, t, c.parent.value, d - 1))
  {
    hide Final;
    var id, d := rows[k].id, rows[k].depth;
    ChainFacts(e, id, d);
    KnownIds(e, t, id, d);
    forall i | 0 <= i < k
      ensures rows[i].id != id
    {
      RowsAreDistinct(e.candidates, rows, i, k);
    }
    if d > 0 {
      var j := ParentComesFirst(e.candidates, rows, k);
      KnownIds(e, t, rows[j].id, rows[j].depth);
      assert r[rows[j].id] == Final(e, t, rows[j].id, rows[j].depth);
    }
  }

  lemma StepFollowsSpec(e: Env, t: Table, rows: seq<Row>, k: nat, r: Table)
    requires IsForest(e, t) && IsWorkList(e.candidates, rows) && k < |rows| && RepairedTo(e, t, rows, k, r)
    ensures InChain(e.candidates, rows[k].id, rows[k].depth) && IsForest(e, r)
    ensures rows[k].id in e.candidates
    ensures e.candidates[rows[k].id].parent.Some? ==> e.candidates[rows[k].id].parent.value in e.candidates
    ensures e.candidates[rows[k].id].parent == None ==>
              e.candidates[rows[k].id].run.Some? && e.candidates[rows[k].id].run.value in e.runs
    ensures Rewritten(e, r, rows[k].id) == Final(e, t, rows[k].id, rows[k].depth)
    ensures RepairedTo(e, t, rows, k + 1, r[rows[k].id := Rewritten(e, r, rows[k].id)])
  {
    hide Final, Rewritten, RepairedTo, IsWorkList;
    RowIsNext(e, t, rows, k, r);
    ChainFacts(e, rows[k].id, rows[k].depth);
    RewrittenIsFinal(e, t, r, rows[k].id, rows[k].depth);
    ExtendRepaired(e, t, rows, k, r, Rewritten(e, r, rows[k].id));
  }

  /** The two updates of a successor: inherited ordinals first, then the new mappings. */
  method AppendNew(own: Ordinals, before: Ordinals, refs: seq<MappingId>) returns (written: Ordinals)
    ensures written == SuccessorOrdinals(own, before, refs)
  {
    hide NewOrder, IndexOf, Top;
    var inherited := map m | m in own :: if m in before then before[m] else own[m];
    var top := Top(before);
    var added := NewOrder(refs, own.Keys, before.Keys);
    written := map m | m in inherited :: if m in added then Some(top + 1 + IndexOf(added, m)) else inherited[m];
  }

  class MappingTable {
    var ordinals: Table

    constructor (t: Table)
      ensures ordinals == t
    {
      ordinals := t;
    }

    /** The loop over the work list; an exception rolls every update back. */
    method Repair(e: Env, rows: seq<Row>) returns (ok: bool)
      requires IsForest(e, ordinals) && IsWorkList(e.candidates, rows)
      modifies this
      ensures ok <==> DigestsAgree(e, old(ordinals))
      ensures ok <==> Repairable(e, old(ordinals), rows)
      ensures ok ==> RepairedTo(e, old(ordinals), rows, |rows|, ordinals)
      ensures !ok ==> ordinals == old(ordinals)
    {
      hide Final, Rewritten, RootOrdinals, SuccessorOrdinals, IsForest, IsWorkList, RepairedTo, Accepted;
      hide DigestsAgree;
      var before := ordinals;
      RepairableIff(e, before, rows);
      RepairedNothing(e, before, rows);
      for k := 0 to |rows|
        invariant RepairedTo(e, before, rows, k, ordinals)
        invariant forall i :: 0 <= i < k ==>
          InChain(e.candidates, rows[i].id, rows[i].depth) && Accepted(e, rows[i].id, Final(e, before, rows[i].id, rows[i].depth))
      {
        StepFollowsSpec(e, before, rows, k, ordinals);
        var written := RewriteRows(e, rows[k].id);
        if !Accepted(e, rows[k].id, written) {
          ordinals := before;
          return false;
        }
      }
      ok := true;
    }

    /** The updates of one iteration. */
    method RewriteRows(e: Env, id: Id) returns (written: Ordinals)
      requires IsForest(e, ordinals) && id in e.candidates
      requires e.candidates[id].parent.Some? ==> e.candidates[id].parent.value in e.candidates
      requires e.candidates[id].parent == None ==> e.candidates[id].run.Some?
      modifies this
      ensures written == Rewritten(e, old(ordinals), id)
      ensures ordinals == old(ordinals)[id := written]
    {
      var c := e.candidates[id];
      var own := ordinals[id];
      hide NewOrder, IndexOf, Top;
      match c.parent {
        case None =>
          var artifact := e.runs[c.run.value].artifact;
          written := map m | m in own :: if m in artifact then Some(e.pick(id, artifact, m)) else own[m];
        case Some(p) =>
          written := AppendNew(own, ordinals[p], Flatten(c.questions));
      }
      ordinals := ordinals[id := written];
    }
  }

  // ---------------------------------------------------------------- what the repair promises

  /** No ordinal is recorded yet for any candidate of the forest. */
  predicate Empty(c: map<Id, Candidate>, t: Table)
    requires c.Keys <= t.Keys
  {
    forall id, m :: id in c && m in t[id] ==> t[id][m] == None
  }

  predicate Distinct(o: Ordinals) {
    forall m, n :: m in o && n in o && m != n && o[m].Some? && o[n].Some? ==> o[m] != o[n]
  }

  lemma RootIsDistinct(e: Env, t: Table, id: Id, own: Ordinals, artifact: seq<MappingId>)
    requires IsForest(e, t) && forall m :: m in own ==> own[m] == None
    ensures Distinct(RootOrdinals(e, id, own, artifact))
  {
    var o := RootOrdinals(e, id, own, artifact);
    assert forall m :: m in o && o[m].Some? ==> m in artifact && artifact[e.pick(id, artifact, m)] == m;
  }

  lemma SuccessorIsDistinct(own: Ordinals, before: Ordinals, refs: seq<MappingId>)
    requires Distinct(before) && forall m :: m in own ==> own[m] == None
    ensures Distinct(SuccessorOrdinals(own, before, refs))
  {
    hide NewOrder;
    var added := NewOrder(refs, own.Keys, before.Keys);
    assert forall m :: m in added ==> added[IndexOf(added, m)] == m;
  }

  /** Starting from empty ordinals, no two mappings of a candidate get the same ordinal. */
  lemma {:induction false} OrdinalsAreDistinct(e: Env, t: Table, id: Id, d: nat)
    requires IsForest(e, t) && Empty(e.candidates, t) && InChain(e.candidates, id, d)
    ensures Distinct(Final(e, t, id, d))
    decreases d
  {
    hide RootOrdinals, SuccessorOrdinals, Distinct;
    var c := e.candidates[id];
    if d == 0 {
      RootIsDistinct(e, t, id, t[id], e.runs[c.run.value].artifact);
    } else {
      OrdinalsAreDistinct(e, t, c.parent.value, d - 1);
      SuccessorIsDistinct(t[id], Final(e, t, c.parent.value, d - 1), Flatten(c.questions));
    }
  }

  /** A mapping shared with the direct predecessor keeps the predecessor's ordinal. */
  lemma SharedMappingsKeepTheirOrdinal(e: Env, t: Table, id: Id, d: nat, m: MappingId)
    requires IsForest(e, t) && d > 0 && InChain(e.candidates, id, d) && e.candidates[id].parent.value in t
    requires m in t[id] && m in t[e.candidates[id].parent.value]
    ensures Final(e, t, id, d)[m] == Final(e, t, e.candidates[id].parent.value, d - 1)[m]
  {
  }

  /** Where a mapping is referenced first. */
  function FirstReference(refs: seq<MappingId>, m: MappingId): nat
    requires m in refs
  {
    IndexOf(refs, m)
  }

  lemma {:induction false} IndexOfConcat(s: seq<MappingId>, x: MappingId, m: MappingId)
    requires m in s + [x]
    ensures IndexOf(s + [x], m) == if m in s then IndexOf(s, m) else |s|
  {
    if s != [] && s[0] != m {
      assert (s + [x])[1..] == s[1..] + [x];
      IndexOfConcat(s[1..], x, m);
    }
  }

  /** A list whose entries are referenced first in the order in which they stand. */
  predicate InReferenceOrder(refs: seq<MappingId>, r: seq<MappingId>) {
    && (forall i :: 0 <= i < |r| ==> r[i] in refs)
    && forall i, j :: 0 <= i < j < |r| ==> FirstReference(refs, r[i]) < FirstReference(refs, r[j])
  }

  lemma OrderSurvivesSnoc(refs: seq<MappingId>, x: MappingId, r: seq<MappingId>)
    requires InReferenceOrder(refs, r)
    ensures InReferenceOrder(refs + [x], r)
    ensures x !in refs ==> InReferenceOrder(refs + [x], r + [x])
  {
    forall i | 0 <= i < |r|
      ensures r[i] in refs + [x] && FirstReference(refs + [x], r[i]) == FirstReference(refs, r[i]) < |refs|
    {
      IndexOfConcat(refs, x, r[i]);
    }
    if x !in refs {
      IndexOfConcat(refs, x, x);
    }
  }

  /** New mappings stand in the order of their first references. */
  lemma {:induction false} NewOrderFollowsReferences(refs: seq<MappingId>, own: set<MappingId>, old_: set<MappingId>)
    ensures InReferenceOrder(refs, NewOrder(refs, own, old_))
  {
    if refs != [] {
      hide InReferenceOrder;
      var shorter, x := refs[..|refs| - 1], refs[|refs| - 1];
      NewOrderFollowsReferences(shorter, own, old_);
      assert refs == shorter + [x];
      OrderSurvivesSnoc(shorter, x, NewOrder(shorter, own, old_));
    }
  }

  lemma AddedFollow(own: Ordinals, before: Ordinals, refs: seq<MappingId>, m: MappingId, n: MappingId)
    requires forall k :: k in own ==> own[k] == None
    requires m in own && m !in before && SuccessorOrdinals(own, before, refs)[m].Some?
    requires n in own && SuccessorOrdinals(own, before, refs)[n].Some?
    ensures m in refs
    ensures var o := SuccessorOrdinals(own, before, refs);
            if n in before then o[n].value < o[m].value
            else n in refs && (FirstReference(refs, n) < FirstReference(refs, m) ==> o[n].value < o[m].value)
  {
    hide NewOrder;
    var added := NewOrder(refs, own.Keys, before.Keys);
    NewOrderFollowsReferences(refs, own.Keys, before.Keys);
    assert m in added;
    if n !in before {
      assert n in added;
      var i, j := IndexOf(added, n), IndexOf(added, m);
      assert j < i ==> FirstReference(refs, added[j]) < FirstReference(refs, added[i]);
    }
  }

  /**
   * A mapping the predecessor does not have comes after everything the
   * predecessor has, and two such mappings stand in first-reference order.
   */
  lemma NewMappingsFollow(e: Env, t: Table, id: Id, d: nat, m: MappingId, n: MappingId)
    requires IsForest(e, t) && Empty(e.candidates, t) && d > 0 && InChain(e.candidates, id, d)
    requires e.candidates[id].parent.value in t
    requires m in t[id] && m !in t[e.candidates[id].parent.value] && Final(e, t, id, d)[m].Some?
    requires n in t[id] && Final(e, t, id, d)[n].Some?
    ensures var refs, o := Flatten(e.candidates[id].questions), Final(e, t, id, d);
            && m in refs
            && if n in t[e.candidates[id].parent.value] then o[n].value < o[m].value
               else n in refs && (FirstReference(refs, n) < FirstReference(refs, m) ==> o[n].value < o[m].value)
  {
    hide SuccessorOrdinals, RootOrdinals, FirstReference;
    var c := e.candidates[id];
    AddedFollow(t[id], Final(e, t, c.parent.value, d - 1), Flatten(c.questions), m, n);
  }

  /** Every mapping stands at the place it has in the artifact. */
  predicate FollowsArtifact(o: Ordinals, artifact: seq<MappingId>) {
    forall m :: m in o ==> o[m].Some? && 0 <= o[m].value < |artifact| && artifact[o[m].value] == m
  }

  lemma DistinctFirstReferences(refs: seq<MappingId>, m: MappingId, n: MappingId)
    requires m in refs && n in refs && m != n
    ensures FirstReference(refs, m) != FirstReference(refs, n)
  {
    assert refs[FirstReference(refs, m)] == m && refs[FirstReference(refs, n)] == n;
  }

  lemma ParentChain(c: map<Id, Candidate>, id: Id, d: nat)
    requires InChain(c, id, d) && c[id].parent.Some?
    ensures d > 0 && InChain(c, c[id].parent.value, d - 1)
  {
  }

  lemma RepairedRow(e: Env, t: Table, rows: seq<Row>, r: Table, id: Id, d: nat)
    requires IsForest(e, t) && IsWorkList(e.candidates, rows) && InChain(e.candidates, id, d)
    requires Repairable(e, t, rows) && RepairedTo(e, t, rows, |rows|, r)
    ensures id in e.candidates && id in r && r[id] == Final(e, t, id, d) && Accepted(e, id, r[id])
  {
    hide Final, Accepted, IsWorkList, IsForest;
    var i := RowOf(e.candidates, rows, id, d);
    KnownIds(e, t, id, d);
    assert id in r.Keys;
    assert r[rows[i].id] == Final(e, t, rows[i].id, rows[i].depth);
  }

  lemma KnownIds(e: Env, t: Table, id: Id, d: nat)
    requires IsForest(e, t) && InChain(e.candidates, id, d)
    ensures id in e.candidates && id in t
  {
  }

  lemma RepairedRoot(e: Env, t: Table, id: Id, d: nat)
    requires IsForest(e, t) && Empty(e.candidates, t) && InChain(e.candidates, id, d) && e.candidates[id].parent == None
    requires Accepted(e, id, Final(e, t, id, d))
    ensures e.candidates[id].run.Some? && e.candidates[id].run.value in e.runs
    ensures FollowsArtifact(Final(e, t, id, d), e.runs[e.candidates[id].run.value].artifact)
  {
  }

  lemma SuccessorIsStable(own: Ordinals, before: Ordinals, refs: seq<MappingId>)
    ensures SuccessorOrdinals(SuccessorOrdinals(own, before, refs), before, refs) == SuccessorOrdinals(own, before, refs)
  {
    hide NewOrder, IndexOf, Top;
  }

  lemma RowOf(c: map<Id, Candidate>, rows: seq<Row>, id: Id, d: nat) returns (i: nat)
    requires IsWorkList(c, rows) && InChain(c, id, d)
    ensures i < |rows| && rows[i] == Row(id, d)
  {
    assert Row(id, d) in rows;
    i :| 0 <= i < |rows| && rows[i] == Row(id, d);
  }

  // ---------------------------------------------------------------- a second repair

  predicate OccursOnce(a: seq<MappingId>, m: MappingId) {
    forall i, j :: 0 <= i < |a| && 0 <= j < |a| && a[i] == m && a[j] == m ==> i == j
  }

  /** No root's artifact lists a mapping of the root twice. */
  ghost predicate RootsOccurOnce(e: Env, t: Table)
    requires IsForest(e, t)
  {
    forall id, m :: InChain(e.candidates, id, 0) && m in t[id] ==> OccursOnce(e.runs[e.candidates[id].run.value].artifact, m)
  }

  /** The same database at a later run, whose joins may take other occurrences. */
  ghost predicate IsRerun(e: Env, e2: Env) {
    e2 == e.(pick := e2.pick) && PicksOccur(e2)
  }

  lemma RootIsStable(e: Env, e2: Env, id: Id, own: Ordinals, artifact: seq<MappingId>)
    requires PicksOccur(e) && PicksOccur(e2) && forall m :: m in own ==> OccursOnce(artifact, m)
    ensures RootOrdinals(e2, id, RootOrdinals(e, id, own, artifact), artifact) == RootOrdinals(e, id, own, artifact)
  {
  }

  /** Where every root occurs once, recomputing from a repaired table gives every candidate the same ordinals, whatever the joins take. */
  lemma {:induction false} FinalIsStable(e: Env, e2: Env, t: Table, rows: seq<Row>, r: Table, id: Id, d: nat)
    requires IsForest(e, t) && IsForest(e2, r) && IsRerun(e, e2) && RootsOccurOnce(e, t) && IsWorkList(e.candidates, rows)
    requires RepairedTo(e, t, rows, |rows|, r) && InChain(e.candidates, id, d)
    ensures Final(e2, r, id, d) == Final(e, t, id, d) == r[id]
    decreases d
  {
    hide RootOrdinals, SuccessorOrdinals, IsWorkList;
    var i := RowOf(e.candidates, rows, id, d);
    assert r[rows[i].id] == Final(e, t, rows[i].id, rows[i].depth);
    var c := e.candidates[id];
    if d > 0 {
      FinalIsStable(e, e2, t, rows, r, c.parent.value, d - 1);
      SuccessorIsStable(t[id], Final(e, t, c.parent.value, d - 1), Flatten(c.questions));
    } else {
      RootIsStable(e, e2, id, t[id], e.runs[c.run.value].artifact);
    }
  }

  /** The second repair goes through and leaves the table as it is. */
  ghost predicate Keeps(e2: Env, rows: seq<Row>, r: Table) {
    && IsForest(e2, r) && IsWorkList(e2.candidates, rows)
    && Repairable(e2, r, rows) && RepairedTo(e2, r, rows, |rows|, r)
  }

  /** A repair's result is determined by the table it starts from. */
  lemma RepairedIsUnique(e: Env, t: Table, rows: seq<Row>, a: Table, b: Table)
    requires IsForest(e, t) && IsWorkList(e.candidates, rows)
    requires RepairedTo(e, t, rows, |rows|, a) && RepairedTo(e, t, rows, |rows|, b)
    ensures a == b
  {
    forall id | id in a
      ensures a[id] == b[id]
    {
      if i :| 0 <= i < |rows| && rows[i].id == id {
        assert a[rows[i].id] == Final(e, t, rows[i].id, rows[i].depth);
        assert b[rows[i].id] == Final(e, t, rows[i].id, rows[i].depth);
      }
    }
  }

  lemma RerunIsForest(e: Env, e2: Env, t: Table, rows: seq<Row>, r: Table)
    requires IsForest(e, t) && IsWorkList(e.candidates, rows) && IsRerun(e, e2) && RepairedTo(e, t, rows, |rows|, r)
    ensures IsForest(e2, r)
  {
  }

  lemma StableTableKeeps(e: Env, e2: Env, t: Table, rows: seq<Row>, r: Table)
    requires IsForest(e, t) && IsWorkList(e.candidates, rows) && IsRerun(e, e2) && RootsOccurOnce(e, t)
    requires Repairable(e, t, rows) && RepairedTo(e, t, rows, |rows|, r)
    ensures Keeps(e2, rows, r)
  {
    hide IsWorkList, Final, Accepted;
    RerunIsForest(e, e2, t, rows, r);
    forall i | 0 <= i < |rows|
      ensures InChain(e2.candidates, rows[i].id, rows[i].depth) && rows[i].id in r
      ensures Final(e2, r, rows[i].id, rows[i].depth) == r[rows[i].id]
      ensures Accepted(e2, rows[i].id, r[rows[i].id])
    {
      StableRow(e, e2, t, rows, r, i);
    }
  }

  lemma StableRow(e: Env, e2: Env, t: Table, rows: seq<Row>, r: Table, i: nat)
    requires IsForest(e, t) && IsForest(e2, r) && IsWorkList(e.candidates, rows) && IsRerun(e, e2) && RootsOccurOnce(e, t)
    requires Repairable(e, t, rows) && RepairedTo(e, t, rows, |rows|, r) && i < |rows|
    ensures InChain(e2.candidates, rows[i].id, rows[i].depth) && rows[i].id in r && rows[i].id in e2.candidates
    ensures Final(e2, r, rows[i].id, rows[i].depth) == r[rows[i].id]
    ensures Accepted(e2, rows[i].id, r[rows[i].id])
  {
    hide Final;
    FinalIsStable(e, e2, t, rows, r, rows[i].id, rows[i].depth);
  }

  /** Where every root occurs once, a second repair succeeds and changes nothing, whatever its joins take. */
  lemma RepairIsIdempotent(e: Env, e2: Env, t: Table, rows: seq<Row>, r: Table, r2: Table)
    requires IsForest(e, t) && IsWorkList(e.candidates, rows) && IsRerun(e, e2) && RootsOccurOnce(e, t)
    requires Repairable(e, t, rows) && RepairedTo(e, t, rows, |rows|, r)
    requires IsForest(e2, r) && RepairedTo(e2, r, rows, |rows|, r2)
    ensures Repairable(e2, r, rows) && r2 == r
  {
    hide *;
    StableTableKeeps(e, e2, t, rows, r);
    KeepsParts(e2, rows, r);
    RepairedIsUnique(e2, r, rows, r, r2);
  }

  lemma KeepsParts(e2: Env, rows: seq<Row>, r: Table)
    requires Keeps(e2, rows, r)
    ensures IsForest(e2, r) && IsWorkList(e2.candidates, rows)
    ensures Repairable(e2, r, rows) && RepairedTo(e2, r, rows, |rows|, r)
  {
  }

  /** Joins that take another occurrence of one mapping of one candidate. */
  lemma OtherPick(e: Env, id: Id, a: seq<MappingId>, m: MappingId) returns (e2: Env)
    requires PicksOccur(e) && m in a && !OccursOnce(a, m)
    ensures IsRerun(e, e2) && e2.pick(id, a, m) != e.pick(id, a, m)
  {
    var i, j :| 0 <= i < |a| && 0 <= j < |a| && a[i] == m && a[j] == m && i != j;
    var other: nat := if e.pick(id, a, m) == i then j else i;
    e2 := e.(pick := (x, b, n) => if x == id && b == a && n == m then other else e.pick(x, b, n));
  }

  /** After a successful repair, every second one changes nothing if and only if no root's artifact lists one of its mappings twice. */
  lemma IdempotentIff(e: Env, t: Table, rows: seq<Row>, r: Table)
    requires IsForest(e, t) && IsWorkList(e.candidates, rows)
    requires Repairable(e, t, rows) && RepairedTo(e, t, rows, |rows|, r)
    ensures (forall e2 :: IsRerun(e, e2) ==> Keeps(e2, rows, r)) <==> RootsOccurOnce(e, t)
  {
    hide IsRerun, Keeps, IsWorkList, OccursOnce, Repairable, RepairedTo;
    if RootsOccurOnce(e, t) {
      forall e2 | IsRerun(e, e2)
        ensures Keeps(e2, rows, r)
      {
        StableTableKeeps(e, e2, t, rows, r);
      }
    } else {
      var id, m :| InChain(e.candidates, id, 0) && m in t[id] && !OccursOnce(e.runs[e.candidates[id].run.value].artifact, m);
      var a := e.runs[e.candidates[id].run.value].artifact;
      assert m in a by {
        AbsentOccursOnce(a, m);
      }
      var e2 := OtherPick(e, id, a, m);
      RerunDiffers(e, e2, t, rows, r, id, m);
    }
  }

  lemma AbsentOccursOnce(a: seq<MappingId>, m: MappingId)
    ensures m !in a ==> OccursOnce(a, m)
  {
  }

  lemma RerunDiffers(e: Env, e2: Env, t: Table, rows: seq<Row>, r: Table, id: Id, m: MappingId)
    requires IsForest(e, t) && IsWorkList(e.candidates, rows) && RepairedTo(e, t, rows, |rows|, r)
    requires IsRerun(e, e2) && InChain(e.candidates, id, 0) && m in t[id]
    requires var a := e.runs[e.candidates[id].run.value].artifact; m in a && e2.pick(id, a, m) != e.pick(id, a, m)
    ensures !Keeps(e2, rows, r)
  {
    KnownIds(e, t, id, 0);
    RepairedIsFinal(e, t, rows, r, id);
    assert Final(e, t, id, 0)[m] == Some(e.pick(id, e.runs[e.candidates[id].run.value].artifact, m));
    RerunIsForest(e, e2, t, rows, r);
    assert Final(e2, r, id, 0)[m] == Some(e2.pick(id, e.runs[e.candidates[id].run.value].artifact, m));
    if Keeps(e2, rows, r) {
      RepairedIsFinal(e2, r, rows, r, id);
    }
  }

  lemma RepairedIsFinal(e: Env, t: Table, rows: seq<Row>, r: Table, id: Id)
    requires IsForest(e, t) && IsWorkList(e.candidates, rows) && RepairedTo(e, t, rows, |rows|, r) && InChain(e.candidates, id, 0)
    ensures id in r && r[id] == Final(e, t, id, 0)
  {
    hide Final, IsWorkList;
    var i := RowOf(e.candidates, rows, id, 0);
    KnownIds(e, t, id, 0);
    assert r[rows[i].id] == Final(e, t, rows[i].id, rows[i].depth);
  }

  /** One root with one mapping, which its artifact names twice; joins take the occurrence `at`. */
  function Doubled(at: nat): Env
    requires at < 2
  {
    Env(
      map[0 := Candidate(0, None, Some(0), 1, "d", [])],
      map[0 := Run(["m", "m"], "d")],
      (id, o) => "",
      (id, s, m) => if s == ["m", "m"] && m == "m" then at else if m in s then IndexOf(s, m) else 0)
  }

  function OneOrdinal(ordinal: Option<int>): Table {
    map[0 := map["m" := ordinal]]
  }

  /** Its repair succeeds from any ordinal and leaves the occurrence the join takes. */
  lemma DoubledRepair(at: nat, before: Option<int>)
    requires at < 2
    ensures var e, t, rows := Doubled(at), OneOrdinal(before), [Row(0, 0)];
            && IsForest(e, t) && IsWorkList(e.candidates, rows)
            && Repairable(e, t, rows) && RepairedTo(e, t, rows, 1, OneOrdinal(Some(at)))
  {
    var e, t := Doubled(at), OneOrdinal(before);
    assert PicksOccur(e);
    assert InChain(e.candidates, 0, 0);
    assert forall id, d: nat :: InChain(e.candidates, id, d) ==> id == 0 && d == 0;
    assert Final(e, t, 0, 0) == OneOrdinal(Some(at))[0];
  }

  /** For instance, joins that take the first occurrence and then the second change that table on the second run. */
  lemma SecondRepairMayDiffer()
    ensures var e, e2, t, rows := Doubled(0), Doubled(1), OneOrdinal(None), [Row(0, 0)];
            && IsForest(e, t) && IsWorkList(e.candidates, rows) && IsRerun(e, e2)
            && Repairable(e, t, rows) && RepairedTo(e, t, rows, 1, OneOrdinal(Some(0)))
            && IsForest(e2, OneOrdinal(Some(0))) && Repairable(e2, OneOrdinal(Some(0)), rows)
            && RepairedTo(e2, OneOrdinal(Some(0)), rows, 1, OneOrdinal(Some(1)))
            && OneOrdinal(Some(0)) != OneOrdinal(Some(1))
  {
    hide IsForest, IsWorkList, Repairable, RepairedTo;
    DoubledRepair(0, None);
    DoubledRepair(1, Some(0));
    assert PicksOccur(Doubled(1));
    assert Doubled(1) == Doubled(0).(pick := Doubled(1).pick);
    assert OneOrdinal(Some(0))[0]["m"] != OneOrdinal(Some(1))[0]["m"];
  }
}
