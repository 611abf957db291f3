// The lineage guards feed the mapping repair: the candidates they admit form
// exactly the forest that the repair's work list presupposes.
module GovernedForest {
  import opened Wrappers
  import CandidateLineage
  import MappingOrder

  /** The generated candidates as the repair reads them, with their ordered mapping references. */
  function CandidatesOf(
    t: CandidateLineage.Table, references: map<nat, seq<seq<MappingOrder.MappingId>>>): map<nat, MappingOrder.Candidate>
  {
    map id | id in t && CandidateLineage.IsGenerated(t, id) ::
      var c := t[id].content;
      MappingOrder.Candidate(c.root.GetOr(id), c.parent, c.run, c.revision, c.digest.GetOr(""), if id in references then references[id] else [])
  }

  lemma {:induction false} LineageIsChain(
    t: CandidateLineage.Table, references: map<nat, seq<seq<MappingOrder.MappingId>>>, path: seq<nat>)
    requires CandidateLineage.IsLineage(t, path)
    ensures MappingOrder.InChain(CandidatesOf(t, references), path[0], |path| - 1)
    decreases |path|
  {
    if |path| > 1 {
      CandidateLineage.TailIsLineage(t, path);
      LineageIsChain(t, references, path[1..]);
      assert t[path[0]].content.parent == Some(path[1]);
    }
  }

  /** A candidate with a lineage is on the work list, and its predecessor has its root. */
  lemma LineageIsListed(
    t: CandidateLineage.Table, references: map<nat, seq<seq<MappingOrder.MappingId>>>, rows: seq<MappingOrder.Row>, path: seq<nat>)
    requires CandidateLineage.IsLineage(t, path) && MappingOrder.IsWorkList(CandidatesOf(t, references), rows)
    ensures exists k :: 0 <= k < |rows| && rows[k].id == path[0]
    ensures var c := CandidatesOf(t, references);
            c[path[0]].parent.Some? && c[path[0]].parent.value in c ==> c[c[path[0]].parent.value].root == c[path[0]].root
  {
    var c := CandidatesOf(t, references);
    LineageIsChain(t, references, path);
    var k := ListedAt(c, rows, path[0], |path| - 1);
    CandidateLineage.LengthFromParent(t, path);
    if |path| > 1 {
      CandidateLineage.TailIsLineage(t, path);
      CandidateLineage.LineageEndsAtNamedRoot(t, path);
      CandidateLineage.LineageEndsAtNamedRoot(t, path[1..]);
    }
  }

  lemma ListedAt(c: map<nat, MappingOrder.Candidate>, rows: seq<MappingOrder.Row>, id: nat, d: nat) returns (k: nat)
    requires MappingOrder.IsWorkList(c, rows) && MappingOrder.InChain(c, id, d)
    ensures k < |rows| && rows[k].id == id
  {
    k := MappingOrder.RowOf(c, rows, id, d);
  }

  /**
   * On every careful run of the guarded inserts and updates, a successor has its
   * predecessor's root and every generated candidate is on the repair's work list.
   */
  lemma LineageGivesForest(
    r: CandidateLineage.Run, i: nat, references: map<nat, seq<seq<MappingOrder.MappingId>>>, rows: seq<MappingOrder.Row>)
    requires CandidateLineage.IsCarefulRun(r) && i < |r.tables|
    requires MappingOrder.IsWorkList(CandidatesOf(r.tables[i], references), rows)
    ensures MappingOrder.RootsAgree(CandidatesOf(r.tables[i], references))
    ensures forall id :: CandidateLineage.IsGenerated(r.tables[i], id) ==> exists k :: 0 <= k < |rows| && rows[k].id == id
  {
    hide CandidateLineage.Admissible, CandidateLineage.IsLineage, CandidateLineage.MoveAllowed, MappingOrder.IsWorkList;
    var t := r.tables[i];
    var c := CandidatesOf(t, references);
    CandidateLineage.LineageAlways(r, i);
    forall id: nat | CandidateLineage.IsGenerated(t, id)
      ensures exists k :: 0 <= k < |rows| && rows[k].id == id
      ensures c[id].parent.Some? && c[id].parent.value in c ==> c[c[id].parent.value].root == c[id].root
    {
      var path := LineageOf(t, id);
      LineageIsListed(t, references, rows, path);
    }
  }

  lemma LineageOf(t: CandidateLineage.Table, id: nat) returns (path: seq<nat>)
    requires CandidateLineage.Inv(t) && CandidateLineage.IsGenerated(t, id)
    ensures CandidateLineage.IsLineage(t, path) && path != [] && path[0] == id
  {
    assert CandidateLineage.HasLineage(t, id);
    path :| CandidateLineage.IsLineage(t, path) && path[0] == id;
  }
}
