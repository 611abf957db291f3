// What a repaired table says, told from the candidates' questions themselves:
// where each mapping is first referenced decides where it stands.
module MappingPlaces {
  import opened Wrappers
  import opened MappingOrder

  // ---------------------------------------------------------------- references

  predicate RefersAt(questions: seq<seq<MappingId>>, q: nat, k: nat, m: MappingId) {
    q < |questions| && k < |questions[q]| && questions[q][k] == m
  }

  /** By question, then by place within the question. */
  predicate Earlier(q: nat, k: nat, q2: nat, k2: nat) {
    q < q2 || (q == q2 && k < k2)
  }

  ghost predicate FirstAt(questions: seq<seq<MappingId>>, q: nat, k: nat, m: MappingId) {
    RefersAt(questions, q, k, m) && forall q2: nat, k2: nat :: RefersAt(questions, q2, k2, m) ==> !Earlier(q2, k2, q, k)
  }

  // ---------------------------------------------------------------- pairs and the flat list

  function Position(questions: seq<seq<MappingId>>, q: nat, k: nat): nat
    requires q <= |questions|
  {
    |Flatten(questions[..q])| + k
  }

  lemma FlattenStep(questions: seq<seq<MappingId>>, q: nat)
    requires q < |questions|
    ensures Flatten(questions[..q + 1]) == Flatten(questions[..q]) + questions[q]
  {
    assert questions[..q + 1][..q] == questions[..q];
  }

  lemma {:induction false} FlattenPrefix(questions: seq<seq<MappingId>>, a: nat, b: nat)
    requires a <= b <= |questions|
    ensures Flatten(questions[..a]) <= Flatten(questions[..b])
    decreases b
  {
    if a < b {
      FlattenPrefix(questions, a, b - 1);
      FlattenStep(questions, b - 1);
    }
  }

  lemma PositionHolds(questions: seq<seq<MappingId>>, q: nat, k: nat, m: MappingId)
    requires RefersAt(questions, q, k, m)
    ensures Position(questions, q, k) < |Flatten(questions)| && Flatten(questions)[Position(questions, q, k)] == m
  {
    hide Flatten;
    FlattenStep(questions, q);
    FlattenPrefix(questions, q + 1, |questions|);
    assert questions[..|questions|] == questions;
    assert Flatten(questions[..q + 1])[Position(questions, q, k)] == m;
  }

  lemma PositionsAreOrdered(questions: seq<seq<MappingId>>, q: nat, k: nat, q2: nat, k2: nat)
    requires q < |questions| && k < |questions[q]| && q2 < |questions| && Earlier(q, k, q2, k2)
    ensures Position(questions, q, k) < Position(questions, q2, k2)
  {
    hide Flatten;
    if q < q2 {
      FlattenStep(questions, q);
      FlattenPrefix(questions, q + 1, q2);
    }
  }

  lemma {:induction false} Locate(questions: seq<seq<MappingId>>, n: nat, i: nat) returns (q: nat, k: nat)
    requires n <= |questions| && i < |Flatten(questions[..n])|
    ensures q < n && k < |questions[q]| && Position(questions, q, k) == i
  {
    hide Flatten;
    assert questions[..0] == [];
    NothingFlat();
    if n > 0 {
      FlattenStep(questions, n - 1);
      if i < |Flatten(questions[..n - 1])| {
        q, k := Locate(questions, n - 1, i);
      } else {
        q, k := n - 1, i - |Flatten(questions[..n - 1])|;
      }
    }
  }

  lemma NothingFlat()
    ensures Flatten([]) == []
  {
  }

  /** The first pair of a mapping is the first place in the flat list. */
  lemma FirstPairIsFirst(questions: seq<seq<MappingId>>, q: nat, k: nat, m: MappingId)
    requires FirstAt(questions, q, k, m)
    ensures m in Flatten(questions) && FirstReference(Flatten(questions), m) == Position(questions, q, k)
  {
    hide Flatten;
    var refs := Flatten(questions);
    PositionHolds(questions, q, k, m);
    var i := IndexOf(refs, m);
    var p := Position(questions, q, k);
    assert questions[..|questions|] == questions;
    var q2, k2 := Locate(questions, |questions|, i);
    PositionHolds(questions, q2, k2, questions[q2][k2]);
    assert RefersAt(questions, q2, k2, m);
    assert forall j :: 0 <= j < i ==> refs[j] != m by {
      assert forall j :: 0 <= j < i ==> refs[..i][j] == refs[j];
    }
    if i < p && Earlier(q, k, q2, k2) {
      PositionsAreOrdered(questions, q, k, q2, k2);
    }
  }

  lemma FirstPairExists(questions: seq<seq<MappingId>>, m: MappingId) returns (q: nat, k: nat)
    requires m in Flatten(questions)
    ensures FirstAt(questions, q, k, m)
  {
    hide Flatten;
    var refs := Flatten(questions);
    var i := IndexOf(refs, m);
    assert questions[..|questions|] == questions;
    q, k := Locate(questions, |questions|, i);
    PositionHolds(questions, q, k, questions[q][k]);
    assert forall j :: 0 <= j < i ==> refs[j] != m by {
      assert forall j :: 0 <= j < i ==> refs[..i][j] == refs[j];
    }
    forall q2: nat, k2: nat | RefersAt(questions, q2, k2, m)
      ensures !Earlier(q2, k2, q, k)
    {
      PositionHolds(questions, q2, k2, m);
      if Earlier(q2, k2, q, k) {
        PositionsAreOrdered(questions, q2, k2, q, k);
      }
    }
  }

  // ---------------------------------------------------------------- what a repaired table says

  /** The highest ordinal of a candidate, or -1. */
  ghost predicate IsTop(o: Ordinals, top: int) {
    && (forall m :: m in o && o[m].Some? ==> o[m].value <= top)
    && (top == -1 || exists m :: m in o && o[m] == Some(top))
  }

  function Added(o: Ordinals, before: Ordinals): set<MappingId> {
    set m | m in o && m !in before
  }

  /**
   * A successor's order: inherited mappings keep their ordinals, and the new ones
   * take the ordinals right after the predecessor's highest, one each, the one
   * first referenced by an earlier question, or earlier in the same, coming first.
   */
  ghost predicate StandsByReference(o: Ordinals, before: Ordinals, questions: seq<seq<MappingId>>) {
    && (forall m :: m in o && m in before ==> o[m] == before[m])
    && (forall m :: m in Added(o, before) ==> exists q, k :: FirstAt(questions, q, k, m))
    && (exists top :: IsTop(before, top)
                      && forall m :: m in Added(o, before) ==> o[m].Some? && top < o[m].value <= top + |Added(o, before)|)
    && (forall m, n, qm, km, qn, kn ::
          m in Added(o, before) && n in Added(o, before) && FirstAt(questions, qm, km, m) && FirstAt(questions, qn, kn, n) ==>
            o[m].Some? && o[n].Some? && (o[m].value < o[n].value <==> Earlier(qm, km, qn, kn)))
  }

  lemma {:induction false} DistinctInSet(s: seq<MappingId>, all: set<MappingId>)
    requires (forall i :: 0 <= i < |s| ==> s[i] in all) && forall i, j :: 0 <= i < j < |s| ==> s[i] != s[j]
    ensures |s| <= |all|
  {
    if s != [] {
      var n := |s| - 1;
      DistinctInSet(s[..n], all - {s[n]});
    }
  }

  /** The new ordinals are the ones right after the predecessor's highest. */
  lemma AddedAreNext(own: Ordinals, before: Ordinals, refs: seq<MappingId>)
    requires forall k :: k in own ==> own[k] == None
    requires forall m :: m in own ==> SuccessorOrdinals(own, before, refs)[m].Some?
    ensures var o := SuccessorOrdinals(own, before, refs);
            && IsTop(before, Top(before))
            && forall m :: m in Added(o, before) ==> Top(before) < o[m].value <= Top(before) + |Added(o, before)|
  {
    hide NewOrder, Top;
    var o := SuccessorOrdinals(own, before, refs);
    var added := NewOrder(refs, own.Keys, before.Keys);
    DistinctInSet(added, Added(o, before));
    TopIsTop(before);
    forall m | m in Added(o, before)
      ensures Top(before) < o[m].value <= Top(before) + |Added(o, before)|
    {
      assert m in added;
      assert IndexOf(added, m) < |added|;
    }
  }

  lemma TopIsTop(before: Ordinals)
    ensures IsTop(before, Top(before))
  {
    if Top(before) != -1 {
      assert Top(before) in Values(before);
    }
  }

  lemma ReferencesAreComparable(questions: seq<seq<MappingId>>, m: MappingId, n: MappingId, qm: nat, km: nat, qn: nat, kn: nat)
    requires FirstAt(questions, qm, km, m) && FirstAt(questions, qn, kn, n)
    ensures m in Flatten(questions) && n in Flatten(questions)
    ensures FirstReference(Flatten(questions), m) < FirstReference(Flatten(questions), n) <==> Earlier(qm, km, qn, kn)
  {
    hide Flatten, FirstReference, Position;
    FirstPairIsFirst(questions, qm, km, m);
    FirstPairIsFirst(questions, qn, kn, n);
    if Earlier(qm, km, qn, kn) {
      PositionsAreOrdered(questions, qm, km, qn, kn);
    } else if Earlier(qn, kn, qm, km) {
      PositionsAreOrdered(questions, qn, kn, qm, km);
    } else {
      assert qm == qn && km == kn;
    }
  }

  /** No ordinal is missing. */
  predicate IsFull(o: Ordinals) {
    forall m :: m in o ==> o[m].Some?
  }

  lemma ExtensionStandsByReference(e: Env, t: Table, id: Id, d: nat, p: Id)
    requires IsForest(e, t) && Empty(e.candidates, t) && d > 0 && InChain(e.candidates, id, d)
    requires e.candidates[id].parent == Some(p) && InChain(e.candidates, p, d - 1)
    requires IsFull(Final(e, t, id, d))
    ensures StandsByReference(Final(e, t, id, d), Final(e, t, p, d - 1), e.candidates[id].questions)
  {
    hide IsForest, Flatten, FirstReference, FirstAt, Earlier, SuccessorOrdinals, RootOrdinals, Top, IsTop;
    var c := e.candidates[id];
    KnownIds(e, t, id, d);
    KnownIds(e, t, p, d - 1);
    var o, before, refs := Final(e, t, id, d), Final(e, t, p, d - 1), Flatten(c.questions);
    assert o == SuccessorOrdinals(t[id], before, refs) && o.Keys == t[id].Keys && before.Keys == t[p].Keys;
    AddedAreNext(t[id], before, refs);
    hide Final;
    forall m | m in o && m in before
      ensures o[m] == before[m]
    {
      SharedMappingsKeepTheirOrdinal(e, t, id, d, m);
    }
    forall m | m in Added(o, before)
      ensures exists q, k :: FirstAt(c.questions, q, k, m)
    {
      NewMappingsFollow(e, t, id, d, m, m);
      var q, k := FirstPairExists(c.questions, m);
    }
    forall m, n, qm, km, qn, kn |
      m in Added(o, before) && n in Added(o, before) && FirstAt(c.questions, qm, km, m) && FirstAt(c.questions, qn, kn, n)
      ensures o[m].value < o[n].value <==> Earlier(qm, km, qn, kn)
    {
      ReferencesAreComparable(c.questions, m, n, qm, km, qn, kn);
      NewMappingsFollow(e, t, id, d, m, n);
      NewMappingsFollow(e, t, id, d, n, m);
      if m != n {
        DistinctFirstReferences(refs, m, n);
      }
    }
  }

  /**
   * What a successful repair of empty ordinals leaves in the table, for every
   * candidate of the forest: complete and distinct ordinals, the artifact's order
   * at a root, and anywhere else the predecessor's order followed by the new
   * mappings in the order of their first references.
   */
  lemma RepairedTableIsOrdered(e: Env, t: Table, rows: seq<Row>, r: Table, id: Id, d: nat)
    requires IsForest(e, t) && Empty(e.candidates, t) && IsWorkList(e.candidates, rows)
    requires Repairable(e, t, rows) && RepairedTo(e, t, rows, |rows|, r) && InChain(e.candidates, id, d)
    ensures id in r && r[id].Keys == t[id].Keys && Distinct(r[id]) && forall m :: m in r[id] ==> r[id][m].Some?
    ensures match e.candidates[id].parent
            case None => FollowsArtifact(r[id], e.runs[e.candidates[id].run.value].artifact)
            case Some(p) => p in r && StandsByReference(r[id], r[p], e.candidates[id].questions)
  {
    hide *;
    ChainFacts(e, id, d);
    RepairedRow(e, t, rows, r, id, d);
    AcceptedIsComplete(e, id, r[id]);
    OrdinalsAreDistinct(e, t, id, d);
    if e.candidates[id].parent == None {
      RepairedRoot(e, t, id, d);
    } else {
      ParentChain(e.candidates, id, d);
      RepairedRow(e, t, rows, r, e.candidates[id].parent.value, d - 1);
      FullIsFull(r[id]);
      ExtensionStandsByReference(e, t, id, d, e.candidates[id].parent.value);
    }
  }

  lemma FullIsFull(o: Ordinals)
    requires forall m :: m in o ==> o[m].Some?
    ensures IsFull(o)
  {
  }

  lemma AcceptedIsComplete(e: Env, id: Id, o: Ordinals)
    requires id in e.candidates && Accepted(e, id, o)
    ensures forall m :: m in o ==> o[m].Some?
  {
  }
}
