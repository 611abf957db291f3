// The insert and update guards on governed candidates, beside the table's own
// constraints: every generated candidate
// stands at the end of one finite, strictly increasing chain from its root, and
// its content never changes.
module CandidateLineage {
  import opened Wrappers
  import Decimal

  type Id = nat
  type RunId = nat

  datatype Status =
    Draft | GeneratedDraft | DepartmentReview | Returned | Rejected | TechnicallyApproved | Published

  /** Everything the update guard compares except the status. */
  datatype Content = Content(
    template: string,
    version: int,
    ownerRole: string,
    creator: string,
    changeReason: string,
    questions: seq<string>,
    revision: int,
    run: Option<RunId>,
    digest: Option<string>,
    schemaVersion: Option<string>,
    root: Option<Id>,
    parent: Option<Id>)

  datatype Row = Row(content: Content, status: Status)

  type Table = map<Id, Row>

  /** What the guards look up in other tables at the moment of an insert. */
  datatype Facts = Facts(
    questions: set<string>,
    generated: map<RunId, string>,  // runs with status GENERATED and an artifact, and its digest
    scoped: set<RunId>,
    sourced: set<RunId>)

  predicate IsGenerated(t: Table, id: Id) {
    id in t && t[id].content.run.Some?
  }

  // ---------------------------------------------------------------- constraints

  predicate IsHex(c: char) {
    '0' <= c <= '9' || 'a' <= c <= 'f'
  }

  /** governed_sha256 */
  predicate IsDigest(s: string) {
    |s| == 71 && "sha256:" <= s && forall i :: 7 <= i < 71 ==> IsHex(s[i])
  }

  /** A row's own checks: a plain row has no lineage columns, a generated one has all but the parent. */
  predicate RowAdmissible(row: Row) {
    var c := row.content;
    && c.version > 0 && c.revision > 0 && c.ownerRole == "Admin Preview"
    && if c.run == None then c.digest == None && c.schemaVersion == None && c.root == None && c.parent == None
       else c.digest.Some? && IsDigest(c.digest.value) && c.schemaVersion.Some? && c.root.Some?
  }

  /** The table's checks, foreign keys and unique keys, as the migrations declare them. */
  predicate Admissible(t: Table) {
    && (forall id :: id in t ==> RowAdmissible(t[id]))
    && (forall id :: id in t && t[id].content.root.Some? ==> t[id].content.root.value in t)
    && (forall id :: id in t && t[id].content.parent.Some? ==> t[id].content.parent.value in t)
    && (forall a, b :: a in t && b in t && a != b && t[a].content.parent.Some? ==> t[a].content.parent != t[b].content.parent)
    && (forall a, b :: a in t && b in t && a != b && t[a].content.template == t[b].content.template ==>
          t[a].content.version != t[b].content.version && !(t[a].status == Draft && t[b].status == Draft))
  }

  const HEX: string := "0123456789abcdef"

  /** A digest is the prefix and sixty-four hexadecimal digits in small letters. */
  lemma DigestIff(s: string)
    ensures IsDigest(s) <==> exists h: string :: s == "sha256:" + h && |h| == 64 && forall i :: 0 <= i < 64 ==> h[i] in HEX
  {
    HexIff();
    if IsDigest(s) {
      var h := s[7..];
      assert s == "sha256:" + h && forall i :: 0 <= i < 64 ==> h[i] == s[i + 7] && h[i] in HEX;
    }
    if h: string :| s == "sha256:" + h && |h| == 64 && forall i :: 0 <= i < 64 ==> h[i] in HEX {
      assert forall i :: 7 <= i < 71 ==> s[i] == h[i - 7];
    }
  }

  lemma HexIff()
    ensures forall c :: IsHex(c) <==> c in HEX
  {
    forall c
      ensures IsHex(c) <==> c in HEX
    {
      if IsHex(c) {
        var i := if c <= '9' then c as int - '0' as int else c as int - 'a' as int + 10;
        assert HEX[i] == c;
      }
    }
  }

  /** What no statement can leave behind: each constraint on its own. */
  lemma ConstraintsHold(t: Table, a: Id, b: Id)
    requires Admissible(t) && a in t && b in t
    ensures var c := t[a].content;
            && c.version >= 1 && c.revision >= 1 && c.ownerRole == "Admin Preview"
            && (c.run == None ==> c.digest == None && c.schemaVersion == None && c.root == None && c.parent == None)
            && (c.run.Some? ==> c.digest.Some? && IsDigest(c.digest.value) && c.schemaVersion.Some? && c.root.Some?)
            && (c.root.Some? ==> c.root.value in t) && (c.parent.Some? ==> c.parent.value in t)
    ensures a != b && t[a].content.parent.Some? ==> t[a].content.parent != t[b].content.parent
    ensures a != b && t[a].content.template == t[b].content.template ==> t[a].content.version != t[b].content.version
    ensures a != b && t[a].content.template == t[b].content.template ==> !(t[a].status == Draft && t[b].status == Draft)
  {
    hide IsDigest;
  }

  // ---------------------------------------------------------------- guards

  /** A root names itself; a successor extends its parent's chain in version and revision. */
  predicate ExtendsChain(t: Table, id: Id, c: Content) {
    match c.parent
    case None => c.root == Some(id)
    case Some(p) =>
      && IsGenerated(t, p)
      && var parent := t[p].content;
         && parent.template == c.template && parent.root == c.root && parent.run == c.run
         && parent.version < c.version && parent.revision < c.revision
  }

  /** validate_governed_generated_candidate */
  predicate InsertAllowed(f: Facts, t: Table, id: Id, row: Row) {
    var c := row.content;
    c.run == None
    || (&& c.questions != [] && "" !in c.questions && (forall q :: q in c.questions ==> q in f.questions)
        && c.run.value in f.generated && c.run.value in f.scoped && c.run.value in f.sourced
        && ExtendsChain(t, id, c)
        && (c.parent == None ==> Some(f.generated[c.run.value]) == c.digest))
  }

  predicate StatusStep(a: Status, b: Status) {
    match a
    case GeneratedDraft => b == DepartmentReview
    case DepartmentReview => b == Returned || b == Rejected || b == TechnicallyApproved
    case TechnicallyApproved => b == Published
    case _ => false
  }

  /** governed_generated_candidate_immutable_guard on an update. */
  predicate UpdateAllowed(id: Id, before: Row, id': Id, after: Row) {
    before.content.run == None
    || (StatusStep(before.status, after.status) && id' == id && after.content == before.content)
  }

  datatype Move =
    | Insert(facts: Facts, id: Id, row: Row)
    | Update(id: Id, id': Id, row: Row)
    | Delete(id: Id)

  /** The guards let a move through. */
  predicate MoveGuarded(t: Table, m: Move) {
    match m
    case Insert(f, id, row) => id !in t && InsertAllowed(f, t, id, row)
    case Update(id, id', row) => id in t && (id' == id || id' !in t) && UpdateAllowed(id, t[id], id', row)
    // The guard answers a delete with the null NEW row, which skips it, or raises.
    case Delete(id) => id in t && t[id].content.run == None
  }

  function Apply(t: Table, m: Move): Table {
    match m
    case Insert(_, id, row) => t[id := row]
    case Update(id, id', row) => (t - {id})[id' := row]
    case Delete(_) => t
  }

  /** A statement the database carries out: guarded, and the table it leaves keeps the constraints. */
  predicate MoveAllowed(t: Table, m: Move) {
    MoveGuarded(t, m) && Admissible(Apply(t, m))
  }

  // ---------------------------------------------------------------- lineage

  /** A path of predecessors: one template, root and run, falling in version and revision, ending at the root. */
  predicate IsLineage(t: Table, path: seq<Id>) {
    && path != []
    && (forall i :: 0 <= i < |path| ==> IsGenerated(t, path[i]))
    && (forall i :: 0 <= i < |path| - 1 ==> t[path[i]].content.parent == Some(path[i + 1]) && Older(t, path[i + 1], path[i]))
    && t[path[|path| - 1]].content.parent == None
    && t[path[|path| - 1]].content.root == Some(path[|path| - 1])
  }

  predicate Older(t: Table, p: Id, c: Id)
    requires p in t && c in t
  {
    var a, b := t[p].content, t[c].content;
    && a.template == b.template && a.root == b.root && a.run == b.run
    && a.version < b.version && a.revision < b.revision
  }

  ghost predicate HasLineage(t: Table, id: Id) {
    exists path :: IsLineage(t, path) && path[0] == id
  }

  ghost predicate Inv(t: Table) {
    forall id :: IsGenerated(t, id) ==> HasLineage(t, id)
  }

  /** A path survives any change of the table that keeps the content of its rows. */
  lemma LineageSurvives(t: Table, u: Table, path: seq<Id>)
    requires IsLineage(t, path)
    requires forall i :: 0 <= i < |path| ==> path[i] in u && u[path[i]].content == t[path[i]].content
    ensures IsLineage(u, path)
  {
  }

  lemma OthersKeepLineage(t: Table, u: Table, id: Id)
    requires HasLineage(t, id)
    requires forall g :: IsGenerated(t, g) ==> g in u && u[g].content == t[g].content
    ensures HasLineage(u, id)
  {
    var path :| IsLineage(t, path) && path[0] == id;
    LineageSurvives(t, u, path);
  }

  /** The chain test of the insert guard is exactly what a new end of a chain needs. */
  lemma LineageIffExtendsChain(t: Table, u: Table, id: Id, row: Row)
    requires Inv(t) && id !in t && u == t[id := row] && row.content.run.Some?
    ensures HasLineage(u, id) <==> ExtendsChain(t, id, row.content)
  {
    var c := row.content;
    if ExtendsChain(t, id, c) {
      if c.parent == None {
        assert IsLineage(u, [id]);
      } else {
        OthersKeepLineage(t, u, c.parent.value);
        var path :| IsLineage(u, path) && path[0] == c.parent.value;
        ExtendPath(u, id, path);
      }
    }
    if HasLineage(u, id) {
      var path :| IsLineage(u, path) && path[0] == id;
      if |path| > 1 {
        assert Older(u, path[1], path[0]);
        assert path[1] != id;
        assert IsGenerated(u, path[1]);
      }
    }
  }

  lemma ExtendPath(u: Table, id: Id, path: seq<Id>)
    requires IsLineage(u, path) && IsGenerated(u, id) && u[id].content.parent == Some(path[0]) && Older(u, path[0], id)
    ensures HasLineage(u, id)
  {
    var longer := [id] + path;
    forall i | 0 <= i < |longer| - 1
      ensures u[longer[i]].content.parent == Some(longer[i + 1]) && Older(u, longer[i + 1], longer[i])
    {
      if i > 0 {
        assert longer[i] == path[i - 1] && longer[i + 1] == path[i];
      }
    }
    assert IsLineage(u, longer);
  }

  /** Inserting a row keeps every lineage exactly when the row is plain or extends a chain. */
  lemma InsertIff(t: Table, id: Id, row: Row)
    requires Inv(t) && id !in t
    ensures Inv(t[id := row]) <==> row.content.run == None || ExtendsChain(t, id, row.content)
  {
    var u := t[id := row];
    forall g | IsGenerated(t, g)
      ensures HasLineage(u, g)
    {
      OthersKeepLineage(t, u, g);
    }
    if row.content.run.Some? {
      LineageIffExtendsChain(t, u, id, row);
      assert IsGenerated(u, id);
    }
    forall g | IsGenerated(u, g) && g != id
      ensures HasLineage(u, g)
    {
      assert IsGenerated(t, g);
    }
  }

  lemma RemovePlain(t: Table, id: Id)
    requires Inv(t) && id in t && t[id].content.run == None
    ensures Inv(t - {id})
  {
    forall g | IsGenerated(t - {id}, g)
      ensures HasLineage(t - {id}, g)
    {
      assert IsGenerated(t, g);
      OthersKeepLineage(t, t - {id}, g);
    }
  }

  /** The condition the guards leave to the caller: a plain row stays plain or joins a chain properly. */
  predicate Careful(t: Table, m: Move) {
    match m
    case Update(id, id', row) =>
      (id in t && t[id].content.run == None && row.content.run.Some?) ==> ExtendsChain(t - {id}, id', row.content)
    case _ => true
  }

  /** An allowed move keeps every lineage exactly when it is careful in that sense. */
  lemma MoveIff(t: Table, m: Move)
    requires Inv(t) && MoveAllowed(t, m)
    ensures Inv(Apply(t, m)) <==> Careful(t, m)
  {
    match m
    case Insert(f, id, row) => InsertIff(t, id, row);
    case Delete(_) =>
    case Update(id, id', row) =>
      if t[id].content.run == None {
        RemovePlain(t, id);
        InsertIff(t - {id}, id', row);
      } else {
        var u := Apply(t, m);
        forall g | IsGenerated(u, g)
          ensures HasLineage(u, g)
        {
          assert IsGenerated(t, g);
          OthersKeepLineage(t, u, g);
        }
      }
  }

  const DIGEST: string := "sha256:" + Decimal.Zeros(64)

  lemma DigestIsDigest()
    ensures IsDigest(DIGEST)
  {
    assert forall i :: 7 <= i < 71 ==> DIGEST[i] == Decimal.Zeros(64)[i - 7];
  }

  /** A plain row of version 1. */
  const PLAIN := Content("T", 1, "Admin Preview", "S", "R", ["q"], 1, None, None, None, None, None)

  /** A generated row of run 1 that names root 8. */
  function Governed(version: int): Content {
    Content("T", version, "Admin Preview", "S", "R", ["q"], 1, Some(1), Some(DIGEST), Some("v1"), Some(8), None)
  }

  /** A table of a row 7, plain or generated, and the root 8. */
  function TwoRows(content: Content, status: Status): Table {
    map[7 := Row(content, status), 8 := Row(Governed(2), GeneratedDraft)]
  }

  lemma TwoRowsAreAdmissible()
    ensures Admissible(TwoRows(PLAIN, Draft)) && Admissible(TwoRows(Governed(1), GeneratedDraft))
  {
    hide DIGEST, RowAdmissible, Admissible;
    GovernedIsAdmissible(1);
    GovernedIsAdmissible(2);
    PlainIsAdmissible();
    TwoAreAdmissible(TwoRows(PLAIN, Draft));
    TwoAreAdmissible(TwoRows(Governed(1), GeneratedDraft));
  }

  lemma GovernedIsAdmissible(version: int)
    requires version > 0
    ensures RowAdmissible(Row(Governed(version), GeneratedDraft))
  {
    hide IsDigest, DIGEST;
    DigestIsDigest();
  }

  lemma PlainIsAdmissible()
    ensures RowAdmissible(Row(PLAIN, Draft))
  {
  }

  lemma TwoAreAdmissible(t: Table)
    requires t.Keys == {7, 8} && RowAdmissible(t[7]) && RowAdmissible(t[8])
    requires t[7].content.parent == None && t[8].content.parent == None
    requires t[8].content.root == Some(8) && (t[7].content.root == None || t[7].content.root == Some(8))
    requires t[7].content.version != t[8].content.version && t[8].status == GeneratedDraft
    ensures Admissible(t)
  {
    hide RowAdmissible;
  }

  lemma RootAloneIsWell()
    ensures Inv(TwoRows(PLAIN, Draft))
  {
    var t := TwoRows(PLAIN, Draft);
    assert IsLineage(t, [8]);
    forall id | IsGenerated(t, id)
      ensures HasLineage(t, id)
    {
      assert id == 8 && [8][0] == id;
    }
  }

  /**
   * The guards and constraints together do not suffice: beside a proper root 8, a
   * plain row 7 may acquire run 1 and name root 8 with no chain between them.
   */
  lemma GuardsLeaveAGap() returns (t: Table, m: Move)
    ensures Admissible(t) && Inv(t) && MoveAllowed(t, m) && !Inv(Apply(t, m))
  {
    hide Admissible, Inv, DIGEST;
    t := TwoRows(PLAIN, Draft);
    m := Update(7, 7, Row(Governed(1), GeneratedDraft));
    TwoRowsAreAdmissible();
    RootAloneIsWell();
    assert Apply(t, m) == TwoRows(Governed(1), GeneratedDraft);
    assert !Careful(t, m);
    MoveIff(t, m);
  }

  // ---------------------------------------------------------------- runs

  datatype Run = Run(tables: seq<Table>, moves: seq<Move>)

  predicate IsRun(r: Run) {
    && |r.tables| == |r.moves| + 1
    && forall i :: 0 <= i < |r.moves| ==>
         MoveAllowed(r.tables[i], r.moves[i]) && r.tables[i + 1] == Apply(r.tables[i], r.moves[i])
  }

  /** A careful run from a table in order, an empty one for instance. */
  ghost predicate IsCarefulRun(r: Run) {
    IsRun(r) && Inv(r.tables[0]) && Admissible(r.tables[0]) && forall i :: 0 <= i < |r.moves| ==> Careful(r.tables[i], r.moves[i])
  }

  /** On every careful run each generated candidate keeps a lineage to the root it names. */
  lemma {:induction false} LineageAlways(r: Run, i: nat)
    requires IsCarefulRun(r) && i < |r.tables|
    ensures Inv(r.tables[i])
  {
    if i > 0 {
      LineageAlways(r, i - 1);
      MoveIff(r.tables[i - 1], r.moves[i - 1]);
    }
  }

  /** What the lineage says of its first row: the chain ends at the row named by candidate_root_id. */
  lemma {:induction false} LineageEndsAtNamedRoot(t: Table, path: seq<Id>)
    requires IsLineage(t, path)
    ensures t[path[0]].content.root == Some(path[|path| - 1])
    ensures forall i, j :: 0 <= i < j < |path| ==>
              t[path[j]].content.version < t[path[i]].content.version && t[path[j]].content.revision < t[path[i]].content.revision
    ensures forall i :: 0 <= i < |path| ==>
              t[path[i]].content.template == t[path[0]].content.template && t[path[i]].content.run == t[path[0]].content.run
    decreases |path|
  {
    if |path| > 1 {
      var rest := path[1..];
      TailIsLineage(t, path);
      LineageEndsAtNamedRoot(t, rest);
      assert Older(t, path[1], path[0]);
      forall j | 1 <= j < |path|
        ensures t[path[j]].content.version <= t[path[1]].content.version && t[path[j]].content.revision <= t[path[1]].content.revision
        ensures path[j] == rest[j - 1]
      {
        assert path[j] == rest[j - 1];
        assert j > 1 ==> t[rest[j - 1]].content.version < t[rest[0]].content.version;
      }
    }
  }

  /** A candidate has one lineage only. */
  lemma {:induction false} LineageIsUnique(t: Table, p: seq<Id>, q: seq<Id>)
    requires IsLineage(t, p) && IsLineage(t, q) && p[0] == q[0]
    ensures p == q
    decreases |p|
  {
    LengthFromParent(t, p);
    LengthFromParent(t, q);
    if |p| > 1 {
      assert p[1] == q[1];
      TailIsLineage(t, p);
      TailIsLineage(t, q);
      LineageIsUnique(t, p[1..], q[1..]);
      assert p == [p[0]] + p[1..] && q == [q[0]] + q[1..];
    }
  }

  /** One successor at most per candidate: the lineages of one root are stretches of a single chain. */
  lemma {:induction false} OneChainPerRoot(t: Table, p: seq<Id>, q: seq<Id>, k: nat)
    requires Admissible(t) && IsLineage(t, p) && IsLineage(t, q) && t[p[0]].content.root == t[q[0]].content.root
    requires k < |p| && k < |q|
    ensures p[|p| - 1 - k] == q[|q| - 1 - k]
  {
    hide IsLineage, Admissible;
    if k == 0 {
      LineageEndsAtNamedRoot(t, p);
      LineageEndsAtNamedRoot(t, q);
    } else {
      OneChainPerRoot(t, p, q, k - 1);
      var i, j := |p| - 1 - k, |q| - 1 - k;
      StepToParent(t, p, i);
      StepToParent(t, q, j);
      OneSuccessor(t, p[i], q[j]);
    }
  }

  lemma StepToParent(t: Table, path: seq<Id>, i: nat)
    requires IsLineage(t, path) && i + 1 < |path|
    ensures path[i] in t && t[path[i]].content.parent == Some(path[i + 1])
  {
    assert IsGenerated(t, path[i]);
  }

  lemma OneSuccessor(t: Table, a: Id, b: Id)
    requires Admissible(t) && a in t && b in t && t[a].content.parent.Some? && t[a].content.parent == t[b].content.parent
    ensures a == b
  {
  }

  /** So of two generated candidates with one root, one stands in the other's lineage. */
  lemma CandidatesOfARootAreComparable(t: Table, p: seq<Id>, q: seq<Id>)
    requires Admissible(t) && IsLineage(t, p) && IsLineage(t, q) && t[p[0]].content.root == t[q[0]].content.root
    requires |p| <= |q|
    ensures p == q[|q| - |p|..]
  {
    hide IsLineage, Admissible;
    forall i | 0 <= i < |p|
      ensures p[i] == q[|q| - |p| + i]
    {
      OneChainPerRoot(t, p, q, |p| - 1 - i);
    }
  }

  lemma LengthFromParent(t: Table, path: seq<Id>)
    requires IsLineage(t, path)
    ensures |path| > 1 <==> t[path[0]].content.parent.Some?
    ensures |path| > 1 ==> t[path[0]].content.parent == Some(path[1])
  {
  }

  lemma TailIsLineage(t: Table, path: seq<Id>)
    requires IsLineage(t, path) && |path| > 1
    ensures IsLineage(t, path[1..])
  {
    var rest := path[1..];
    forall i | 0 <= i < |rest| - 1
      ensures t[rest[i]].content.parent == Some(rest[i + 1]) && Older(t, rest[i + 1], rest[i])
    {
      assert rest[i] == path[i + 1] && rest[i + 1] == path[i + 2];
    }
  }

  /** Statuses a generated candidate can still reach. */
  predicate Reaches(a: Status, b: Status) {
    a == b || match a
              case GeneratedDraft => b != Draft
              case DepartmentReview => b == Returned || b == Rejected || b == TechnicallyApproved || b == Published
              case TechnicallyApproved => b == Published
              case _ => false
  }

  /** A generated candidate is never removed or rewritten; only its status moves, and only forward. */
  lemma {:induction false} ContentIsFixed(r: Run, i: nat, j: nat, id: Id)
    requires IsRun(r) && i <= j < |r.tables| && IsGenerated(r.tables[i], id)
    ensures id in r.tables[j] && r.tables[j][id].content == r.tables[i][id].content
    ensures Reaches(r.tables[i][id].status, r.tables[j][id].status)
    decreases j
  {
    hide Admissible;
    if i < j {
      ContentIsFixed(r, i, j - 1, id);
      var t, m := r.tables[j - 1], r.moves[j - 1];
      assert MoveAllowed(t, m) && r.tables[j] == Apply(t, m);
    }
  }

  // ---------------------------------------------------------------- statuses

  /** The five steps a generated candidate's status may take. */
  predicate IsStatusStep(a: Status, b: Status) {
    || (a == GeneratedDraft && b == DepartmentReview)
    || (a == DepartmentReview && b == Returned)
    || (a == DepartmentReview && b == Rejected)
    || (a == DepartmentReview && b == TechnicallyApproved)
    || (a == TechnicallyApproved && b == Published)
  }

  /** On every run a generated candidate's status stays or takes one of the five steps. */
  lemma StatusTakesSteps(r: Run, i: nat, id: Id)
    requires IsRun(r) && i < |r.moves| && IsGenerated(r.tables[i], id)
    ensures id in r.tables[i + 1]
    ensures r.tables[i + 1][id].status == r.tables[i][id].status
            || IsStatusStep(r.tables[i][id].status, r.tables[i + 1][id].status)
  {
    hide Admissible;
    assert MoveAllowed(r.tables[i], r.moves[i]) && r.tables[i + 1] == Apply(r.tables[i], r.moves[i]);
  }

  /** Each of the five steps is let through, for any generated candidate of a table in order. */
  lemma StatusStepIsAllowed(t: Table, id: Id, b: Status)
    requires Admissible(t) && IsGenerated(t, id) && IsStatusStep(t[id].status, b)
    ensures var m := Update(id, id, Row(t[id].content, b));
            MoveAllowed(t, m) && Apply(t, m) == t[id := Row(t[id].content, b)]
  {
    var m := Update(id, id, Row(t[id].content, b));
    assert Apply(t, m) == t[id := Row(t[id].content, b)];
    StatusKeepsConstraints(t, id, b);
  }

  lemma StatusKeepsConstraints(t: Table, id: Id, b: Status)
    requires Admissible(t) && id in t && b != Draft
    ensures Admissible(t[id := Row(t[id].content, b)])
  {
    hide IsDigest;
  }

  /** Between a generated draft and a later status stands every status of the way there. */
  lemma {:induction false} StatusIsPassed(r: Run, i: nat, j: nat, id: Id, at: Status) returns (k: nat)
    requires IsRun(r) && i <= j < |r.tables| && IsGenerated(r.tables[i], id)
    requires id in r.tables[j] && r.tables[i][id].status != at
    requires (at == DepartmentReview && r.tables[i][id].status == GeneratedDraft && r.tables[j][id].status == TechnicallyApproved)
             || (at == TechnicallyApproved && r.tables[i][id].status != Published && r.tables[j][id].status == Published)
    ensures i < k < j && id in r.tables[k] && r.tables[k][id].status == at
    decreases j
  {
    hide Admissible;
    ContentIsFixed(r, i, j - 1, id);
    StatusTakesSteps(r, j - 1, id);
    if r.tables[j - 1][id].status == at {
      k := j - 1;
    } else {
      k := StatusIsPassed(r, i, j - 1, id, at);
    }
  }

  /** A generated draft that is published later was in department review and, after that, technically approved. */
  lemma PublishedWasReviewed(r: Run, i: nat, j: nat, id: Id) returns (a: nat, b: nat)
    requires IsRun(r) && i <= j < |r.tables| && IsGenerated(r.tables[i], id)
    requires r.tables[i][id].status == GeneratedDraft && id in r.tables[j] && r.tables[j][id].status == Published
    ensures i < a < b < j && id in r.tables[a] && id in r.tables[b]
    ensures r.tables[a][id].status == DepartmentReview && r.tables[b][id].status == TechnicallyApproved
  {
    b := StatusIsPassed(r, i, j, id, TechnicallyApproved);
    a := StatusIsPassed(r, i, b, id, DepartmentReview);
  }

  // ---------------------------------------------------------------- what an insert demands

  /**
   * A generated candidate that a run inserts names known question versions, a run
   * with complete lineage and, at a root, that run's output digest; its row is
   * exactly the one given.
   */
  lemma InsertedIsComplete(r: Run, i: nat)
    requires IsRun(r) && i < |r.moves| && r.moves[i].Insert? && r.moves[i].row.content.run.Some?
    ensures var m := r.moves[i];
            var c := m.row.content;
            && m.id !in r.tables[i] && r.tables[i + 1] == r.tables[i][m.id := m.row]
            && c.questions != [] && (forall q :: q in c.questions ==> q != "" && q in m.facts.questions)
            && c.run.value in m.facts.generated && c.run.value in m.facts.scoped && c.run.value in m.facts.sourced
            && (c.parent == None ==> c.digest == Some(m.facts.generated[c.run.value]))
  {
    hide Admissible;
    assert MoveAllowed(r.tables[i], r.moves[i]) && r.tables[i + 1] == Apply(r.tables[i], r.moves[i]);
  }

  /** A root that meets those demands is let in, and so is a successor that is newer than its parent in every respect. */
  lemma CompleteIsInserted(f: Facts, t: Table, id: Id, row: Row)
    requires id !in t && Admissible(t[id := row]) && row.content.run.Some?
    requires var c := row.content;
             && c.questions != [] && (forall q :: q in c.questions ==> q != "" && q in f.questions)
             && c.run.value in f.generated && c.run.value in f.scoped && c.run.value in f.sourced
    requires var c := row.content;
             match c.parent
             case None => c.root == Some(id) && c.digest == Some(f.generated[c.run.value])
             case Some(p) => IsGenerated(t, p) && t[p].content.template == c.template && t[p].content.root == c.root
                             && t[p].content.run == c.run && t[p].content.version < c.version && t[p].content.revision < c.revision
    ensures MoveAllowed(t, Insert(f, id, row))
  {
    hide Admissible;
  }

  /** Plain rows are the caller's: any insert, update or deletion of one that the constraints bear is carried out. */
  lemma PlainIsFree(t: Table, m: Move)
    requires Admissible(Apply(t, m))
    requires match m
             case Insert(_, id, row) => id !in t && row.content.run == None
             case Update(id, id', _) => id in t && (id' == id || id' !in t) && t[id].content.run == None
             case Delete(id) => id in t && t[id].content.run == None
    ensures MoveAllowed(t, m)
  {
    hide Admissible;
  }
}
