// Catalog memberships guarded by append-only provenance under READ COMMITTED:
// any number of transactions, each statement seeing the committed rows and its
// transaction's own. The guard trigger is four statements, lock, two tests and
// insert, and other transactions may act between any two of them.
module Provenance {
  import opened Wrappers

  type Tx = nat
  type Question = string
  type Catalog = string
  type Key = int

  datatype Usage = GovernedOperational | PreprodExercise

  /** A provenance row, and likewise a membership row; each carries a usage class of its own. */
  datatype Row = Row(question: Question, usage: Usage, catalog: Catalog)

  /** How far the trigger of a membership insert has come. */
  datatype Guard =
    | Idle
    | Locked(row: Row)
    | ClassTested(row: Row)
    | BindingTested(row: Row)

  /** What an open transaction has written so far, the advisory locks it holds, and its running trigger. */
  datatype Open = Open(provenance: set<Row>, memberships: set<Row>, locks: set<Key>, guard: Guard)

  const FRESH := Open({}, {}, {}, Idle)

  datatype State = State(provenance: set<Row>, memberships: set<Row>, open: map<Tx, Open>)

  /** hashtextextended: any function will do, collisions only lock more than needed. */
  datatype Env = Env(key: Question -> Key)

  function Visible(s: State, tx: Tx): set<Row>
    requires tx in s.open
  {
    s.provenance + s.open[tx].provenance
  }

  ghost predicate Begin(s: State, t: State, tx: Tx) {
    tx !in s.open && t == s.(open := s.open[tx := FRESH])
  }

  ghost predicate RecordProvenance(s: State, t: State, tx: Tx, row: Row) {
    && tx in s.open && s.open[tx].guard == Idle
    && t == s.(open := s.open[tx := s.open[tx].(provenance := s.open[tx].provenance + {row})])
  }

  /** Nobody else holds the question's lock. */
  predicate LockFree(s: State, tx: Tx, key: Key) {
    forall other :: other in s.open && other != tx ==> key !in s.open[other].locks
  }

  /** A membership insert begins: its trigger takes the question's lock, to be held to the end of the transaction. */
  ghost predicate TakeLock(e: Env, s: State, t: State, tx: Tx, row: Row) {
    && tx in s.open && s.open[tx].guard == Idle
    && LockFree(s, tx, e.key(row.question))
    && t == s.(open := s.open[tx := s.open[tx].(locks := s.open[tx].locks + {e.key(row.question)}, guard := Locked(row))])
  }

  /** No visible provenance of the question has another class. */
  predicate OfOneClass(visible: set<Row>, row: Row) {
    forall p :: p in visible && p.question == row.question ==> p.usage == row.usage
  }

  /** The trigger's first test; it raises, and the transaction aborts, unless it passes. */
  ghost predicate TestClass(s: State, t: State, tx: Tx) {
    && tx in s.open && s.open[tx].guard.Locked?
    && OfOneClass(Visible(s, tx), s.open[tx].guard.row)
    && t == s.(open := s.open[tx := s.open[tx].(guard := ClassTested(s.open[tx].guard.row))])
  }

  /** The second test, on a snapshot of its own. */
  ghost predicate TestBinding(s: State, t: State, tx: Tx) {
    && tx in s.open && s.open[tx].guard.ClassTested?
    && s.open[tx].guard.row in Visible(s, tx)
    && t == s.(open := s.open[tx := s.open[tx].(guard := BindingTested(s.open[tx].guard.row))])
  }

  /** The trigger returns and the row is inserted. */
  ghost predicate Insert(s: State, t: State, tx: Tx) {
    && tx in s.open && s.open[tx].guard.BindingTested?
    && t == s.(open := s.open[tx := s.open[tx].(
                 memberships := s.open[tx].memberships + {s.open[tx].guard.row},
                 guard := Idle)])
  }

  /** A commit publishes the transaction's rows and releases its locks, in one step. */
  ghost predicate Commit(s: State, t: State, tx: Tx) {
    && tx in s.open && s.open[tx].guard == Idle
    && t == State(s.provenance + s.open[tx].provenance, s.memberships + s.open[tx].memberships, s.open - {tx})
  }

  ghost predicate Abort(s: State, t: State, tx: Tx) {
    tx in s.open && t == s.(open := s.open - {tx})
  }

  datatype Move = MBegin | MRecord(row: Row) | MLock(row: Row) | MTestClass | MTestBinding | MInsert | MCommit | MAbort

  ghost predicate Step(e: Env, s: State, t: State, tx: Tx, m: Move) {
    match m
    case MBegin => Begin(s, t, tx)
    case MRecord(row) => RecordProvenance(s, t, tx, row)
    case MLock(row) => TakeLock(e, s, t, tx, row)
    case MTestClass => TestClass(s, t, tx)
    case MTestBinding => TestBinding(s, t, tx)
    case MInsert => Insert(s, t, tx)
    case MCommit => Commit(s, t, tx)
    case MAbort => Abort(s, t, tx)
  }

  ghost predicate Next(e: Env, s: State, t: State) {
    exists tx, m :: Step(e, s, t, tx, m)
  }

  // ---------------------------------------------------------------- backfill

  /** The backfill's check: no question version has memberships of two classes. */
  predicate OneClassEach(memberships: set<Row>) {
    forall a, b :: a in memberships && b in memberships && a.question == b.question ==> a.usage == b.usage
  }

  /** The other check: every membership has the usage class of its catalog. */
  predicate MatchesCatalogs(catalogs: map<Catalog, Usage>, memberships: set<Row>) {
    forall m :: m in memberships && m.catalog in catalogs ==> catalogs[m.catalog] == m.usage
  }

  /** The repair block: refuse mismatched or conflicting memberships, otherwise record each one's provenance. */
  function Backfill(catalogs: map<Catalog, Usage>, provenance: set<Row>, memberships: set<Row>): (r: Option<set<Row>>)
    ensures r.Some? <==> MatchesCatalogs(catalogs, memberships) && OneClassEach(memberships)
    ensures r.Some? ==> provenance <= r.value && memberships <= r.value
  {
    if !MatchesCatalogs(catalogs, memberships) then None
    else if !OneClassEach(memberships) then None
    else Some(provenance + memberships)
  }

  // ---------------------------------------------------------------- invariant

  /**
   * What a running trigger has established and nobody can undo: the lock, then that
   * the memberships of the question have the row's class, then the binding.
   */
  predicate GuardWell(e: Env, s: State, tx: Tx)
    requires tx in s.open
  {
    var o := s.open[tx];
    match o.guard
    case Idle => true
    case Locked(row) => e.key(row.question) in o.locks
    case ClassTested(row) => e.key(row.question) in o.locks && OfOneClass(s.memberships + o.memberships, row)
    case BindingTested(row) =>
      e.key(row.question) in o.locks && OfOneClass(s.memberships + o.memberships, row) && row in Visible(s, tx)
  }

  /** An open transaction's own rows: bound to visible provenance, locked, and of one class with the committed ones. */
  predicate OpenWell(e: Env, s: State, tx: Tx)
    requires tx in s.open
  {
    var o := s.open[tx];
    && (forall m :: m in o.memberships ==> m in Visible(s, tx) && e.key(m.question) in o.locks)
    && OneClassEach(s.memberships + o.memberships)
    && GuardWell(e, s, tx)
  }

  predicate LocksExclude(s: State) {
    forall a, b :: a in s.open && b in s.open && a != b ==> s.open[a].locks !! s.open[b].locks
  }

  predicate Inv(e: Env, s: State) {
    && s.memberships <= s.provenance
    && OneClassEach(s.memberships)
    && LocksExclude(s)
    && forall tx :: tx in s.open ==> OpenWell(e, s, tx)
  }

  /** All catalogs that hold a question version have one class. */
  predicate CatalogsAgree(catalogs: map<Catalog, Usage>, memberships: set<Row>) {
    forall a, b :: a in memberships && b in memberships && a.question == b.question && a.catalog in catalogs && b.catalog in catalogs ==>
      catalogs[a.catalog] == catalogs[b.catalog]
  }

  /** A backfill that passes both checks establishes the invariant, and the catalogs of every question version agree. */
  lemma BackfillEstablishes(e: Env, catalogs: map<Catalog, Usage>, provenance: set<Row>, memberships: set<Row>)
    requires Backfill(catalogs, provenance, memberships).Some?
    ensures Inv(e, State(Backfill(catalogs, provenance, memberships).value, memberships, map[]))
    ensures CatalogsAgree(catalogs, memberships)
    ensures forall m :: m in memberships && m.catalog in catalogs ==> m.usage == catalogs[m.catalog]
  {
  }

  /** The backfill refuses exactly a membership of another class than its catalog, or two classes of one question version; otherwise it adds what is missing. */
  lemma BackfillIff(catalogs: map<Catalog, Usage>, provenance: set<Row>, memberships: set<Row>)
    ensures Backfill(catalogs, provenance, memberships) == None <==>
            || (exists m :: m in memberships && m.catalog in catalogs && m.usage != catalogs[m.catalog])
            || (exists a, b :: a in memberships && b in memberships && a.question == b.question && a.usage != b.usage)
    ensures Backfill(catalogs, provenance, memberships).Some? ==>
              Backfill(catalogs, provenance, memberships).value == provenance + memberships
  {
  }

  /** A step of tx alone: nothing is committed, and its rows and its guard are well afterwards. */
  lemma OwnStepKeepsInv(e: Env, s: State, t: State, tx: Tx)
    requires Inv(e, s) && tx in s.open && tx in t.open
    requires t == s.(open := s.open[tx := t.open[tx]])
    requires s.open[tx].locks <= t.open[tx].locks
    requires forall key :: key in t.open[tx].locks && key !in s.open[tx].locks ==> LockFree(s, tx, key)
    requires OpenWell(e, t, tx)
    ensures Inv(e, t)
  {
    hide OneClassEach, OfOneClass;
    forall other | other in t.open
      ensures OpenWell(e, t, other)
    {
      if other != tx {
        assert other in s.open && OpenWell(e, s, other) && t.open[other] == s.open[other];
      }
    }
    forall other | other in t.open && other != tx
      ensures t.open[tx].locks !! t.open[other].locks
    {
      assert other in s.open && s.open[tx].locks !! s.open[other].locks && t.open[other] == s.open[other];
      assert forall key :: key in t.open[tx].locks && key !in s.open[tx].locks ==> key !in s.open[other].locks;
    }
  }

  lemma LockKeepsInv(e: Env, s: State, t: State, tx: Tx, row: Row)
    requires Inv(e, s) && TakeLock(e, s, t, tx, row)
    ensures Inv(e, t)
  {
    hide OneClassEach, OfOneClass;
    assert OpenWell(e, s, tx);
    OwnStepKeepsInv(e, s, t, tx);
  }

  /** The first test passes for all visible provenance, so for every visible membership. */
  lemma TestClassKeepsInv(e: Env, s: State, t: State, tx: Tx)
    requires Inv(e, s) && TestClass(s, t, tx)
    ensures Inv(e, t)
  {
    assert OpenWell(e, s, tx);
    assert forall m :: m in s.memberships + s.open[tx].memberships ==> m in Visible(s, tx);
    assert OfOneClass(s.memberships + s.open[tx].memberships, s.open[tx].guard.row);
    hide OneClassEach, OfOneClass;
    OwnStepKeepsInv(e, s, t, tx);
  }

  lemma TestBindingKeepsInv(e: Env, s: State, t: State, tx: Tx)
    requires Inv(e, s) && TestBinding(s, t, tx)
    ensures Inv(e, t)
  {
    hide OneClassEach, OfOneClass;
    assert OpenWell(e, s, tx);
    OwnStepKeepsInv(e, s, t, tx);
  }

  /** A row of the class of all others of its question joins them. */
  lemma OneMoreOfItsClass(memberships: set<Row>, row: Row)
    requires OneClassEach(memberships) && OfOneClass(memberships, row)
    ensures OneClassEach(memberships + {row})
  {
  }

  lemma InsertKeepsInv(e: Env, s: State, t: State, tx: Tx)
    requires Inv(e, s) && Insert(s, t, tx)
    ensures Inv(e, t)
  {
    hide OneClassEach, OfOneClass;
    assert OpenWell(e, s, tx);
    var row := s.open[tx].guard.row;
    OneMoreOfItsClass(s.memberships + s.open[tx].memberships, row);
    assert s.memberships + t.open[tx].memberships == s.memberships + s.open[tx].memberships + {row};
    OwnStepKeepsInv(e, s, t, tx);
  }

  lemma RecordKeepsInv(e: Env, s: State, t: State, tx: Tx, row: Row)
    requires Inv(e, s) && RecordProvenance(s, t, tx, row)
    ensures Inv(e, t)
  {
    hide OneClassEach, OfOneClass;
    assert OpenWell(e, s, tx);
    OwnStepKeepsInv(e, s, t, tx);
  }

  /** Two open transactions never hold memberships of one question version. */
  lemma OpenMembershipsAreApart(e: Env, s: State, a: Tx, b: Tx, m: Row, n: Row)
    requires Inv(e, s) && a in s.open && b in s.open && a != b
    requires m in s.open[a].memberships && n in s.open[b].memberships
    ensures m.question != n.question
  {
    assert OpenWell(e, s, a) && OpenWell(e, s, b);
    assert e.key(m.question) in s.open[a].locks && e.key(n.question) in s.open[b].locks;
  }

  /** No open transaction writes memberships of a question whose lock another one holds. */
  lemma LockKeepsOthersOut(e: Env, s: State, tx: Tx, other: Tx, row: Row, m: Row)
    requires Inv(e, s) && tx in s.open && other in s.open && tx != other
    requires e.key(row.question) in s.open[other].locks && m in s.open[tx].memberships
    ensures m.question != row.question
  {
    assert OpenWell(e, s, tx);
  }

  /** A commit by tx leaves another transaction's rows of one class with all committed ones. */
  lemma CommitKeepsClasses(e: Env, s: State, t: State, tx: Tx, other: Tx)
    requires Inv(e, s) && Commit(s, t, tx) && other in t.open
    ensures OneClassEach(t.memberships + t.open[other].memberships)
  {
    assert other in s.open && other != tx && OpenWell(e, s, tx) && OpenWell(e, s, other) && t.open[other] == s.open[other];
    hide GuardWell;
    var all := t.memberships + t.open[other].memberships;
    forall a, b | a in all && b in all && a.question == b.question
      ensures a.usage == b.usage
    {
      if a in s.open[tx].memberships && b in s.open[other].memberships {
        OpenMembershipsAreApart(e, s, tx, other, a, b);
      } else if b in s.open[tx].memberships && a in s.open[other].memberships {
        OpenMembershipsAreApart(e, s, tx, other, b, a);
      } else if a in s.memberships + s.open[tx].memberships && b in s.memberships + s.open[tx].memberships {
      } else {
        assert a in s.memberships + s.open[other].memberships && b in s.memberships + s.open[other].memberships;
      }
    }
  }

  /** What another transaction's trigger has tested stays true under the commit, because it holds the question's lock. */
  lemma CommitKeepsGuard(e: Env, s: State, t: State, tx: Tx, other: Tx)
    requires Inv(e, s) && Commit(s, t, tx) && other in t.open
    ensures GuardWell(e, t, other)
  {
    assert other in s.open && other != tx && OpenWell(e, s, other) && t.open[other] == s.open[other];
    hide OneClassEach, LocksExclude;
    var guard := s.open[other].guard;
    if guard.ClassTested? || guard.BindingTested? {
      var row := guard.row;
      assert forall m :: m in s.open[tx].memberships ==> m.question != row.question by {
        forall m | m in s.open[tx].memberships
          ensures m.question != row.question
        {
          LockKeepsOthersOut(e, s, tx, other, row, m);
        }
      }
      assert OfOneClass(t.memberships + t.open[other].memberships, row);
    }
  }

  lemma CommitKeepsInv(e: Env, s: State, t: State, tx: Tx)
    requires Inv(e, s) && Commit(s, t, tx)
    ensures Inv(e, t)
  {
    hide GuardWell;
    assert OpenWell(e, s, tx);
    forall other | other in t.open
      ensures OpenWell(e, t, other)
    {
      assert other in s.open && other != tx && OpenWell(e, s, other) && t.open[other] == s.open[other];
      CommitKeepsClasses(e, s, t, tx, other);
      CommitKeepsGuard(e, s, t, tx, other);
      hide OneClassEach;
    }
  }

  lemma BeginKeepsInv(e: Env, s: State, t: State, tx: Tx)
    requires Inv(e, s) && Begin(s, t, tx)
    ensures Inv(e, t)
  {
    forall other | other in t.open
      ensures OpenWell(e, t, other)
    {
      if other != tx {
        assert OpenWell(e, s, other) && t.open[other] == s.open[other];
      } else {
        assert t.memberships + {} == t.memberships;
      }
    }
  }

  lemma AbortKeepsInv(e: Env, s: State, t: State, tx: Tx)
    requires Inv(e, s) && Abort(s, t, tx)
    ensures Inv(e, t)
  {
    forall other | other in t.open
      ensures OpenWell(e, t, other)
    {
      assert OpenWell(e, s, other) && t.open[other] == s.open[other];
    }
  }

  lemma StepKeepsInv(e: Env, s: State, t: State)
    requires Inv(e, s) && Next(e, s, t)
    ensures Inv(e, t)
  {
    hide Inv, Begin, RecordProvenance, TakeLock, TestClass, TestBinding, Insert, Commit, Abort;
    var tx, m :| Step(e, s, t, tx, m);
    match m
    case MBegin => BeginKeepsInv(e, s, t, tx);
    case MRecord(row) => RecordKeepsInv(e, s, t, tx, row);
    case MLock(row) => LockKeepsInv(e, s, t, tx, row);
    case MTestClass => TestClassKeepsInv(e, s, t, tx);
    case MTestBinding => TestBindingKeepsInv(e, s, t, tx);
    case MInsert => InsertKeepsInv(e, s, t, tx);
    case MCommit => CommitKeepsInv(e, s, t, tx);
    case MAbort => AbortKeepsInv(e, s, t, tx);
  }

  ghost predicate IsRun(e: Env, run: seq<State>) {
    && run != [] && run[0].open == map[]
    && (exists catalogs: map<Catalog, Usage>, provenance: set<Row> ::
          Backfill(catalogs, provenance, run[0].memberships) == Some(run[0].provenance))
    && forall i :: 0 <= i < |run| - 1 ==> Next(e, run[i], run[i + 1])
  }

  /** Under every interleaving all committed memberships of a question version share one usage class. */
  lemma {:induction false} OneClassAlways(e: Env, run: seq<State>, i: nat)
    requires IsRun(e, run) && i < |run|
    ensures Inv(e, run[i]) && OneClassEach(run[i].memberships)
  {
    if i == 0 {
      var catalogs: map<Catalog, Usage>, provenance: set<Row> :|
        Backfill(catalogs, provenance, run[0].memberships) == Some(run[0].provenance);
      BackfillEstablishes(e, catalogs, provenance, run[0].memberships);
      assert run[0] == State(run[0].provenance, run[0].memberships, map[]);
    } else {
      OneClassAlways(e, run, i - 1);
      StepKeepsInv(e, run[i - 1], run[i]);
    }
  }

  // ---------------------------------------------------------------- what a step does to the tables

  /** Only a commit changes the tables, by exactly the transaction's rows; nobody touches another's open rows. */
  lemma OnlyCommitsPublish(e: Env, s: State, t: State, tx: Tx, m: Move)
    requires Step(e, s, t, tx, m)
    ensures if m == MCommit then
              && t.provenance == s.provenance + s.open[tx].provenance
              && t.memberships == s.memberships + s.open[tx].memberships && tx !in t.open
            else t.provenance == s.provenance && t.memberships == s.memberships
    ensures m == MAbort ==> tx !in t.open
    ensures forall other :: other != tx ==>
              (other in t.open <==> other in s.open) && (other in t.open ==> t.open[other] == s.open[other])
  {
  }

  // ---------------------------------------------------------------- admission

  /** Consecutive states by the given moves of one transaction. */
  ghost predicate IsTrace(e: Env, run: seq<State>, tx: Tx, moves: seq<Move>) {
    |run| == |moves| + 1 && forall i :: 0 <= i < |moves| ==> Step(e, run[i], run[i + 1], tx, moves[i])
  }

  /** tx's part of a state. */
  function WithOpen(s: State, tx: Tx, o: Open): State {
    s.(open := s.open[tx := o])
  }

  /**
   * A row that is bound, of its question's one class and not locked by others is
   * let through: lock, both tests, insert and commit run, and the row is stored
   * with everything else the transaction wrote.
   */
  lemma AdmissionGoesThrough(e: Env, s: State, tx: Tx, row: Row) returns (run: seq<State>)
    requires tx in s.open && s.open[tx].guard == Idle
    requires row in s.provenance + s.open[tx].provenance
    requires forall p :: p in s.provenance + s.open[tx].provenance && p.question == row.question ==> p.usage == row.usage
    requires forall other :: other in s.open && other != tx ==> e.key(row.question) !in s.open[other].locks
    ensures IsTrace(e, run, tx, [MLock(row), MTestClass, MTestBinding, MInsert, MCommit]) && run[0] == s
    ensures run[5].memberships == s.memberships + s.open[tx].memberships + {row}
    ensures run[5].provenance == s.provenance + s.open[tx].provenance
    ensures run[5].open == s.open - {tx}
  {
    var o := s.open[tx].(locks := s.open[tx].locks + {e.key(row.question)});
    var a := WithOpen(s, tx, o.(guard := Locked(row)));
    var b := WithOpen(s, tx, o.(guard := ClassTested(row)));
    var c := WithOpen(s, tx, o.(guard := BindingTested(row)));
    var d := WithOpen(s, tx, o.(guard := Idle, memberships := o.memberships + {row}));
    var f := State(s.provenance + o.provenance, s.memberships + (o.memberships + {row}), s.open - {tx});
    assert TakeLock(e, s, a, tx, row);
    assert Visible(a, tx) == Visible(s, tx) && TestClass(a, b, tx);
    assert Visible(b, tx) == Visible(s, tx) && TestBinding(b, c, tx);
    assert Insert(c, d, tx);
    assert d.open - {tx} == s.open - {tx};
    assert Commit(d, f, tx);
    run := [s, a, b, c, d, f];
    var moves := [MLock(row), MTestClass, MTestBinding, MInsert, MCommit];
    forall i | 0 <= i < 5
      ensures Step(e, run[i], run[i + 1], tx, moves[i])
    {
    }
  }

  /** Any open transaction may abort, at any point of its trigger, and leaves nothing. */
  lemma AbortIsPossible(e: Env, s: State, tx: Tx)
    requires tx in s.open
    ensures Step(e, s, State(s.provenance, s.memberships, s.open - {tx}), tx, MAbort)
  {
  }

  /** A whole transaction of its own: record the provenance, insert the membership, commit. */
  lemma TransactionGoesThrough(e: Env, s: State, tx: Tx, row: Row) returns (run: seq<State>)
    requires tx !in s.open
    requires forall p :: p in s.provenance && p.question == row.question ==> p.usage == row.usage
    requires forall other :: other in s.open ==> e.key(row.question) !in s.open[other].locks
    ensures IsTrace(e, run, tx, [MBegin, MRecord(row), MLock(row), MTestClass, MTestBinding, MInsert, MCommit]) && run[0] == s
    ensures run[7] == State(s.provenance + {row}, s.memberships + {row}, s.open)
  {
    var a := WithOpen(s, tx, FRESH);
    var b := WithOpen(s, tx, FRESH.(provenance := {row}));
    assert Begin(s, a, tx);
    assert {} + {row} == {row};
    assert RecordProvenance(a, b, tx, row);
    var rest := AdmissionGoesThrough(e, b, tx, row);
    run := [s, a] + rest;
    var moves := [MBegin, MRecord(row), MLock(row), MTestClass, MTestBinding, MInsert, MCommit];
    forall i | 0 <= i < 7
      ensures Step(e, run[i], run[i + 1], tx, moves[i])
    {
      if i >= 2 {
        assert run[i] == rest[i - 2] && run[i + 1] == rest[i - 1];
        assert Step(e, rest[i - 2], rest[i - 1], tx, [MLock(row), MTestClass, MTestBinding, MInsert, MCommit][i - 2]);
      }
    }
    assert b.open - {tx} == s.open;
    assert s.memberships + {} + {row} == s.memberships + {row};
  }

  /** What a running trigger has seen so far, at which states of the run. */
  ghost predicate Tested(e: Env, run: seq<State>, i: nat, tx: Tx, row: Row, tests: nat) {
    exists j: nat, a: nat, b: nat :: j <= a <= b <= i < |run| && TestedAt(e, run, tx, row, tests, j, a, b)
  }

  /** The lock was free at j; from one test on no visible provenance had another class at a; from two on the row was visible at b. */
  ghost predicate TestedAt(e: Env, run: seq<State>, tx: Tx, row: Row, tests: nat, j: nat, a: nat, b: nat)
    requires j <= a <= b < |run|
  {
    && (forall other :: other in run[j].open && other != tx ==> e.key(row.question) !in run[j].open[other].locks)
    && (tests >= 1 ==> tx in run[a].open && forall p :: p in Visible(run[a], tx) && p.question == row.question ==> p.usage == row.usage)
    && (tests >= 2 ==> tx in run[b].open && row in Visible(run[b], tx))
  }

  lemma {:induction false} GuardHasTested(e: Env, run: seq<State>, i: nat, tx: Tx)
    requires IsRun(e, run) && i < |run| && tx in run[i].open && run[i].open[tx].guard != Idle
    ensures var g := run[i].open[tx].guard;
            Tested(e, run, i, tx, g.row, if g.Locked? then 0 else if g.ClassTested? then 1 else 2)
  {
    assert i > 0;
    var s, t := run[i - 1], run[i];
    assert Next(e, s, t);
    var actor, m :| Step(e, s, t, actor, m);
    var g := t.open[tx].guard;
    OnlyCommitsPublish(e, s, t, actor, m);
    if actor != tx {
      GuardHasTested(e, run, i - 1, tx);
      TestedLater(e, run, i, tx, g.row, if g.Locked? then 0 else if g.ClassTested? then 1 else 2);
    } else if m.MLock? {
      assert TestedAt(e, run, tx, g.row, 0, i - 1, i - 1, i - 1);
    } else if m.MTestClass? {
      GuardHasTested(e, run, i - 1, tx);
      var j: nat, a: nat, b: nat :| j <= a <= b <= i - 1 && TestedAt(e, run, tx, g.row, 0, j, a, b);
      assert TestedAt(e, run, tx, g.row, 1, j, i - 1, i - 1);
    } else {
      GuardHasTested(e, run, i - 1, tx);
      var j: nat, a: nat, b: nat :| j <= a <= b <= i - 1 && TestedAt(e, run, tx, g.row, 1, j, a, b);
      assert TestedAt(e, run, tx, g.row, 2, j, a, i - 1);
    }
  }

  lemma TestedLater(e: Env, run: seq<State>, i: nat, tx: Tx, row: Row, tests: nat)
    requires 0 < i < |run| && Tested(e, run, i - 1, tx, row, tests)
    ensures Tested(e, run, i, tx, row, tests)
  {
    var j: nat, a: nat, b: nat :| j <= a <= b <= i - 1 && TestedAt(e, run, tx, row, tests, j, a, b);
  }

  /**
   * Nothing else is let in: a membership that appears among a transaction's rows
   * was inserted after a moment at which its question's lock was free, a later one
   * at which no visible provenance had another class, and a later one at which it
   * was itself visible provenance.
   */
  lemma AdmittedOnlyAfterTests(e: Env, run: seq<State>, i: nat, tx: Tx, row: Row)
    requires IsRun(e, run) && i + 1 < |run|
    requires tx in run[i + 1].open && row in run[i + 1].open[tx].memberships
    requires tx in run[i].open ==> row !in run[i].open[tx].memberships
    ensures Tested(e, run, i, tx, row, 2)
  {
    hide Tested;
    assert Next(e, run[i], run[i + 1]);
    var actor, m :| Step(e, run[i], run[i + 1], actor, m);
    OnlyCommitsPublish(e, run[i], run[i + 1], actor, m);
    GuardHasTested(e, run, i, tx);
  }

  // ---------------------------------------------------------------- the lock is needed

  /** The insert without its lock: the same two tests, one right after the other. */
  ghost predicate InsertUnlocked(s: State, t: State, tx: Tx, row: Row) {
    && tx in s.open && s.open[tx].guard == Idle
    && OfOneClass(Visible(s, tx), row) && row in Visible(s, tx)
    && t == s.(open := s.open[tx := s.open[tx].(memberships := s.open[tx].memberships + {row})])
  }

  /** Without the lock two transactions can each pass the tests and commit both classes. */
  lemma WithoutTheLockClassesMix() returns (run: seq<State>)
    ensures |run| == 9 && run[0] == State({}, {}, map[])
    ensures Begin(run[0], run[1], 0) && Begin(run[1], run[2], 1)
    ensures RecordProvenance(run[2], run[3], 0, Row("q", GovernedOperational, "a"))
    ensures RecordProvenance(run[3], run[4], 1, Row("q", PreprodExercise, "b"))
    ensures InsertUnlocked(run[4], run[5], 0, Row("q", GovernedOperational, "a"))
    ensures InsertUnlocked(run[5], run[6], 1, Row("q", PreprodExercise, "b"))
    ensures Commit(run[6], run[7], 0) && Commit(run[7], run[8], 1)
    ensures !OneClassEach(run[8].memberships)
  {
    var a, b := Row("q", GovernedOperational, "a"), Row("q", PreprodExercise, "b");
    var none := FRESH;
    var s2 := State({}, {}, map[0 := none, 1 := none]);
    var s4 := State({}, {}, map[0 := Open({a}, {}, {}, Idle), 1 := Open({b}, {}, {}, Idle)]);
    var s6 := State({}, {}, map[0 := Open({a}, {a}, {}, Idle), 1 := Open({b}, {b}, {}, Idle)]);
    var s5 := State({}, {}, map[0 := Open({a}, {a}, {}, Idle), 1 := Open({b}, {}, {}, Idle)]);
    var s7 := State({a}, {a}, map[1 := Open({b}, {b}, {}, Idle)]);
    run := [State({}, {}, map[]), State({}, {}, map[0 := none]), s2,
            State({}, {}, map[0 := Open({a}, {}, {}, Idle), 1 := none]), s4, s5, s6, s7,
            State({a, b}, {a, b}, map[])];
    assert {} + {a} == {a} && {} + {b} == {b} && {a} + {b} == {a, b};
    assert map[0 := Open({a}, {a}, {}, Idle), 1 := Open({b}, {b}, {}, Idle)] - {0} == map[1 := Open({b}, {b}, {}, Idle)];
    assert map[1 := Open({b}, {b}, {}, Idle)] - {1} == map[];
    assert a in run[8].memberships && b in run[8].memberships;
  }
}
