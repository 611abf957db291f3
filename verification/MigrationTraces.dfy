// A single migration call among the concurrent ones: left alone it ends as the
// method says, and a call that loses its session can be overtaken.
module MigrationTraces {
  import opened Wrappers
  import opened MigrationRunner

  ghost predicate IsTrace(run: seq<State>, p: Pid) {
    run != [] && forall i :: 0 <= i < |run| - 1 ==> Acts(run[i], run[i + 1], p)
  }

  lemma Prepend(s: State, run: seq<State>, p: Pid)
    requires IsTrace(run, p) && Acts(s, run[0], p)
    ensures IsTrace([s] + run, p)
  {
    hide Acts;
    var longer := [s] + run;
    forall i | 0 <= i < |longer| - 1
      ensures Acts(longer[i], longer[i + 1], p)
    {
      if i > 0 {
        assert longer[i] == run[i - 1] && longer[i + 1] == run[i];
      }
    }
  }

  /** Where the loop leaves a call that nobody disturbs. */
  function LoopEnd(current: nat, latest: nat, fate: nat -> Fate): Pc {
    if current <= latest && AllDone(current, latest, fate) then Repairing(latest) else Unlocking(Failed)
  }

  /** What one transaction makes of the database, and where it leaves the call. */
  function AfterTransaction(db: Database, v: nat, fate: Fate): Database {
    if fate == Done || fate == CommitUnseen then Committed(db, v) else db
  }

  function TransactionEnd(v: nat, fate: Fate): Pc {
    if fate == Done then Looping(v, v + 1) else Unlocking(Failed)
  }

  lemma BeginStep(s: State, p: Pid)
    requires Alive(s, p) && s.procs[p].pc.Looping? && s.procs[p].pc.current < s.procs[p].pc.next <= s.procs[p].latest
    ensures var pc := s.procs[p].pc;
            Acts(s, At(s, p, InTransaction(pc.current, pc.next, Begun)), p) && Acts(s, At(s, p, Unlocking(Failed)), p)
  {
    var t, u := At(s, p, InTransaction(s.procs[p].pc.current, s.procs[p].pc.next, Begun)), At(s, p, Unlocking(Failed));
    assert Loop(s, t, p) && Loop(s, u, p);
  }

  lemma WorkStep(s: State, p: Pid)
    requires Alive(s, p) && s.procs[p].pc.InTransaction? && s.procs[p].pc.stage != Recorded
    requires s.procs[p].pc.candidate !in s.db.ledger
    ensures var pc := s.procs[p].pc;
            && Acts(s, At(s, p, pc.(stage := if pc.stage == Begun then Executed else Recorded)), p)
            && Acts(s, At(s, p, Unlocking(Failed)), p)
  {
    var pc := s.procs[p].pc;
    var t, u := At(s, p, pc.(stage := if pc.stage == Begun then Executed else Recorded)), At(s, p, Unlocking(Failed));
    assert WorkInTransaction(s, t, p) && WorkInTransaction(s, u, p);
  }

  lemma CommitStep(s: State, p: Pid, fate: Fate)
    requires Alive(s, p) && s.procs[p].pc.InTransaction? && s.procs[p].pc.stage == Recorded
    ensures var v := s.procs[p].pc.candidate;
            Acts(s, At(s, p, TransactionEnd(v, fate)).(db := AfterTransaction(s.db, v, fate)), p)
  {
    var v := s.procs[p].pc.candidate;
    assert Commit(s, At(s, p, TransactionEnd(v, fate)).(db := AfterTransaction(s.db, v, fate)), p);
  }

  lemma AtTwice(s: State, p: Pid, first: Pc, second: Pc)
    requires p in s.procs
    ensures p in At(s, p, first).procs && At(At(s, p, first), p, second) == At(s, p, second)
    ensures At(s, p, first).procs[p] == s.procs[p].(pc := first) && At(s, p, first).db == s.db
  {
  }

  lemma TraceOfStep(s: State, t: State, p: Pid)
    requires Acts(s, t, p)
    ensures IsTrace([s, t], p)
  {
  }

  /** One migration's transaction, step by step, with the fate the database gives it. */
  lemma TransactionRun(s: State, p: Pid, fate: Fate) returns (run: seq<State>)
    requires Alive(s, p) && s.procs[p].pc.Looping? && s.procs[p].pc.next !in s.db.ledger
    requires s.procs[p].pc.current < s.procs[p].pc.next <= s.procs[p].latest
    ensures IsTrace(run, p) && run != [] && run[0] == s
    ensures var v := s.procs[p].pc.next;
            run[|run| - 1] == At(s, p, TransactionEnd(v, fate)).(db := AfterTransaction(s.db, v, fate))
  {
    hide Acts, IsTrace, At, Committed;
    var current, v := s.procs[p].pc.current, s.procs[p].pc.next;
    var work := InTransaction(current, v, Begun);
    var a, b, c := At(s, p, work), At(s, p, work.(stage := Executed)), At(s, p, work.(stage := Recorded));
    var t := At(s, p, TransactionEnd(v, fate)).(db := AfterTransaction(s.db, v, fate));
    forall first, second
      ensures p in At(s, p, first).procs && At(At(s, p, first), p, second) == At(s, p, second)
      ensures At(s, p, first).procs[p] == s.procs[p].(pc := first) && At(s, p, first).db == s.db
    {
      AtTwice(s, p, first, second);
    }
    BeginStep(s, p);
    WorkStep(a, p);
    WorkStep(b, p);
    CommitStep(c, p, fate);
    if fate == BeginFails {
      assert t == At(s, p, Unlocking(Failed));
      TraceOfStep(s, t, p);
      return [s, t];
    }
    if fate == ExecFails {
      TraceOfStep(a, t, p);
      run := [a, t];
    } else if fate == RecordFails {
      TraceOfStep(b, t, p);
      Prepend(a, [b, t], p);
      run := [a] + [b, t];
    } else {
      TraceOfStep(c, t, p);
      Prepend(b, [c, t], p);
      Prepend(a, [b] + [c, t], p);
      run := [a] + ([b] + [c, t]);
    }
    Prepend(s, run, p);
    run := [s] + run;
  }

  lemma {:induction false} TraceKeepsInv(run: seq<State>, p: Pid, i: nat)
    requires IsTrace(run, p) && Inv(run[0]) && i < |run|
    ensures Inv(run[i])
  {
    hide Acts, Inv, Good;
    if i > 0 {
      TraceKeepsInv(run, p, i - 1);
      StepIsGood(run[i - 1], run[i], p);
      GoodKeepsInv(run[i - 1], run[i], p);
    }
  }

  lemma Chain(a: seq<State>, b: seq<State>, p: Pid)
    requires IsTrace(a, p) && IsTrace(b, p) && a[|a| - 1] == b[0]
    ensures IsTrace(a + b[1..], p)
    ensures b != [] && a != [] && (a + b[1..])[0] == a[0] && (a + b[1..])[|a + b[1..]| - 1] == b[|b| - 1]
  {
    hide Acts;
    var run := a + b[1..];
    forall i | 0 <= i < |run| - 1
      ensures Acts(run[i], run[i + 1], p)
    {
      if i >= |a| - 1 {
        assert run[i] == b[i - (|a| - 1)] && run[i + 1] == b[i - (|a| - 1) + 1];
      }
    }
  }

  lemma LoopStep(s: State, p: Pid, fate: nat -> Fate)
    requires Inv(s) && Alive(s, p) && s.procs[p].pc.Looping?
    requires var Proc(latest, Looping(current, next), _) := s.procs[p]; next > latest || next <= current
    ensures var Proc(latest, Looping(current, next), _) := s.procs[p];
            Acts(s, At(s, p, if next > latest then LoopEnd(current, latest, fate) else Looping(current, next + 1)), p)
  {
    var Proc(latest, Looping(current, next), _) := s.procs[p];
    assert Loop(s, At(s, p, if next > latest then LoopEnd(current, latest, fate) else Looping(current, next + 1)), p);
  }

  lemma LoopFacts(s: State, p: Pid)
    requires Inv(s) && Alive(s, p) && s.procs[p].pc.Looping?
    ensures var Proc(latest, Looping(current, next), _) := s.procs[p];
            current == |s.db.schema| && next <= latest + 1 && (next > current ==> next == current + 1 && next !in s.db.ledger)
  {
    VersionsAre(|s.db.schema|);
  }

  /** From the loop's head on, a call that nobody disturbs ends as the fates say. */
  lemma {:induction false} LoopRun(s: State, p: Pid, fate: nat -> Fate) returns (run: seq<State>)
    requires Inv(s) && Alive(s, p) && s.procs[p].pc.Looping?
    ensures IsTrace(run, p) && run[0] == s && Inv(run[|run| - 1])
    ensures var current, latest, t := s.procs[p].pc.current, s.procs[p].latest, run[|run| - 1];
            && t == At(s, p, LoopEnd(current, latest, fate)).(db := t.db)
            && |t.db.schema| == VersionReached(current, latest, fate)
    decreases s.procs[p].latest + 1 - s.procs[p].pc.next
  {
    hide Acts, Inv, Reached, IsTrace;
    var Proc(latest, Looping(current, next), _) := s.procs[p];
    LoopFacts(s, p);
    if next > latest || next <= current {
      LoopStep(s, p, fate);
      var t := At(s, p, if next > latest then LoopEnd(current, latest, fate) else Looping(current, next + 1));
      TraceOfStep(s, t, p);
      run := [s, t];
      TraceKeepsInv(run, p, 1);
    } else {
      run := TransactionRun(s, p, fate(next));
      TraceKeepsInv(run, p, |run| - 1);
    }
    var t := run[|run| - 1];
    if next <= latest {
      if next > current {
        ReachedStep(current, latest, fate);
        DoneStep(current, latest, fate);
        ReachedStep(next, latest, fate);
      }
      if t.procs[p].pc.Looping? {
        var more := LoopRun(t, p, fate);
        Chain(run, more, p);
        run := run + more[1..];
      }
    } else if current == latest {
      ReachedStep(current, latest, fate);
    }
  }

  lemma DoneStep(current: nat, latest: nat, fate: nat -> Fate)
    requires current < latest
    ensures AllDone(current, latest, fate) <==> fate(current + 1) == Done && AllDone(current + 1, latest, fate)
  {
  }

  lemma OpeningSteps(s: State, p: Pid)
    requires Inv(s) && Alive(s, p) && s.procs[p].pc == Creating
    ensures var created := At(s, p, Reading).(db := s.db.(hasLedger := true));
            Acts(s, created, p) && Acts(created, At(created, p, Looping(|s.db.schema|, 1)), p)
  {
    var created := At(s, p, Reading).(db := s.db.(hasLedger := true));
    MaxOfVersions(|s.db.schema|);
    assert CreateLedger(s, created, p) && ReadLedger(created, At(created, p, Looping(|s.db.schema|, 1)), p);
  }

  lemma RepairStep(s: State, p: Pid, repairs: bool)
    requires p in s.procs && s.procs[p].pc.Repairing?
    ensures Acts(s, At(s, p, Unlocking(if repairs then Ok else Failed)), p)
  {
    assert Repair(s, At(s, p, Unlocking(if repairs then Ok else Failed)), p);
  }

  /**
   * MigrationDatabase.Apply is one of the runs: a call that holds the lock and is left
   * alone reaches, step by step, the version and the outcome the method reports.
   */
  lemma UndisturbedCall(s: State, p: Pid, fate: nat -> Fate, repairs: bool) returns (run: seq<State>)
    requires Inv(s) && Alive(s, p) && s.procs[p].pc == Creating
    ensures IsTrace(run, p) && run != [] && run[0] == s
    ensures var start, latest, t := |s.db.schema|, s.procs[p].latest, run[|run| - 1];
            && t.lock == s.lock && p in t.procs && t.procs == s.procs[p := t.procs[p]] && t.procs[p].latest == latest
            && |t.db.schema| == (if start >= latest then start else Reached(start, latest, fate))
            && t.procs[p].pc == Unlocking(if start <= latest && repairs && AllDone(start, latest, fate) then Ok else Failed)
  {
    hide Acts, Inv, Reached, IsTrace, AllDone;
    var start, latest := |s.db.schema|, s.procs[p].latest;
    OpeningSteps(s, p);
    var created := At(s, p, Reading).(db := s.db.(hasLedger := true));
    var ready := At(created, p, Looping(start, 1));
    TraceOfStep(created, ready, p);
    Prepend(s, [created, ready], p);
    var opening := [s] + [created, ready];
    TraceKeepsInv(opening, p, 2);
    var looped := LoopRun(ready, p, fate);
    Chain(opening, looped, p);
    run := opening + looped[1..];
    var t := run[|run| - 1];
    if t.procs[p].pc.Repairing? {
      RepairStep(t, p, repairs);
      var done := At(t, p, Unlocking(if repairs then Ok else Failed));
      TraceOfStep(t, done, p);
      Chain(run, [t, done], p);
      run := run + [t, done][1..];
    }
  }

  lemma StepOn(run: seq<State>, t: State, p: Pid)
    requires IsRun(run) && Step(run[|run| - 1], t, p)
    ensures IsRun(run + [t])
  {
    hide Step, Init;
    assert Next(run[|run| - 1], t);
    forall i | 0 <= i < |run|
      ensures Next((run + [t])[i], (run + [t])[i + 1])
    {
      if i < |run| - 1 {
        assert Next(run[i], run[i + 1]);
      }
    }
  }

  lemma {:induction false} TraceOn(run: seq<State>, more: seq<State>, p: Pid)
    requires IsRun(run) && IsTrace(more, p) && more[0] == run[|run| - 1]
    ensures IsRun(run + more[1..]) && more != [] && (run + more[1..])[|run + more[1..]| - 1] == more[|more| - 1]
    decreases |more|
  {
    hide Acts, Init, Next;
    if |more| > 1 {
      StepOn(run, more[1], p);
      TraceOn(run + [more[1]], more[1..], p);
      assert run + [more[1]] + more[1..][1..] == run + more[1..];
    } else {
      assert run + more[1..] == run;
    }
  }

  /** Start and lock, on a free lock. */
  lemma Enter(run: seq<State>, p: Pid, latest: nat) returns (longer: seq<State>)
    requires IsRun(run) && run[|run| - 1].lock == None && p !in run[|run| - 1].procs
    ensures IsRun(longer) && longer != [] && longer[0] == run[0] && var s := run[|run| - 1];
            longer[|longer| - 1] == State(s.db, Some(p), s.procs[p := Proc(latest, Creating, true)])
  {
    hide Next, Init;
    var s := run[|run| - 1];
    var a := s.(procs := s.procs[p := Proc(latest, Connecting, true)]);
    var b := State(s.db, Some(p), s.procs[p := Proc(latest, Creating, true)]);
    assert Start(s, a, p);
    StepOn(run, a, p);
    assert AcquireLock(a, b, p);
    StepOn(run + [a], b, p);
    longer := run + [a] + [b];
  }

  lemma {:induction false} AllDoneReached(current: nat, latest: nat, fate: nat -> Fate)
    requires current <= latest && AllDone(current, latest, fate)
    ensures Reached(current, latest, fate) == latest
    decreases latest - current
  {
    ReachedStep(current, latest, fate);
    if current < latest {
      DoneStep(current, latest, fate);
      AllDoneReached(current + 1, latest, fate);
    }
  }

  lemma EverythingGoesThrough(current: nat, latest: nat)
    ensures AllDone(current, latest, _ => Done)
    ensures current <= latest ==> Reached(current, latest, _ => Done) == latest
  {
    if current <= latest {
      AllDoneReached(current, latest, _ => Done);
    }
  }

  /**
   * For any two builds, the older of them at least at the database's version: a
   * call of the older one loses its session during the repair, the newer one takes
   * the database on to its own version, and the first call reports success.
   */
  lemma LostSessionIsOvertaken(start: nat, older: nat, newer: nat) returns (run: seq<State>)
    requires start <= older < newer
    ensures IsRun(run) && |run| > 1 && |run[0].db.schema| == start && OfBuilds(run, iset{older, newer})
    ensures Succeeds(run, |run| - 2, 0, older) && run[|run| - 1].db.schema == UpTo(newer)
  {
    hide *;
    run := FirstCall(start, older);
    var lost := run[|run| - 1];
    run := Enter(run, 1, newer);
    var entered := run[|run| - 1];
    RunsAreContiguous(run, |run| - 1);
    AliveHere(entered, 1);
    var second := UndisturbedCall(entered, 1, _ => Done, true);
    EverythingGoesThrough(older, newer);
    TraceOn(run, second, 1);
    run := run + second[1..];
    var s := run[|run| - 1];
    var a := At(s, 0, Unlocking(Ok));
    RepairStep(s, 0, true);
    ActsIsStep(s, a, 0);
    StepOn(run, a, 0);
    AtTwice(s, 0, Unlocking(Ok), Returned(Ok));
    var b := At(a, 0, Returned(Ok));
    UnlockStep(a, 0);
    ActsIsStep(a, b, 0);
    StepOn(run + [a], b, 0);
    AtTwice(a, 0, Returned(Ok), Returned(Ok));
    OtherCalls(s, 0, Unlocking(Ok), 1);
    OtherCalls(a, 0, Returned(Ok), 1);
    run := run + [a] + [b];
    TwoCalls(b, 0, 1, older, newer);
    BuildsAtTheEnd(run, iset{older, newer});
    RunsAreContiguous(run, |run| - 1);
    StateIsContiguous(b);
    SchemaIsUpTo(b.db);
    assert Succeeds(run, |run| - 2, 0, older) by {
      SucceedsHere(run, |run| - 2, 0, older);
    }
  }

  lemma TwoCalls(s: State, p: Pid, q: Pid, a: nat, b: nat)
    requires s.procs.Keys == {p, q} && s.procs[p].latest == a && s.procs[q].latest == b
    ensures ShowsOnly(s, iset{a, b})
  {
  }

  lemma SchemaIsUpTo(db: Database)
    requires Contiguous(db)
    ensures db.schema == UpTo(|db.schema|)
  {
  }

  lemma SucceedsHere(run: seq<State>, i: nat, p: Pid, latest: nat)
    requires i + 1 < |run| && p in run[i].procs && p in run[i + 1].procs
    requires run[i].procs[p].latest == latest && run[i].procs[p].pc == Unlocking(Ok) && run[i + 1].procs[p].pc == Returned(Ok)
    ensures Succeeds(run, i, p, latest)
  {
  }

  lemma OtherCalls(s: State, p: Pid, pc: Pc, q: Pid)
    requires p in s.procs
    ensures At(s, p, pc).procs.Keys == s.procs.Keys
    ensures q != p && q in s.procs ==> At(s, p, pc).procs[q] == s.procs[q]
  {
  }

  ghost predicate ShowsOnly(s: State, builds: iset<nat>) {
    forall p :: p in s.procs ==> s.procs[p].latest in builds
  }

  /** Calls stay and keep their builds, so the last state shows every build in play. */
  lemma {:induction false} BuildsAtTheEnd(run: seq<State>, builds: iset<nat>)
    requires IsRun(run) && ShowsOnly(run[|run| - 1], builds)
    ensures OfBuilds(run, builds)
  {
    hide IsRun, Inv;
    forall i, p | 0 <= i < |run| && p in run[i].procs
      ensures run[i].procs[p].latest in builds
    {
      BuildStays(run, i, |run| - 1, p);
    }
  }

  lemma {:induction false} BuildStays(run: seq<State>, i: nat, j: nat, p: Pid)
    requires IsRun(run) && i <= j < |run| && p in run[i].procs
    ensures p in run[j].procs && run[j].procs[p].latest == run[i].procs[p].latest
    decreases j
  {
    hide IsRun;
    if i < j {
      BuildStays(run, i, j - 1, p);
      MovesOnly(run, j - 1, p);
    }
  }

  /**
   * Every success of one build's calls is exact on every run over given builds and
   * from a given version if and only if no build in play is newer than it or the
   * database was newer to begin with.
   */
  lemma SuccessIsExactIff(latest: nat, builds: iset<nat>, start: nat)
    requires latest in builds
    ensures (forall run: seq<State>, i, p ::
               IsRun(run) && OfBuilds(run, builds) && |run[0].db.schema| == start && Succeeds(run, i, p, latest)
               ==> IsExactly(run[i + 1].db, latest))
            <==> latest < start || forall m :: m in builds ==> m <= latest
  {
    hide Init, Next, OfBuilds, IsExactly;
    if latest < start || forall m :: m in builds ==> m <= latest {
      forall run: seq<State>, i, p | IsRun(run) && OfBuilds(run, builds) && |run[0].db.schema| == start && Succeeds(run, i, p, latest)
        ensures IsExactly(run[i + 1].db, latest)
      {
        SuccessIsExact(run, i, p, latest, builds);
      }
    } else {
      var newer :| newer in builds && newer > latest;
      var run := LostSessionIsOvertaken(start, latest, newer);
      FewerBuilds(run, iset{latest, newer}, builds);
      NotExactly(run[|run| - 1].db, latest, newer);
    }
  }

  lemma FewerBuilds(run: seq<State>, some: iset<nat>, builds: iset<nat>)
    requires OfBuilds(run, some) && some <= builds
    ensures OfBuilds(run, builds)
  {
  }

  lemma NotExactly(db: Database, k: nat, n: nat)
    requires db.schema == UpTo(n) && k != n
    ensures !IsExactly(db, k)
  {
  }

  lemma ActsIsStep(s: State, t: State, p: Pid)
    requires Acts(s, t, p)
    ensures Step(s, t, p)
  {
  }

  lemma AliveHere(s: State, p: Pid)
    requires p in s.procs && s.procs[p].session
    ensures Alive(s, p)
  {
  }

  lemma UnlockStep(s: State, p: Pid)
    requires p in s.procs && s.procs[p].pc.Unlocking?
    ensures Acts(s, At(s, p, Returned(s.procs[p].pc.outcome)), p)
  {
    assert Unlock(s, At(s, p, Returned(s.procs[p].pc.outcome)), p);
  }

  /** A call runs up to its repair on a database at version `start`, then loses its session. */
  lemma FirstCall(start: nat, latest: nat) returns (run: seq<State>)
    requires start <= latest
    ensures IsRun(run) && run != [] && |run[0].db.schema| == start
    ensures run[|run| - 1].lock == None && run[|run| - 1].procs == map[0 := Proc(latest, Repairing(latest), false)]
    ensures |run[|run| - 1].db.schema| == latest
  {
    hide Next, Acts, Inv, Step, IsTrace, IsRun, AllDone, Reached;
    var first := State(Database(true, Versions(start), UpTo(start)), None, map[]);
    run := [first];
    assert IsRun(run) by {
      StartIsRun(first);
    }
    run := Enter(run, 0, latest);
    var s := run[|run| - 1];
    RunsAreContiguous(run, |run| - 1);
    OpeningSteps(s, 0);
    var created := At(s, 0, Reading).(db := s.db.(hasLedger := true));
    var ready := At(created, 0, Looping(start, 1));
    ActsIsStep(s, created, 0);
    StepOn(run, created, 0);
    run := run + [created];
    ActsIsStep(created, ready, 0);
    StepOn(run, ready, 0);
    run := run + [ready];
    RunsAreContiguous(run, |run| - 1);
    var more := LoopRun(ready, 0, _ => Done);
    EverythingGoesThrough(start, latest);
    TraceOn(run, more, 0);
    run := run + more[1..];
    var t := run[|run| - 1];
    var lost := State(t.db, None, map[0 := Proc(latest, Repairing(latest), false)]);
    assert LoseSession(t, lost, 0);
    LosingIsStep(t, lost, 0);
    StepOn(run, lost, 0);
    run := run + [lost];
  }

  lemma LosingIsStep(s: State, t: State, p: Pid)
    requires LoseSession(s, t, p)
    ensures Step(s, t, p)
  {
  }

  lemma StartIsRun(s: State)
    requires Init(s)
    ensures IsRun([s])
  {
  }
}
