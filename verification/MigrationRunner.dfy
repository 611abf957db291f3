// The migration runner: any number of concurrent Apply calls over one advisory
// lock, one ledger and one schema, with failures, crashes, lost sessions and
// commits whose success is reported as a failure.
module MigrationRunner {
  import opened Wrappers
  import MigrationFiles
  import Sets

  type Pid = nat

  datatype Result = Ok | Failed

  /** The ledger's versions and the migrations whose SQL took effect, oldest first. */
  datatype Database = Database(hasLedger: bool, ledger: set<nat>, schema: seq<nat>)

  /** How far an open migration transaction has come. */
  datatype Stage = Begun | Executed | Recorded

  /** Where an Apply call stands; `next` is the candidate its loop looks at. */
  datatype Pc =
    | Connecting
    | Creating
    | Reading
    | Looping(current: nat, next: nat)
    | InTransaction(current: nat, candidate: nat, stage: Stage)
    | Repairing(current: nat)
    | Unlocking(outcome: Result)
    | Returned(result: Result)
    | Crashed

  /** One Apply call of a build whose embedded migrations end at `latest`, and whether its session is alive. */
  datatype Proc = Proc(latest: nat, pc: Pc, session: bool)

  datatype State = State(db: Database, lock: Option<Pid>, procs: map<Pid, Proc>)

  /** COALESCE(MAX(version), 0) */
  function Max(s: set<nat>): (m: nat)
    ensures s != {} ==> m in s
    ensures forall x :: x in s ==> x <= m
  {
    Sets.MaxOr(s, 0)
  }

  // ---------------------------------------------------------------- steps

  ghost predicate Moves(s: State, t: State, p: Pid, pc: Pc)
  {
    p in s.procs && t.procs == s.procs[p := s.procs[p].(pc := pc)]
  }

  /** p's call can still use its connection. */
  ghost predicate Alive(s: State, p: Pid) {
    p in s.procs && s.procs[p].session
  }

  ghost predicate Quiet(s: State, t: State) {
    t.db == s.db && t.lock == s.lock
  }

  ghost predicate Start(s: State, t: State, p: Pid) {
    && p !in s.procs && p in t.procs
    && t == s.(procs := s.procs[p := Proc(t.procs[p].latest, Connecting, true)])
  }

  /** pg_advisory_lock: granted when free, failed, or granted to a session that is then given up. */
  ghost predicate AcquireLock(s: State, t: State, p: Pid) {
    && p in s.procs && s.procs[p].pc == Connecting && t.db == s.db
    && (|| (s.lock == None && t.lock == Some(p) && Moves(s, t, p, Creating))
        || (t.lock == s.lock && Moves(s, t, p, Returned(Failed)))
        || (s.lock == None && t.lock == Some(p) && Moves(s, t, p, Returned(Failed))))
  }

  ghost predicate CreateLedger(s: State, t: State, p: Pid) {
    && p in s.procs && s.procs[p].pc == Creating && t.lock == s.lock
    && (|| (Alive(s, p) && t.db == s.db.(hasLedger := true) && Moves(s, t, p, Reading))
        || (t.db == s.db && Moves(s, t, p, Unlocking(Failed))))
  }

  /** Reads MAX(version) and loads the embedded files, either of which may fail. */
  ghost predicate ReadLedger(s: State, t: State, p: Pid) {
    && p in s.procs && s.procs[p].pc == Reading && Quiet(s, t)
    && (|| (Alive(s, p) && Moves(s, t, p, Looping(Max(s.db.ledger), 1)))
        || Moves(s, t, p, Unlocking(Failed)))
  }

  /** The loop head: skip an applied candidate, begin the next one, or leave the loop. */
  ghost predicate Loop(s: State, t: State, p: Pid) {
    && p in s.procs && s.procs[p].pc.Looping? && Quiet(s, t)
    && var Proc(latest, Looping(current, next), session) := s.procs[p];
       if next <= latest then
         if next <= current then Moves(s, t, p, Looping(current, next + 1))
         else (session && Moves(s, t, p, InTransaction(current, next, Begun))) || Moves(s, t, p, Unlocking(Failed))
       else if current != latest then Moves(s, t, p, Unlocking(Failed))
       else Moves(s, t, p, Repairing(current))
  }

  /** Executes the SQL, then records the version; a failure rolls the transaction back. */
  ghost predicate WorkInTransaction(s: State, t: State, p: Pid) {
    && p in s.procs && s.procs[p].pc.InTransaction? && Quiet(s, t)
    && var pc := s.procs[p].pc;
       || (Alive(s, p) && pc.stage == Begun && Moves(s, t, p, pc.(stage := Executed)))
       || (Alive(s, p) && pc.stage == Executed && pc.candidate !in s.db.ledger && Moves(s, t, p, pc.(stage := Recorded)))
       || (pc.stage != Recorded && Moves(s, t, p, Unlocking(Failed)))
  }

  function Committed(db: Database, v: nat): Database {
    db.(ledger := db.ledger + {v}, schema := db.schema + [v])
  }

  /** Commit succeeds, fails, or takes effect while reporting a failure. */
  ghost predicate Commit(s: State, t: State, p: Pid) {
    && p in s.procs && s.procs[p].pc.InTransaction? && s.procs[p].pc.stage == Recorded && t.lock == s.lock
    && var v := s.procs[p].pc.candidate;
       || (Alive(s, p) && t.db == Committed(s.db, v) && Moves(s, t, p, Looping(v, v + 1)))
       || (t.db == s.db && Moves(s, t, p, Unlocking(Failed)))
       || (Alive(s, p) && t.db == Committed(s.db, v) && Moves(s, t, p, Unlocking(Failed)))
  }

  /** The forward repair uses other connections and leaves ledger and migrations alone. */
  ghost predicate Repair(s: State, t: State, p: Pid) {
    && p in s.procs && s.procs[p].pc.Repairing? && Quiet(s, t)
    && (Moves(s, t, p, Unlocking(Ok)) || Moves(s, t, p, Unlocking(Failed)))
  }

  /** The deferred unlock; its failure is ignored and leaves the session holding the lock. */
  ghost predicate Unlock(s: State, t: State, p: Pid) {
    && p in s.procs && s.procs[p].pc.Unlocking? && t.db == s.db
    && (t.lock == s.lock || (s.lock == Some(p) && t.lock == None))
    && Moves(s, t, p, Returned(s.procs[p].pc.outcome))
  }

  /** A crash ends the session, which releases its lock and drops its transaction, unless it had just committed. */
  ghost predicate Crash(s: State, t: State, p: Pid) {
    && p in s.procs && !s.procs[p].pc.Returned? && Moves(s, t, p, Crashed)
    && t.lock == (if s.lock == Some(p) then None else s.lock)
    && var pc := s.procs[p].pc;
       || t.db == s.db
       || (Alive(s, p) && pc.InTransaction? && pc.stage == Recorded && t.db == Committed(s.db, pc.candidate))
  }

  /** The session is lost and its lock released while the call goes on, unaware until it next uses it. */
  ghost predicate LoseSession(s: State, t: State, p: Pid) {
    && p in s.procs && HoldsLock(s.procs[p].pc) && t.db == s.db
    && t.lock == (if s.lock == Some(p) then None else s.lock)
    && t.procs == s.procs[p := s.procs[p].(session := false)]
  }

  /** A session that ended after its call returned gives back a lock it still held. */
  ghost predicate EndSession(s: State, t: State, p: Pid) {
    p in s.procs && s.procs[p].pc.Returned? && s.lock == Some(p) && t == s.(lock := None)
  }

  ghost predicate Acts(s: State, t: State, p: Pid) {
    || AcquireLock(s, t, p) || CreateLedger(s, t, p) || ReadLedger(s, t, p) || Loop(s, t, p)
    || WorkInTransaction(s, t, p) || Commit(s, t, p) || Repair(s, t, p) || Unlock(s, t, p)
    || Crash(s, t, p) || LoseSession(s, t, p) || EndSession(s, t, p)
  }

  ghost predicate Step(s: State, t: State, p: Pid) {
    Acts(s, t, p) || Start(s, t, p)
  }

  ghost predicate Next(s: State, t: State) {
    exists p: Pid {:trigger Step(s, t, p)} :: Step(s, t, p)
  }

  // ---------------------------------------------------------------- what may always happen

  function At(s: State, p: Pid, pc: Pc): State
    requires p in s.procs
  {
    s.(procs := s.procs[p := s.procs[p].(pc := pc)])
  }

  /** Whatever a call is doing, it may fail there and change nothing, except that it waits on in the loop or leaves after a commit. */
  lemma EveryStepMayFail(s: State, p: Pid)
    requires p in s.procs
    ensures s.procs[p].pc.Connecting? ==>
              Acts(s, At(s, p, Returned(Failed)), p) && (s.lock == None ==> Acts(s, At(s, p, Returned(Failed)).(lock := Some(p)), p))
    ensures s.procs[p].pc.Creating? || s.procs[p].pc.Reading? || s.procs[p].pc.InTransaction? || s.procs[p].pc.Repairing? ==>
              Acts(s, At(s, p, Unlocking(Failed)), p)
    ensures s.procs[p].pc.Looping? && s.procs[p].pc.current < s.procs[p].pc.next <= s.procs[p].latest ==>
              Acts(s, At(s, p, Unlocking(Failed)), p)
  {
    var f, r := At(s, p, Unlocking(Failed)), At(s, p, Returned(Failed));
    var l := r.(lock := Some(p));
    assert s.procs[p].pc.Connecting? ==> AcquireLock(s, r, p) && (s.lock == None ==> AcquireLock(s, l, p));
    assert s.procs[p].pc.Creating? ==> CreateLedger(s, f, p);
    assert s.procs[p].pc.Reading? ==> ReadLedger(s, f, p);
    assert s.procs[p].pc.Repairing? ==> Repair(s, f, p);
    assert s.procs[p].pc.InTransaction? ==> WorkInTransaction(s, f, p) || Commit(s, f, p);
    assert s.procs[p].pc.Looping? && s.procs[p].pc.current < s.procs[p].pc.next <= s.procs[p].latest ==> Loop(s, f, p);
  }

  function Freed(s: State, p: Pid): State {
    if s.lock == Some(p) then s.(lock := None) else s
  }

  /** Any call may start, crash, or lose its session while past the lock; a commit may take effect without being reported, even in a crash. */
  lemma AnythingMayBreak(s: State, p: Pid, latest: nat)
    ensures p !in s.procs ==> Step(s, s.(procs := s.procs[p := Proc(latest, Connecting, true)]), p)
    ensures p in s.procs && !s.procs[p].pc.Returned? ==> Acts(s, Freed(At(s, p, Crashed), p), p)
    ensures p in s.procs && HoldsLock(s.procs[p].pc) ==>
              Acts(s, Freed(s.(procs := s.procs[p := s.procs[p].(session := false)]), p), p)
    ensures p in s.procs && s.procs[p].session && s.procs[p].pc.InTransaction? && s.procs[p].pc.stage == Recorded ==>
              var db := Committed(s.db, s.procs[p].pc.candidate);
              && Acts(s, At(s, p, Unlocking(Failed)).(db := db), p)
              && Acts(s, Freed(At(s, p, Crashed), p).(db := db), p)
  {
    if p !in s.procs {
      assert Start(s, s.(procs := s.procs[p := Proc(latest, Connecting, true)]), p);
    } else {
      var crashed := Freed(At(s, p, Crashed), p);
      assert !s.procs[p].pc.Returned? ==> Crash(s, crashed, p);
      var lost := Freed(s.(procs := s.procs[p := s.procs[p].(session := false)]), p);
      assert HoldsLock(s.procs[p].pc) ==> LoseSession(s, lost, p);
      if s.procs[p].session && s.procs[p].pc.InTransaction? && s.procs[p].pc.stage == Recorded {
        var db := Committed(s.db, s.procs[p].pc.candidate);
        assert Commit(s, At(s, p, Unlocking(Failed)).(db := db), p);
        assert Crash(s, crashed.(db := db), p);
      }
    }
  }

  /** The lock is taken when free, given back at the end or with the session, and a call that gives up still returns. */
  lemma LockChangesHands(s: State, p: Pid)
    requires p in s.procs
    ensures s.procs[p].pc.Connecting? && s.lock == None ==> Acts(s, At(s, p, Creating).(lock := Some(p)), p)
    ensures s.procs[p].pc.Unlocking? ==>
              var r := At(s, p, Returned(s.procs[p].pc.outcome));
              Acts(s, Freed(r, p), p) && Acts(s, r, p)
    ensures s.procs[p].pc.Returned? && s.lock == Some(p) ==> Acts(s, s.(lock := None), p)
  {
    assert s.procs[p].pc.Connecting? && s.lock == None ==> AcquireLock(s, At(s, p, Creating).(lock := Some(p)), p);
    if s.procs[p].pc.Unlocking? {
      var r := At(s, p, Returned(s.procs[p].pc.outcome));
      assert Unlock(s, Freed(r, p), p) && Unlock(s, r, p);
    }
    assert s.procs[p].pc.Returned? && s.lock == Some(p) ==> EndSession(s, s.(lock := None), p);
  }

  // ---------------------------------------------------------------- invariant

  function UpTo(k: nat): (r: seq<nat>)
    ensures |r| == k
  {
    seq(k, i requires 0 <= i < k => i + 1)
  }

  function Versions(k: nat): set<nat> {
    set v | v in UpTo(k)
  }

  /** The ledger is exactly 1..k and the schema is migrations 1..k, once each, in order. */
  predicate Contiguous(db: Database) {
    && db.schema == UpTo(|db.schema|)
    && db.ledger == Versions(|db.schema|)
  }

  predicate HoldsLock(pc: Pc) {
    pc.Creating? || pc.Reading? || pc.Looping? || pc.InTransaction? || pc.Repairing? || pc.Unlocking?
  }

  /** What an Apply call knows about the database, k being the number of migrations applied. */
  predicate Agrees(proc: Proc, k: nat) {
    match proc.pc
    case Looping(current, next) =>
      IsVersion(proc, current, k) && next <= proc.latest + 1 && (next > current ==> next == current + 1)
    case InTransaction(current, candidate, _) =>
      IsVersion(proc, current, k) && candidate == current + 1 && candidate <= proc.latest
    case Repairing(current) => IsVersion(proc, current, k) && current == proc.latest
    case Unlocking(outcome) => outcome == Ok ==> IsVersion(proc, proc.latest, k)
    case Returned(result) => result == Ok ==> proc.latest <= k
    case _ => true
  }

  /** The call takes the database to be at version v: it is, or has since gone further without the call's session. */
  predicate IsVersion(proc: Proc, v: nat, k: nat) {
    if proc.session then v == k else v <= k
  }

  predicate Inv(s: State) {
    && Contiguous(s.db)
    && forall p :: p in s.procs ==>
         && (HoldsLock(s.procs[p].pc) && s.procs[p].session ==> s.lock == Some(p))
         && Agrees(s.procs[p], |s.db.schema|)
  }

  ghost predicate Init(s: State) {
    s.procs == map[] && s.lock == None && Contiguous(s.db)
  }

  lemma VersionsAre(k: nat)
    ensures forall v: nat :: v in Versions(k) <==> 1 <= v <= k
  {
    forall v: nat
      ensures v in Versions(k) <==> 1 <= v <= k
    {
      if 1 <= v <= k {
        assert UpTo(k)[v - 1] == v;
      }
    }
  }

  lemma MaxOfVersions(k: nat)
    ensures Max(Versions(k)) == k
  {
    VersionsAre(k);
    if k > 0 {
      assert k in Versions(k);
    }
  }

  lemma CommitKeepsContiguous(db: Database)
    requires Contiguous(db)
    ensures Contiguous(Committed(db, |db.schema| + 1))
  {
    VersionsAre(|db.schema|);
    VersionsAre(|db.schema| + 1);
    assert UpTo(|db.schema|) + [|db.schema| + 1] == UpTo(|db.schema| + 1);
  }

  /** Only p moved, and it still knows what it must about the lock and the database. */
  predicate MovedWell(s: State, t: State, p: Pid)
    requires p in s.procs
  {
    && p in t.procs && t.procs == s.procs[p := t.procs[p]] && t.procs[p].latest == s.procs[p].latest
    && (HoldsLock(t.procs[p].pc) && t.procs[p].session ==> t.lock == Some(p))
    && Agrees(t.procs[p], |t.db.schema|)
    && (t.lock == s.lock || s.lock == Some(p) || s.lock == None)
  }

  /** The database is as before, or the next migration was committed under the lock. */
  predicate ChangedWell(s: State, t: State, p: Pid) {
    && Contiguous(t.db)
    && (|| t.db.schema == s.db.schema
        || (t.db.schema == s.db.schema + [|s.db.schema| + 1] && s.lock == Some(p)))
  }

  /** How success is reached, and that a newer database is refused. */
  predicate EndsWell(s: State, t: State, p: Pid)
    requires p in s.procs && p in t.procs
  {
    var before, after := s.procs[p], t.procs[p];
    && (after.pc == Returned(Ok) && before.pc != Returned(Ok) ==> IsVersion(before, before.latest, |t.db.schema|))
    && (|s.db.schema| > before.latest ==> t.db.schema == s.db.schema && (IsRefused(before) ==> IsRefused(after)))
    && (t.db.schema != s.db.schema ==> |t.db.schema| <= before.latest)
  }

  /** A call that has not read the ledger yet, has read a newer version, or has failed. */
  predicate IsRefused(proc: Proc) {
    match proc.pc
    case Connecting => true
    case Creating => true
    case Reading => true
    case Looping(current, _) => current > proc.latest
    case Unlocking(outcome) => outcome == Failed
    case Returned(result) => result == Failed
    case Crashed => true
    case _ => false
  }

  ghost predicate Good(s: State, t: State, p: Pid) {
    p in s.procs && MovedWell(s, t, p) && ChangedWell(s, t, p) && EndsWell(s, t, p)
  }

  lemma LockingIsGood(s: State, t: State, p: Pid)
    requires Inv(s) && (AcquireLock(s, t, p) || CreateLedger(s, t, p) || Unlock(s, t, p) || LoseSession(s, t, p) || EndSession(s, t, p))
    ensures Good(s, t, p)
  {
  }

  lemma ReadingIsGood(s: State, t: State, p: Pid)
    requires Inv(s) && ReadLedger(s, t, p)
    ensures Good(s, t, p)
  {
    MaxOfVersions(|s.db.schema|);
  }

  lemma LoopingIsGood(s: State, t: State, p: Pid)
    requires Inv(s) && (Loop(s, t, p) || WorkInTransaction(s, t, p) || Repair(s, t, p))
    ensures Good(s, t, p)
  {
  }

  lemma CommittingIsGood(s: State, t: State, p: Pid)
    requires Inv(s) && (Commit(s, t, p) || Crash(s, t, p))
    ensures Good(s, t, p)
  {
    CommitKeepsContiguous(s.db);
  }

  lemma StepIsGood(s: State, t: State, p: Pid)
    requires Inv(s) && Acts(s, t, p)
    ensures Good(s, t, p)
  {
    hide AcquireLock, CreateLedger, ReadLedger, Loop, WorkInTransaction, Commit, Repair, Unlock, Crash, LoseSession, EndSession, Good, Inv;
    if AcquireLock(s, t, p) || CreateLedger(s, t, p) || Unlock(s, t, p) || LoseSession(s, t, p) || EndSession(s, t, p) {
      LockingIsGood(s, t, p);
    } else if ReadLedger(s, t, p) {
      ReadingIsGood(s, t, p);
    } else if Commit(s, t, p) || Crash(s, t, p) {
      CommittingIsGood(s, t, p);
    } else {
      LoopingIsGood(s, t, p);
    }
  }

  lemma GoodKeepsInv(s: State, t: State, p: Pid)
    requires Inv(s) && Good(s, t, p)
    ensures Inv(t)
  {
    hide Contiguous;
  }

  /** Every step of every process keeps the invariant. */
  lemma StepKeepsInv(s: State, t: State)
    requires Inv(s) && Next(s, t)
    ensures Inv(t)
  {
    hide Acts, Good;
    var p: Pid :| Step(s, t, p);
    if Acts(s, t, p) {
      StepIsGood(s, t, p);
      GoodKeepsInv(s, t, p);
    }
  }

  ghost predicate IsRun(run: seq<State>) {
    run != [] && Init(run[0]) && forall i :: 0 <= i < |run| - 1 ==> Next(run[i], run[i + 1])
  }

  /** In every interleaving the ledger is 1..k and the schema is migrations 1..k in order. */
  lemma {:induction false} RunsAreContiguous(run: seq<State>, i: nat)
    requires IsRun(run) && i < |run|
    ensures Inv(run[i])
  {
    hide Next;
    if i > 0 {
      RunsAreContiguous(run, i - 1);
      StepKeepsInv(run[i - 1], run[i]);
    }
  }

  /** Between taking and releasing the lock a call whose session is alive is the only such call, so transactions never overlap. */
  lemma CallsExcludeEachOther(run: seq<State>, i: nat, p: Pid, q: Pid)
    requires IsRun(run) && i < |run| && Alive(run[i], p) && Alive(run[i], q) && p != q
    ensures !(HoldsLock(run[i].procs[p].pc) && HoldsLock(run[i].procs[q].pc))
  {
    RunsAreContiguous(run, i);
  }

  /** No applied migration is ever lost or reordered. */
  lemma {:induction false} SchemaOnlyGrows(run: seq<State>, i: nat, j: nat)
    requires IsRun(run) && i <= j < |run|
    ensures run[i].db.schema <= run[j].db.schema
    decreases j
  {
    hide Acts, Inv, Init;
    if i < j {
      SchemaOnlyGrows(run, i, j - 1);
      RunsAreContiguous(run, j - 1);
      var s, t := run[j - 1], run[j];
      assert Next(s, t);
      var p: Pid :| Step(s, t, p);
      if Acts(s, t, p) {
        StepIsGood(s, t, p);
      }
    }
  }

  /**
   * The step on which a call returns success leaves the database at least at its
   * latest version, and exactly there unless the call lost its session on the way.
   */
  lemma SuccessMeansLatest(run: seq<State>, i: nat, p: Pid)
    requires IsRun(run) && i + 1 < |run| && p in run[i].procs
    requires !run[i].procs[p].pc.Returned?
    requires p in run[i + 1].procs && run[i + 1].procs[p].pc == Returned(Ok)
    ensures run[i].procs[p].latest <= |run[i + 1].db.schema|
    ensures run[i].procs[p].session ==>
              && run[i + 1].db.schema == UpTo(run[i].procs[p].latest)
              && run[i + 1].db.ledger == Versions(run[i].procs[p].latest)
  {
    hide Acts, Inv, Init;
    RunsAreContiguous(run, i);
    var s, t := run[i], run[i + 1];
    assert Next(s, t);
    var q: Pid :| Step(s, t, q);
    if Acts(s, t, q) {
      StepIsGood(s, t, q);
      assert q == p;
    }
  }

  // ---------------------------------------------------------------- the builds in play

  /** Every call of the run is of one of the given builds. */
  ghost predicate OfBuilds(run: seq<State>, builds: iset<nat>) {
    forall i, p :: 0 <= i < |run| && p in run[i].procs ==> run[i].procs[p].latest in builds
  }

  /** p's call, of a build whose migrations end at latest, returns success on step i. */
  ghost predicate Succeeds(run: seq<State>, i: nat, p: Pid, latest: nat) {
    && i + 1 < |run| && p in run[i].procs && p in run[i + 1].procs
    && run[i].procs[p].latest == latest && !run[i].procs[p].pc.Returned?
    && run[i + 1].procs[p].pc == Returned(Ok)
  }

  predicate IsExactly(db: Database, k: nat) {
    db.schema == UpTo(k) && db.ledger == Versions(k)
  }

  /** No run takes the database beyond both its start and the newest build. */
  lemma {:induction false} NewestBuildBounds(run: seq<State>, i: nat, builds: iset<nat>, top: nat)
    requires IsRun(run) && OfBuilds(run, builds) && i < |run|
    requires |run[0].db.schema| <= top && forall m :: m in builds ==> m <= top
    ensures |run[i].db.schema| <= top
  {
    hide Acts, Inv, Init;
    if i > 0 {
      NewestBuildBounds(run, i - 1, builds, top);
      RunsAreContiguous(run, i - 1);
      var s, t := run[i - 1], run[i];
      assert Next(s, t);
      var p: Pid :| Step(s, t, p);
      if Acts(s, t, p) {
        StepIsGood(s, t, p);
        assert s.procs[p].latest in builds;
      }
    }
  }

  /** A call of a build older than the database at the start never gets past reading the ledger. */
  lemma {:induction false} OlderBuildIsRefused(run: seq<State>, i: nat, p: Pid)
    requires IsRun(run) && i < |run| && p in run[i].procs && run[i].procs[p].latest < |run[0].db.schema|
    ensures IsRefused(run[i].procs[p])
  {
    hide Acts, Inv, IsRefused;
    assert i > 0;
    var s, t := run[i - 1], run[i];
    assert Next(s, t);
    var q: Pid :| Step(s, t, q);
    RunsAreContiguous(run, i - 1);
    if Acts(s, t, q) {
      StepIsGood(s, t, q);
    }
    if p in s.procs {
      OlderBuildIsRefused(run, i - 1, p);
      SchemaOnlyGrows(run, 0, i - 1);
      RefusedOneStep(s, t, p);
    } else {
      StartIsRefused(t.procs[p]);
    }
  }

  lemma StartIsRefused(proc: Proc)
    ensures proc.pc == Connecting ==> IsRefused(proc)
  {
  }

  /**
   * When no build in play is newer, or the database was newer at the start, a call
   * that returns success leaves the database exactly at its latest version, whether
   * or not it kept its session.
   */
  lemma SuccessIsExact(run: seq<State>, i: nat, p: Pid, latest: nat, builds: iset<nat>)
    requires IsRun(run) && OfBuilds(run, builds) && Succeeds(run, i, p, latest)
    requires latest < |run[0].db.schema| || forall m :: m in builds ==> m <= latest
    ensures IsExactly(run[i + 1].db, latest)
  {
    hide Inv, Init, Next, IsRefused;
    if latest < |run[0].db.schema| {
      MovesOnly(run, i, p);
      OlderBuildIsRefused(run, i + 1, p);
      RefusedIsNotDone(run[i + 1].procs[p]);
    } else {
      SuccessMeansLatest(run, i, p);
      NewestBuildBounds(run, i + 1, builds, latest);
      RunsAreContiguous(run, i + 1);
      StateIsContiguous(run[i + 1]);
    }
  }

  /** A call keeps its build. */
  lemma MovesOnly(run: seq<State>, i: nat, p: Pid)
    requires IsRun(run) && i + 1 < |run| && p in run[i].procs
    ensures p in run[i + 1].procs && run[i + 1].procs[p].latest == run[i].procs[p].latest
  {
    hide Acts, Inv, Init;
    RunsAreContiguous(run, i);
    assert Next(run[i], run[i + 1]);
    var q: Pid :| Step(run[i], run[i + 1], q);
    if Acts(run[i], run[i + 1], q) {
      StepIsGood(run[i], run[i + 1], q);
    }
  }

  /** A call that meets a newer database with its session alive changes nothing and never returns success. */
  lemma {:induction false} NewerDatabaseIsRefused(run: seq<State>, i: nat, j: nat, p: Pid)
    requires IsRun(run) && i <= j < |run|
    requires Alive(run[i], p) && !run[i].procs[p].pc.Returned?
    requires |run[i].db.schema| > run[i].procs[p].latest
    ensures p in run[j].procs && run[j].procs[p].latest == run[i].procs[p].latest
    ensures IsRefused(run[j].procs[p]) && run[j].procs[p].pc != Returned(Ok)
    ensures j + 1 < |run| && Acts(run[j], run[j + 1], p) ==>
              run[j + 1].db.ledger == run[j].db.ledger && run[j + 1].db.schema == run[j].db.schema
    decreases j
  {
    hide Acts, Inv, Init, IsRefused;
    RunsAreContiguous(run, j);
    SchemaOnlyGrows(run, i, j);
    if i < j {
      NewerDatabaseIsRefused(run, i, j - 1, p);
      SchemaOnlyGrows(run, i, j - 1);
      RunsAreContiguous(run, j - 1);
      RefusedOneStep(run[j - 1], run[j], p);
    } else {
      OvertakenIsRefused(run[j], p);
    }
    RefusedIsNotDone(run[j].procs[p]);
    if j + 1 < |run| && Acts(run[j], run[j + 1], p) {
      StepIsGood(run[j], run[j + 1], p);
      assert Contiguous(run[j].db) by {
        StateIsContiguous(run[j]);
      }
    }
  }

  lemma StateIsContiguous(s: State)
    requires Inv(s)
    ensures Contiguous(s.db)
  {
  }

  lemma OvertakenIsRefused(s: State, p: Pid)
    requires Inv(s) && Alive(s, p) && !s.procs[p].pc.Returned? && |s.db.schema| > s.procs[p].latest
    ensures IsRefused(s.procs[p])
  {
  }

  lemma RefusedIsNotDone(proc: Proc)
    requires IsRefused(proc)
    ensures proc.pc != Returned(Ok)
  {
  }

  lemma RefusedOneStep(s: State, t: State, p: Pid)
    requires Inv(s) && Next(s, t) && p in s.procs && |s.db.schema| > s.procs[p].latest && IsRefused(s.procs[p])
    ensures p in t.procs && t.procs[p].latest == s.procs[p].latest && IsRefused(t.procs[p])
  {
    hide Acts, Inv;
    var q: Pid :| Step(s, t, q);
    if Acts(s, t, q) {
      StepIsGood(s, t, q);
    }
  }

  // ---------------------------------------------------------------- one call

  /** How one migration's transaction ends, as the database decides it. */
  datatype Fate = Done | BeginFails | ExecFails | RecordFails | CommitFails | CommitUnseen

  class MigrationDatabase {
    var hasLedger: bool
    var ledger: set<nat>
    var schema: seq<nat>

    constructor (applied: nat)
      ensures !hasLedger && Value() == Database(false, Versions(applied), UpTo(applied))
    {
      hasLedger := false;
      ledger := Versions(applied);
      schema := UpTo(applied);
    }

    function Value(): Database
      reads this
    {
      Database(hasLedger, ledger, schema)
    }

    /** A transaction that takes effect: the migration's SQL and its ledger row together. */
    method CommitMigration(v: nat)
      requires Contiguous(Value()) && v == |schema| + 1
      modifies this
      ensures Value() == Committed(old(Value()), v) && Contiguous(Value())
      ensures schema == old(schema) + [v] && hasLedger == old(hasLedger)
    {
      CommitKeepsContiguous(Value());
      ledger := ledger + {v};
      schema := schema + [v];
    }

    /** One migration's transaction; done when it went through and said so. */
    method RunMigration(v: nat, fate: Fate) returns (done: bool)
      requires Contiguous(Value()) && v == |schema| + 1
      modifies this
      ensures Contiguous(Value()) && hasLedger == old(hasLedger) && old(schema) <= schema
      ensures |schema| == if fate == Done || fate == CommitUnseen then v else v - 1
      ensures fate != Done && fate != CommitUnseen ==> schema == old(schema)
      ensures done <==> fate == Done
    {
      hide Contiguous;
      if fate == Done || fate == CommitUnseen {
        CommitMigration(v);
      }
      done := fate == Done;
    }

    /**
     * Apply, once it holds the lock and has loaded its migrations. `fate` decides
     * each transaction, `repairs` whether the forward repair goes through.
     */
    method Apply(available: seq<nat>, fate: nat -> Fate, repairs: bool) returns (result: Result)
      requires Contiguous(Value()) && available == UpTo(|available|)
      modifies this
      ensures Contiguous(Value()) && hasLedger
      ensures old(schema) <= schema
      ensures |schema| == VersionReached(|old(schema)|, |available|, fate)
      ensures result == Ok <==> |old(schema)| <= |available| && repairs && AllDone(|old(schema)|, |available|, fate)
      ensures result == Ok ==> |schema| == |available|
    {
      hide Versions, UpTo, Contiguous, Reached, Max, AllDone;
      hasLedger := true;
      LedgerAlone(Database(old(hasLedger), ledger, schema), Value());
      var current := Max(ledger);
      MaxIsLast(Value());
      UpToAt(|available|);
      ghost var start := |schema|;
      NothingYet(start, fate);
      for i := 0 to |available|
        invariant Contiguous(Value()) && hasLedger && old(schema) <= schema
        invariant current == |schema| && start <= current
        invariant if i <= start then schema == old(schema) else current == i
        invariant current <= |available| ==> VersionReached(start, |available|, fate) == VersionReached(current, |available|, fate)
        invariant AllDone(start, current, fate)
      {
        var candidate := available[i];
        if candidate <= current {
          continue;
        }
        OneMore(start, current, |available|, fate);
        var done := RunMigration(candidate, fate(candidate));
        if !done {
          return Failed;
        }
        current := candidate;
      }
      if current != |available| {
        return Failed;
      }
      result := if repairs then Ok else Failed;
    }

    /** The whole call: the embedded files are loaded after the ledger is read, and a bad set fails it. */
    method ApplyEmbedded(entries: seq<MigrationFiles.FileEntry>, latest: nat, fate: nat -> Fate, repairs: bool)
      returns (result: Result)
      requires Contiguous(Value())
      modifies this
      ensures Contiguous(Value()) && hasLedger && old(schema) <= schema
      ensures |schema| == if MigrationFiles.Loads(entries, latest) then VersionReached(|old(schema)|, latest, fate) else |old(schema)|
      ensures result == Ok <==>
                MigrationFiles.Loads(entries, latest) && |old(schema)| <= latest && repairs && AllDone(|old(schema)|, latest, fate)
      ensures result == Ok ==> |schema| == latest
    {
      hide Contiguous, Versions, Reached, AllDone, MigrationFiles.Loads, MigrationFiles.AllHold, MigrationFiles.ArePadded;
      hasLedger := true;
      LedgerAlone(Database(old(hasLedger), ledger, schema), Value());
      var loaded := MigrationFiles.Load(entries, latest);
      if loaded == None {
        return Failed;
      }
      var versions: seq<nat> := [];
      for i := 0 to |loaded.value|
        invariant versions == UpTo(i)
      {
        assert loaded.value[i].version == i + 1;
        versions := versions + [loaded.value[i].version];
      }
      result := Apply(versions, fate, repairs);
    }
  }

  lemma MaxIsLast(db: Database)
    requires Contiguous(db)
    ensures Max(db.ledger) == |db.schema|
  {
    MaxOfVersions(|db.schema|);
  }

  lemma UpToAt(n: nat)
    ensures forall i :: 0 <= i < n ==> UpTo(n)[i] == i + 1
  {
  }

  lemma LedgerAlone(a: Database, b: Database)
    requires Contiguous(a) && b.ledger == a.ledger && b.schema == a.schema
    ensures Contiguous(b)
  {
  }

  /** Every migration after `from` goes through. */
  predicate AllDone(from: nat, latest: nat, fate: nat -> Fate) {
    forall v :: from < v <= latest ==> fate(v) == Done
  }

  function VersionReached(current: nat, latest: nat, fate: nat -> Fate): nat {
    if current >= latest then current else Reached(current, latest, fate)
  }

  lemma NothingYet(start: nat, fate: nat -> Fate)
    ensures AllDone(start, start, fate)
  {
  }

  /** What the next migration's fate means for the version reached and for all going through. */
  lemma OneMore(start: nat, current: nat, latest: nat, fate: nat -> Fate)
    requires start <= current < latest && AllDone(start, current, fate)
    ensures AllDone(start, current + 1, fate) <==> fate(current + 1) == Done
    ensures fate(current + 1) != Done ==> !AllDone(start, latest, fate)
    ensures VersionReached(current, latest, fate) ==
            if fate(current + 1) == Done then VersionReached(current + 1, latest, fate)
            else if fate(current + 1) == CommitUnseen then current + 1
            else current
  {
    ReachedStep(current, latest, fate);
    if fate(current + 1) == Done {
      ReachedStep(current + 1, latest, fate);
    }
  }

  /** The version reached from `current`: on to the first transaction that is not Done. */
  function Reached(current: nat, latest: nat, fate: nat -> Fate): nat
    requires current <= latest
    decreases latest - current
  {
    if current == latest then current
    else if fate(current + 1) == Done then Reached(current + 1, latest, fate)
    else if fate(current + 1) == CommitUnseen then current + 1
    else current
  }

  lemma ReachedStep(current: nat, latest: nat, fate: nat -> Fate)
    requires current <= latest
    ensures Reached(current, latest, fate) ==
            if current == latest then current
            else if fate(current + 1) == Done then Reached(current + 1, latest, fate)
            else if fate(current + 1) == CommitUnseen then current + 1
            else current
  {
  }
}
