/** Schema migrations (presidium-storage/src/database.rs): interrupted runs and retries. */
module Migrations {

  /** A database as the migrations see it: `user_version`, and the scripts committed so far, in order. */
  datatype Db = Db(version: int, applied: seq<string>)

  /** Where a transaction can fail; whatever the point, the transaction is rolled back. */
  datatype Fault = NoFault | AtBegin | AtScript | AtVersion | AtCommit

  /** The faults the environment has in store, one per migration. */
  type Plan = seq<Fault>

  function Start(version: int): nat {
    if version < 0 then 0 else version
  }

  /** The first migration at or after `from` that meets a fault, or the length of the plan. */
  function FirstFault(plan: Plan, from: nat): (k: nat)
    requires from <= |plan|
    ensures from <= k <= |plan|
    ensures forall i :: from <= i < k ==> plan[i].NoFault?
    ensures k < |plan| ==> !plan[k].NoFault?
    decreases |plan| - from
  {
    if from == |plan| || !plan[from].NoFault? then from else FirstFault(plan, from + 1)
  }

  /** A run in closed form: it commits the pending migrations up to the first fault. */
  function RunOnce(db: Db, migrations: seq<string>, plan: Plan): (bool, Db)
    requires |plan| == |migrations|
  {
    var start := Start(db.version);
    if start >= |migrations| then (true, db)
    else
      var stop := FirstFault(plan, start);
      (stop == |migrations|,
       if stop == start then db else Db(stop, db.applied + migrations[start..stop]))
  }

  class Connection {
    var version: int
    var applied: seq<string>

    function State(): Db
      reads this
    {
      Db(version, applied)
    }

    constructor (db: Db)
      ensures State() == db
    {
      version, applied := db.version, db.applied;
    }

    method RunMigrations(migrations: seq<string>, plan: Plan) returns (ok: bool)
      requires |plan| == |migrations|
      modifies this
      ensures (ok, State()) == RunOnce(old(State()), migrations, plan)
    {
      var current := version;
      ghost var start := Start(current);
      for index := 0 to |migrations|
        invariant index <= start ==> State() == old(State())
        invariant start < index ==> State() == Db(index, old(applied) + migrations[start..index])
        invariant forall i :: start <= i < index ==> plan[i].NoFault?
      {
        var target := index + 1;
        if target <= current {
          continue;
        }
        if plan[index] == AtBegin { return false; }
        var script := applied + [migrations[index]];
        if plan[index] == AtScript { return false; }
        var stamped := target;
        if plan[index] == AtVersion { return false; }
        if plan[index] == AtCommit { return false; }
        applied, version := script, stamped;
        assert migrations[start..index + 1] == migrations[start..index] + [migrations[index]];
      }
      return true;
    }
  }

  // ---------------------------------------------------------------- retries

  /** Runs one after the other, each under its own plan; a failed run is simply tried again. */
  function RunAll(db: Db, migrations: seq<string>, plans: seq<Plan>): Db
    requires forall i :: 0 <= i < |plans| ==> |plans[i]| == |migrations|
    decreases |plans|
  {
    if plans == [] then db else RunAll(RunOnce(db, migrations, plans[0]).1, migrations, plans[1..])
  }

  function NoFaults(n: nat): Plan {
    seq(n, i => NoFault)
  }

  /** After any attempts, exactly a block of the pending migrations has been committed, once and in
      order, and the version says which. */
  predicate Progressed(db: Db, now: Db, migrations: seq<string>) {
    var start := Start(db.version);
    || now == db
    || (start < now.version <= |migrations| && now.applied == db.applied + migrations[start..now.version])
  }

  lemma {:induction false} AttemptsProgress(origin: Db, db: Db, migrations: seq<string>, plans: seq<Plan>)
    requires forall i :: 0 <= i < |plans| ==> |plans[i]| == |migrations|
    requires Progressed(origin, db, migrations)
    ensures Progressed(origin, RunAll(db, migrations, plans), migrations)
    decreases |plans|
  {
    if plans == [] {
    } else {
      var next := RunOnce(db, migrations, plans[0]).1;
      if next != db && db != origin {
        assert migrations[Start(origin.version)..next.version]
            == migrations[Start(origin.version)..db.version] + migrations[db.version..next.version];
      }
      AttemptsProgress(origin, next, migrations, plans[1..]);
    }
  }

  /** What a run reports: success if and only if it met no fault among the pending migrations, which is if and
      only if none is pending afterwards; a failed run stops right before the migration that failed. */
  lemma ReportIsHonest(db: Db, migrations: seq<string>, plan: Plan)
    requires |plan| == |migrations|
    ensures var (ok, now) := RunOnce(db, migrations, plan);
      && (ok <==> forall i :: Start(db.version) <= i < |migrations| ==> plan[i].NoFault?)
      && (ok <==> Start(now.version) >= |migrations|)
      && (!ok ==> Start(now.version) < |migrations| && !plan[Start(now.version)].NoFault?)
  {
    var start := Start(db.version);
    if start < |migrations| {
      var stop := FirstFault(plan, start);
      assert stop < |plan| ==> !plan[stop].NoFault?;
    }
  }

  /** A run without faults in closed form. */
  lemma CleanRun(db: Db, migrations: seq<string>)
    ensures var start := Start(db.version);
      RunOnce(db, migrations, NoFaults(|migrations|)) ==
        (true, if start >= |migrations| then db else Db(|migrations|, db.applied + migrations[start..|migrations|]))
  {
    var clean := NoFaults(|migrations|);
    assert forall i :: 0 <= i < |migrations| ==> clean[i].NoFault?;
  }

  /** Resumable migrations. From any version, negative ones included, and after any number of attempts
      interrupted at any point of any transaction: what has been committed is a block of the pending
      migrations, each once and in order; one further attempt without faults ends in the very state
      of an uninterrupted run; and any run after that changes nothing. */
  lemma MigrationsResume(db: Db, migrations: seq<string>, plans: seq<Plan>, later: Plan)
    requires forall i :: 0 <= i < |plans| ==> |plans[i]| == |migrations|
    requires |later| == |migrations|
    ensures var clean := NoFaults(|migrations|);
      var interrupted := RunAll(db, migrations, plans);
      var (ok, done) := RunOnce(interrupted, migrations, clean);
      && Progressed(db, interrupted, migrations)
      && ok && done == RunOnce(db, migrations, clean).1
      && RunOnce(done, migrations, later) == (true, done)
      && (Start(db.version) < |migrations| ==>
            done == Db(|migrations|, db.applied + migrations[Start(db.version)..|migrations|]))
      && (Start(db.version) >= |migrations| ==> done == db)
  {
    AttemptsProgress(db, db, migrations, plans);
    var interrupted := RunAll(db, migrations, plans);
    CleanRun(db, migrations);
    CleanRun(interrupted, migrations);
    if interrupted != db {
      var v, start, n := interrupted.version, Start(db.version), |migrations|;
      assert migrations[start..n] == migrations[start..v] + migrations[v..n];
    }
  }
}
