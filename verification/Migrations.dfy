/** The migration loop over a guarded connection. */
module Migrations {
  import opened Wrappers
  import opened MigrationRules

  datatype Mode = Normal | Migrating | HistoryInsert

  class Connection {
    var committed: Database
    var working: Database
    var inTransaction: bool
    var mode: Mode

    constructor (db: Database)
      ensures committed == db && Idle()
    {
      committed, working, inTransaction, mode := db, db, false, Normal;
    }

    /** Between transactions, with the authorizer in its strictest mode. */
    predicate Idle()
      reads this
    {
      !inTransaction && mode == Normal
    }

    method Begin(fails: bool) returns (ok: bool)
      requires Idle()
      modifies this
      ensures committed == old(committed) && mode == Normal
      ensures ok == !fails && inTransaction == ok && (ok ==> working == committed)
    {
      ok := !fails;
      if ok {
        working, inTransaction := committed, true;
      }
    }

    /** Undoes what the transaction wrote. */
    method Rollback()
      modifies this`working, this`inTransaction
      ensures !inTransaction && working == committed
    {
      working, inTransaction := committed, false;
    }

    method Commit(fails: bool) returns (ok: bool)
      requires inTransaction
      modifies this
      ensures mode == old(mode) && ok == !fails
      ensures ok ==> committed == old(working) && !inTransaction
      ensures !ok ==> committed == old(committed) && working == old(working) && inTransaction
    {
      ok := !fails;
      if ok {
        committed, inTransaction := working, false;
      }
    }

    /** The authorizer keeps a migration away from the history table. */
    predicate Authorized(s: Statement)
      reads this`mode
    {
      mode == Migrating ==> s.target == OtherObject
    }

    /** Runs the statements of a migration, restoring the mode however it ends. */
    method ExecuteMigration(sql: seq<Statement>, fault: Fault) returns (ok: bool)
      requires inTransaction && mode == Normal
      modifies this`working, this`mode
      ensures mode == Normal
      ensures ok <==> forall k :: 0 <= k < |sql| ==> Permitted(sql[k]) && fault.statement != Some(k)
      ensures working.history == old(working.history)
      ensures ok ==> working.schema == old(working.schema) + sql
    {
      mode := Migrating;
      for k := 0 to |sql|
        invariant mode == Migrating && working.history == old(working.history)
        invariant working.schema == old(working.schema) + sql[..k]
        invariant forall j :: 0 <= j < k ==> Permitted(sql[j]) && fault.statement != Some(j)
      {
        if sql[k].namesHistory || !Authorized(sql[k]) || fault.statement == Some(k) {
          mode := Normal;
          return false;
        }
        assert sql[..k + 1] == sql[..k] + [sql[k]];
        working := working.(schema := working.schema + [sql[k]]);
      }
      assert sql[..|sql|] == sql;
      mode := Normal;
      ok := true;
    }

    /** The one write to the history table, allowed only in its own mode. */
    method InsertHistory(row: Row, fails: bool) returns (ok: bool)
      requires inTransaction && mode == Normal
      requires forall r :: r in working.history ==> r.version < row.version
      modifies this`working, this`mode
      ensures mode == Normal && ok == !fails
      ensures working == if ok then old(working).(history := old(working.history) + [row]) else old(working)
    {
      mode := HistoryInsert;
      ok := !fails && mode == HistoryInsert;
      if ok {
        working := working.(history := working.history + [row]);
      }
      mode := Normal;
    }

    /** Newer than the plan, or the first disagreement with it. */
    method ValidateHistory(plan: seq<Migration>) returns (error: Option<Error>)
      requires PlanValid(plan) && Ascending(working.history)
      ensures error == HistoryError(working.history, plan)
    {
      var history := working.history;
      if history != [] && history[|history| - 1].version > |plan| {
        return Some(NewerThanBinary);
      }
      for k := 0 to |history|
        invariant FirstMismatch(history, plan, 0) == FirstMismatch(history, plan, k)
      {
        if history[k].version != k + 1 {
          return Some(HistoryMismatch);
        }
        if history[k].name != plan[k].name {
          return Some(HistoryMismatch);
        }
        if history[k].checksum != plan[k].sql {
          return Some(ChecksumMismatch);
        }
      }
      error := None;
    }

    /** One turn of the loop, as a transaction that commits or leaves no trace. */
    method ApplyNext(plan: seq<Migration>, at: int, fault: Fault) returns (status: Status)
      requires PlanValid(plan) && Replayable(committed) && Idle()
      modifies this
      ensures Idle()
      ensures (committed, status) == Turn(old(committed), plan, at, fault)
    {
      HistoryErrorExact(committed.history, plan);
      var ok := Begin(fault.begin);
      if !ok {
        return Refused(Unavailable);
      }
      var error := ValidateHistory(plan);
      if error.Some? {
        Rollback();
        return Refused(error.value);
      }
      if |working.history| == |plan| {
        ok := Commit(fault.commit);
        if !ok {
          Rollback();
          return Refused(Unavailable);
        }
        return UpToDate(|plan|);
      }
      var m := plan[|working.history|];
      ok := ExecuteMigration(m.sql, fault);
      if ok {
        ok := InsertHistory(RowFor(m, at), fault.insert);
      }
      if ok {
        ok := Commit(fault.commit);
      }
      if !ok {
        Rollback();
        return Refused(Failed);
      }
      status := Committed(m.version);
    }

    /** What other migrators do between two turns. */
    method OthersRun(attempts: seq<Attempt>)
      requires Replayable(committed) && Idle() && forall a :: a in attempts ==> PlanValid(a.plan)
      modifies this`committed
      ensures committed == RunAttempts(old(committed), attempts)
    {
      committed := RunAttempts(committed, attempts);
    }

    /** Applies pending migrations until none is left or one is refused, while other migrators
        take turns in between. Each success shortens what is left, so the loop ends. */
    method ApplyMigrations(plan: seq<Migration>, at: int, faults: nat -> Fault, others: nat -> seq<Attempt>)
      returns (answer: Result<nat, Error>, ghost run: seq<Attempt>)
      requires Replayable(committed) && Idle()
      requires forall k, a :: a in others(k) ==> PlanValid(a.plan)
      modifies this
      ensures Idle() && Replayable(committed) && old(committed).history <= committed.history
      ensures !PlanValid(plan) ==> answer == Err(InvalidPlan) && committed == old(committed)
      ensures answer.Ok? ==> answer.value == |plan| == |committed.history| && IsPrefix(committed.history, plan)
      ensures Mixed(run, plan, others) && Reaches(old(committed), run, committed)
    {
      run := [];
      if !PlanValid(plan) {
        return Err(InvalidPlan), run;
      }
      hide Turn, Replayable, IsPrefix, PlanValid, Reaches, Mixed;
      ReachesNothing(committed);
      MixedNothing(plan, others);
      var turn := 0;
      while true
        invariant Idle() && Replayable(committed) && old(committed).history <= committed.history
        invariant Mixed(run, plan, others) && Reaches(old(committed), run, committed)
        decreases |plan| - |committed.history|
      {
        ghost var before := committed;
        TurnOutcome(committed, plan, at, faults(turn));
        var status := ApplyNext(plan, at, faults(turn));
        run := ReachesTurn(old(committed), run, before, plan, at, faults(turn), others);
        match status
        case UpToDate(count) =>
          return Ok(count), run;
        case Refused(error) =>
          return Err(error), run;
        case Committed(_) =>
          before := committed;
          OthersRun(others(turn));
          run := ReachesOthers(old(committed), run, before, plan, others, turn);
          turn := turn + 1;
      }
    }
  }

  /** Attempts made on the plan or by the others. */
  ghost predicate Mixed(run: seq<Attempt>, plan: seq<Migration>, others: nat -> seq<Attempt>) {
    forall a :: a in run ==> PlanValid(a.plan) && (a.plan == plan || exists k :: a in others(k))
  }

  ghost predicate Reaches(db: Database, run: seq<Attempt>, after: Database) {
    Replayable(db) && (forall a :: a in run ==> PlanValid(a.plan)) && RunAttempts(db, run) == after
  }

  lemma ReachesNothing(db: Database)
    requires Replayable(db)
    ensures Reaches(db, [], db)
  {
  }

  lemma MixedNothing(plan: seq<Migration>, others: nat -> seq<Attempt>)
    ensures Mixed([], plan, others)
  {
  }

  lemma ReachesTurn(db: Database, run: seq<Attempt>, before: Database, plan: seq<Migration>, at: int, fault: Fault,
                    others: nat -> seq<Attempt>)
    returns (longer: seq<Attempt>)
    requires PlanValid(plan) && Mixed(run, plan, others) && Reaches(db, run, before) && Replayable(before)
    ensures Mixed(longer, plan, others) && Reaches(db, longer, Turn(before, plan, at, fault).0)
  {
    hide Turn, Replayable, PlanValid;
    var mine := Attempt(plan, at, fault);
    longer := run + [mine];
    RunSplit(db, run, [mine]);
    RunOne(before, mine);
  }

  lemma ReachesOthers(db: Database, run: seq<Attempt>, before: Database, plan: seq<Migration>,
                      others: nat -> seq<Attempt>, turn: nat)
    returns (longer: seq<Attempt>)
    requires Mixed(run, plan, others) && Reaches(db, run, before) && Replayable(before)
    requires forall k, a :: a in others(k) ==> PlanValid(a.plan)
    ensures Mixed(longer, plan, others) && Reaches(db, longer, RunAttempts(before, others(turn)))
  {
    hide Replayable, PlanValid;
    longer := run + others(turn);
    RunSplit(db, run, others(turn));
  }

  lemma {:induction false} RunSplit(db: Database, first: seq<Attempt>, second: seq<Attempt>)
    requires Replayable(db) && forall a :: a in first || a in second ==> PlanValid(a.plan)
    ensures forall a :: a in first + second ==> PlanValid(a.plan)
    ensures RunAttempts(db, first + second) == RunAttempts(RunAttempts(db, first), second)
    decreases |first|
  {
    if first == [] {
      assert first + second == second;
    } else {
      var a := first[0];
      TurnKeeps(db, a.plan, a.at, a.fault);
      RunSplit(Turn(db, a.plan, a.at, a.fault).0, first[1..], second);
      assert (first + second)[1..] == first[1..] + second;
    }
  }

  lemma RunOne(db: Database, a: Attempt)
    requires Replayable(db) && PlanValid(a.plan)
    ensures RunAttempts(db, [a]) == Turn(db, a.plan, a.at, a.fault).0
  {
    TurnKeeps(db, a.plan, a.at, a.fault);
    hide Turn, Replayable;
    assert [a][1..] == [];
  }
}
