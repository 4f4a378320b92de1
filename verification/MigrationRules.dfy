/** Forward-only migrations: what one transaction does to the database, and what every
    interleaving of migrators keeps. */
module MigrationRules {
  import opened Wrappers

  type Name = int

  /** The part of the authorizer's view of a statement that decides it. */
  datatype Target = HistoryTable | TemporarySchema | TransactionControl | OtherObject

  /** A statement, with whether its text names the history table. */
  datatype Statement = Statement(text: int, namesHistory: bool, target: Target)

  /** The checksum of a migration is a digest of its statements, so it is modelled by them. */
  datatype Migration = Migration(version: int, name: Name, sql: seq<Statement>)

  datatype Row = Row(version: int, name: Name, checksum: seq<Statement>, appliedAt: int)

  datatype Database = Database(history: seq<Row>, schema: seq<Statement>)

  datatype Error = InvalidPlan | ChecksumMismatch | HistoryMismatch | NewerThanBinary | Failed | Unavailable

  /** Where the database engine fails during one transaction. */
  datatype Fault = Fault(begin: bool, statement: Option<nat>, insert: bool, commit: bool)

  const NO_FAULT: Fault := Fault(false, None, false, false)

  datatype Status = Committed(version: int) | UpToDate(count: nat) | Refused(error: Error)

  predicate PlanValid(plan: seq<Migration>) {
    forall k :: 0 <= k < |plan| ==> plan[k].version == k + 1
  }

  predicate Ascending(history: seq<Row>) {
    forall j, k :: 0 <= j < k < |history| ==> history[j].version < history[k].version
  }

  /** The row records the migration. */
  predicate Records(r: Row, m: Migration) {
    r.version == m.version && r.name == m.name && r.checksum == m.sql
  }

  predicate IsPrefix(history: seq<Row>, plan: seq<Migration>) {
    |history| <= |plan| && forall k :: 0 <= k < |history| ==> Records(history[k], plan[k])
  }

  /** Statements a migration may run: not naming the history table, and let through by the
      authorizer in migration mode. */
  predicate Permitted(s: Statement) {
    !s.namesHistory && s.target == OtherObject
  }

  function HistoryError(history: seq<Row>, plan: seq<Migration>): Option<Error>
    requires PlanValid(plan) && Ascending(history)
  {
    if history != [] && history[|history| - 1].version > |plan| then Some(NewerThanBinary)
    else FirstMismatch(history, plan, 0)
  }

  /** The first row at or after k that is not the plan's. Ascending versions keep every lookup
      inside the plan. */
  function FirstMismatch(history: seq<Row>, plan: seq<Migration>, k: nat): Option<Error>
    requires k <= |history| && Ascending(history)
    requires history != [] ==> history[|history| - 1].version <= |plan|
    decreases |history| - k
  {
    if k == |history| then None
    else if history[k].version != k + 1 then Some(HistoryMismatch)
    else if history[k].name != plan[k].name then Some(HistoryMismatch)
    else if history[k].checksum != plan[k].sql then Some(ChecksumMismatch)
    else FirstMismatch(history, plan, k + 1)
  }

  lemma PrefixVersion(history: seq<Row>, plan: seq<Migration>)
    requires PlanValid(plan) && history != [] && IsPrefix(history, plan)
    ensures history[|history| - 1].version == |history|
  {
    assert Records(history[|history| - 1], plan[|history| - 1]);
  }

  /** Validation accepts exactly the prefixes of the plan. */
  lemma HistoryErrorExact(history: seq<Row>, plan: seq<Migration>)
    requires PlanValid(plan) && Ascending(history)
    ensures HistoryError(history, plan).None? <==> IsPrefix(history, plan)
  {
    if history == [] || history[|history| - 1].version <= |plan| {
      MismatchExact(history, plan, 0);
      if history != [] && forall k :: 0 <= k < |history| ==> history[k].version == k + 1 {
        assert history[|history| - 1].version == |history|;
      }
    } else {
      if IsPrefix(history, plan) {
        PrefixVersion(history, plan);
      }
    }
  }

  lemma {:induction false} MismatchExact(history: seq<Row>, plan: seq<Migration>, k: nat)
    requires PlanValid(plan) && k <= |history| && Ascending(history)
    requires history != [] ==> history[|history| - 1].version <= |plan|
    ensures FirstMismatch(history, plan, k).None? <==>
            forall j :: k <= j < |history| ==> j < |plan| && Records(history[j], plan[j])
    decreases |history| - k
  {
    if k < |history| && history[k].version == k + 1 {
      MismatchExact(history, plan, k + 1);
    }
  }

  /** What the check does with rows in any order whatever. */
  datatype Scan = Accepts | Rejects(error: Error) | PastEnd

  function Scanned(history: seq<Row>, plan: seq<Migration>, k: nat): Scan
    requires k <= |history|
    decreases |history| - k
  {
    if k == |history| then Accepts
    else if history[k].version != k + 1 then Rejects(HistoryMismatch)
    else if k >= |plan| then PastEnd
    else if history[k].name != plan[k].name then Rejects(HistoryMismatch)
    else if history[k].checksum != plan[k].sql then Rejects(ChecksumMismatch)
    else Scanned(history, plan, k + 1)
  }

  function Check(history: seq<Row>, plan: seq<Migration>): Scan {
    if history != [] && history[|history| - 1].version > |plan| then Rejects(NewerThanBinary) else Scanned(history, plan, 0)
  }

  lemma {:induction false} ScanPastEnd(history: seq<Row>, plan: seq<Migration>, k: nat)
    requires PlanValid(plan) && k <= |history| && k <= |plan|
    ensures Scanned(history, plan, k) == PastEnd <==>
      && |history| > |plan| && history[|plan|].version == |plan| + 1
      && forall j :: k <= j < |plan| ==> Records(history[j], plan[j])
    decreases |history| - k
  {
    if k < |history| && k < |plan| {
      ScanPastEnd(history, plan, k + 1);
    }
  }

  /** The check looks up a migration past the end of the plan exactly when the whole plan is
      recorded, the next row continues it, and yet the last row's version is within the plan. */
  lemma PastEndExactly(history: seq<Row>, plan: seq<Migration>)
    requires PlanValid(plan)
    ensures Check(history, plan) == PastEnd <==>
      && |history| > |plan| && IsPrefix(history[..|plan|], plan) && history[|plan|].version == |plan| + 1
      && history[|history| - 1].version <= |plan|
  {
    ScanPastEnd(history, plan, 0);
    if |history| > |plan| {
      assert forall j :: 0 <= j < |plan| ==> history[..|plan|][j] == history[j];
    }
  }

  /** Rows read in ascending order never lead there, and get the answer of the check on them. */
  lemma AscendingStaysInside(history: seq<Row>, plan: seq<Migration>)
    requires PlanValid(plan) && Ascending(history)
    ensures Check(history, plan) == match HistoryError(history, plan) case None => Accepts case Some(e) => Rejects(e)
  {
    if history == [] || history[|history| - 1].version <= |plan| {
      ScanIsMismatch(history, plan, 0);
    }
  }

  lemma {:induction false} ScanIsMismatch(history: seq<Row>, plan: seq<Migration>, k: nat)
    requires PlanValid(plan) && Ascending(history) && k <= |history|
    requires history != [] ==> history[|history| - 1].version <= |plan|
    ensures Scanned(history, plan, k) == match FirstMismatch(history, plan, k) case None => Accepts case Some(e) => Rejects(e)
    decreases |history| - k
  {
    if k < |history| {
      ScanIsMismatch(history, plan, k + 1);
      assert k < |history| - 1 ==> history[k].version < history[|history| - 1].version;
    }
  }

  function RowFor(m: Migration, at: int): Row {
    Row(m.version, m.name, m.sql, at)
  }

  function Extended(db: Database, m: Migration, at: int): Database {
    Database(db.history + [RowFor(m, at)], db.schema + m.sql)
  }

  /** Whether the transaction for a migration reaches its commit. */
  predicate Succeeds(m: Migration, fault: Fault) {
    && (forall k :: 0 <= k < |m.sql| ==> Permitted(m.sql[k]) && fault.statement != Some(k))
    && !fault.insert && !fault.commit
  }

  /** One turn of the loop: at most one migration, or nothing. */
  function Turn(db: Database, plan: seq<Migration>, at: int, fault: Fault): (Database, Status)
    requires PlanValid(plan) && Ascending(db.history)
  {
    if fault.begin then (db, Refused(Unavailable))
    else
      match HistoryError(db.history, plan)
      case Some(error) => (db, Refused(error))
      case None =>
        HistoryErrorExact(db.history, plan);
        if |db.history| == |plan| then
          if fault.commit then (db, Refused(Unavailable)) else (db, UpToDate(|plan|))
        else
          var m := plan[|db.history|];
          if Succeeds(m, fault) then (Extended(db, m, at), Committed(m.version)) else (db, Refused(Failed))
  }

  /******* Every interleaving *******/

  datatype Attempt = Attempt(plan: seq<Migration>, at: int, fault: Fault)

  /** The statements of the recorded migrations, in order. */
  function Replayed(history: seq<Row>): seq<Statement> {
    if history == [] then [] else Replayed(history[..|history| - 1]) + history[|history| - 1].checksum
  }

  /** Versions count from one, and the schema is what the history says was run. */
  predicate Replayable(db: Database) {
    && (forall k :: 0 <= k < |db.history| ==> db.history[k].version == k + 1)
    && db.schema == Replayed(db.history)
  }

  lemma ExtensionKeeps(db: Database, m: Migration, at: int)
    requires Replayable(db) && m.version == |db.history| + 1
    ensures Replayable(Extended(db, m, at)) && db.history <= Extended(db, m, at).history
  {
    var h := Extended(db, m, at).history;
    assert h[..|h| - 1] == db.history;
  }

  lemma TurnKeeps(db: Database, plan: seq<Migration>, at: int, fault: Fault)
    requires PlanValid(plan) && Replayable(db)
    ensures Replayable(Turn(db, plan, at, fault).0)
    ensures db.history <= Turn(db, plan, at, fault).0.history
    ensures match Turn(db, plan, at, fault).1
            case Committed(v) => v == |db.history| + 1 == |Turn(db, plan, at, fault).0.history|
            case _ => Turn(db, plan, at, fault).0 == db
  {
    hide HistoryError, Replayed, Succeeds;
    HistoryErrorExact(db.history, plan);
    if Turn(db, plan, at, fault).1.Committed? {
      ExtensionKeeps(db, plan[|db.history|], at);
    }
    hide Replayable;
  }

  lemma TurnOutcome(db: Database, plan: seq<Migration>, at: int, fault: Fault)
    requires PlanValid(plan) && Replayable(db)
    ensures var (after, status) := Turn(db, plan, at, fault);
            && Replayable(after) && db.history <= after.history
            && (status.UpToDate? ==> status.count == |plan| == |after.history| && IsPrefix(after.history, plan))
            && (status.Committed? ==> |db.history| < |after.history| <= |plan|)
  {
    TurnKeeps(db, plan, at, fault);
    HistoryErrorExact(db.history, plan);
  }

  /** A migration commits exactly when it is the next of a plan that extends the history, each of
      its statements keeps off the history, temporary objects and transactions, and nothing fails. */
  lemma CommitsExactly(db: Database, plan: seq<Migration>, at: int, fault: Fault)
    requires PlanValid(plan) && Replayable(db)
    ensures Turn(db, plan, at, fault).1.Committed? <==>
      && IsPrefix(db.history, plan) && |db.history| < |plan|
      && (forall s :: s in plan[|db.history|].sql ==> !s.namesHistory && s.target.OtherObject?)
      && !fault.begin && !fault.insert && !fault.commit
      && (fault.statement.Some? ==> fault.statement.value >= |plan[|db.history|].sql|)
    ensures Turn(db, plan, at, fault).1.UpToDate? <==>
      IsPrefix(db.history, plan) && |db.history| == |plan| && !fault.begin && !fault.commit
  {
    hide Replayed;
    HistoryErrorExact(db.history, plan);
  }

  function RunAttempts(db: Database, attempts: seq<Attempt>): (after: Database)
    requires Replayable(db) && forall a :: a in attempts ==> PlanValid(a.plan)
    ensures Replayable(after) && db.history <= after.history
    decreases |attempts|
  {
    if attempts == [] then db
    else
      var a := attempts[0];
      TurnKeeps(db, a.plan, a.at, a.fault);
      RunAttempts(Turn(db, a.plan, a.at, a.fault).0, attempts[1..])
  }

  /** The versions committed along a run. */
  function Commits(db: Database, attempts: seq<Attempt>): seq<int>
    requires Replayable(db) && forall a :: a in attempts ==> PlanValid(a.plan)
    decreases |attempts|
  {
    if attempts == [] then []
    else
      var a := attempts[0];
      var (next, status) := Turn(db, a.plan, a.at, a.fault);
      TurnKeeps(db, a.plan, a.at, a.fault);
      (if status.Committed? then [status.version] else []) + Commits(next, attempts[1..])
  }

  /** Through any failures, rollbacks and competing migrators, every version commits exactly
      once and in order. */
  lemma {:induction false} EachCommitsOnce(db: Database, attempts: seq<Attempt>)
    requires Replayable(db) && forall a :: a in attempts ==> PlanValid(a.plan)
    ensures |RunAttempts(db, attempts).history| == |db.history| + |Commits(db, attempts)|
    ensures forall k :: 0 <= k < |Commits(db, attempts)| ==> Commits(db, attempts)[k] == |db.history| + k + 1
    decreases |attempts|
  {
    if attempts != [] {
      var a := attempts[0];
      TurnKeeps(db, a.plan, a.at, a.fault);
      EachCommitsOnce(Turn(db, a.plan, a.at, a.fault).0, attempts[1..]);
    }
  }

  /** Whatever plans compete, no statement that reaches the history, a temporary object or a
      transaction is ever added to the schema. */
  lemma {:induction false} NothingForbiddenRuns(db: Database, attempts: seq<Attempt>)
    requires Replayable(db) && forall a :: a in attempts ==> PlanValid(a.plan)
    ensures forall s :: s in RunAttempts(db, attempts).schema ==> s in db.schema || (!s.namesHistory && s.target.OtherObject?)
    decreases |attempts|
  {
    if attempts != [] {
      var a := attempts[0];
      TurnKeeps(db, a.plan, a.at, a.fault);
      hide Replayable, HistoryError;
      NothingForbiddenRuns(Turn(db, a.plan, a.at, a.fault).0, attempts[1..]);
    }
  }

  lemma TurnFollows(db: Database, a: Attempt, master: seq<Migration>)
    requires Replayable(db) && PlanValid(master) && IsPrefix(db.history, master)
    requires PlanValid(a.plan) && a.plan <= master
    ensures IsPrefix(Turn(db, a.plan, a.at, a.fault).0.history, master)
  {
    hide HistoryError, Succeeds, Replayed;
    HistoryErrorExact(db.history, a.plan);
    if Turn(db, a.plan, a.at, a.fault).1.Committed? {
      assert a.plan[|db.history|] == master[|db.history|];
    }
  }

  /** With all migrators on prefixes of one plan, the history stays a prefix of that plan, and
      the schema is the plan's statements up to there. */
  lemma {:induction false} PlanIsFollowed(db: Database, attempts: seq<Attempt>, master: seq<Migration>)
    requires Replayable(db) && PlanValid(master) && IsPrefix(db.history, master)
    requires forall a :: a in attempts ==> PlanValid(a.plan) && a.plan <= master
    ensures IsPrefix(RunAttempts(db, attempts).history, master)
    ensures RunAttempts(db, attempts).schema == PlanStatements(master[..|RunAttempts(db, attempts).history|])
    decreases |attempts|
  {
    if attempts != [] {
      var a := attempts[0];
      TurnKeeps(db, a.plan, a.at, a.fault);
      TurnFollows(db, a, master);
      hide Turn, IsPrefix, Replayable;
      PlanIsFollowed(Turn(db, a.plan, a.at, a.fault).0, attempts[1..], master);
    } else {
      SchemaOfPrefix(db.history, master);
    }
  }

  function PlanStatements(plan: seq<Migration>): seq<Statement> {
    if plan == [] then [] else PlanStatements(plan[..|plan| - 1]) + plan[|plan| - 1].sql
  }

  lemma {:induction false} SchemaOfPrefix(history: seq<Row>, plan: seq<Migration>)
    requires IsPrefix(history, plan)
    ensures Replayed(history) == PlanStatements(plan[..|history|])
  {
    if history != [] {
      var n := |history| - 1;
      SchemaOfPrefix(history[..n], plan);
      assert plan[..n + 1][..n] == plan[..n] && plan[..n + 1][n] == plan[n];
      assert Records(history[n], plan[n]);
    }
  }

  /** A migrator whose plan does not extend the history changes nothing and is told so. */
  lemma DivergedPlanIsRefused(db: Database, plan: seq<Migration>, at: int, fault: Fault)
    requires PlanValid(plan) && Replayable(db) && !IsPrefix(db.history, plan)
    ensures Turn(db, plan, at, fault).0 == db && Turn(db, plan, at, fault).1.Refused?
    ensures !fault.begin && |db.history| > |plan| ==> Turn(db, plan, at, fault).1 == Refused(NewerThanBinary)
  {
    HistoryErrorExact(db.history, plan);
  }

  lemma PermittedTurn(db: Database, plan: seq<Migration>, at: int)
    requires PlanValid(plan) && Replayable(db) && IsPrefix(db.history, plan) && |db.history| < |plan|
    requires forall m, s :: m in plan && s in m.sql ==> Permitted(s)
    ensures Turn(db, plan, at, NO_FAULT).0 == Extended(db, plan[|db.history|], at)
    ensures IsPrefix(Turn(db, plan, at, NO_FAULT).0.history, plan) && |Turn(db, plan, at, NO_FAULT).0.history| == |db.history| + 1
  {
    hide HistoryError, Replayed;
    HistoryErrorExact(db.history, plan);
    var m := plan[|db.history|];
    forall k | 0 <= k < |m.sql|
      ensures Permitted(m.sql[k])
    {
      assert m in plan && m.sql[k] in m.sql;
    }
  }

  function Attempts(plan: seq<Migration>, at: int, n: nat): seq<Attempt> {
    if n == 0 then [] else [Attempt(plan, at, NO_FAULT)] + Attempts(plan, at, n - 1)
  }

  lemma {:induction false} AttemptsUsePlan(plan: seq<Migration>, at: int, n: nat)
    ensures |Attempts(plan, at, n)| == n && forall a :: a in Attempts(plan, at, n) ==> a.plan == plan
  {
    if n > 0 {
      AttemptsUsePlan(plan, at, n - 1);
    }
  }

  /** Left alone with a permitted plan, a migrator reaches its end in as many turns as there are
      migrations left. */
  lemma {:induction false} PermittedPlanCompletes(db: Database, plan: seq<Migration>, at: int)
    requires PlanValid(plan) && Replayable(db) && IsPrefix(db.history, plan)
    requires forall m, s :: m in plan && s in m.sql ==> Permitted(s)
    ensures forall a :: a in Attempts(plan, at, |plan| - |db.history|) ==> PlanValid(a.plan)
    ensures var after := RunAttempts(db, Attempts(plan, at, |plan| - |db.history|));
            IsPrefix(after.history, plan) && |after.history| == |plan|
    decreases |plan| - |db.history|
  {
    var left := |plan| - |db.history|;
    AttemptsUsePlan(plan, at, left);
    if left > 0 {
      TurnKeeps(db, plan, at, NO_FAULT);
      PermittedTurn(db, plan, at);
      hide Turn, IsPrefix, Replayable, PlanValid, Permitted;
      PermittedPlanCompletes(Turn(db, plan, at, NO_FAULT).0, plan, at);
      assert Attempts(plan, at, left)[1..] == Attempts(plan, at, left - 1);
    }
  }
}
