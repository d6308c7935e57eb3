/**
 The migration runner (src/db/migration-runner.ts:11-23) and the independent verifier
 (src/db/migration-verifier.ts:4). SHA-256 is a function; the database's answers to a migration's SQL,
 and the callback's, are functions of what the database has seen.
 */
module Migrations {
  import opened MigrationSql

  datatype Option<T> = None | Some(value: T)

  datatype Migration = Migration(version: string, sql: string)

  /** A migration whose transaction committed: the text of its file, and the text that was sent to the server. */
  datatype Effect = Effect(version: string, file: string, sent: string)

  /** The recorded rows, with no checksum for old ones, and all committed effects in order. */
  datatype Db = Db(rows: map<string, Option<string>>, effects: seq<Effect>)

  /**
   How the surroundings answer: whether a statement succeeds on a database with the given effects, and
   whether the callback returns normally.
   */
  datatype Environment = Environment(hash: string -> string, succeeds: (seq<Effect>, string) -> bool, reports: string -> bool)

  datatype Outcome = Finished | Mismatch(version: string) | SqlFailed(version: string) | CallbackFailed(version: string)

  /** What is sent when the file can be run at all. */
  function Sent(m: Migration): string {
    var sql := TransactionalSql(m.sql);
    if sql.Ok? then sql.value else ""
  }

  predicate SqlRuns(env: Environment, db: Db, m: Migration) {
    var sql := TransactionalSql(m.sql);
    sql.Ok? && (sql.value == [] || env.succeeds(db.effects, sql.value))
  }

  function Step(env: Environment, db: Db, m: Migration): (Db, Outcome) {
    var checksum := Checksum(env.hash, m.sql);
    if m.version in db.rows then
      if db.rows[m.version].None? then (db.(rows := db.rows[m.version := Some(checksum)]), Finished)
      else if db.rows[m.version] != Some(checksum) then (db, Mismatch(m.version))
      else (db, Finished)
    else if !SqlRuns(env, db, m) then (db, SqlFailed(m.version))
    else
      (Db(db.rows[m.version := Some(checksum)], db.effects + [Effect(m.version, m.sql, Sent(m))]),
       if env.reports(m.version) then Finished else CallbackFailed(m.version))
  }

  function RunPlan(env: Environment, db: Db, plan: seq<Migration>): (Db, Outcome)
    decreases |plan|
  {
    if plan == [] then (db, Finished)
    else
      var first := Step(env, db, plan[0]);
      if first.1 == Finished then RunPlan(env, first.0, plan[1..]) else first
  }

  // ---- the runner ----

  /** The database session: committed state, the open transaction's working copy, and the advisory lock. */
  class Client {
    var rows: map<string, Option<string>>
    var effects: seq<Effect>
    var saved: Option<Db>
    var locked: bool

    constructor (db: Db)
      ensures Committed() == db && !locked && saved == None
    {
      rows, effects, saved, locked := db.rows, db.effects, None, false;
    }

    /** What stays if the session ends now. */
    ghost function Committed(): Db
      reads this
    {
      if saved.Some? then saved.value else Db(rows, effects)
    }

    method Begin()
      requires saved == None
      modifies this
      ensures saved == Some(Db(rows, effects)) && rows == old(rows) && effects == old(effects) && locked == old(locked)
    {
      saved := Some(Db(rows, effects));
    }

    method Commit()
      requires saved.Some?
      modifies this
      ensures saved == None && rows == old(rows) && effects == old(effects) && locked == old(locked)
    {
      saved := None;
    }

    method Rollback()
      requires saved.Some?
      modifies this
      ensures saved == None && Db(rows, effects) == old(saved.value) && locked == old(locked)
    {
      rows, effects, saved := saved.value.rows, saved.value.effects, None;
    }

    /** One migration in its own transaction: the SQL and the row commit together or not at all. */
    method ApplyMigration(env: Environment, m: Migration) returns (ok: bool)
      requires saved == None && m.version !in rows
      modifies this
      ensures saved == None && locked == old(locked)
      ensures ok == SqlRuns(env, old(Committed()), m)
      ensures Committed() == if ok then Db(old(rows)[m.version := Some(Checksum(env.hash, m.sql))], old(effects) + [Effect(m.version, m.sql, Sent(m))])
                             else old(Committed())
    {
      Begin();
      var sql := TransactionalSql(m.sql);
      if sql.Error? || (sql.value != [] && !env.succeeds(effects, sql.value)) {
        Rollback();
        return false;
      }
      effects := effects + [Effect(m.version, m.sql, sql.value)];
      rows := rows[m.version := Some(Checksum(env.hash, m.sql))];
      Commit();
      return true;
    }

    method RunMigrationPlan(env: Environment, migrations: seq<Migration>) returns (outcome: Outcome)
      requires saved == None
      modifies this
      ensures (Committed(), outcome) == RunPlan(env, old(Committed()), migrations)
      ensures saved == None && !locked
    {
      locked := true;
      outcome := Finished;
      var n := 0;
      while n < |migrations|
        invariant 0 <= n <= |migrations| && saved == None && outcome == Finished
        invariant RunPlan(env, old(Committed()), migrations) == RunPlan(env, Committed(), migrations[n..])
      {
        var m := migrations[n];
        assert migrations[n..][0] == m && migrations[n..][1..] == migrations[n + 1..];
        var checksum := Checksum(env.hash, m.sql);
        if m.version in rows {
          if rows[m.version].None? {
            rows := rows[m.version := Some(checksum)];
          } else if rows[m.version] != Some(checksum) {
            outcome := Mismatch(m.version);
            break;
          }
        } else {
          var ok := ApplyMigration(env, m);
          if !ok {
            outcome := SqlFailed(m.version);
            break;
          }
          if !env.reports(m.version) {
            outcome := CallbackFailed(m.version);
            break;
          }
        }
        n := n + 1;
      }
      locked := false;
    }
  }

  // ---- each migration takes effect exactly once, if and only if its row is recorded ----

  function CountEffects(effects: seq<Effect>, version: string): nat {
    if effects == [] then 0
    else CountEffects(effects[..|effects| - 1], version) + if effects[|effects| - 1].version == version then 1 else 0
  }

  /** Over a database that had the rows `legacy` before any run. */
  ghost predicate OncePerRow(hash: string -> string, legacy: set<string>, db: Db) {
    && (forall v :: CountEffects(db.effects, v) == if v in db.rows && v !in legacy then 1 else 0)
    && (forall v :: v in legacy ==> v in db.rows)
    && forall e :: e in db.effects ==> EffectOk(hash, db.rows, e)
  }

  /** The effect's row has the checksum of its file, and what was sent is the file without margins and markers. */
  ghost predicate EffectOk(hash: string -> string, rows: map<string, Option<string>>, e: Effect) {
    e.version in rows && rows[e.version] == Some(Checksum(hash, e.file)) && RunsAs(e.file, e.sent)
  }

  lemma SentRuns(env: Environment, db: Db, m: Migration)
    requires SqlRuns(env, db, m)
    ensures RunsAs(m.sql, Sent(m))
  {
    RunsExactly(m.sql, Sent(m));
    hide RunsAs, TransactionalSql;
  }

  lemma CountNext(effects: seq<Effect>, e: Effect, version: string)
    ensures CountEffects(effects + [e], version) == CountEffects(effects, version) + if e.version == version then 1 else 0
  {
    assert (effects + [e])[..|effects|] == effects;
  }

  lemma NewEffectOnce(hash: string -> string, legacy: set<string>, db: Db, m: Migration)
    requires OncePerRow(hash, legacy, db) && m.version !in db.rows && RunsAs(m.sql, Sent(m))
    ensures OncePerRow(hash, legacy, Db(db.rows[m.version := Some(Checksum(hash, m.sql))], db.effects + [Effect(m.version, m.sql, Sent(m))]))
  {
    hide CountEffects, Checksum, RunsAs, Sent;
    forall v
      ensures CountEffects(db.effects + [Effect(m.version, m.sql, Sent(m))], v)
           == if v in db.rows[m.version := Some(Checksum(hash, m.sql))] && v !in legacy then 1 else 0
    {
      CountNext(db.effects, Effect(m.version, m.sql, Sent(m)), v);
    }
  }

  lemma StepOnce(env: Environment, legacy: set<string>, db: Db, m: Migration)
    requires OncePerRow(env.hash, legacy, db)
    ensures OncePerRow(env.hash, legacy, Step(env, db, m).0)
  {
    hide Checksum, SqlRuns, CountEffects, RunsAs, Sent;
    if m.version in db.rows {
      assert Step(env, db, m).0.effects == db.effects;
    } else if SqlRuns(env, db, m) {
      SentRuns(env, db, m);
      NewEffectOnce(env.hash, legacy, db, m);
      hide OncePerRow;
    }
  }

  lemma {:induction false} RunOnce(env: Environment, legacy: set<string>, db: Db, plan: seq<Migration>)
    requires OncePerRow(env.hash, legacy, db)
    ensures OncePerRow(env.hash, legacy, RunPlan(env, db, plan).0)
    decreases |plan|
  {
    hide Step, OncePerRow;
    if plan != [] {
      StepOnce(env, legacy, db, plan[0]);
      if Step(env, db, plan[0]).1 == Finished { RunOnce(env, legacy, Step(env, db, plan[0]).0, plan[1..]); }
    }
  }

  datatype Run = Run(env: Environment, plan: seq<Migration>)

  function AfterRuns(db: Db, runs: seq<Run>): Db {
    if runs == [] then db
    else RunPlan(runs[|runs| - 1].env, AfterRuns(db, runs[..|runs| - 1]), runs[|runs| - 1].plan).0
  }

  lemma {:induction false} RunsOnce(hash: string -> string, rows: map<string, Option<string>>, runs: seq<Run>)
    requires forall r :: r in runs ==> r.env.hash == hash
    ensures OncePerRow(hash, rows.Keys, AfterRuns(Db(rows, []), runs))
  {
    assert OncePerRow(hash, rows.Keys, Db(rows, []));
    hide OncePerRow, RunPlan;
    if runs != [] {
      RunsOnce(hash, rows, runs[..|runs| - 1]);
      RunOnce(runs[|runs| - 1].env, rows.Keys, AfterRuns(Db(rows, []), runs[..|runs| - 1]), runs[|runs| - 1].plan);
    }
  }

  /**
   After any sequence of runs, successful or not, with any plans, a version not recorded before the
   first run has taken effect exactly once if its row is recorded, and never if it is not; the recorded
   checksum is that of its file, and what was sent to the server is the text of that file without its
   margins and its BEGIN and COMMIT.
   */
  lemma ExactlyOnceIffRecorded(hash: string -> string, rows: map<string, Option<string>>, runs: seq<Run>, version: string)
    requires forall r :: r in runs ==> r.env.hash == hash
    requires version !in rows
    ensures var db := AfterRuns(Db(rows, []), runs);
            && CountEffects(db.effects, version) == (if version in db.rows then 1 else 0)
            && forall e :: e in db.effects ==>
                 e.version in db.rows && db.rows[e.version] == Some(Checksum(hash, e.file)) && RunsAs(e.file, e.sent)
  {
    RunsOnce(hash, rows, runs);
    hide AfterRuns, CountEffects, Checksum, RunsAs;
  }

  /** A recorded migration is never applied again: its missing checksum is filled in, an equal one passes, and a
      file that changed since is refused. */
  lemma RecordedExactly(env: Environment, db: Db, m: Migration)
    requires m.version in db.rows
    ensures var (next, outcome) := Step(env, db, m);
            && next.effects == db.effects
            && (db.rows[m.version].None? ==> outcome == Finished && next.rows == db.rows[m.version := Some(Checksum(env.hash, m.sql))])
            && (db.rows[m.version].Some? ==> next == db)
            && (db.rows[m.version].Some? ==> (outcome == Finished <==> db.rows[m.version].value == Checksum(env.hash, m.sql)))
            && (outcome == Finished || outcome == Mismatch(m.version))
  {
    hide Checksum;
  }

  /** A migration that is not recorded is applied exactly when its file can be run and the server accepts what is
      left of it without margins and markers; then that text, and nothing else, has taken effect. */
  lemma AppliedExactly(env: Environment, db: Db, m: Migration)
    requires m.version !in db.rows
    ensures Step(env, db, m).1 == SqlFailed(m.version) <==>
              !exists sql :: RunsAs(m.sql, sql) && (sql == "" || env.succeeds(db.effects, sql))
    ensures Step(env, db, m).1 == SqlFailed(m.version) ==> Step(env, db, m).0 == db
    ensures Step(env, db, m).1 != SqlFailed(m.version) ==>
              var next := Step(env, db, m).0;
              && |next.effects| == |db.effects| + 1 && next.effects[..|db.effects|] == db.effects
              && next.effects[|db.effects|].version == m.version && RunsAs(m.sql, next.effects[|db.effects|].sent)
              && (next.effects[|db.effects|].sent == "" || env.succeeds(db.effects, next.effects[|db.effects|].sent))
              && next.rows == db.rows[m.version := Some(Checksum(env.hash, m.sql))]
  {
    forall sql ensures RunsAs(m.sql, sql) <==> TransactionalSql(m.sql) == Ok(sql) { RunsExactly(m.sql, sql); }
    hide RunsAs, TransactionalSql, Checksum;
  }

  // ---- running again ----

  /** Every migration of the plan is recorded with its checksum. */
  predicate Settled(env: Environment, db: Db, plan: seq<Migration>) {
    forall m :: m in plan ==> m.version in db.rows && db.rows[m.version] == Some(Checksum(env.hash, m.sql))
  }

  lemma {:induction false} SettledIsQuiet(env: Environment, db: Db, plan: seq<Migration>)
    requires Settled(env, db, plan)
    ensures RunPlan(env, db, plan) == (db, Finished)
    decreases |plan|
  {
    hide Checksum;
    if plan != [] { SettledIsQuiet(env, db, plan[1..]); }
  }

  lemma {:induction false} RunJoined(env: Environment, db: Db, plan: seq<Migration>, more: seq<Migration>)
    ensures RunPlan(env, db, plan + more)
         == if RunPlan(env, db, plan).1 == Finished then RunPlan(env, RunPlan(env, db, plan).0, more) else RunPlan(env, db, plan)
    decreases |plan|
  {
    hide Step;
    if plan == [] {
      assert plan + more == more;
    } else {
      assert (plan + more)[1..] == plan[1..] + more;
      RunJoined(env, Step(env, db, plan[0]).0, plan[1..], more);
    }
  }

  lemma StepKeepsSettled(env: Environment, db: Db, done: seq<Migration>, m: Migration)
    requires Settled(env, db, done)
    ensures Settled(env, Step(env, db, m).0, done)
    ensures Step(env, db, m).1 == Finished ==> Settled(env, Step(env, db, m).0, done + [m])
  {
    hide Checksum, SqlRuns;
  }

  /** How far a run got: the migrations before position n are settled, and the rest was not touched. */
  lemma {:induction false} RunSettles(env: Environment, db: Db, done: seq<Migration>, plan: seq<Migration>) returns (n: nat)
    requires Settled(env, db, done) && RunPlan(env, db, []).1 == Finished
    ensures n <= |plan| && Settled(env, RunPlan(env, db, plan).0, done + plan[..n])
    ensures RunPlan(env, db, plan).1 == Finished ==> n == |plan|
    ensures RunPlan(env, db, plan).1 != Finished ==>
              n < |plan| && (RunPlan(env, db, plan).1.CallbackFailed? || Step(env, RunPlan(env, db, plan).0, plan[n]) == RunPlan(env, db, plan))
    decreases |plan|
  {
    hide Settled, Step;
    if plan == [] {
      n := 0;
      assert done + plan[..0] == done;
    } else {
      var first := Step(env, db, plan[0]);
      StepKeepsSettled(env, db, done, plan[0]);
      if first.1 == Finished {
        var k := RunSettles(env, first.0, done + [plan[0]], plan[1..]);
        n := k + 1;
        assert done + [plan[0]] + plan[1..][..k] == done + plan[..n];
      } else {
        n := 0;
        assert done + plan[..0] == done;
        FailureRepeats(env, db, plan[0]);
      }
    }
  }

  /** A step that failed, other than in the callback, changed nothing and fails again the same way. */
  lemma FailureRepeats(env: Environment, db: Db, m: Migration)
    ensures Step(env, db, m).1 != Finished && !Step(env, db, m).1.CallbackFailed? ==> Step(env, Step(env, db, m).0, m) == Step(env, db, m)
  {
    hide Checksum, SqlRuns;
  }

  /** A callback fails for a version that was not recorded before and is recorded after. */
  lemma {:induction false} CallbackIsForNew(env: Environment, db: Db, plan: seq<Migration>)
    requires RunPlan(env, db, plan).1.CallbackFailed?
    ensures RunPlan(env, db, plan).1.version !in db.rows && RunPlan(env, db, plan).1.version in RunPlan(env, db, plan).0.rows
    decreases |plan|
  {
    hide Checksum, SqlRuns;
    var first := Step(env, db, plan[0]);
    if first.1 == Finished {
      CallbackIsForNew(env, first.0, plan[1..]);
      var v := RunPlan(env, db, plan).1.version;
      assert v in db.rows ==> v in first.0.rows;
    }
  }

  lemma NothingToSettle(env: Environment, db: Db)
    ensures Settled(env, db, [])
  {
  }

  lemma PrefixRepeats(env: Environment, db: Db, prefix: seq<Migration>, rest: seq<Migration>)
    requires !RunPlan(env, db, prefix).1.CallbackFailed?
    ensures RunPlan(env, RunPlan(env, db, prefix).0, prefix + rest) == RunPlan(env, db, prefix + rest)
  {
    hide Step, Settled;
    NothingToSettle(env, db);
    var d := RunPlan(env, db, prefix).0;
    var n := RunSettles(env, db, [], prefix);
    assert [] + prefix[..n] == prefix[..n];
    SettledIsQuiet(env, d, prefix[..n]);
    RunJoined(env, db, prefix, rest);
    assert prefix + rest == prefix[..n] + (prefix[n..] + rest);
    RunJoined(env, d, prefix[..n], prefix[n..] + rest);
    if n < |prefix| {
      assert (prefix[n..] + rest)[0] == prefix[n];
    } else {
      assert prefix[n..] + rest == rest;
    }
  }

  /** The callback of the migration at position k throws: everything before it finishes, its version is not
      recorded there, its SQL runs, and the callback does not return normally. */
  predicate CallbackThrows(env: Environment, db: Db, plan: seq<Migration>, k: nat)
    requires k < |plan|
  {
    var before := RunPlan(env, db, plan[..k]);
    before.1 == Finished && plan[k].version !in before.0.rows && SqlRuns(env, before.0, plan[k]) && !env.reports(plan[k].version)
  }

  lemma {:induction false} CallbackFailedAt(env: Environment, db: Db, plan: seq<Migration>) returns (k: nat)
    requires RunPlan(env, db, plan).1.CallbackFailed?
    ensures k < |plan| && CallbackThrows(env, db, plan, k)
    decreases |plan|
  {
    var first := Step(env, db, plan[0]);
    hide SqlRuns, Checksum;
    if first.1 == Finished {
      var n := CallbackFailedAt(env, first.0, plan[1..]);
      k := n + 1;
      assert plan[..k][1..] == plan[1..][..n];
    } else {
      k := 0;
    }
  }

  lemma ThrowsMeansFailed(env: Environment, db: Db, plan: seq<Migration>, k: nat)
    requires k < |plan| && CallbackThrows(env, db, plan, k)
    ensures RunPlan(env, db, plan).1.CallbackFailed?
  {
    assert plan == plan[..k] + plan[k..];
    RunJoined(env, db, plan[..k], plan[k..]);
    hide SqlRuns, Checksum;
  }

  /**
   Running a prefix of the plan first, whether that run succeeds or fails, and then the whole plan gives
   the same database and outcome as running the whole plan, exactly when no callback throws in the prefix:
   a migration whose callback threw is committed by then, and the second run passes it by.
   */
  lemma PrefixThenFull(env: Environment, db: Db, prefix: seq<Migration>, rest: seq<Migration>)
    ensures RunPlan(env, RunPlan(env, db, prefix).0, prefix + rest) == RunPlan(env, db, prefix + rest)
       <==> !exists k: nat :: k < |prefix| && CallbackThrows(env, db, prefix, k)
  {
    hide RunPlan, CallbackThrows;
    var d := RunPlan(env, db, prefix).0;
    if RunPlan(env, db, prefix).1.CallbackFailed? {
      var k := CallbackFailedAt(env, db, prefix);
      CallbackIsForNew(env, db, prefix);
      RunJoined(env, db, prefix, rest);
      if RunPlan(env, d, prefix + rest).1.CallbackFailed? { CallbackIsForNew(env, d, prefix + rest); }
    } else {
      if exists k: nat :: k < |prefix| && CallbackThrows(env, db, prefix, k) {
        var k: nat :| k < |prefix| && CallbackThrows(env, db, prefix, k);
        ThrowsMeansFailed(env, db, prefix, k);
      }
      PrefixRepeats(env, db, prefix, rest);
    }
  }

  /** Such a run: an empty database and one migration whose callback throws. The first run reports the error,
      the second succeeds without calling back. */
  lemma ThrowingCallbackDiffers(hash: string -> string)
    ensures var env := Environment(hash, (effects, sql) => true, version => false);
            var plan, empty := [Migration("001_empty.sql", "")], Db(map[], []);
            && RunPlan(env, empty, plan).1 == CallbackFailed("001_empty.sql")
            && RunPlan(env, RunPlan(env, empty, plan).0, plan) == (RunPlan(env, empty, plan).0, Finished)
  {
    var env := Environment(hash, (effects, sql) => true, version => false);
    var m, empty := Migration("001_empty.sql", ""), Db(map[], []);
    assert TransactionalSql("") == Ok("");
    assert SqlRuns(env, empty, m);
    var row := Checksum(hash, m.sql);
    hide Checksum, SqlRuns;
    assert Checksum(env.hash, m.sql) == row;
    assert empty.rows[m.version := Some(row)] == map[m.version := Some(row)];
    assert [] + [Effect(m.version, m.sql, Sent(m))] == [Effect(m.version, m.sql, Sent(m))];
    var after := Db(map[m.version := Some(row)], [Effect(m.version, m.sql, Sent(m))]);
    assert Step(env, empty, m) == (after, CallbackFailed(m.version));
    assert RunPlan(env, empty, [m]) == (after, CallbackFailed(m.version));
    assert Step(env, after, m) == (after, Finished);
    assert [m][1..] == [];
    assert RunPlan(env, after, [m]) == (after, Finished);
  }

  // ---- the verifier ----

  datatype Applied = Applied(version: string, checksum: Option<string>)

  datatype Verification = Verification(valid: bool, expected: nat, applied: nat, missing: seq<string>, unexpected: seq<string>,
                                       mismatched: seq<string>, unverified: seq<string>)

  /** The keys of a JavaScript map built from these keys: first occurrences, in order. */
  function Distinct(keys: seq<string>): (r: seq<string>)
    ensures forall k :: k in r <==> k in keys
  {
    if keys == [] then []
    else
      var before := Distinct(keys[..|keys| - 1]);
      assert keys == keys[..|keys| - 1] + [keys[|keys| - 1]];
      if keys[|keys| - 1] in before then before else before + [keys[|keys| - 1]]
  }

  function Versions(plan: seq<Migration>): seq<string> { seq(|plan|, i requires 0 <= i < |plan| => plan[i].version) }

  function AppliedVersions(rows: seq<Applied>): seq<string> { seq(|rows|, i requires 0 <= i < |rows| => rows[i].version) }

  /** The checksum of the last migration of this version. */
  function Expected(hash: string -> string, plan: seq<Migration>, version: string): string
    requires version in Versions(plan)
  {
    var n := |plan| - 1;
    if plan[n].version == version then Checksum(hash, plan[n].sql)
    else
      assert Versions(plan) == Versions(plan[..n]) + [plan[n].version];
      Expected(hash, plan[..n], version)
  }

  function Actual(rows: seq<Applied>, version: string): Option<string>
    requires version in AppliedVersions(rows)
  {
    var n := |rows| - 1;
    if rows[n].version == version then rows[n].checksum
    else
      assert AppliedVersions(rows) == AppliedVersions(rows[..n]) + [rows[n].version];
      Actual(rows[..n], version)
  }

  function Filter(keys: seq<string>, keep: string -> bool): (r: seq<string>)
    ensures forall k :: k in r <==> k in keys && keep(k)
  {
    if keys == [] then []
    else if keep(keys[0]) then [keys[0]] + Filter(keys[1..], keep)
    else Filter(keys[1..], keep)
  }

  function VerifyMigrationState(hash: string -> string, plan: seq<Migration>, rows: seq<Applied>): Verification {
    var expected, actual := Distinct(Versions(plan)), Distinct(AppliedVersions(rows));
    var missing := Filter(expected, v => v !in AppliedVersions(rows));
    var unexpected := Filter(actual, v => v !in Versions(plan));
    var unverified := Filter(expected, v => v in AppliedVersions(rows) && Actual(rows, v).None?);
    var mismatched := Filter(expected, v => v in AppliedVersions(rows) && v in Versions(plan) && Actual(rows, v).Some?
                                            && Actual(rows, v) != Some(Expected(hash, plan, v)));
    Verification(missing == [] && unexpected == [] && unverified == [] && mismatched == [],
                 |expected|, |actual|, missing, unexpected, mismatched, unverified)
  }

  lemma EmptyFilter(keys: seq<string>, keep: string -> bool)
    ensures Filter(keys, keep) == [] <==> forall k :: k in keys ==> !keep(k)
  {
    if Filter(keys, keep) != [] {
      assert Filter(keys, keep)[0] in Filter(keys, keep);
    }
  }

  /** Valid means: the recorded versions are those of the plan, each with the expected checksum. */
  lemma ValidMeans(hash: string -> string, plan: seq<Migration>, rows: seq<Applied>)
    ensures VerifyMigrationState(hash, plan, rows).valid
       <==> (forall v :: v in AppliedVersions(rows) <==> v in Versions(plan))
            && (forall v :: v in Versions(plan) && v in AppliedVersions(rows) ==> Actual(rows, v) == Some(Expected(hash, plan, v)))
  {
    var expected, actual := Distinct(Versions(plan)), Distinct(AppliedVersions(rows));
    EmptyFilter(expected, v => v !in AppliedVersions(rows));
    EmptyFilter(actual, v => v !in Versions(plan));
    EmptyFilter(expected, v => v in AppliedVersions(rows) && Actual(rows, v).None?);
    EmptyFilter(expected, v => v in AppliedVersions(rows) && v in Versions(plan) && Actual(rows, v).Some?
                               && Actual(rows, v) != Some(Expected(hash, plan, v)));
    hide Versions, AppliedVersions, Distinct, Filter, Actual, Expected;
  }

  /** The rows of the table, as a query lists them: the version is the primary key. */
  ghost predicate Lists(rows: seq<Applied>, db: Db) {
    && (forall v :: v in AppliedVersions(rows) <==> v in db.rows)
    && forall v :: v in db.rows ==> Actual(rows, v) == db.rows[v]
  }

  /** Two migrations of one version have one checksum; file names in one directory are always so. */
  predicate Consistent(hash: string -> string, plan: seq<Migration>) {
    forall i, j :: 0 <= i < |plan| && 0 <= j < |plan| && plan[i].version == plan[j].version ==>
      Checksum(hash, plan[i].sql) == Checksum(hash, plan[j].sql)
  }

  lemma {:induction false} ExpectedFrom(hash: string -> string, plan: seq<Migration>, version: string) returns (i: nat)
    requires version in Versions(plan)
    ensures i < |plan| && plan[i].version == version && Expected(hash, plan, version) == Checksum(hash, plan[i].sql)
  {
    hide Checksum;
    var n := |plan| - 1;
    if plan[n].version == version {
      i := n;
    } else {
      assert Versions(plan) == Versions(plan[..n]) + [plan[n].version];
      i := ExpectedFrom(hash, plan[..n], version);
    }
  }

  lemma SettledMatches(env: Environment, db: Db, plan: seq<Migration>)
    requires Settled(env, db, plan)
    ensures forall v :: v in Versions(plan) ==> v in db.rows && db.rows[v] == Some(Expected(env.hash, plan, v))
  {
    hide Checksum, Expected;
    forall v | v in Versions(plan) ensures v in db.rows && db.rows[v] == Some(Expected(env.hash, plan, v)) {
      var i := ExpectedFrom(env.hash, plan, v);
      assert plan[i] in plan;
    }
  }

  lemma SuccessSettles(env: Environment, db: Db, plan: seq<Migration>)
    requires RunPlan(env, db, plan).1 == Finished
    ensures Settled(env, RunPlan(env, db, plan).0, plan)
  {
    assert Settled(env, db, []);
    var n := RunSettles(env, db, [], plan);
    assert [] + plan[..n] == plan;
    hide Settled;
  }

  /** After a successful run over rows that belong to the plan, the verifier says valid. */
  lemma SuccessIsValid(env: Environment, db: Db, plan: seq<Migration>, rows: seq<Applied>)
    requires RunPlan(env, db, plan).1 == Finished
    requires forall v :: v in db.rows ==> v in Versions(plan)
    requires Lists(rows, RunPlan(env, db, plan).0)
    ensures VerifyMigrationState(env.hash, plan, rows).valid
  {
    assert forall m :: m in plan ==> m.version in Versions(plan) by {
      forall m | m in plan ensures m.version in Versions(plan) {
        var i :| 0 <= i < |plan| && plan[i] == m;
        assert Versions(plan)[i] == m.version;
      }
    }
    hide RunPlan, Settled, Actual, Expected, AppliedVersions, Versions;
    SuccessSettles(env, db, plan);
    SettledMatches(env, RunPlan(env, db, plan).0, plan);
    RowsStayInPlan(env, db, plan, plan);
    ValidMeans(env.hash, plan, rows);
    hide VerifyMigrationState;
  }

  lemma {:induction false} RowsStayInPlan(env: Environment, db: Db, plan: seq<Migration>, whole: seq<Migration>)
    requires forall v :: v in db.rows ==> v in Versions(whole)
    requires forall m :: m in plan ==> m.version in Versions(whole)
    ensures forall v :: v in RunPlan(env, db, plan).0.rows ==> v in Versions(whole)
    decreases |plan|
  {
    hide Checksum, SqlRuns, Versions;
    if plan != [] {
      assert plan[0] in plan;
      RowsStayInPlan(env, Step(env, db, plan[0]).0, plan[1..], whole);
    }
  }

  lemma {:induction false} QuietMeansSettled(env: Environment, db: Db, plan: seq<Migration>)
    requires RunPlan(env, db, plan) == (db, Finished)
    ensures Settled(env, db, plan)
  {
    assert Settled(env, db, []);
    var n := RunSettles(env, db, [], plan);
    assert [] + plan[..n] == plan;
  }

  /** On a valid state the next run changes nothing and succeeds, exactly when the plan is consistent. */
  lemma ValidIsQuiet(env: Environment, db: Db, plan: seq<Migration>, rows: seq<Applied>)
    requires Lists(rows, db) && VerifyMigrationState(env.hash, plan, rows).valid
    ensures RunPlan(env, db, plan) == (db, Finished) <==> Consistent(env.hash, plan)
  {
    ValidMeans(env.hash, plan, rows);
    hide RunPlan, VerifyMigrationState, Checksum;
    if Consistent(env.hash, plan) {
      forall m | m in plan ensures m.version in db.rows && db.rows[m.version] == Some(Checksum(env.hash, m.sql)) {
        var j :| 0 <= j < |plan| && plan[j] == m;
        assert Versions(plan)[j] == m.version;
        var i := ExpectedFrom(env.hash, plan, m.version);
      }
      SettledIsQuiet(env, db, plan);
    }
    if RunPlan(env, db, plan) == (db, Finished) {
      QuietMeansSettled(env, db, plan);
      forall i, j | 0 <= i < |plan| && 0 <= j < |plan| && plan[i].version == plan[j].version
        ensures Checksum(env.hash, plan[i].sql) == Checksum(env.hash, plan[j].sql)
      {
        assert plan[i] in plan && plan[j] in plan;
      }
    }
  }
}
