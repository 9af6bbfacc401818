/**
  Schema migrations: one transaction per migration, any of which may fail, and runs that
  resume where an earlier one stopped, possibly with a longer list.
 */
module Migrations {
  datatype Migration = Migration(version: int, sql: string)

  /** The rows of schema_migrations in insertion order, and the statements the schema has seen. */
  datatype Schema = Schema(rows: seq<int>, applied: seq<string>)

  /** How the transaction of one migration goes. */
  datatype Try = BeginFails | ExecFails | RecordFails | CommitFails | Commits

  /** The version table can be created, it can be read, and how each migration in turn goes. */
  datatype Weather = Weather(created: bool, read: bool, tries: seq<Try>)

  function Largest(rows: seq<int>): int
    requires rows != []
  {
    if |rows| == 1 then rows[0]
    else
      var m := Largest(rows[1..]);
      if rows[0] > m then rows[0] else m
  }

  /** COALESCE(MAX(version), 0). */
  function CurrentVersion(rows: seq<int>): int { if rows == [] then 0 else Largest(rows) }

  class Database {
    var schema: Schema

    constructor ()
      ensures schema == Schema([], [])
    {
      schema := Schema([], []);
    }

    /** Applies the migrations after the current version, in order, until one fails. */
    method Migrate(ms: seq<Migration>, w: Weather) returns (ok: bool)
      requires |w.tries| == |ms|
      modifies this
      ensures (schema, ok) == MigrateAll(old(schema), ms, w)
    {
      if !w.created {
        return false;
      }
      if !w.read {
        return false;
      }
      var current := CurrentVersion(schema.rows);
      var i := 0;
      while i < |ms|
        invariant 0 <= i <= |ms|
        invariant MigrateFrom(old(schema), ms, w.tries, current, 0) == MigrateFrom(schema, ms, w.tries, current, i)
      {
        var m := ms[i];
        if m.version <= current {
          i := i + 1;
          continue;
        }
        if w.tries[i] != Commits || m.version in schema.rows {
          return false;
        }
        schema := Schema(schema.rows + [m.version], schema.applied + [m.sql]);
        i := i + 1;
      }
      ok := true;
    }
  }

  /** The loop from migration i on; a recorded version cannot be recorded again. */
  function MigrateFrom(s: Schema, ms: seq<Migration>, tries: seq<Try>, current: int, i: nat): (Schema, bool)
    requires i <= |ms| == |tries|
    decreases |ms| - i
  {
    if i == |ms| then (s, true)
    else if ms[i].version <= current then MigrateFrom(s, ms, tries, current, i + 1)
    else if tries[i] != Commits || ms[i].version in s.rows then (s, false)
    else
      MigrateFrom(Schema(s.rows + [ms[i].version], s.applied + [ms[i].sql]), ms, tries, current, i + 1)
  }

  function MigrateAll(s: Schema, ms: seq<Migration>, w: Weather): (Schema, bool)
    requires |w.tries| == |ms|
  {
    if !w.created || !w.read then (s, false)
    else MigrateFrom(s, ms, w.tries, CurrentVersion(s.rows), 0)
  }

  // ---------- what holds between runs ----------

  /** Versions are positive and strictly increasing. */
  ghost predicate Increasing(ms: seq<Migration>) {
    && (forall i :: 0 <= i < |ms| ==> ms[i].version > 0)
    && forall i, j :: 0 <= i < j < |ms| ==> ms[i].version < ms[j].version
  }

  function Versions(ms: seq<Migration>): (vs: seq<int>)
    ensures |vs| == |ms| && forall i :: 0 <= i < |ms| ==> vs[i] == ms[i].version
  {
    seq(|ms|, i requires 0 <= i < |ms| => ms[i].version)
  }

  function Statements(ms: seq<Migration>): (ts: seq<string>)
    ensures |ts| == |ms| && forall i :: 0 <= i < |ms| ==> ts[i] == ms[i].sql
  {
    seq(|ms|, i requires 0 <= i < |ms| => ms[i].sql)
  }

  /** The schema is the in-order application of exactly the first k migrations, all recorded. */
  ghost predicate At(s: Schema, ms: seq<Migration>, k: nat) {
    k <= |ms| && s == Schema(Versions(ms[..k]), Statements(ms[..k]))
  }

  /** Migrations i to j - 1 all commit. */
  ghost predicate AllCommit(tries: seq<Try>, i: nat) {
    forall j :: i <= j < |tries| ==> tries[j] == Commits
  }

  lemma {:induction false} LargestIsLast(rows: seq<int>)
    requires rows != [] && forall i, j :: 0 <= i < j < |rows| ==> rows[i] < rows[j]
    ensures Largest(rows) == rows[|rows| - 1]
  {
    if |rows| > 1 { LargestIsLast(rows[1..]); }
  }

  lemma CurrentAt(s: Schema, ms: seq<Migration>, k: nat)
    requires Increasing(ms) && At(s, ms, k)
    ensures CurrentVersion(s.rows) == if k == 0 then 0 else ms[k - 1].version
  {
    if k > 0 { LargestIsLast(s.rows); }
  }

  /** The loop skips what is applied. */
  lemma {:induction false} SkipApplied(s: Schema, ms: seq<Migration>, tries: seq<Try>, k: nat, i: nat)
    requires |tries| == |ms| && Increasing(ms) && i <= k <= |ms| && At(s, ms, k)
    ensures MigrateFrom(s, ms, tries, CurrentVersion(s.rows), i) == MigrateFrom(s, ms, tries, CurrentVersion(s.rows), k)
    decreases k - i
  {
    CurrentAt(s, ms, k);
    if i < k {
      assert ms[i].version <= CurrentVersion(s.rows);
      SkipApplied(s, ms, tries, k, i + 1);
    }
  }

  /** The loop on what is not applied: it stops at the first failure and keeps what went before. */
  lemma {:induction false} ApplyRest(s: Schema, ms: seq<Migration>, tries: seq<Try>, current: int, i: nat)
    returns (k: nat)
    requires |tries| == |ms| && Increasing(ms) && At(s, ms, i)
    requires forall j :: i <= j < |ms| ==> ms[j].version > current
    ensures i <= k && At(MigrateFrom(s, ms, tries, current, i).0, ms, k)
    ensures MigrateFrom(s, ms, tries, current, i).1 <==> AllCommit(tries, i)
    ensures MigrateFrom(s, ms, tries, current, i).1 ==> k == |ms|
    ensures !MigrateFrom(s, ms, tries, current, i).1 ==> k < |ms| && tries[k] != Commits
    decreases |ms| - i
  {
    k := i;
    if i < |ms| && tries[i] == Commits {
      assert ms[i].version !in s.rows;
      var t := Schema(s.rows + [ms[i].version], s.applied + [ms[i].sql]);
      assert ms[..i + 1] == ms[..i] + [ms[i]];
      assert t.rows == Versions(ms[..i + 1]) && t.applied == Statements(ms[..i + 1]);
      k := ApplyRest(t, ms, tries, current, i + 1);
    }
  }

  /**
    One run from a recorded prefix: the schema is again exactly a recorded prefix, no
    shorter; the run succeeds exactly when nothing that was left fails, and then the whole
    list is applied; with nothing left it changes nothing.
   */
  lemma RunResumes(s: Schema, ms: seq<Migration>, w: Weather, k: nat) returns (n: nat)
    requires |w.tries| == |ms| && Increasing(ms) && At(s, ms, k)
    ensures k <= n && At(MigrateAll(s, ms, w).0, ms, n)
    ensures MigrateAll(s, ms, w).1 <==> w.created && w.read && AllCommit(w.tries, k)
    ensures MigrateAll(s, ms, w).1 ==> n == |ms|
    ensures k == |ms| ==> MigrateAll(s, ms, w).0 == s
  {
    n := k;
    if w.created && w.read {
      SkipApplied(s, ms, w.tries, k, 0);
      CurrentAt(s, ms, k);
      n := ApplyRest(s, ms, w.tries, CurrentVersion(s.rows), k);
    }
  }

  /** A run of the program: the list it ships, and how its migrations go. */
  datatype Start = Start(migrations: seq<Migration>, weather: Weather)

  function PlayAll(s: Schema, starts: seq<Start>): Schema
    requires forall i :: 0 <= i < |starts| ==> |starts[i].weather.tries| == |starts[i].migrations|
    decreases |starts|
  {
    if starts == [] then s
    else PlayAll(MigrateAll(s, starts[0].migrations, starts[0].weather).0, starts[1..])
  }

  /** Each list extends the one before it. */
  ghost predicate Growing(first: seq<Migration>, starts: seq<Start>)
    decreases |starts|
  {
    starts == [] || (first <= starts[0].migrations && Growing(starts[0].migrations, starts[1..]))
  }

  function LastList(first: seq<Migration>, starts: seq<Start>): seq<Migration> {
    if starts == [] then first else starts[|starts| - 1].migrations
  }

  /** After any sequence of runs, each of which may fail anywhere, with growing lists. */
  lemma {:induction false} RunsKeepPrefix(s: Schema, first: seq<Migration>, k: nat, starts: seq<Start>) returns (n: nat)
    requires forall i :: 0 <= i < |starts| ==> |starts[i].weather.tries| == |starts[i].migrations|
    requires forall i :: 0 <= i < |starts| ==> Increasing(starts[i].migrations)
    requires Growing(first, starts) && At(s, first, k)
    ensures k <= n && At(PlayAll(s, starts), LastList(first, starts), n)
    decreases |starts|
  {
    if starts == [] {
      n := k;
    } else {
      var ms := starts[0].migrations;
      assert first[..k] == ms[..k];
      var m := RunResumes(s, ms, starts[0].weather, k);
      n := RunsKeepPrefix(MigrateAll(s, ms, starts[0].weather).0, ms, m, starts[1..]);
    }
  }
}
