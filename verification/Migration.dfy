/**
 `corm_auto_migrate`: creates missing tables and adds missing columns. Which names a database takes as the
 same column is its own affair (`aliases`); the introspecting path compares names exactly.
*/
module Migration {
  import opened Common
  import opened SqlText
  import opened Builder

  type Columns = seq<string>
  type Schema = map<string, Columns>

  /** Other spellings of column names; a database that tells all names apart has none. */
  type Aliases = map<string, string>

  function Folded(aliases: Aliases, name: string): string {
    if name in aliases then aliases[name] else name
  }

  predicate Has(aliases: Aliases, cols: Columns, name: string) {
    exists k :: 0 <= k < |cols| && Folded(aliases, cols[k]) == Folded(aliases, name)
  }

  /** ALTER TABLE ... ADD COLUMN succeeds exactly when the table has no such column. */
  function WithColumn(aliases: Aliases, cols: Columns, name: string): Columns {
    if Has(aliases, cols, name) then cols else cols + [name]
  }

  /** The columns after ADD COLUMN for every non-key field, errors ignored. */
  function WithFields(aliases: Aliases, cols: Columns, fs: seq<Field>): Columns {
    if fs == [] then cols
    else
      var before, f := WithFields(aliases, cols, fs[..|fs| - 1]), fs[|fs| - 1];
      if f.primary then before else WithColumn(aliases, before, f.name)
  }

  /** The columns of a new table. */
  function Names(fs: seq<Field>): Columns {
    seq(|fs|, i requires 0 <= i < |fs| => fs[i].name)
  }

  /** The columns of the model's table once it exists. */
  function Created(schema: Schema, m: Model): Columns {
    if m.table in schema then schema[m.table] else Names(m.fields)
  }

  function Migrated(aliases: Aliases, schema: Schema, m: Model): Schema {
    schema[m.table := WithFields(aliases, Created(schema, m), m.fields)]
  }

  function MigratedAll(aliases: Aliases, schema: Schema, ms: seq<Model>): Schema {
    if ms == [] then schema
    else Migrated(aliases, MigratedAll(aliases, schema, ms[..|ms| - 1]), ms[|ms| - 1])
  }

  // ----- The two paths

  /** The field is skipped: it is a key, or its exact name was listed by the introspection. */
  predicate Skipped(listed: Option<Columns>, f: Field) {
    f.primary || (listed.Some? && f.name in listed.value)
  }

  function WithMissing(aliases: Aliases, cols: Columns, listed: Option<Columns>, fs: seq<Field>): Columns {
    if fs == [] then cols
    else
      var before, f := WithMissing(aliases, cols, listed, fs[..|fs| - 1]), fs[|fs| - 1];
      if Skipped(listed, f) then before else WithColumn(aliases, before, f.name)
  }

  /** The number of ADD COLUMN statements issued. */
  function Issued(listed: Option<Columns>, fs: seq<Field>): nat {
    if fs == [] then 0
    else Issued(listed, fs[..|fs| - 1]) + if Skipped(listed, fs[|fs| - 1]) then 0 else 1
  }

  /** The k-th answer of a database that succeeds and fails as it likes, and succeeds ever after. */
  predicate Answers(answers: seq<bool>, k: nat) {
    k < |answers| ==> answers[k]
  }

  function IssuedAll(aliases: Aliases, describes: seq<bool>, start: nat, schema: Schema, ms: seq<Model>): nat {
    if ms == [] then 0
    else
      var last := |ms| - 1;
      var before := MigratedAll(aliases, schema, ms[..last]);
      var listed := if Answers(describes, start + last) then Some(Created(before, ms[last])) else None;
      IssuedAll(aliases, describes, start, schema, ms[..last]) + Issued(listed, ms[last].fields)
  }

  lemma {:induction false} ColumnsKept(aliases: Aliases, cols: Columns, fs: seq<Field>)
    ensures cols <= WithFields(aliases, cols, fs)
  {
    if fs != [] {
      ColumnsKept(aliases, cols, fs[..|fs| - 1]);
    }
  }

  lemma {:induction false} HasMore(aliases: Aliases, cols: Columns, more: Columns, name: string)
    requires cols <= more && Has(aliases, cols, name)
    ensures Has(aliases, more, name)
  {
    var k :| 0 <= k < |cols| && Folded(aliases, cols[k]) == Folded(aliases, name);
    assert more[k] == cols[k];
  }

  /** Whether the introspection succeeds, and so which statements are issued, makes no difference. */
  lemma {:induction false} PathsAgree(aliases: Aliases, cols: Columns, listed: Option<Columns>, fs: seq<Field>)
    requires listed.Some? ==> listed.value == cols
    ensures WithMissing(aliases, cols, listed, fs) == WithFields(aliases, cols, fs)
  {
    if fs != [] {
      var front, f := fs[..|fs| - 1], fs[|fs| - 1];
      PathsAgree(aliases, cols, listed, front);
      ColumnsKept(aliases, cols, front);
      if listed.Some? && f.name in listed.value {
        var k :| 0 <= k < |cols| && cols[k] == f.name;
        assert Has(aliases, cols, f.name);
        HasMore(aliases, cols, WithFields(aliases, cols, front), f.name);
      }
    }
  }

  // ----- Convergence

  /** Every non-key field has its column. */
  predicate Covers(aliases: Aliases, cols: Columns, fs: seq<Field>) {
    forall i :: 0 <= i < |fs| && !fs[i].primary ==> Has(aliases, cols, fs[i].name)
  }

  lemma {:induction false} CoversMore(aliases: Aliases, cols: Columns, more: Columns, fs: seq<Field>)
    requires cols <= more && Covers(aliases, cols, fs)
    ensures Covers(aliases, more, fs)
  {
    forall i | 0 <= i < |fs| && !fs[i].primary ensures Has(aliases, more, fs[i].name) {
      HasMore(aliases, cols, more, fs[i].name);
    }
  }

  lemma {:induction false} FieldsCovered(aliases: Aliases, cols: Columns, fs: seq<Field>)
    ensures Covers(aliases, WithFields(aliases, cols, fs), fs)
  {
    if fs != [] {
      var front, f := fs[..|fs| - 1], fs[|fs| - 1];
      var before, after := WithFields(aliases, cols, front), WithFields(aliases, cols, fs);
      FieldsCovered(aliases, cols, front);
      CoversMore(aliases, before, after, front);
      if !f.primary && !Has(aliases, before, f.name) {
        assert after[|before|] == f.name;
      }
      forall i | 0 <= i < |fs| && !fs[i].primary ensures Has(aliases, after, fs[i].name) {
        if i < |front| {
          assert front[i] == fs[i];
        }
      }
    }
  }

  /** A table that covers the fields stays as it is. */
  lemma {:induction false} CoveredStays(aliases: Aliases, cols: Columns, fs: seq<Field>)
    requires Covers(aliases, cols, fs)
    ensures WithFields(aliases, cols, fs) == cols
  {
    if fs != [] {
      var front := fs[..|fs| - 1];
      assert Covers(aliases, cols, front) by {
        assert forall i :: 0 <= i < |front| ==> front[i] == fs[i];
      }
      CoveredStays(aliases, cols, front);
    }
  }

  /** Every model has its table and the table every non-key field. */
  predicate Complete(aliases: Aliases, schema: Schema, ms: seq<Model>) {
    forall i :: 0 <= i < |ms| ==> ms[i].table in schema && Covers(aliases, schema[ms[i].table], ms[i].fields)
  }

  /** Nothing is lost: every table is still there, and its columns come first and in order. */
  predicate Extends(after: Schema, before: Schema) {
    forall t :: t in before ==> t in after && before[t] <= after[t]
  }

  lemma {:induction false} MigratedExtends(aliases: Aliases, schema: Schema, m: Model)
    ensures Extends(Migrated(aliases, schema, m), schema)
  {
    ColumnsKept(aliases, Created(schema, m), m.fields);
  }

  lemma {:induction false} CompleteExtends(aliases: Aliases, before: Schema, after: Schema, ms: seq<Model>)
    requires Complete(aliases, before, ms) && Extends(after, before)
    ensures Complete(aliases, after, ms)
  {
    forall i | 0 <= i < |ms| ensures ms[i].table in after && Covers(aliases, after[ms[i].table], ms[i].fields) {
      CoversMore(aliases, before[ms[i].table], after[ms[i].table], ms[i].fields);
    }
  }

  /** A migration loses no table and no column, keeps the columns in order, and gives every model its table and
      every non-key field its column. */
  lemma {:induction false} MigrationConverges(aliases: Aliases, schema: Schema, ms: seq<Model>)
    ensures Extends(MigratedAll(aliases, schema, ms), schema)
    ensures Complete(aliases, MigratedAll(aliases, schema, ms), ms)
  {
    if ms != [] {
      var front, m := ms[..|ms| - 1], ms[|ms| - 1];
      var before, after := MigratedAll(aliases, schema, front), MigratedAll(aliases, schema, ms);
      MigrationConverges(aliases, schema, front);
      MigratedExtends(aliases, before, m);
      CompleteExtends(aliases, before, after, front);
      FieldsCovered(aliases, Created(before, m), m.fields);
      forall i | 0 <= i < |ms| ensures ms[i].table in after && Covers(aliases, after[ms[i].table], ms[i].fields) {
        if i < |front| {
          assert front[i] == ms[i];
        }
      }
    }
  }

  /** The first model of a table that is not there. */
  predicate Creates(schema: Schema, ms: seq<Model>, i: nat) {
    && i < |ms| && ms[i].table !in schema
    && forall k :: 0 <= k < i ==> ms[k].table != ms[i].table
  }

  lemma {:induction false} StillMissing(aliases: Aliases, schema: Schema, ms: seq<Model>, table: string)
    requires table !in schema && forall k :: 0 <= k < |ms| ==> ms[k].table != table
    ensures table !in MigratedAll(aliases, schema, ms)
  {
    if ms != [] {
      StillMissing(aliases, schema, ms[..|ms| - 1], table);
    }
  }

  /** A table that the migration creates has every field of its first model as a column, the keys too, in the
      order of the fields and before all others. */
  lemma {:induction false} CreatedHasAllFields(aliases: Aliases, schema: Schema, ms: seq<Model>, i: nat)
    requires Creates(schema, ms, i)
    ensures var after, m := MigratedAll(aliases, schema, ms), ms[i];
            && m.table in after && |after[m.table]| >= |m.fields|
            && forall j :: 0 <= j < |m.fields| ==> after[m.table][j] == m.fields[j].name
  {
    var front, m := ms[..|ms| - 1], ms[i];
    var before := MigratedAll(aliases, schema, front);
    if i < |front| {
      CreatedHasAllFields(aliases, schema, front, i);
      MigratedExtends(aliases, before, ms[|ms| - 1]);
    } else {
      StillMissing(aliases, schema, front, m.table);
      ColumnsKept(aliases, Created(before, m), m.fields);
    }
  }

  lemma {:induction false} CompleteStays(aliases: Aliases, schema: Schema, ms: seq<Model>)
    requires Complete(aliases, schema, ms)
    ensures MigratedAll(aliases, schema, ms) == schema
  {
    if ms != [] {
      var front, m := ms[..|ms| - 1], ms[|ms| - 1];
      assert Complete(aliases, schema, front) by {
        assert forall i :: 0 <= i < |front| ==> front[i] == ms[i];
      }
      CompleteStays(aliases, schema, front);
      CoveredStays(aliases, schema[m.table], m.fields);
    }
  }

  /** A second migration changes nothing. */
  lemma {:induction false} SecondRunChangesNothing(aliases: Aliases, schema: Schema, ms: seq<Model>)
    ensures MigratedAll(aliases, MigratedAll(aliases, schema, ms), ms) == MigratedAll(aliases, schema, ms)
  {
    MigrationConverges(aliases, schema, ms);
    CompleteStays(aliases, MigratedAll(aliases, schema, ms), ms);
  }

  // ----- What a second run issues

  /** Every non-key field is a column under its exact name. */
  predicate Listed(cols: Columns, fs: seq<Field>) {
    forall i :: 0 <= i < |fs| && !fs[i].primary ==> fs[i].name in cols
  }

  lemma {:induction false} IssuedNone(cols: Columns, fs: seq<Field>)
    ensures Issued(Some(cols), fs) == 0 <==> Listed(cols, fs)
  {
    if fs != [] {
      var front, f := fs[..|fs| - 1], fs[|fs| - 1];
      IssuedNone(cols, front);
      assert forall i :: 0 <= i < |front| ==> front[i] == fs[i];
      assert Listed(cols, fs) <==> Listed(cols, front) && (!f.primary ==> f.name in cols);
    }
  }

  predicate AllListed(schema: Schema, ms: seq<Model>) {
    forall i :: 0 <= i < |ms| ==> ms[i].table in schema && Listed(schema[ms[i].table], ms[i].fields)
  }

  lemma {:induction false} IssuedOnComplete(aliases: Aliases, describes: seq<bool>, start: nat, schema: Schema,
                                            ms: seq<Model>)
    requires Complete(aliases, schema, ms) && forall k :: start <= k < start + |ms| ==> Answers(describes, k)
    ensures IssuedAll(aliases, describes, start, schema, ms) == 0 <==> AllListed(schema, ms)
  {
    if ms != [] {
      var front, m := ms[..|ms| - 1], ms[|ms| - 1];
      assert forall i :: 0 <= i < |front| ==> front[i] == ms[i];
      assert Complete(aliases, schema, front);
      CompleteStays(aliases, schema, front);
      IssuedOnComplete(aliases, describes, start, schema, front);
      IssuedNone(schema[m.table], m.fields);
      assert Answers(describes, start + |front|);
      assert AllListed(schema, ms) <==> AllListed(schema, front) && Listed(schema[m.table], m.fields);
    }
  }

  lemma {:induction false} IssuedIfUnlisted(aliases: Aliases, describes: seq<bool>, start: nat, schema: Schema,
                                            ms: seq<Model>)
    requires forall k :: start <= k < start + |ms| ==> Answers(describes, k)
    ensures IssuedAll(aliases, describes, start, MigratedAll(aliases, schema, ms), ms) == 0
            <==> AllListed(MigratedAll(aliases, schema, ms), ms)
  {
    hide Complete, AllListed, Extends, IssuedAll;
    MigrationConverges(aliases, schema, ms);
    IssuedOnComplete(aliases, describes, start, MigratedAll(aliases, schema, ms), ms);
  }

  // ----- Which spelling a column ends up with

  function WithNames(aliases: Aliases, cols: Columns, names: seq<string>): Columns
    decreases names
  {
    if names == [] then cols else WithNames(aliases, WithColumn(aliases, cols, names[0]), names[1..])
  }

  lemma {:induction false} WithNamesConcat(aliases: Aliases, cols: Columns, a: seq<string>, b: seq<string>)
    ensures WithNames(aliases, cols, a + b) == WithNames(aliases, WithNames(aliases, cols, a), b)
    decreases a
  {
    if a == [] {
      assert a + b == b;
    } else {
      assert (a + b)[1..] == a[1..] + b;
      WithNamesConcat(aliases, WithColumn(aliases, cols, a[0]), a[1..], b);
    }
  }

  lemma {:induction false} FieldsAreNames(aliases: Aliases, cols: Columns, fs: seq<Field>)
    ensures WithFields(aliases, cols, fs) == WithNames(aliases, cols, UpdateColumns(fs))
  {
    if fs != [] {
      var front, f := fs[..|fs| - 1], fs[|fs| - 1];
      FieldsAreNames(aliases, cols, front);
      WithNamesConcat(aliases, cols, UpdateColumns(front), if f.primary then [] else [f.name]);
    }
  }

  /** The first of the names that the database takes as `name`. */
  function FirstSpelling(aliases: Aliases, names: seq<string>, name: string): Option<string> {
    if names == [] then None
    else if Folded(aliases, names[0]) == Folded(aliases, name) then Some(names[0])
    else FirstSpelling(aliases, names[1..], name)
  }

  /** The name is a column from the start, or no spelling of it is and it is the first one added. */
  predicate Settled(aliases: Aliases, cols: Columns, names: seq<string>, name: string) {
    name in cols || (!Has(aliases, cols, name) && FirstSpelling(aliases, names, name) == Some(name))
  }

  lemma {:induction false} HasWithColumn(aliases: Aliases, cols: Columns, x: string, name: string)
    ensures var more := WithColumn(aliases, cols, x);
            Has(aliases, more, name) <==> Has(aliases, cols, name) || Folded(aliases, x) == Folded(aliases, name)
  {
    var more := WithColumn(aliases, cols, x);
    if Has(aliases, cols, x) {
      if Folded(aliases, x) == Folded(aliases, name) {
        var k :| 0 <= k < |cols| && Folded(aliases, cols[k]) == Folded(aliases, x);
        assert Has(aliases, cols, name);
      }
    } else {
      assert more[|cols|] == x && forall k :: 0 <= k < |cols| ==> more[k] == cols[k];
    }
  }

  lemma {:induction false} SpelledAsFirst(aliases: Aliases, cols: Columns, names: seq<string>, name: string)
    ensures name in WithNames(aliases, cols, names) <==> Settled(aliases, cols, names, name)
    decreases names
  {
    if names != [] {
      var x, rest := names[0], names[1..];
      var more := WithColumn(aliases, cols, x);
      SpelledAsFirst(aliases, more, rest, name);
      HasWithColumn(aliases, cols, x, name);
      if name in cols {
        var k :| 0 <= k < |cols| && cols[k] == name;
        assert Has(aliases, cols, name);
      }
      if Folded(aliases, x) == Folded(aliases, name) {
        assert Has(aliases, cols, x) <==> Has(aliases, cols, name);
      }
    }
  }

  predicate Mentioned(ms: seq<Model>, table: string) {
    exists i :: 0 <= i < |ms| && ms[i].table == table
  }

  /** The columns a table starts with: those it has, or those of the first model that names it. */
  function FirstColumns(schema: Schema, ms: seq<Model>, table: string): Columns {
    if table in schema then schema[table]
    else if ms == [] then []
    else
      var front, m := ms[..|ms| - 1], ms[|ms| - 1];
      if !Mentioned(front, table) && m.table == table then Names(m.fields) else FirstColumns(schema, front, table)
  }

  /** The non-key names of all models of the table, in order. */
  function AllNames(ms: seq<Model>, table: string): seq<string> {
    if ms == [] then []
    else
      var m := ms[|ms| - 1];
      AllNames(ms[..|ms| - 1], table) + if m.table == table then UpdateColumns(m.fields) else []
  }

  lemma {:induction false} MentionedLast(ms: seq<Model>, table: string)
    requires ms != []
    ensures Mentioned(ms, table) <==> Mentioned(ms[..|ms| - 1], table) || ms[|ms| - 1].table == table
  {
    var front := ms[..|ms| - 1];
    assert forall i :: 0 <= i < |front| ==> front[i] == ms[i];
  }

  lemma {:induction false} NothingNamed(ms: seq<Model>, table: string)
    requires !Mentioned(ms, table)
    ensures AllNames(ms, table) == []
  {
    if ms != [] {
      MentionedLast(ms, table);
      NothingNamed(ms[..|ms| - 1], table);
    }
  }

  /** What a migration makes of each table. */
  lemma {:induction false} TableMigrated(aliases: Aliases, schema: Schema, ms: seq<Model>, table: string)
    ensures table in MigratedAll(aliases, schema, ms) <==> table in schema || Mentioned(ms, table)
    ensures table in MigratedAll(aliases, schema, ms) ==>
              MigratedAll(aliases, schema, ms)[table]
              == WithNames(aliases, FirstColumns(schema, ms, table), AllNames(ms, table))
  {
    if ms != [] {
      var front, m := ms[..|ms| - 1], ms[|ms| - 1];
      var before := MigratedAll(aliases, schema, front);
      TableMigrated(aliases, schema, front, table);
      MentionedLast(ms, table);
      if m.table == table {
        if table !in before {
          NothingNamed(front, table);
        }
        FieldsAreNames(aliases, Created(before, m), m.fields);
        WithNamesConcat(aliases, FirstColumns(schema, ms, table), AllNames(front, table), UpdateColumns(m.fields));
      } else {
        assert AllNames(ms, table) == AllNames(front, table);
      }
    }
  }

  /** Every non-key name of every model is settled. */
  predicate AllSettled(aliases: Aliases, schema: Schema, ms: seq<Model>) {
    forall i, j :: 0 <= i < |ms| && 0 <= j < |ms[i].fields| && !ms[i].fields[j].primary ==>
      var table := ms[i].table;
      Settled(aliases, FirstColumns(schema, ms, table), AllNames(ms, table), ms[i].fields[j].name)
  }

  lemma {:induction false} SettledIsListed(aliases: Aliases, schema: Schema, ms: seq<Model>)
    ensures AllListed(MigratedAll(aliases, schema, ms), ms) <==> AllSettled(aliases, schema, ms)
  {
    var after := MigratedAll(aliases, schema, ms);
    forall i | 0 <= i < |ms|
      ensures ms[i].table in after
      ensures forall j :: 0 <= j < |ms[i].fields| ==>
                var table, name := ms[i].table, ms[i].fields[j].name;
                (name in after[table] <==> Settled(aliases, FirstColumns(schema, ms, table), AllNames(ms, table), name))
    {
      var table := ms[i].table;
      TableMigrated(aliases, schema, ms, table);
      forall name: string
        ensures name in after[table] <==> Settled(aliases, FirstColumns(schema, ms, table), AllNames(ms, table), name)
      {
        SpelledAsFirst(aliases, FirstColumns(schema, ms, table), AllNames(ms, table), name);
      }
    }
  }

  /** When the introspection succeeds, a second run issues no ADD COLUMN exactly if every non-key name was a
      column of its table from the start, or no other spelling of it was, nor comes first among the models. */
  lemma {:induction false} SecondRunIssues(aliases: Aliases, describes: seq<bool>, start: nat, schema: Schema,
                                           ms: seq<Model>)
    requires forall k :: start <= k < start + |ms| ==> Answers(describes, k)
    ensures IssuedAll(aliases, describes, start, MigratedAll(aliases, schema, ms), ms) == 0
            <==> AllSettled(aliases, schema, ms)
  {
    hide AllListed, AllSettled, IssuedAll, MigratedAll;
    IssuedIfUnlisted(aliases, describes, start, schema, ms);
    SettledIsListed(aliases, schema, ms);
  }

  /** So it issues none on a database that tells all names apart. */
  lemma {:induction false} SecondRunIssuesNothing(aliases: Aliases, describes: seq<bool>, start: nat, schema: Schema,
                                                  ms: seq<Model>)
    requires forall k :: start <= k < start + |ms| ==> Answers(describes, k)
    requires forall a, b :: Folded(aliases, a) == Folded(aliases, b) ==> a == b
    ensures IssuedAll(aliases, describes, start, MigratedAll(aliases, schema, ms), ms) == 0
  {
    IssuedIfUnlisted(aliases, describes, start, schema, ms);
    MigrationConverges(aliases, schema, ms);
    hide MigratedAll, IssuedAll;
    var after := MigratedAll(aliases, schema, ms);
    forall i | 0 <= i < |ms| ensures Listed(after[ms[i].table], ms[i].fields) {
      var cols := after[ms[i].table];
      forall j | 0 <= j < |ms[i].fields| && !ms[i].fields[j].primary ensures ms[i].fields[j].name in cols {
        assert Has(aliases, cols, ms[i].fields[j].name);
      }
    }
  }

  /** On one that does not, it issues one again and again for a column spelled otherwise. */
  lemma {:induction false} SpelledOtherwise(aliases: Aliases, describes: seq<bool>, start: nat, table: string,
                                            a: string, b: string)
    requires a != b && Folded(aliases, a) == Folded(aliases, b) && Answers(describes, start)
    ensures var m := Model(table, [Field(b, false, false, false)], None);
            var schema: Schema := map[table := [a]];
            MigratedAll(aliases, schema, [m]) == schema && IssuedAll(aliases, describes, start, schema, [m]) == 1
  {
    var m := Model(table, [Field(b, false, false, false)], None);
    var schema: Schema := map[table := [a]];
    assert schema[table][0] == a;
    assert Covers(aliases, schema[table], m.fields);
    CompleteStays(aliases, schema, [m]);
    assert [m][..0] == [];
    assert m.fields[..0] == [];
    assert b !in schema[table];
    assert Issued(Some(schema[table]), m.fields) == Issued(Some(schema[table]), m.fields[..0]) + 1;
  }

  // ----- The tables stay tables

  predicate Distinct(aliases: Aliases, cols: Columns) {
    forall i, j :: 0 <= i < j < |cols| ==> Folded(aliases, cols[i]) != Folded(aliases, cols[j])
  }

  lemma {:induction false} FieldsDistinct(aliases: Aliases, cols: Columns, fs: seq<Field>)
    requires Distinct(aliases, cols)
    ensures Distinct(aliases, WithFields(aliases, cols, fs))
  {
    if fs != [] {
      var before, name := WithFields(aliases, cols, fs[..|fs| - 1]), fs[|fs| - 1].name;
      FieldsDistinct(aliases, cols, fs[..|fs| - 1]);
      if !Has(aliases, before, name) {
        assert forall k :: 0 <= k < |before| ==> Folded(aliases, before[k]) != Folded(aliases, name);
      }
    }
  }

  /** The database never gets a table with the same column twice. */
  lemma {:induction false} MigrationDistinct(aliases: Aliases, schema: Schema, ms: seq<Model>)
    requires forall t :: t in schema ==> Distinct(aliases, schema[t])
    requires forall i :: 0 <= i < |ms| ==> Distinct(aliases, Names(ms[i].fields))
    ensures forall t :: t in MigratedAll(aliases, schema, ms) ==> Distinct(aliases, MigratedAll(aliases, schema, ms)[t])
  {
    if ms != [] {
      var front, m := ms[..|ms| - 1], ms[|ms| - 1];
      assert forall i :: 0 <= i < |front| ==> front[i] == ms[i];
      MigrationDistinct(aliases, schema, front);
      FieldsDistinct(aliases, Created(MigratedAll(aliases, schema, front), m), m.fields);
    }
  }

  // ----- The migration

  /** A database whose CREATE TABLE and introspection may fail. */
  class Server {
    const aliases: Aliases
    const creates: seq<bool>
    const describes: seq<bool>
    var schema: Schema
    var created: nat
    var described: nat
    var altered: nat

    constructor (aliases: Aliases, creates: seq<bool>, describes: seq<bool>, schema: Schema)
      ensures this.aliases == aliases && this.creates == creates && this.describes == describes
      ensures this.schema == schema && created == described == altered == 0
    {
      this.aliases, this.creates, this.describes, this.schema := aliases, creates, describes, schema;
      created, described, altered := 0, 0, 0;
    }

    /** CREATE TABLE IF NOT EXISTS. */
    method Create(table: string, cols: Columns) returns (ok: bool)
      modifies this`schema, this`created
      ensures created == old(created) + 1 && ok == Answers(creates, old(created))
      ensures schema == if ok && table !in old(schema) then old(schema)[table := cols] else old(schema)
    {
      ok := Answers(creates, created);
      created := created + 1;
      if ok && table !in schema {
        schema := schema[table := cols];
      }
    }

    /** `describe_table`. */
    method Describe(table: string) returns (cols: Option<Columns>)
      requires table in schema
      modifies this`described
      ensures described == old(described) + 1
      ensures cols == if Answers(describes, old(described)) then Some(schema[table]) else None
    {
      cols := if Answers(describes, described) then Some(schema[table]) else None;
      described := described + 1;
    }

    method AddColumn(table: string, name: string)
      requires table in schema
      modifies this`schema, this`altered
      ensures altered == old(altered) + 1
      ensures schema == old(schema)[table := WithColumn(aliases, old(schema)[table], name)]
    {
      altered := altered + 1;
      var k := 0;
      while k < |schema[table]|
        invariant 0 <= k <= |schema[table]| && schema == old(schema)
        invariant forall i :: 0 <= i < k ==> Folded(aliases, schema[table][i]) != Folded(aliases, name)
      {
        if Folded(aliases, schema[table][k]) == Folded(aliases, name) {
          assert schema == schema[table := schema[table]];
          return;
        }
        k := k + 1;
      }
      schema := schema[table := schema[table] + [name]];
    }
  }

  /** The search of the introspected columns. */
  method FindColumn(existing: Columns, name: string) returns (found: bool)
    ensures found <==> name in existing
  {
    found := false;
    for k := 0 to |existing|
      invariant !found && name !in existing[..k]
    {
      if existing[k] == name {
        return true;
      }
    }
    assert existing[..|existing|] == existing;
  }

  method CollectNames(fs: seq<Field>) returns (cols: Columns)
    ensures cols == Names(fs)
  {
    cols := [];
    for i := 0 to |fs|
      invariant cols == Names(fs)[..i]
    {
      cols := cols + [fs[i].name];
    }
  }

  /** The columns of one model that are not listed. */
  method AddMissing(db: Server, m: Model, listed: Option<Columns>)
    requires m.table in db.schema
    modifies db`schema, db`altered
    ensures db.schema == old(db.schema)[m.table := WithMissing(db.aliases, old(db.schema)[m.table], listed, m.fields)]
    ensures db.altered == old(db.altered) + Issued(listed, m.fields)
  {
    ghost var cols := db.schema[m.table];
    assert db.schema == db.schema[m.table := cols];
    for j := 0 to |m.fields|
      invariant db.schema == old(db.schema)[m.table := WithMissing(db.aliases, cols, listed, m.fields[..j])]
      invariant db.altered == old(db.altered) + Issued(listed, m.fields[..j])
    {
      assert m.fields[..j + 1][..j] == m.fields[..j];
      var f := m.fields[j];
      if f.primary {
        continue;
      }
      if listed.Some? {
        var found := FindColumn(listed.value, f.name);
        if found {
          continue;
        }
      }
      db.AddColumn(m.table, f.name);
    }
    assert m.fields[..|m.fields|] == m.fields;
  }

  /** One model: the table, then its missing columns. */
  method MigrateOne(db: Server, m: Model) returns (ok: bool)
    modifies db
    ensures db.created == old(db.created) + 1 && ok == Answers(db.creates, old(db.created))
    ensures !ok ==> db.schema == old(db.schema) && db.described == old(db.described) && db.altered == old(db.altered)
    ensures ok ==> db.schema == Migrated(db.aliases, old(db.schema), m) && db.described == old(db.described) + 1
    ensures ok ==>
              var listed := if Answers(db.describes, old(db.described)) then Some(Created(old(db.schema), m)) else None;
              db.altered == old(db.altered) + Issued(listed, m.fields)
  {
    var names := CollectNames(m.fields);
    ok := db.Create(m.table, names);
    if ok {
      var listed := db.Describe(m.table);
      PathsAgree(db.aliases, db.schema[m.table], listed, m.fields);
      AddMissing(db, m, listed);
    }
  }

  lemma {:induction false} NoneYet(aliases: Aliases, describes: seq<bool>, start: nat, schema: Schema, ms: seq<Model>)
    ensures MigratedAll(aliases, schema, ms[..0]) == schema
            && IssuedAll(aliases, describes, start, schema, ms[..0]) == 0
  {}

  lemma {:induction false} OneMore(aliases: Aliases, describes: seq<bool>, start: nat, schema: Schema,
                                   ms: seq<Model>, i: nat)
    requires i < |ms|
    ensures var before := MigratedAll(aliases, schema, ms[..i]);
            var listed := if Answers(describes, start + i) then Some(Created(before, ms[i])) else None;
            && MigratedAll(aliases, schema, ms[..i + 1]) == Migrated(aliases, before, ms[i])
            && IssuedAll(aliases, describes, start, schema, ms[..i + 1])
               == IssuedAll(aliases, describes, start, schema, ms[..i]) + Issued(listed, ms[i].fields)
  {
    assert ms[..i + 1][..i] == ms[..i];
  }

  /** `corm_auto_migrate`: up to the first CREATE TABLE that fails the schema is migrated, whatever the
      introspections say, and they decide only which statements are issued. */
  method AutoMigrate(db: Server, models: seq<Model>) returns (ok: bool, ghost done: nat)
    modifies db
    ensures done <= |models| && (ok <==> done == |models|)
    ensures db.schema == MigratedAll(db.aliases, old(db.schema), models[..done])
    ensures db.altered
            == old(db.altered) + IssuedAll(db.aliases, db.describes, old(db.described), old(db.schema), models[..done])
    ensures forall k :: old(db.created) <= k < old(db.created) + done ==> Answers(db.creates, k)
    ensures !ok ==> !Answers(db.creates, old(db.created) + done)
  {
    hide *;
    done := 0;
    NoneYet(db.aliases, db.describes, db.described, db.schema, models);
    for i := 0 to |models|
      invariant done == i && db.created == old(db.created) + i && db.described == old(db.described) + i
      invariant db.schema == MigratedAll(db.aliases, old(db.schema), models[..i])
      invariant db.altered
                == old(db.altered) + IssuedAll(db.aliases, db.describes, old(db.described), old(db.schema), models[..i])
      invariant forall k :: old(db.created) <= k < old(db.created) + i ==> Answers(db.creates, k)
    {
      OneMore(db.aliases, db.describes, old(db.described), old(db.schema), models, i);
      var made := MigrateOne(db, models[i]);
      if !made {
        return false, i;
      }
      done := i + 1;
    }
    assert models[..|models|] == models;
    ok := true;
  }

  // ----- The key of a new table

  /** The column's auto-increment clause is a primary key by itself. */
  predicate SelfKeyed(bt: Backend, f: Field) {
    f.autoInc && !bt.Mysql?
  }

  /** The column definition declares a primary key. */
  predicate Inline(bt: Backend, f: Field, keys: nat) {
    SelfKeyed(bt, f) || (f.primary && keys == 1)
  }

  function Keys(fs: seq<Field>): Columns {
    if fs == [] then []
    else Keys(fs[..|fs| - 1]) + if fs[|fs| - 1].primary then [fs[|fs| - 1].name] else []
  }

  function InlineKeys(bt: Backend, fs: seq<Field>, keys: nat): Columns {
    if fs == [] then []
    else InlineKeys(bt, fs[..|fs| - 1], keys) + if Inline(bt, fs[|fs| - 1], keys) then [fs[|fs| - 1].name] else []
  }

  /** The primary keys that CREATE TABLE declares, each a list of columns. */
  function Declared(bt: Backend, fs: seq<Field>): seq<Columns> {
    var keys := Keys(fs);
    var inline := InlineKeys(bt, fs, |keys|);
    Singly(inline) + if |keys| > 1 then [keys] else []
  }

  function Singly(cols: Columns): (keys: seq<Columns>)
    ensures |keys| == |cols| && forall i :: 0 <= i < |keys| ==> keys[i] == [cols[i]]
  {
    seq(|cols|, i requires 0 <= i < |cols| => [cols[i]])
  }

  /** `create_table`, as far as keys go. */
  method DeclareKeys(bt: Backend, fs: seq<Field>) returns (declared: seq<Columns>)
    ensures declared == Declared(bt, fs)
  {
    hide Singly;
    var count := 0;
    for i := 0 to |fs|
      invariant count == |Keys(fs[..i])|
    {
      assert fs[..i + 1][..i] == fs[..i];
      if fs[i].primary {
        count := count + 1;
      }
    }
    assert fs[..|fs|] == fs;
    declared := [];
    ghost var inline: Columns := [];
    for i := 0 to |fs|
      invariant inline == InlineKeys(bt, fs[..i], count)
      invariant declared == Singly(inline)
    {
      assert fs[..i + 1][..i] == fs[..i];
      if fs[i].autoInc && !bt.Mysql? {
        inline := inline + [fs[i].name];
        declared := declared + [[fs[i].name]];
        continue;
      }
      if fs[i].primary && count == 1 {
        inline := inline + [fs[i].name];
        declared := declared + [[fs[i].name]];
      }
    }
    if count > 1 {
      var keys := [];
      for i := 0 to |fs|
        invariant keys == Keys(fs[..i])
      {
        assert fs[..i + 1][..i] == fs[..i];
        if fs[i].primary {
          keys := keys + [fs[i].name];
        }
      }
      declared := declared + [keys];
    }
  }

  /** CREATE TABLE declares the model's key, once and nothing else, exactly when no column that brings its own
      key belongs to a composite key or is not a key at all. */
  lemma {:induction false} KeyDeclaredExactly(bt: Backend, fs: seq<Field>)
    ensures Declared(bt, fs) == (if Keys(fs) == [] then [] else [Keys(fs)])
            <==> forall i :: 0 <= i < |fs| && SelfKeyed(bt, fs[i]) ==> fs[i].primary && |Keys(fs)| == 1
  {
    hide InlineKeys, Keys;
    var keys := Keys(fs);
    var inline := InlineKeys(bt, fs, |keys|);
    if forall i :: 0 <= i < |fs| && SelfKeyed(bt, fs[i]) ==> fs[i].primary && |keys| == 1 {
      InlineAreKeys(bt, fs, |keys|);
      assert |keys| == 1 ==> keys == [keys[0]];
    } else {
      var i :| 0 <= i < |fs| && SelfKeyed(bt, fs[i]) && !(fs[i].primary && |keys| == 1);
      InlineAt(bt, fs, |keys|, i);
      if |keys| == 1 {
        InlineTwice(bt, fs, i);
      }
    }
  }

  /** An auto-increment column in a composite key: SQLite is told two primary keys. */
  lemma {:induction false} KeyDeclaredTwice()
    ensures var fs := [Field("id", true, true, false), Field("tenant", true, false, false)];
            Keys(fs) == ["id", "tenant"] && Declared(Sqlite, fs) != [Keys(fs)]
  {
    var fs := [Field("id", true, true, false), Field("tenant", true, false, false)];
    assert fs[..1] == [fs[0]] && fs[..1][..0] == [];
    assert Keys(fs[..1]) == ["id"];
    assert Keys(fs) == ["id", "tenant"];
    KeyDeclaredExactly(Sqlite, fs);
    assert SelfKeyed(Sqlite, fs[0]);
  }

  lemma {:induction false} InlineAreKeys(bt: Backend, fs: seq<Field>, keys: nat)
    requires forall i :: 0 <= i < |fs| && SelfKeyed(bt, fs[i]) ==> fs[i].primary && keys == 1
    ensures InlineKeys(bt, fs, keys) == if keys == 1 then Keys(fs) else []
  {
    if fs != [] {
      assert forall i :: 0 <= i < |fs| - 1 ==> fs[..|fs| - 1][i] == fs[i];
      InlineAreKeys(bt, fs[..|fs| - 1], keys);
      assert fs[|fs| - 1] == fs[|fs| - 1];
    }
  }

  lemma {:induction false} InlineAt(bt: Backend, fs: seq<Field>, keys: nat, i: nat)
    requires i < |fs| && SelfKeyed(bt, fs[i])
    ensures InlineKeys(bt, fs, keys) != []
  {
    if i < |fs| - 1 {
      InlineAt(bt, fs[..|fs| - 1], keys, i);
    }
  }

  /** A single key and a column outside it that brings its own. */
  lemma {:induction false} InlineTwice(bt: Backend, fs: seq<Field>, i: nat)
    requires i < |fs| && SelfKeyed(bt, fs[i]) && !fs[i].primary
    ensures |InlineKeys(bt, fs, 1)| > |Keys(fs)|
  {
    var last := |fs| - 1;
    InlineAtLeast(bt, fs[..last]);
    if i < last {
      InlineTwice(bt, fs[..last], i);
    }
  }

  lemma {:induction false} InlineAtLeast(bt: Backend, fs: seq<Field>)
    ensures |InlineKeys(bt, fs, 1)| >= |Keys(fs)|
  {
    if fs != [] {
      InlineAtLeast(bt, fs[..|fs| - 1]);
    }
  }
}
