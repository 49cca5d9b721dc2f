/** The persistence collaborator, reduced to what the handlers use: tables
    as sequences of rows, conjunctions of `.eq(column, value)` filters,
    inserts that receive a generated `id` and `created_at`, filtered updates
    and deletes, and `.order('created_at', { ascending: false })`. */
module Tables {
  import opened Json

  /** One `.eq(col, val)` filter. */
  datatype Eq = Eq(col: string, val: string)

  /** A query's filters, all of which must hold (PostgREST chains are
      conjunctions). */
  type Query = seq<Eq>

  predicate Satisfies(f: Eq, r: Row) {
    f.col in r && r[f.col] == Str(f.val)
  }

  predicate Matches(q: Query, r: Row) {
    forall i :: 0 <= i < |q| ==> Satisfies(q[i], r)
  }

  /** The rows for which `Matches(q, _)` is `want`, in table order: `want`
      true is a select, `want` false what a delete leaves behind. */
  function Where(rows: seq<Row>, q: Query, want: bool): (r: seq<Row>)
    ensures forall x {:trigger multiset(r)[x]} ::
      multiset(r)[x] == if Matches(q, x) == want then multiset(rows)[x] else 0
    ensures forall x :: x in r ==> x in rows && Matches(q, x) == want
    ensures (forall x :: x in rows ==> Matches(q, x) == want) ==> r == rows
    ensures r == [] <==> forall x :: x in rows ==> Matches(q, x) != want
    ensures |r| <= |rows|
  {
    if rows == [] then []
    else
      assert rows == [rows[0]] + rows[1..];
      (if Matches(q, rows[0]) == want then [rows[0]] else []) + Where(rows[1..], q, want)
  }

  /** No row of `rows` has id `v`. */
  predicate FreshId(rows: seq<Row>, v: Value) {
    forall i :: 0 <= i < |rows| ==> IdOf(rows[i]) != v
  }

  /** The table constraints, one row at a time. */
  lemma TableCons(rows: seq<Row>)
    requires rows != []
    ensures IsTable(rows) <==> Stored(rows[0]) && FreshId(rows[1..], IdOf(rows[0])) && IsTable(rows[1..])
  {
    var tail := rows[1..];
    if Stored(rows[0]) && FreshId(tail, IdOf(rows[0])) && IsTable(tail) {
      forall i, j | 0 <= i < j < |rows| ensures IdOf(rows[i]) != IdOf(rows[j]) {
        if i == 0 {
          assert rows[j] == tail[j - 1];
        } else {
          assert rows[i] == tail[i - 1] && rows[j] == tail[j - 1];
        }
      }
    }
    if IsTable(rows) {
      forall i, j | 0 <= i < j < |tail| ensures IdOf(tail[i]) != IdOf(tail[j]) {
        assert tail[i] == rows[i + 1] && tail[j] == rows[j + 1];
      }
      forall i | 0 <= i < |tail| ensures IdOf(tail[i]) != IdOf(rows[0]) {
        assert tail[i] == rows[i + 1];
      }
    }
  }

  lemma {:induction false} WhereKeepsFresh(rows: seq<Row>, q: Query, want: bool, v: Value)
    requires FreshId(rows, v)
    ensures FreshId(Where(rows, q, want), v)
  {
    if rows != [] {
      assert FreshId(rows[1..], v) by {
        forall i | 0 <= i < |rows[1..]| ensures IdOf(rows[1..][i]) != v {
          assert rows[1..][i] == rows[i + 1];
        }
      }
      WhereKeepsFresh(rows[1..], q, want, v);
    }
  }

  /** Keeping some rows of a table keeps the table constraints. */
  lemma {:induction false} WhereKeepsTable(rows: seq<Row>, q: Query, want: bool)
    requires IsTable(rows)
    ensures IsTable(Where(rows, q, want))
  {
    if rows != [] {
      TableCons(rows);
      WhereKeepsTable(rows[1..], q, want);
      var rest := Where(rows[1..], q, want);
      if Matches(q, rows[0]) == want {
        WhereKeepsFresh(rows[1..], q, want, IdOf(rows[0]));
        var r := [rows[0]] + rest;
        assert r[1..] == rest;
        TableCons(r);
      }
    }
  }

  lemma {:induction false} NoRowWithId(rows: seq<Row>, q: Query, id: string)
    requires FreshId(rows, Str(id))
    requires |q| > 0 && q[0] == Eq("id", id)
    ensures Where(rows, q, true) == []
  {
    if rows != [] {
      assert !Satisfies(q[0], rows[0]) by { assert IdOf(rows[0]) != Str(id); }
      assert FreshId(rows[1..], Str(id)) by {
        forall i | 0 <= i < |rows[1..]| ensures IdOf(rows[1..][i]) != Str(id) {
          assert rows[1..][i] == rows[i + 1];
        }
      }
      NoRowWithId(rows[1..], q, id);
    }
  }

  /** A query that fixes the id matches at most one row of a table, so a
      `.single()` after it fails exactly when it matched none. */
  lemma {:induction false} IdQueryMatchesAtMostOne(rows: seq<Row>, q: Query, id: string)
    requires IsTable(rows)
    requires |q| > 0 && q[0] == Eq("id", id)
    ensures |Where(rows, q, true)| <= 1
  {
    if rows != [] {
      TableCons(rows);
      IdQueryMatchesAtMostOne(rows[1..], q, id);
      if Matches(q, rows[0]) {
        assert Satisfies(q[0], rows[0]);
        NoRowWithId(rows[1..], q, id);
      }
    }
  }

  /** A stored row carries the `id` and `created_at` the database gives it. */
  predicate Stored(r: Row) {
    "id" in r && r["id"].Str? && "created_at" in r && r["created_at"].Num?
  }

  function IdOf(r: Row): Value {
    if "id" in r then r["id"] else Null
  }

  /** The table constraints: every row stored, ids unique (primary key). */
  predicate IsTable(rows: seq<Row>) {
    && (forall i :: 0 <= i < |rows| ==> Stored(rows[i]))
    && (forall i, j :: 0 <= i < j < |rows| ==> IdOf(rows[i]) != IdOf(rows[j]))
  }

  /** The ordering key; a stored row always has a numeric `created_at`. */
  function Stamp(r: Row): int {
    if "created_at" in r && r["created_at"].Num? then r["created_at"].n else 0
  }

  /** Newest first: `created_at` never increases along the sequence. */
  predicate NewestFirstOrder(rows: seq<Row>) {
    forall i, j :: 0 <= i < j < |rows| ==> Stamp(rows[i]) >= Stamp(rows[j])
  }

  /** A row no older than the head of a newest-first sequence can go in front. */
  lemma ConsNewestFirst(h: Row, rows: seq<Row>)
    requires NewestFirstOrder(rows)
    requires rows != [] ==> Stamp(h) >= Stamp(rows[0])
    ensures NewestFirstOrder([h] + rows)
  {
    var r := [h] + rows;
    forall i, j | 0 <= i < j < |r| ensures Stamp(r[i]) >= Stamp(r[j]) {
      assert r[j] == rows[j - 1];
      if i > 0 {
        assert r[i] == rows[i - 1];
      }
    }
  }

  /** Inserts `x` in front of the first row that is not newer than it. */
  function InsertByStamp(x: Row, rows: seq<Row>): (r: seq<Row>)
    ensures multiset(r) == multiset(rows) + multiset{x}
    ensures |r| == |rows| + 1
    ensures r[0] == x || (rows != [] && r[0] == rows[0])
  {
    if rows == [] || Stamp(x) >= Stamp(rows[0]) then [x] + rows
    else
      assert rows == [rows[0]] + rows[1..];
      [rows[0]] + InsertByStamp(x, rows[1..])
  }

  /** Inserting by stamp into a newest-first sequence keeps it newest first. */
  lemma {:induction false} InsertKeepsNewestFirst(x: Row, rows: seq<Row>)
    requires NewestFirstOrder(rows)
    ensures NewestFirstOrder(InsertByStamp(x, rows))
  {
    if rows == [] || Stamp(x) >= Stamp(rows[0]) {
      ConsNewestFirst(x, rows);
    } else {
      assert NewestFirstOrder(rows[1..]) by {
        forall i, j | 0 <= i < j < |rows[1..]| ensures Stamp(rows[1..][i]) >= Stamp(rows[1..][j]) {
          assert rows[1..][i] == rows[i + 1] && rows[1..][j] == rows[j + 1];
        }
      }
      InsertKeepsNewestFirst(x, rows[1..]);
      ConsNewestFirst(rows[0], InsertByStamp(x, rows[1..]));
    }
  }

  /** A reference ordering for `.order('created_at', { ascending: false })`:
      the same rows, newest first (rows with equal stamps in some order). */
  function NewestFirst(rows: seq<Row>): (r: seq<Row>)
    ensures NewestFirstOrder(r)
    ensures multiset(r) == multiset(rows)
  {
    if rows == [] then []
    else
      assert rows == [rows[0]] + rows[1..];
      InsertKeepsNewestFirst(rows[0], NewestFirst(rows[1..]));
      InsertByStamp(rows[0], NewestFirst(rows[1..]))
  }

  /** The row an insert stores: the database defaults, overridden by every
      column the caller sends (an explicit `id` or `created_at` included). */
  function WithDefaults(freshId: string, now: nat, given: Row): (r: Row)
    ensures r.Keys == given.Keys + {"id", "created_at"}
    ensures forall k :: k in given ==> r[k] == given[k]
    ensures "id" !in given ==> r["id"] == Str(freshId)
    ensures "created_at" !in given ==> r["created_at"] == Num(now)
  {
    map["id" := Str(freshId), "created_at" := Num(now)] + given
  }

  /** The insert violates no table constraint. */
  predicate Insertable(rows: seq<Row>, row: Row) {
    Stored(row) && FreshId(rows, IdOf(row))
  }

  lemma InsertKeepsTable(rows: seq<Row>, row: Row)
    requires IsTable(rows) && Insertable(rows, row)
    ensures IsTable(rows + [row])
  {
    var s := rows + [row];
    forall i, j | 0 <= i < j < |s| ensures IdOf(s[i]) != IdOf(s[j]) {
      if j == |rows| { assert s[i] == rows[i]; } else { assert s[i] == rows[i] && s[j] == rows[j]; }
    }
    forall i | 0 <= i < |s| ensures Stored(s[i]) {
      if i < |rows| { assert s[i] == rows[i]; }
    }
  }

  /** `.update(patch)` on every row the query matches: the patch's columns
      overwrite those rows; no row is added, removed or moved. */
  function UpdateWhere(rows: seq<Row>, q: Query, patch: Row): (r: seq<Row>)
    ensures |r| == |rows|
    ensures forall i :: 0 <= i < |rows| && !Matches(q, rows[i]) ==> r[i] == rows[i]
    ensures forall i :: 0 <= i < |rows| && Matches(q, rows[i]) ==> r[i] == rows[i] + patch
  {
    seq(|rows|, i requires 0 <= i < |rows| => if Matches(q, rows[i]) then rows[i] + patch else rows[i])
  }

  lemma MatchesWider(q: Query, wider: Query, x: Row)
    requires forall f :: f in wider ==> f in q
    requires Matches(q, x)
    ensures Matches(wider, x)
  {
    forall i | 0 <= i < |wider| ensures Satisfies(wider[i], x) {
      assert wider[i] in wider;
      var k :| 0 <= k < |q| && q[k] == wider[i];
    }
  }

  /** A query holding every filter of another, and maybe more, can only
      narrow its result. */
  lemma NarrowingQuery(rows: seq<Row>, q: Query, wider: Query)
    requires forall f :: f in wider ==> f in q
    ensures multiset(Where(rows, q, true)) <= multiset(Where(rows, wider, true))
  {
    var narrow, broad := Where(rows, q, true), Where(rows, wider, true);
    forall x ensures multiset(narrow)[x] <= multiset(broad)[x] {
      if Matches(q, x) {
        MatchesWider(q, wider, x);
      }
    }
  }

  /** A select that filters on the owner column returns only that owner's rows. */
  lemma OwnerFilterIsolates(rows: seq<Row>, q: Query, owner: string)
    requires |q| > 0 && q[0] == Eq("user_id", owner)
    ensures forall r :: r in Where(rows, q, true) ==> "user_id" in r && r["user_id"] == Str(owner)
  {
    forall r | r in Where(rows, q, true) ensures "user_id" in r && r["user_id"] == Str(owner) {
      assert Satisfies(q[0], r);
    }
  }
}
