/** The child-record guard consulted before a setup record is deleted.

    Each setup dialog declares the dependent tables that may reference its records and
    the column they reference it by; a record may be deleted only when no row of any of
    those tables holds its key in that column. */
module ChildGuard {
  import opened Counting

  /** A row of a dependent table, as its column values. */
  type ChildRow = map<string, int>

  /** The dependent tables by name. */
  type ChildStore = map<string, seq<ChildRow>>

  /** The rows of a table; a table the store does not hold has none. */
  function TableRows(store: ChildStore, table: string): seq<ChildRow> {
    if table in store then store[table] else []
  }

  /** `WHERE <field> = <key>` */
  function References(field: string, key: int): ChildRow -> bool {
    (row: ChildRow) => field in row && row[field] == key
  }

  /** The total of `SELECT COUNT(*) FROM <table> WHERE <field> = <key>` over the
      declared dependent tables. */
  function CountChildRecords(store: ChildStore, tables: seq<string>, field: string, key: int): nat
  {
    if tables == [] then 0
    else Count(TableRows(store, tables[0]), References(field, key))
         + CountChildRecords(store, tables[1..], field, key)
  }

  /** Some declared dependent table has a row that references the key. */
  ghost predicate Referenced(store: ChildStore, tables: seq<string>, field: string, key: int) {
    exists i, j :: 0 <= i < |tables| && 0 <= j < |TableRows(store, tables[i])|
                   && References(field, key)(TableRows(store, tables[i])[j])
  }

  /** The guard reports child records exactly when some row of some declared
      dependent table references the key. */
  lemma {:induction false} ChildRecordsIffReferenced(store: ChildStore, tables: seq<string>, field: string, key: int)
    ensures CountChildRecords(store, tables, field, key) > 0 <==> Referenced(store, tables, field, key)
  {
    if tables != [] {
      var p := References(field, key);
      var first := TableRows(store, tables[0]);
      ChildRecordsIffReferenced(store, tables[1..], field, key);
      CountPositive(first, p);
      if Referenced(store, tables, field, key) {
        var i, j :| 0 <= i < |tables| && 0 <= j < |TableRows(store, tables[i])|
                    && p(TableRows(store, tables[i])[j]);
        if i > 0 {
          assert tables[1..][i - 1] == tables[i];
        }
      }
      if Referenced(store, tables[1..], field, key) {
        var i, j :| 0 <= i < |tables[1..]| && 0 <= j < |TableRows(store, tables[1..][i])|
                    && p(TableRows(store, tables[1..][i])[j]);
        assert tables[i + 1] == tables[1..][i];
      }
      if Count(first, p) > 0 {
        var j :| 0 <= j < |first| && p(first[j]);
        assert 0 <= 0 < |tables| && p(TableRows(store, tables[0])[j]);
      }
    }
  }

  /** The count over two lists of tables is the sum of their counts. */
  lemma {:induction false} CountChildRecordsAppend(store: ChildStore, a: seq<string>, b: seq<string>, field: string, key: int)
    ensures CountChildRecords(store, a + b, field, key)
            == CountChildRecords(store, a, field, key) + CountChildRecords(store, b, field, key)
  {
    if a == [] {
      assert a + b == b;
    } else {
      assert (a + b)[0] == a[0];
      assert (a + b)[1..] == a[1..] + b;
      CountChildRecordsAppend(store, a[1..], b, field, key);
    }
  }

  /** The order in which the dependent tables are declared does not matter: any
      reordering of the list (the same tables, as a multiset) gives the same count. */
  lemma {:induction false} ChildRecordsOrderIndependent(store: ChildStore, a: seq<string>, b: seq<string>, field: string, key: int)
    requires multiset(a) == multiset(b)
    ensures CountChildRecords(store, a, field, key) == CountChildRecords(store, b, field, key)
    decreases |a|
  {
    if a == [] {
      assert |b| == |multiset(b)| == 0;
    } else {
      assert a[0] in multiset(b);
      var j :| 0 <= j < |b| && b[j] == a[0];
      var rest := b[..j] + b[j + 1..];
      assert b == b[..j] + ([b[j]] + b[j + 1..]);
      assert a == [a[0]] + a[1..];
      assert multiset(a[1..]) == multiset(a) - multiset{a[0]};
      assert multiset(rest) == multiset(b) - multiset{a[0]};
      ChildRecordsOrderIndependent(store, a[1..], rest, field, key);
      CountChildRecordsAppend(store, b[..j], [b[j]] + b[j + 1..], field, key);
      CountChildRecordsAppend(store, [b[j]], b[j + 1..], field, key);
      CountChildRecordsAppend(store, b[..j], b[j + 1..], field, key);
      CountChildRecordsAppend(store, [a[0]], a[1..], field, key);
    }
  }
}
