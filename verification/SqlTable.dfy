// A database table with a text primary key, kept in the order of its key: emptied, filled
// row by row with replacement, and read back in key order.
module SqlTable {
  import opened Options
  import opened SeqFacts
  import opened TextOrder

  datatype Row<T> = Row(key: string, columns: T)

  // INSERT OR REPLACE
  function Upsert<T>(table: seq<Row<T>>, row: Row<T>): seq<Row<T>> {
    if table == [] then [row]
    else if table[0].key == row.key then [row] + table[1..]
    else if Before(row.key, table[0].key) then [row] + table
    else [table[0]] + Upsert(table[1..], row)
  }

  // The table after these rows have gone into it, in order, from empty.
  function Filled<T>(rows: seq<Row<T>>): seq<Row<T>> {
    if rows == [] then [] else Upsert(Filled(rows[..|rows| - 1]), rows[|rows| - 1])
  }

  function FirstWith<T>(rows: seq<Row<T>>, key: string): Option<Row<T>> {
    if rows == [] then None
    else if rows[0].key == key then Some(rows[0])
    else FirstWith(rows[1..], key)
  }

  function LastWith<T>(rows: seq<Row<T>>, key: string): Option<Row<T>> {
    if rows == [] then None
    else if rows[|rows| - 1].key == key then Some(rows[|rows| - 1])
    else LastWith(rows[..|rows| - 1], key)
  }

  ghost predicate Sorted<T>(table: seq<Row<T>>) {
    forall i, j :: 0 <= i < j < |table| ==> Before(table[i].key, table[j].key)
  }

  lemma {:induction false} UpsertSorts<T>(table: seq<Row<T>>, row: Row<T>)
    requires Sorted(table)
    ensures Sorted(Upsert(table, row))
    ensures forall i :: 0 <= i < |Upsert(table, row)| ==>
              Upsert(table, row)[i].key == row.key || Upsert(table, row)[i] in table
  {
    hide Before;
    if table == [] {
    } else if table[0].key == row.key {
      assert forall i :: 0 <= i < |table| - 1 ==> table[1..][i] == table[i + 1];
    } else if Before(row.key, table[0].key) {
      forall j | 0 <= j < |table|
        ensures Before(row.key, table[j].key)
      {
        if j > 0 {
          BeforeIsTransitive(row.key, table[0].key, table[j].key);
        }
      }
    } else {
      var rest := table[1..];
      UpsertSorts(rest, row);
      var more := Upsert(rest, row);
      SortedOnTop(table, row, more);
    }
  }

  lemma {:induction false} SortedOnTop<T>(table: seq<Row<T>>, row: Row<T>, more: seq<Row<T>>)
    requires table != [] && Sorted(table) && Sorted(more)
    requires table[0].key != row.key && !Before(row.key, table[0].key)
    requires forall i :: 0 <= i < |more| ==> more[i].key == row.key || more[i] in table[1..]
    ensures Sorted([table[0]] + more)
  {
    forall i | 0 <= i < |more|
      ensures Before(table[0].key, more[i].key)
    {
      if more[i].key == row.key {
        if !Before(table[0].key, row.key) {
          BeforeIsTotal(table[0].key, row.key);
        }
      } else {
        var j :| 0 <= j < |table| - 1 && table[1..][j] == more[i];
        assert table[1..][j] == table[j + 1];
      }
    }
    hide Before;
  }

  lemma {:induction false} FilledIsSorted<T>(rows: seq<Row<T>>)
    ensures Sorted(Filled(rows))
  {
    if rows != [] {
      FilledIsSorted(rows[..|rows| - 1]);
      UpsertSorts(Filled(rows[..|rows| - 1]), rows[|rows| - 1]);
    }
  }

  lemma {:induction false} AbsentBefore<T>(table: seq<Row<T>>, key: string)
    requires Sorted(table) && table != [] && Before(key, table[0].key)
    ensures FirstWith(table, key) == None
  {
    BeforeIsIrreflexive(key);
    if |table| > 1 {
      BeforeIsTransitive(key, table[0].key, table[1].key);
      AbsentBefore(table[1..], key);
    }
    hide Before;
  }

  // Reading a key after a row went in.
  lemma {:induction false} UpsertReads<T>(table: seq<Row<T>>, row: Row<T>, key: string)
    requires Sorted(table)
    ensures FirstWith(Upsert(table, row), key) == if key == row.key then Some(row) else FirstWith(table, key)
  {
    hide Before;
    if table != [] {
      if table[0].key == row.key {
        assert ([row] + table[1..])[1..] == table[1..];
      } else if Before(row.key, table[0].key) {
        assert ([row] + table)[1..] == table;
      } else {
        UpsertReads(table[1..], row, key);
        assert ([table[0]] + Upsert(table[1..], row))[1..] == Upsert(table[1..], row);
      }
    }
  }

  // A filled table holds, under each key, the last of its rows.
  lemma {:induction false} FilledReadsLast<T>(rows: seq<Row<T>>, key: string)
    ensures FirstWith(Filled(rows), key) == LastWith(rows, key)
  {
    if rows != [] {
      var front := rows[..|rows| - 1];
      FilledReadsLast(front, key);
      FilledIsSorted(front);
      UpsertReads(Filled(front), rows[|rows| - 1], key);
      hide Upsert;
    }
  }

  function KeysOf<T>(rows: seq<Row<T>>): seq<string> {
    seq(|rows|, i requires 0 <= i < |rows| => rows[i].key)
  }

  lemma {:induction false} UpsertAdds<T>(table: seq<Row<T>>, row: Row<T>)
    requires row.key !in KeysOf(table)
    ensures multiset(Upsert(table, row)) == multiset(table) + multiset{row}
  {
    hide Before;
    if table != [] {
      assert KeysOf(table)[0] == table[0].key;
      if !Before(row.key, table[0].key) {
        assert row.key !in KeysOf(table[1..]) by {
          assert forall i :: 0 <= i < |table| - 1 ==> KeysOf(table[1..])[i] == KeysOf(table)[i + 1];
        }
        UpsertAdds(table[1..], row);
        assert table == [table[0]] + table[1..];
      }
    }
  }

  lemma {:induction false} FilledKeys<T>(rows: seq<Row<T>>, key: string)
    ensures key in KeysOf(Filled(rows)) <==> key in KeysOf(rows)
  {
    FilledReadsLast(rows, key);
    FirstWithFinds(Filled(rows), key);
    LastWithFinds(rows, key);
    hide Filled;
  }

  lemma {:induction false} FirstWithFinds<T>(rows: seq<Row<T>>, key: string)
    ensures FirstWith(rows, key).Some? <==> key in KeysOf(rows)
  {
    if rows != [] {
      FirstWithFinds(rows[1..], key);
      assert KeysOf(rows) == [rows[0].key] + KeysOf(rows[1..]);
    }
  }

  lemma {:induction false} LastWithFinds<T>(rows: seq<Row<T>>, key: string)
    ensures LastWith(rows, key).Some? <==> key in KeysOf(rows)
  {
    if rows != [] {
      LastWithFinds(rows[..|rows| - 1], key);
      assert KeysOf(rows) == KeysOf(rows[..|rows| - 1]) + [rows[|rows| - 1].key];
    }
  }

  lemma {:induction false} LastIsNew(keys: seq<string>, last: string)
    requires Distinct(keys + [last])
    ensures last !in keys
  {
    forall i | 0 <= i < |keys|
      ensures keys[i] != last
    {
      assert (keys + [last])[i] != (keys + [last])[|keys|];
    }
  }

  // With distinct keys nothing is replaced: the rows come back in key order.
  lemma {:induction false} FilledPermutes<T>(rows: seq<Row<T>>)
    requires Distinct(KeysOf(rows))
    ensures multiset(Filled(rows)) == multiset(rows)
  {
    if rows != [] {
      var front, last := rows[..|rows| - 1], rows[|rows| - 1];
      assert KeysOf(rows) == KeysOf(front) + [last.key];
      assert rows == front + [last];
      LastIsNew(KeysOf(front), last.key);
      assert Distinct(KeysOf(front)) by {
        assert forall i :: 0 <= i < |front| ==> KeysOf(front)[i] == KeysOf(rows)[i];
      }
      FilledPermutes(front);
      FilledKeys(front, last.key);
      UpsertAdds(Filled(front), last);
    }
  }
}
