/**
 * What `list` and `today` in todo/main.py display: the pending lines split
 * into fields, numbered by their position in the file, and ordered by
 * Python's stable `sorted` under a tuple key of strings.
 */
module Display {
  import opened Text
  import opened Records

  /** One displayed row: the ID, then the fields of the line. */
  type Row = seq<string>

  /** Lines `list` and `today` can index: each has at least four fields. */
  predicate WellFormed(lines: seq<string>) {
    forall i :: 0 <= i < |lines| ==> |Fields(lines[i])| >= 4
  }

  /** Rows that carry an ID and four fields, the indices the sort keys read. */
  predicate Keyed(rows: seq<Row>) {
    forall i :: 0 <= i < |rows| ==> |rows[i]| >= 5
  }

  /** `[[str(i+1)] + task for i, task in enumerate(tasks)]`. */
  function WithIds(lines: seq<string>): (rows: seq<Row>)
    ensures |rows| == |lines|
    ensures WellFormed(lines) ==> Keyed(rows)
  {
    seq(|lines|, i requires 0 <= i < |lines| => IdRow(i, lines[i]))
  }

  /** The row of line `i`: its 1-based ID, then the fields of the line. */
  function IdRow(i: nat, line: string): Row {
    [NatToString(i + 1)] + Fields(line)
  }

  /** Row `i` is its ID followed by the fields of line `i`. */
  lemma WithIdsAt(lines: seq<string>, i: nat)
    requires i < |lines|
    ensures WithIds(lines)[i] == IdRow(i, lines[i])
  {
  }

  /** Every row's ID is its 1-based line number. */
  lemma IdIsPosition(lines: seq<string>, i: nat)
    requires i < |lines|
    ensures AllDigits(WithIds(lines)[i][0])
    ensures ParseDigits(WithIds(lines)[i][0]) == i + 1
  {
    var id := NatToString(i + 1);
    assert WithIds(lines)[i][0] == id by { WithIdsAt(lines, i); }
    ParseNatToString(i + 1);
  }

  /** No two rows share an ID. */
  lemma IdsDistinct(lines: seq<string>, i: nat, j: nat)
    requires i < |lines| && j < |lines| && i != j
    ensures WithIds(lines)[i][0] != WithIds(lines)[j][0]
  {
    IdIsPosition(lines, i);
    IdIsPosition(lines, j);
  }

  /** Since the IDs differ, every ID row occurs once in the full-file rows. */
  lemma WithIdsOnce(lines: seq<string>, x: Row)
    ensures multiset(WithIds(lines))[x] <= 1
  {
    var rows := WithIds(lines);
    forall i, j | 0 <= i < |rows| && 0 <= j < |rows| && i != j
      ensures rows[i] != rows[j]
    {
      IdsDistinct(lines, i, j);
    }
    DistinctCount(rows, x);
  }

  /** A sequence without repeated elements holds each value at most once. */
  lemma {:induction false} DistinctCount<T>(s: seq<T>, x: T)
    requires forall i, j :: 0 <= i < |s| && 0 <= j < |s| && i != j ==> s[i] != s[j]
    ensures multiset(s)[x] <= 1
  {
    if |s| > 0 {
      var t := s[1..];
      assert forall i, j :: 0 <= i < |t| && 0 <= j < |t| && i != j ==> t[i] != t[j] by {
        forall i, j | 0 <= i < |t| && 0 <= j < |t| && i != j
          ensures t[i] != t[j]
        {
          assert t[i] == s[i + 1] && t[j] == s[j + 1];
        }
      }
      DistinctCount(t, x);
      assert multiset(s) == multiset{s[0]} + multiset(t) by { assert s == [s[0]] + t; }
      if s[0] == x {
        assert x !in t by {
          forall j | 0 <= j < |t|
            ensures t[j] != x
          {
            assert t[j] == s[j + 1];
          }
        }
      }
    }
  }

  // ------------------------------------------------------------ sort keys

  /**
   * A Python key tuple. `list` uses `(0, priority, estimate)` for rows dated
   * today and `(1, date, priority, estimate)` for the rest; `today` uses
   * `(priority, estimate)`, which orders like tier 0 followed by the two.
   */
  datatype SortKey = SortKey(tier: nat, fields: seq<string>)

  /** The key function in use: `prioritize_today` of `list`, or the lambda of `today`. */
  datatype Order = ListOrder(today: string) | TodayOrder

  function Key(o: Order, row: Row): SortKey
    requires |row| >= 5
  {
    match o
    case ListOrder(today) =>
      if row[4] == today then SortKey(0, [row[2], row[3]])
      else SortKey(1, [row[4], row[2], row[3]])
    case TodayOrder => SortKey(0, [row[2], row[3]])
  }

  /** Python's `<=` on tuples of strings: lexicographic, a prefix first. */
  predicate FieldsLe(a: seq<string>, b: seq<string>) {
    |a| == 0 || (|b| > 0 && (StrLt(a[0], b[0]) || (a[0] == b[0] && FieldsLe(a[1..], b[1..]))))
  }

  predicate KeyLe(a: SortKey, b: SortKey) {
    a.tier < b.tier || (a.tier == b.tier && FieldsLe(a.fields, b.fields))
  }

  lemma {:induction false} FieldsLeRefl(a: seq<string>)
    ensures FieldsLe(a, a)
  {
    if |a| > 0 {
      FieldsLeRefl(a[1..]);
    }
  }

  lemma {:induction false} FieldsLeTotal(a: seq<string>, b: seq<string>)
    ensures FieldsLe(a, b) || FieldsLe(b, a)
  {
    if |a| > 0 && |b| > 0 {
      StrLeTotal(a[0], b[0]);
      if a[0] == b[0] {
        FieldsLeTotal(a[1..], b[1..]);
      }
    }
  }

  lemma {:induction false} FieldsLeAntisym(a: seq<string>, b: seq<string>)
    requires FieldsLe(a, b) && FieldsLe(b, a)
    ensures a == b
  {
    if |a| > 0 {
      if a[0] != b[0] {
        StrLeAntisym(a[0], b[0]);
      }
      FieldsLeAntisym(a[1..], b[1..]);
      assert a == [a[0]] + a[1..] && b == [b[0]] + b[1..];
    }
  }

  lemma {:induction false} FieldsLeTrans(a: seq<string>, b: seq<string>, c: seq<string>)
    requires FieldsLe(a, b) && FieldsLe(b, c)
    ensures FieldsLe(a, c)
  {
    if |a| > 0 {
      if a[0] == b[0] && b[0] == c[0] {
        FieldsLeTrans(a[1..], b[1..], c[1..]);
      } else {
        StrLeRefl(a[0]);
        StrLeRefl(b[0]);
        assert StrLe(a[0], b[0]) && StrLe(b[0], c[0]);
        StrLeTrans(a[0], b[0], c[0]);
        if a[0] == c[0] {
          StrLeAntisym(b[0], c[0]);
        }
        assert StrLt(a[0], c[0]);
      }
    }
  }

  lemma KeyLeTotal(a: SortKey, b: SortKey)
    ensures KeyLe(a, b) || KeyLe(b, a)
  {
    FieldsLeTotal(a.fields, b.fields);
  }

  lemma KeyLeRefl(a: SortKey)
    ensures KeyLe(a, a)
  {
    FieldsLeRefl(a.fields);
  }

  lemma KeyLeTrans(a: SortKey, b: SortKey, c: SortKey)
    requires KeyLe(a, b) && KeyLe(b, c)
    ensures KeyLe(a, c)
  {
    if a.tier == b.tier == c.tier {
      FieldsLeTrans(a.fields, b.fields, c.fields);
    }
  }

  // ---------------------------------------------------------------- sorting

  /** Ordered by the key: every row's key is at most every later row's. */
  predicate SortedBy(o: Order, s: seq<Row>)
    requires Keyed(s)
  {
    forall i, j :: 0 <= i < j < |s| ==> KeyLe(Key(o, s[i]), Key(o, s[j]))
  }

  predicate AdjacentSorted(o: Order, s: seq<Row>)
    requires Keyed(s)
  {
    forall i :: 0 <= i < |s| - 1 ==> KeyLe(Key(o, s[i]), Key(o, s[i + 1]))
  }

  /** The rows of `s` whose key is `k`, in their order in `s`. */
  function WithKey(o: Order, s: seq<Row>, k: SortKey): seq<Row>
    requires Keyed(s)
  {
    if |s| == 0 then []
    else (if Key(o, s[0]) == k then [s[0]] else []) + WithKey(o, s[1..], k)
  }

  /** Places `x` before the first row whose key is not below its own. */
  function Insert(o: Order, x: Row, s: seq<Row>): (r: seq<Row>)
    requires |x| >= 5 && Keyed(s)
    ensures |r| == |s| + 1 && Keyed(r)
    ensures r[0] == x || (|s| > 0 && r[0] == s[0])
  {
    if |s| == 0 then [x]
    else if KeyLe(Key(o, x), Key(o, s[0])) then [x] + s
    else [s[0]] + Insert(o, x, s[1..])
  }

  /** `sorted(rows, key=...)`, written as a stable insertion sort. */
  function SortRows(o: Order, rows: seq<Row>): (r: seq<Row>)
    requires Keyed(rows)
    ensures |r| == |rows| && Keyed(r)
  {
    if |rows| == 0 then [] else Insert(o, rows[0], SortRows(o, rows[1..]))
  }

  lemma {:induction false} InsertPermutation(o: Order, x: Row, s: seq<Row>)
    requires |x| >= 5 && Keyed(s)
    ensures multiset(Insert(o, x, s)) == multiset(s) + multiset{x}
  {
    if |s| > 0 && !KeyLe(Key(o, x), Key(o, s[0])) {
      InsertPermutation(o, x, s[1..]);
      assert s == [s[0]] + s[1..];
    }
  }

  lemma {:induction false} InsertSorted(o: Order, x: Row, s: seq<Row>)
    requires |x| >= 5 && Keyed(s) && AdjacentSorted(o, s)
    ensures AdjacentSorted(o, Insert(o, x, s))
  {
    if |s| > 0 && !KeyLe(Key(o, x), Key(o, s[0])) {
      KeyLeTotal(Key(o, x), Key(o, s[0]));
      InsertSorted(o, x, s[1..]);
      var t := Insert(o, x, s[1..]);
      assert KeyLe(Key(o, s[0]), Key(o, t[0]));
      var r := [s[0]] + t;
      forall i | 0 <= i < |r| - 1
        ensures KeyLe(Key(o, r[i]), Key(o, r[i + 1]))
      {
        if i > 0 {
          assert r[i] == t[i - 1] && r[i + 1] == t[i];
        }
      }
    }
  }

  lemma WithKeyCons(o: Order, y: Row, s: seq<Row>, k: SortKey)
    requires |y| >= 5 && Keyed(s)
    ensures WithKey(o, [y] + s, k) == (if Key(o, y) == k then [y] else []) + WithKey(o, s, k)
  {
    assert ([y] + s)[0] == y && ([y] + s)[1..] == s;
  }

  /** The rows of `x :: s` with key `k`: inserting never passes an equal key. */
  lemma {:induction false} InsertStable(o: Order, x: Row, s: seq<Row>, k: SortKey)
    requires |x| >= 5 && Keyed(s)
    ensures WithKey(o, Insert(o, x, s), k) == WithKey(o, [x] + s, k)
  {
    if |s| > 0 && !KeyLe(Key(o, x), Key(o, s[0])) {
      var t := Insert(o, x, s[1..]);
      var px := if Key(o, x) == k then [x] else [];
      var p0 := if Key(o, s[0]) == k then [s[0]] else [];
      var w := WithKey(o, s[1..], k);
      assert WithKey(o, Insert(o, x, s), k) == p0 + (px + w) by {
        assert Insert(o, x, s) == [s[0]] + t;
        WithKeyCons(o, s[0], t, k);
        InsertStable(o, x, s[1..], k);
        WithKeyCons(o, x, s[1..], k);
      }
      assert WithKey(o, [x] + s, k) == px + (p0 + w) by {
        WithKeyCons(o, x, s, k);
        assert s == [s[0]] + s[1..];
        WithKeyCons(o, s[0], s[1..], k);
      }
      assert px == [] || p0 == [] by {
        KeyLeRefl(Key(o, x));
      }
      if px == [] {
        assert p0 + (px + w) == p0 + w && px + (p0 + w) == p0 + w;
      } else {
        assert p0 + (px + w) == px + w && px + (p0 + w) == px + w;
      }
    }
  }

  lemma {:induction false} AdjacentIsSorted(o: Order, s: seq<Row>)
    requires Keyed(s) && AdjacentSorted(o, s)
    ensures SortedBy(o, s)
  {
    if |s| > 1 {
      var t := s[1..];
      AdjacentIsSorted(o, t);
      forall i, j | 0 <= i < j < |s|
        ensures KeyLe(Key(o, s[i]), Key(o, s[j]))
      {
        if i == 0 && j > 1 {
          assert s[j] == t[j - 1] && s[1] == t[0];
          KeyLeTrans(Key(o, s[0]), Key(o, s[1]), Key(o, s[j]));
        } else if i > 0 {
          assert s[i] == t[i - 1] && s[j] == t[j - 1];
        }
      }
    }
  }

  lemma {:induction false} SortRowsAdjacent(o: Order, rows: seq<Row>)
    requires Keyed(rows)
    ensures AdjacentSorted(o, SortRows(o, rows))
  {
    if |rows| > 0 {
      SortRowsAdjacent(o, rows[1..]);
      InsertSorted(o, rows[0], SortRows(o, rows[1..]));
    }
  }

  /** The sort orders its rows by the key. */
  lemma SortRowsSorted(o: Order, rows: seq<Row>)
    requires Keyed(rows)
    ensures SortedBy(o, SortRows(o, rows))
  {
    SortRowsAdjacent(o, rows);
    AdjacentIsSorted(o, SortRows(o, rows));
  }

  /** The sort only reorders: the same rows, each as often as before. */
  lemma {:induction false} SortRowsPermutation(o: Order, rows: seq<Row>)
    requires Keyed(rows)
    ensures multiset(SortRows(o, rows)) == multiset(rows)
  {
    if |rows| > 0 {
      var t := SortRows(o, rows[1..]);
      SortRowsPermutation(o, rows[1..]);
      InsertPermutation(o, rows[0], t);
      assert SortRows(o, rows) == Insert(o, rows[0], t);
      assert rows == [rows[0]] + rows[1..];
      assert multiset(rows) == multiset(rows[1..]) + multiset{rows[0]};
    }
  }

  /** The sort is stable: rows with equal keys keep their input order. */
  lemma {:induction false} SortRowsStable(o: Order, rows: seq<Row>, k: SortKey)
    requires Keyed(rows)
    ensures WithKey(o, SortRows(o, rows), k) == WithKey(o, rows, k)
  {
    if |rows| > 0 {
      var t := SortRows(o, rows[1..]);
      SortRowsStable(o, rows[1..], k);
      InsertStable(o, rows[0], t, k);
      assert ([rows[0]] + t)[1..] == t;
    }
  }

  // ------------------------------------------------------------ the views

  /** What a command shows: one of its two "nothing to show" messages, or a table. */
  datatype Listing = NoTasks | NoTasksToday | Table(rows: seq<Row>)

  /** `[... for i, task in enumerate(tasks) if task[3] == today]`: the rows dated today. */
  function DatedToday(rows: seq<Row>, today: string): (r: seq<Row>)
    requires Keyed(rows)
    ensures Keyed(r) && |r| <= |rows|
  {
    if |rows| == 0 then []
    else (if rows[0][4] == today then [rows[0]] else []) + DatedToday(rows[1..], today)
  }

  /** `list`: an empty file shows "No tasks to show", otherwise every row, sorted. */
  function List(lines: seq<string>, today: string): (r: Listing)
    requires WellFormed(lines)
    ensures r.NoTasks? <==> |lines| == 0
    ensures !r.NoTasksToday?
  {
    if |lines| == 0 then NoTasks else Table(SortRows(ListOrder(today), WithIds(lines)))
  }

  /** `today`: the rows dated today, sorted by (priority, estimate). */
  function Today(lines: seq<string>, today: string): (r: Listing)
    requires WellFormed(lines)
    ensures !r.NoTasks?
  {
    if |lines| == 0 then NoTasksToday
    else
      var rows := DatedToday(WithIds(lines), today);
      if |rows| == 0 then NoTasksToday else Table(SortRows(TodayOrder, rows))
  }

  // ------------------------------------------------------- what list shows

  /** `list` shows each line once, as its ID followed by its fields. */
  lemma ListShowsEveryLine(lines: seq<string>, today: string)
    requires WellFormed(lines) && |lines| > 0
    ensures multiset(List(lines, today).rows) == multiset(WithIds(lines))
  {
    SortRowsPermutation(ListOrder(today), WithIds(lines));
  }

  /**
   * `list` puts every row dated today before every other row; rows dated
   * today follow (priority, estimate), the others (date, priority, estimate).
   */
  lemma ListOrdering(lines: seq<string>, today: string)
    requires WellFormed(lines) && |lines| > 0
    ensures var rows := List(lines, today).rows;
      forall i, j :: 0 <= i < j < |rows| ==>
        |rows[i]| >= 5 && |rows[j]| >= 5 &&
        (rows[j][4] == today ==> rows[i][4] == today) &&
        (rows[i][4] == today && rows[j][4] == today ==>
           FieldsLe([rows[i][2], rows[i][3]], [rows[j][2], rows[j][3]])) &&
        (rows[i][4] != today && rows[j][4] != today ==>
           FieldsLe([rows[i][4], rows[i][2], rows[i][3]], [rows[j][4], rows[j][2], rows[j][3]]))
  {
    SortRowsSorted(ListOrder(today), WithIds(lines));
  }

  /** Rows of `list` that tie on the key keep their file order. */
  lemma ListStable(lines: seq<string>, today: string, k: SortKey)
    requires WellFormed(lines) && |lines| > 0
    ensures WithKey(ListOrder(today), List(lines, today).rows, k) ==
            WithKey(ListOrder(today), WithIds(lines), k)
  {
    SortRowsStable(ListOrder(today), WithIds(lines), k);
  }

  // ------------------------------------------------------ what today shows

  lemma {:induction false} DatedTodayMembers(rows: seq<Row>, today: string, x: Row)
    requires Keyed(rows)
    ensures x in DatedToday(rows, today) <==> x in rows && |x| >= 5 && x[4] == today
  {
    if |rows| > 0 {
      DatedTodayMembers(rows[1..], today, x);
      assert x in rows <==> x == rows[0] || x in rows[1..] by {
        assert rows == [rows[0]] + rows[1..];
      }
    }
  }

  /** The filter keeps every copy of a row dated today and no other row. */
  lemma {:induction false} DatedTodayMultiset(rows: seq<Row>, today: string, x: Row)
    requires Keyed(rows)
    ensures multiset(DatedToday(rows, today))[x] ==
            if |x| >= 5 && x[4] == today then multiset(rows)[x] else 0
  {
    if |rows| > 0 {
      var head := if rows[0][4] == today then [rows[0]] else [];
      DatedTodayMultiset(rows[1..], today, x);
      assert DatedToday(rows, today) == head + DatedToday(rows[1..], today);
      assert multiset(rows) == multiset{rows[0]} + multiset(rows[1..]) by {
        assert rows == [rows[0]] + rows[1..];
      }
    }
  }

  lemma DatedTodayEmpty(rows: seq<Row>, today: string)
    requires Keyed(rows)
    ensures |DatedToday(rows, today)| == 0 <==> forall i :: 0 <= i < |rows| ==> rows[i][4] != today
  {
    if |DatedToday(rows, today)| == 0 {
      forall i | 0 <= i < |rows|
        ensures rows[i][4] != today
      {
        DatedTodayMembers(rows, today, rows[i]);
      }
    } else {
      var x := DatedToday(rows, today)[0];
      DatedTodayMembers(rows, today, x);
    }
  }

  /**
   * `today` shows exactly the lines whose fourth field is today's date, each
   * numbered by its position in the whole file.
   */
  lemma TodayShowsTodaysLines(lines: seq<string>, today: string, row: Row)
    requires WellFormed(lines)
    requires Today(lines, today).Table?
    ensures row in Today(lines, today).rows <==> exists i :: TodayRowOf(lines, today, i, row)
  {
    var all := WithIds(lines);
    var rows := DatedToday(all, today);
    assert Today(lines, today).rows == SortRows(TodayOrder, rows);
    SortedSameMembers(TodayOrder, rows, row);
    DatedTodayMembers(all, today, row);
    WithIdsMembers(lines, today, row);
  }

  /**
   * `today` shows each line dated today as often as the full-file ID rows
   * hold it, and nothing else.
   */
  lemma TodayShowsEachOnce(lines: seq<string>, today: string, x: Row)
    requires WellFormed(lines)
    requires Today(lines, today).Table?
    ensures multiset(Today(lines, today).rows)[x] ==
            if |x| >= 5 && x[4] == today then multiset(WithIds(lines))[x] else 0
    ensures multiset(Today(lines, today).rows)[x] <= 1
  {
    WithIdsOnce(lines, x);
    var rows := DatedToday(WithIds(lines), today);
    assert Today(lines, today).rows == SortRows(TodayOrder, rows);
    SortRowsPermutation(TodayOrder, rows);
    DatedTodayMultiset(WithIds(lines), today, x);
  }

  lemma SortedSameMembers(o: Order, rows: seq<Row>, x: Row)
    requires Keyed(rows)
    ensures x in SortRows(o, rows) <==> x in rows
  {
    SortRowsPermutation(o, rows);
    assert x in SortRows(o, rows) <==> x in multiset(SortRows(o, rows));
    assert x in rows <==> x in multiset(rows);
  }

  /** The displayed form of line `i`, dated today. */
  predicate TodayRowOf(lines: seq<string>, today: string, i: int, row: Row) {
    0 <= i < |lines| && |Fields(lines[i])| >= 4 && Fields(lines[i])[3] == today &&
    row == IdRow(i, lines[i])
  }

  lemma WithIdsMembers(lines: seq<string>, today: string, row: Row)
    requires WellFormed(lines)
    ensures (row in WithIds(lines) && |row| >= 5 && row[4] == today) <==>
            exists i :: TodayRowOf(lines, today, i, row)
  {
    if row in WithIds(lines) && |row| >= 5 && row[4] == today {
      WithIdsMemberIsToday(lines, today, row);
    }
    if exists i :: TodayRowOf(lines, today, i, row) {
      var i :| TodayRowOf(lines, today, i, row);
      WithIdsAt(lines, i);
      assert WithIds(lines)[i] == row;
    }
  }

  lemma WithIdsMemberIsToday(lines: seq<string>, today: string, row: Row)
    requires row in WithIds(lines) && |row| >= 5 && row[4] == today
    ensures exists i :: TodayRowOf(lines, today, i, row)
  {
    var all := WithIds(lines);
    var i :| 0 <= i < |all| && all[i] == row;
    var id, fs := NatToString(i + 1), Fields(lines[i]);
    WithIdsAt(lines, i);
    assert row == [id] + fs;
    assert |fs| >= 4 && fs[3] == today by {
      assert |row| == 1 + |fs| && row[4] == fs[3];
    }
    assert TodayRowOf(lines, today, i, row);
  }

  /**
   * An empty file and a file without a line dated today give the same
   * "No tasks due today" outcome.
   */
  lemma TodayNothingDue(lines: seq<string>, today: string)
    requires WellFormed(lines)
    ensures Today(lines, today) == NoTasksToday <==>
            forall i :: 0 <= i < |lines| ==> Fields(lines[i])[3] != today
  {
    if |lines| > 0 {
      var all := WithIds(lines);
      var rows := DatedToday(all, today);
      assert Today(lines, today) == NoTasksToday <==> |rows| == 0;
      assert |rows| == 0 <==> forall i :: 0 <= i < |all| ==> all[i][4] != today by {
        DatedTodayEmpty(all, today);
      }
      assert (forall i :: 0 <= i < |all| ==> all[i][4] != today) <==>
             (forall i :: 0 <= i < |lines| ==> Fields(lines[i])[3] != today) by {
        WithIdsDates(lines);
      }
    }
  }

  /** The date column of each row is the fourth field of its line. */
  lemma WithIdsDates(lines: seq<string>)
    requires WellFormed(lines)
    ensures forall i :: 0 <= i < |lines| ==> |WithIds(lines)[i]| >= 5 && WithIds(lines)[i][4] == Fields(lines[i])[3]
  {
    forall i | 0 <= i < |lines|
      ensures |WithIds(lines)[i]| >= 5 && WithIds(lines)[i][4] == Fields(lines[i])[3]
    {
      WithIdsAt(lines, i);
    }
  }

  /** `today` orders its rows by (priority, estimate) and keeps ties in file order. */
  lemma TodayOrdering(lines: seq<string>, today: string, k: SortKey)
    requires WellFormed(lines)
    requires Today(lines, today).Table?
    ensures var rows := Today(lines, today).rows;
      forall i, j :: 0 <= i < j < |rows| ==>
        |rows[i]| >= 5 && |rows[j]| >= 5 &&
        FieldsLe([rows[i][2], rows[i][3]], [rows[j][2], rows[j][3]])
    ensures WithKey(TodayOrder, Today(lines, today).rows, k) ==
            WithKey(TodayOrder, DatedToday(WithIds(lines), today), k)
  {
    var rows := DatedToday(WithIds(lines), today);
    SortRowsSorted(TodayOrder, rows);
    SortRowsStable(TodayOrder, rows, k);
  }

  // ------------------------------------------------------------ an example

  /**
   * Three rows, two dated today: `list` puts today's rows first, ordered by
   * priority and then estimate, and the other row after them.
   */
  lemma ListExample()
    ensures SortRows(ListOrder("2024-02-24"), [["1", "milk", "A", "30", "2024-02-24"],
                                               ["2", "eggs", "C", "15", "2024-02-23"],
                                               ["3", "bread", "A", "45", "2024-02-24"]]) ==
            [["1", "milk", "A", "30", "2024-02-24"],
             ["3", "bread", "A", "45", "2024-02-24"],
             ["2", "eggs", "C", "15", "2024-02-23"]]
  {
    var o := ListOrder("2024-02-24");
    var milk, eggs, bread := ["1", "milk", "A", "30", "2024-02-24"], ["2", "eggs", "C", "15", "2024-02-23"],
                             ["3", "bread", "A", "45", "2024-02-24"];
    assert Key(o, milk) == SortKey(0, ["A", "30"]);
    assert Key(o, eggs) == SortKey(1, ["2024-02-23", "C", "15"]);
    assert Key(o, bread) == SortKey(0, ["A", "45"]);
    assert [milk, eggs, bread][1..] == [eggs, bread] && [eggs, bread][1..] == [bread];
    assert SortRows(o, [bread]) == [bread];
    assert !KeyLe(Key(o, eggs), Key(o, bread));
    assert SortRows(o, [eggs, bread]) == [bread, eggs];
    assert StrLt("30", "45") by { assert "30"[0] == '3' && "45"[0] == '4'; }
    assert ["A", "30"][1..] == ["30"] && ["A", "45"][1..] == ["45"];
    assert FieldsLe(["30"], ["45"]);
    assert KeyLe(Key(o, milk), Key(o, bread));
  }

  /** Estimates are compared as text, so a 100-minute task sorts before a 30-minute one. */
  lemma EstimatesCompareAsText()
    ensures SortRows(TodayOrder, [["1", "milk", "A", "30", "2024-02-24"],
                                  ["2", "bread", "A", "100", "2024-02-24"]]) ==
            [["2", "bread", "A", "100", "2024-02-24"],
             ["1", "milk", "A", "30", "2024-02-24"]]
  {
    var milk, bread := ["1", "milk", "A", "30", "2024-02-24"], ["2", "bread", "A", "100", "2024-02-24"];
    assert !StrLe("30", "100") by { assert "30"[0] == '3' && "100"[0] == '1'; }
    assert !FieldsLe(["30"], ["100"]);
    assert ["A", "30"][1..] == ["30"] && ["A", "100"][1..] == ["100"];
    assert !KeyLe(Key(TodayOrder, milk), Key(TodayOrder, bread));
    assert [milk, bread][1..] == [bread];
    assert SortRows(TodayOrder, [bread]) == [bread];
  }
}
