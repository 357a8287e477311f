/**
 * The `records` table as a sequence of rows in storage order, and the
 * effect of each SQL statement the store issues on that sequence. The
 * store's class (module Database) is specified by these functions; the
 * lemmas here state what the store promises about them, above all that
 * the line items of a date are numbered 0..n-1 in storage order.
 */
module Table {
  import opened Wrappers
  import opened Entries
  import opened Strings

  /** The WHERE clauses the store uses, and their combinations. */
  datatype Filter =
    | OnDate(date: Date)                          // work_date = ?
    | KeyIs(date: Date, item: int)                // work_date = ? AND line_item = ?
    | KeyIn(keys: set<(Date, int)>)
    | Matching(text: string, from: Date, to: Date) // description LIKE '%text%' AND work_date BETWEEN ? AND ?
    | Not(f: Filter)
    | And(f1: Filter, f2: Filter)

  predicate Holds(f: Filter, e: TimeCardEntry)
  {
    match f
    case OnDate(d) => e.workDate == d
    case KeyIs(d, k) => e.workDate == d && e.lineItem == k
    case KeyIn(ks) => Key(e) in ks
    case Matching(t, d1, d2) => Contains(e.description, t) && d1 <= e.workDate <= d2
    case Not(g) => !Holds(g, e)
    case And(g1, g2) => Holds(g1, e) && Holds(g2, e)
  }

  /** The rows a filter selects, in storage order (a SELECT without ORDER BY). */
  function Select(rows: seq<TimeCardEntry>, f: Filter): (r: seq<TimeCardEntry>)
    ensures |r| <= |rows|
    ensures forall e :: e in r <==> e in rows && Holds(f, e)
  {
    if rows == [] then []
    else
      var rest := Select(rows[1..], f);
      if Holds(f, rows[0]) then [rows[0]] + rest else rest
  }

  /** The rows of one date, in storage order. */
  function Day(rows: seq<TimeCardEntry>, d: Date): seq<TimeCardEntry>
  {
    Select(rows, OnDate(d))
  }

  /**
   * A card loaded for a date is truthy exactly when the store holds a row of
   * that date; the empty view the store starts with is falsy.
   */
  lemma LoadedDayTruthy(rows: seq<TimeCardEntry>, d: Date)
    ensures IsComplete(TimeCard(Some(d), Day(rows, d))) <==> exists e :: e in rows && e.workDate == d
    ensures !IsComplete(TimeCard(None, []))
  {
    var day := Day(rows, d);
    if |day| > 0 {
      assert day[0] in day;
    }
    if exists e :: e in rows && e.workDate == d {
      var e :| e in rows && e.workDate == d;
      assert e in day;
    }
  }

  lemma {:induction false} SelectAppend(a: seq<TimeCardEntry>, b: seq<TimeCardEntry>, f: Filter)
    ensures Select(a + b, f) == Select(a, f) + Select(b, f)
  {
    if a == [] {
      assert a + b == b;
    } else {
      assert (a + b)[0] == a[0] && (a + b)[1..] == a[1..] + b;
      SelectAppend(a[1..], b, f);
    }
  }

  /** A selection keeps every copy of a row the filter holds for, and no copy of any other. */
  lemma {:induction false} SelectCounts(rows: seq<TimeCardEntry>, f: Filter)
    ensures forall e :: multiset(Select(rows, f))[e] == if Holds(f, e) then multiset(rows)[e] else 0
  {
    if rows != [] {
      SelectCounts(rows[1..], f);
      assert rows == [rows[0]] + rows[1..];
      assert multiset(rows) == multiset{rows[0]} + multiset(rows[1..]);
    }
  }

  lemma {:induction false} SelectSame(s: seq<TimeCardEntry>, f: Filter, g: Filter)
    requires forall e :: e in s ==> (Holds(f, e) <==> Holds(g, e))
    ensures Select(s, f) == Select(s, g)
  {
    if s != [] {
      SelectSame(s[1..], f, g);
    }
  }

  lemma {:induction false} SelectAll(s: seq<TimeCardEntry>, f: Filter)
    requires forall e :: e in s ==> Holds(f, e)
    ensures Select(s, f) == s
  {
    if s != [] {
      SelectAll(s[1..], f);
    }
  }

  lemma {:induction false} SelectTwice(s: seq<TimeCardEntry>, f: Filter, g: Filter)
    ensures Select(Select(s, f), g) == Select(s, And(f, g))
  {
    if s != [] {
      SelectTwice(s[1..], f, g);
    }
  }

  /** Filtering by A then by B selects the same rows, in the same order, as by B then by A, as SQL's `WHERE A AND B` does. */
  lemma SelectCommute(s: seq<TimeCardEntry>, f: Filter, g: Filter)
    ensures Select(Select(s, f), g) == Select(Select(s, g), f)
  {
    SelectTwice(s, f, g);
    SelectTwice(s, g, f);
    SelectSame(s, And(f, g), And(g, f));
  }

  /** Every row is selected by a filter or by its negation, so the hours split. */
  lemma {:induction false} HoursSplit(s: seq<TimeCardEntry>, f: Filter)
    ensures Hours(s) == Hours(Select(s, f)) + Hours(Select(s, Not(f)))
  {
    if s != [] {
      HoursSplit(s[1..], f);
    }
  }

  // ---------------------------------------------------------------- lookup

  predicate HasKey(rows: seq<TimeCardEntry>, d: Date, k: int)
  {
    exists e :: e in rows && e.workDate == d && e.lineItem == k
  }

  /** `fetchone()` of `SELECT * ... WHERE work_date=? AND line_item=?`: the first match in storage order. */
  function Find(rows: seq<TimeCardEntry>, d: Date, k: int): (r: Option<TimeCardEntry>)
    ensures r.Some? <==> HasKey(rows, d, k)
    ensures r.Some? ==> r.value in rows && r.value.workDate == d && r.value.lineItem == k
  {
    if rows == [] then None
    else if Holds(KeyIs(d, k), rows[0]) then Some(rows[0])
    else Find(rows[1..], d, k)
  }

  /** The first match in a concatenation comes from the left part when it has one. */
  lemma {:induction false} FindAppend(a: seq<TimeCardEntry>, b: seq<TimeCardEntry>, d: Date, k: int)
    ensures Find(a + b, d, k) == if HasKey(a, d, k) then Find(a, d, k) else Find(b, d, k)
  {
    if a == [] {
      assert a + b == b;
    } else {
      assert (a + b)[0] == a[0] && (a + b)[1..] == a[1..] + b;
      FindAppend(a[1..], b, d, k);
      if !Holds(KeyIs(d, k), a[0]) {
        assert HasKey(a, d, k) <==> HasKey(a[1..], d, k);
      }
    }
  }

  // -------------------------------------------------------------- mutation

  /** `add_record`: INSERT only when no row has the entry's key. */
  function Added(rows: seq<TimeCardEntry>, e: TimeCardEntry): seq<TimeCardEntry>
  {
    if HasKey(rows, e.workDate, e.lineItem) then rows else rows + [e]
  }

  /** UPDATE records SET workorder, phase, hours, description, action, time_code of one row. */
  function Overwrite(row: TimeCardEntry, e: TimeCardEntry): TimeCardEntry
  {
    row.(workorder := e.workorder, phase := e.phase, hours := e.hours,
         description := e.description, action := e.action, timeCode := e.timeCode)
  }

  /** `update_record`: every row whose key is the entry's key gets the entry's other fields. */
  function Updated(rows: seq<TimeCardEntry>, e: TimeCardEntry): (r: seq<TimeCardEntry>)
    ensures |r| == |rows|
    ensures forall i :: 0 <= i < |rows| && Key(rows[i]) == Key(e) ==> r[i] == e
    ensures forall i :: 0 <= i < |rows| && Key(rows[i]) != Key(e) ==> r[i] == rows[i]
  {
    if rows == [] then []
    else
      [if Holds(KeyIs(e.workDate, e.lineItem), rows[0]) then Overwrite(rows[0], e) else rows[0]]
      + Updated(rows[1..], e)
  }

  /** The entries with `line_item` set to their position. */
  function Renumbered(s: seq<TimeCardEntry>): (r: seq<TimeCardEntry>)
  {
    seq(|s|, i requires 0 <= i < |s| => s[i].(lineItem := i))
  }

  /**
   * `delete_record(d, k)`: delete the key, then delete every remaining row
   * of the date and insert it again numbered by its position. The re-inserted
   * rows go to the end of storage.
   */
  function Deleted(rows: seq<TimeCardEntry>, d: Date, k: int): seq<TimeCardEntry>
  {
    var kept := Select(rows, Not(KeyIs(d, k)));
    Select(kept, Not(OnDate(d))) + Renumbered(Select(kept, OnDate(d)))
  }

  // ------------------------------------------------------------- numbering

  /** Line items equal storage positions: 0, 1, ..., n-1. */
  predicate Numbered(s: seq<TimeCardEntry>)
  {
    forall i :: 0 <= i < |s| ==> s[i].lineItem == i
  }

  /** The store invariant: every date is numbered. */
  ghost predicate WellNumbered(rows: seq<TimeCardEntry>)
  {
    forall d :: Numbered(Day(rows, d))
  }

  function LineItems(s: seq<TimeCardEntry>): set<int>
  {
    set e | e in s :: e.lineItem
  }

  /** The set of line items of a numbered day is exactly {0, ..., n-1}, with no duplicates. */
  lemma NumberedIsDense(s: seq<TimeCardEntry>)
    requires Numbered(s)
    ensures forall k :: k in LineItems(s) <==> 0 <= k < |s|
    ensures forall i, j :: 0 <= i < j < |s| ==> s[i].lineItem != s[j].lineItem
  {
    forall k | 0 <= k < |s| ensures k in LineItems(s) {
      assert s[k] in s;
    }
  }

  lemma RenumberedIsNumbered(s: seq<TimeCardEntry>)
    ensures Numbered(Renumbered(s))
  {
  }

  lemma SelectNone(s: seq<TimeCardEntry>, f: Filter)
    requires forall e :: e in s ==> !Holds(f, e)
    ensures Select(s, f) == []
  {
  }

  /** Renumbering changes no date. */
  lemma RenumberedDates(s: seq<TimeCardEntry>, d: Date)
    requires forall e :: e in s ==> e.workDate == d
    ensures forall e :: e in Renumbered(s) ==> e.workDate == d
  {
    var r := Renumbered(s);
    forall e | e in r ensures e.workDate == d {
      var i :| 0 <= i < |r| && r[i] == e;
      assert s[i] in s;
    }
  }

  lemma RenumberedStep(s: seq<TimeCardEntry>, i: nat)
    requires i < |s|
    ensures Renumbered(s[..i + 1]) == Renumbered(s[..i]) + [s[i].(lineItem := i)]
  {
  }

  // ------------------------------------------------------- add and update

  /** A second add with the same key, whatever its other fields, leaves the table as the first left it. */
  lemma AddAgain(rows: seq<TimeCardEntry>, e: TimeCardEntry, e2: TimeCardEntry)
    requires Key(e2) == Key(e)
    ensures Added(Added(rows, e), e2) == Added(rows, e)
  {
    assert e in rows + [e];
  }

  /** Adding to an absent key and reading it back returns the entry; adding to a present key changes nothing. */
  lemma AddThenFind(rows: seq<TimeCardEntry>, e: TimeCardEntry)
    ensures !HasKey(rows, e.workDate, e.lineItem) ==>
              Added(rows, e) == rows + [e] && Find(Added(rows, e), e.workDate, e.lineItem) == Some(e)
    ensures HasKey(rows, e.workDate, e.lineItem) ==> Added(rows, e) == rows
  {
    FindAppend(rows, [e], e.workDate, e.lineItem);
  }

  /** An update of an absent key is a no-op. */
  lemma UpdateAbsent(rows: seq<TimeCardEntry>, e: TimeCardEntry)
    requires !HasKey(rows, e.workDate, e.lineItem)
    ensures Updated(rows, e) == rows
  {
    forall i | 0 <= i < |rows| ensures Key(rows[i]) != Key(e) {
      assert rows[i] in rows;
    }
  }

  /** Reading back an updated key gives the new entry. */
  lemma {:induction false} UpdateThenFind(rows: seq<TimeCardEntry>, e: TimeCardEntry)
    requires HasKey(rows, e.workDate, e.lineItem)
    ensures Find(Updated(rows, e), e.workDate, e.lineItem) == Some(e)
  {
    var r := Updated(rows, e);
    if !Holds(KeyIs(e.workDate, e.lineItem), rows[0]) {
      assert rows[1..] + [] == rows[1..];
      assert HasKey(rows[1..], e.workDate, e.lineItem) by {
        var x :| x in rows && x.workDate == e.workDate && x.lineItem == e.lineItem;
        assert x != rows[0];
        assert rows == [rows[0]] + rows[1..];
      }
      UpdateThenFind(rows[1..], e);
      assert r[1..] == Updated(rows[1..], e);
    }
  }

  /** Updating keeps every row's date, so it commutes with taking a date's rows. */
  lemma {:induction false} DayOfUpdated(rows: seq<TimeCardEntry>, e: TimeCardEntry, d: Date)
    ensures Day(Updated(rows, e), d) == Updated(Day(rows, d), e)
  {
    if rows != [] {
      var r := Updated(rows, e);
      assert r == [r[0]] + Updated(rows[1..], e);
      DayOfUpdated(rows[1..], e, d);
      assert Day(r, d) == Select([r[0]], OnDate(d)) + Day(Updated(rows[1..], e), d) by {
        SelectAppend([r[0]], Updated(rows[1..], e), OnDate(d));
      }
      assert Day(rows, d) == Select([rows[0]], OnDate(d)) + Day(rows[1..], d) by {
        assert rows == [rows[0]] + rows[1..];
        SelectAppend([rows[0]], rows[1..], OnDate(d));
      }
    }
  }

  /** Updates never renumber anything. */
  lemma UpdatePreservesNumbering(rows: seq<TimeCardEntry>, e: TimeCardEntry)
    requires WellNumbered(rows)
    ensures WellNumbered(Updated(rows, e))
  {
    forall d ensures Numbered(Day(Updated(rows, e), d)) {
      DayOfUpdated(rows, e, d);
      assert Numbered(Day(rows, d));
    }
  }

  /** Adding an entry numbered with the current size of its date appends it and keeps every date numbered. */
  lemma AppendPreservesNumbering(rows: seq<TimeCardEntry>, e: TimeCardEntry)
    requires WellNumbered(rows)
    requires e.lineItem == |Day(rows, e.workDate)|
    ensures Added(rows, e) == rows + [e]
    ensures WellNumbered(Added(rows, e))
  {
    var day := Day(rows, e.workDate);
    assert Numbered(day);
    forall x | x in rows && x.workDate == e.workDate ensures x.lineItem < |day| {
      assert x in day;
      var j :| 0 <= j < |day| && day[j] == x;
    }
    forall d ensures Numbered(Day(rows + [e], d)) {
      SelectAppend(rows, [e], OnDate(d));
      assert Numbered(Day(rows, d));
    }
  }

  /** Under the invariant the row at a date's position i is the one `get_record(d, i)` returns. */
  lemma FindAtPosition(rows: seq<TimeCardEntry>, d: Date, i: int)
    requires Numbered(Day(rows, d))
    requires 0 <= i < |Day(rows, d)|
    ensures Find(rows, d, i) == Some(Day(rows, d)[i])
  {
    var day := Day(rows, d);
    assert day[i] in day;
    var r := Find(rows, d, i);
    assert r.value in day;
    var j :| 0 <= j < |day| && day[j] == r.value;
  }

  // ---------------------------------------------------------------- delete

  function KeysOf(s: seq<TimeCardEntry>): set<(Date, int)>
  {
    set e | e in s :: Key(e)
  }

  /** One pass of the first loop of `delete_record`: drop one more key. */
  lemma DropKeyStep(s: seq<TimeCardEntry>, ks: set<(Date, int)>, d: Date, k: int)
    ensures Select(Select(s, Not(KeyIn(ks))), Not(KeyIs(d, k))) == Select(s, Not(KeyIn(ks + {(d, k)})))
  {
    SelectTwice(s, Not(KeyIn(ks)), Not(KeyIs(d, k)));
    forall e | e in s
      ensures Holds(And(Not(KeyIn(ks)), Not(KeyIs(d, k))), e) <==> Holds(Not(KeyIn(ks + {(d, k)})), e)
    {
      assert Holds(And(Not(KeyIn(ks)), Not(KeyIs(d, k))), e) <==> Holds(Not(KeyIn(ks)), e) && Holds(Not(KeyIs(d, k)), e);
      assert Holds(Not(KeyIn(ks)), e) <==> Key(e) !in ks;
      assert Holds(Not(KeyIs(d, k)), e) <==> !(e.workDate == d && e.lineItem == k);
      assert Holds(Not(KeyIn(ks + {(d, k)})), e) <==> Key(e) !in ks + {(d, k)};
      assert Key(e) == (d, k) <==> e.workDate == d && e.lineItem == k;
    }
    SelectSame(s, And(Not(KeyIn(ks)), Not(KeyIs(d, k))), Not(KeyIn(ks + {(d, k)})));
  }

  /** After the first loop of `delete_record` no row of the date is left, and nothing else went. */
  lemma DropDayKeys(s: seq<TimeCardEntry>, d: Date)
    ensures Select(s, Not(KeyIn(KeysOf(Day(s, d))))) == Select(s, Not(OnDate(d)))
  {
    forall e | e in s ensures Holds(Not(KeyIn(KeysOf(Day(s, d)))), e) <==> Holds(Not(OnDate(d)), e) {
      if e.workDate == d {
        assert e in Day(s, d);
      }
    }
    SelectSame(s, Not(KeyIn(KeysOf(Day(s, d)))), Not(OnDate(d)));
  }

  lemma DropNoKeys(s: seq<TimeCardEntry>)
    ensures Select(s, Not(KeyIn({}))) == s
  {
    SelectAll(s, Not(KeyIn({})));
  }

  /** The kept rows of the date, in storage order: what `delete_record` renumbers. */
  function Survivors(rows: seq<TimeCardEntry>, d: Date, k: int): seq<TimeCardEntry>
  {
    Select(Day(rows, d), Not(KeyIs(d, k)))
  }

  /**
   * After `delete_record(d, k)` the rows of `d` are the ones whose line item
   * was not `k`, in their old storage order, numbered 0..m-1. No premise: the
   * delete also repairs a numbering with gaps or duplicates.
   */
  lemma DeleteRenumbers(rows: seq<TimeCardEntry>, d: Date, k: int)
    ensures Day(Deleted(rows, d, k), d) == Renumbered(Survivors(rows, d, k))
    ensures Numbered(Day(Deleted(rows, d, k), d))
    ensures |Day(Deleted(rows, d, k), d)| == |Survivors(rows, d, k)|
  {
    var kept := Select(rows, Not(KeyIs(d, k)));
    var mine := Select(kept, OnDate(d));
    SelectAppend(Select(kept, Not(OnDate(d))), Renumbered(mine), OnDate(d));
    SelectTwice(kept, Not(OnDate(d)), OnDate(d));
    SelectNone(kept, And(Not(OnDate(d)), OnDate(d)));
    RenumberedDates(mine, d);
    SelectAll(Renumbered(mine), OnDate(d));
    SelectCommute(rows, Not(KeyIs(d, k)), OnDate(d));
  }

  /** Rows of other dates keep their contents and their storage order. */
  lemma DeleteKeepsOtherRows(rows: seq<TimeCardEntry>, d: Date, k: int)
    ensures Select(Deleted(rows, d, k), Not(OnDate(d))) == Select(rows, Not(OnDate(d)))
  {
    var notKey, notDay := Not(KeyIs(d, k)), Not(OnDate(d));
    var kept := Select(rows, notKey);
    var mine := Select(kept, OnDate(d));
    var others := Select(kept, notDay);
    assert Deleted(rows, d, k) == others + Renumbered(mine);
    SelectAppend(others, Renumbered(mine), notDay);
    RenumberedDates(mine, d);
    SelectNone(Renumbered(mine), notDay);
    SelectAll(others, notDay);
    assert Select(others + Renumbered(mine), notDay) == others;
    SelectCommute(rows, notKey, notDay);
    forall e | e in Select(rows, notDay) ensures Holds(notKey, e) {
      assert Holds(notDay, e);
      assert !Holds(OnDate(d), e);
      assert !Holds(KeyIs(d, k), e);
    }
    SelectAll(Select(rows, notDay), notKey);
  }

  /** As a consequence every other date's card is unchanged. */
  lemma DeleteKeepsOtherDays(rows: seq<TimeCardEntry>, d: Date, k: int, other: Date)
    requires other != d
    ensures Day(Deleted(rows, d, k), other) == Day(rows, other)
  {
    var r := Deleted(rows, d, k);
    DeleteKeepsOtherRows(rows, d, k);
    SelectTwice(r, Not(OnDate(d)), OnDate(other));
    forall e | e in r ensures Holds(And(Not(OnDate(d)), OnDate(other)), e) <==> Holds(OnDate(other), e) {
      assert Holds(Not(OnDate(d)), e) <==> e.workDate != d;
    }
    SelectSame(r, And(Not(OnDate(d)), OnDate(other)), OnDate(other));
    SelectTwice(rows, Not(OnDate(d)), OnDate(other));
    forall e | e in rows ensures Holds(And(Not(OnDate(d)), OnDate(other)), e) <==> Holds(OnDate(other), e) {
      assert Holds(Not(OnDate(d)), e) <==> e.workDate != d;
    }
    SelectSame(rows, And(Not(OnDate(d)), OnDate(other)), OnDate(other));
  }

  /** Deleting keeps every date numbered. */
  lemma DeletePreservesNumbering(rows: seq<TimeCardEntry>, d: Date, k: int)
    requires WellNumbered(rows)
    ensures WellNumbered(Deleted(rows, d, k))
  {
    forall other ensures Numbered(Day(Deleted(rows, d, k), other)) {
      if other == d {
        DeleteRenumbers(rows, d, k);
      } else {
        DeleteKeepsOtherDays(rows, d, k, other);
        assert Numbered(Day(rows, other));
      }
    }
  }

  /** The date's total drops by exactly the hours of the rows deleted. */
  lemma DeleteHours(rows: seq<TimeCardEntry>, d: Date, k: int)
    ensures Hours(Day(Deleted(rows, d, k), d)) == Hours(Day(rows, d)) - Hours(Select(Day(rows, d), KeyIs(d, k)))
  {
    DeleteRenumbers(rows, d, k);
    var m := Survivors(rows, d, k);
    HoursIgnoreLineItems(Renumbered(m), m);
    HoursSplit(Day(rows, d), KeyIs(d, k));
  }

  /** Line items [0, 1, 2] minus 1 become two rows [0, 1], in their old order. */
  lemma DeleteExample(a: TimeCardEntry, b: TimeCardEntry, c: TimeCardEntry)
    requires a.workDate == b.workDate == c.workDate
    requires a.lineItem == 0 && b.lineItem == 1 && c.lineItem == 2
    ensures Day(Deleted([a, b, c], a.workDate, 1), a.workDate) == [a, c.(lineItem := 1)]
  {
    var d := a.workDate;
    var f := Not(KeyIs(d, 1));
    DeleteRenumbers([a, b, c], d, 1);
    SelectAll([a, b, c], OnDate(d));
    assert Holds(f, a) && !Holds(f, b) && Holds(f, c) by {
      assert !Holds(KeyIs(d, 1), a) && Holds(KeyIs(d, 1), b) && !Holds(KeyIs(d, 1), c);
    }
    assert Select([c], f) == [c] by { assert [c][1..] == []; }
    assert Select([b, c], f) == [c] by { assert [b, c][1..] == [c]; }
    assert Select([a, b, c], f) == [a, c] by { assert [a, b, c][1..] == [b, c]; }
    assert Renumbered([a, c]) == [a, c.(lineItem := 1)];
  }

}
