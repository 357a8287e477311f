/**
 * `TimeCardDatabase`: the store object. Its table is the row sequence
 * `rows` in storage order; every method is specified by the functions of
 * module Table on that sequence.
 */
module Database {
  import opened Wrappers
  import opened Entries
  import opened Table

  class TimeCardDatabase {
    /** The `records` table, in storage order. */
    var rows: seq<TimeCardEntry>
    /** The card `get_timecard` returned last. */
    var currentView: TimeCard
    /** The entry the edit form works on; `None` when a new entry is being added. */
    var activeRecord: Option<TimeCardEntry>

    /** Opening a store keeps the rows an existing file already holds (CREATE TABLE IF NOT EXISTS). */
    constructor (existing: seq<TimeCardEntry>)
      ensures rows == existing
      ensures currentView == TimeCard(None, [])
      ensures activeRecord == None
    {
      rows := existing;
      currentView := TimeCard(None, []);
      activeRecord := None;
    }

    /** `get_record`: the first row with the key, if any. */
    function GetRecord(d: Date, k: int): (r: Option<TimeCardEntry>)
      reads this
      ensures r.Some? <==> exists e :: e in rows && Key(e) == (d, k)
      ensures r.Some? ==> r.value in rows && Key(r.value) == (d, k)
    {
      Find(rows, d, k)
    }

    /** `update_record`. */
    method UpdateRecord(e: TimeCardEntry)
      modifies this
      ensures rows == Updated(old(rows), e)
      ensures currentView == old(currentView) && activeRecord == old(activeRecord)
    {
      rows := Updated(rows, e);
    }

    /** `add_record`: insert unless `get_record` finds the key. */
    method AddRecord(e: TimeCardEntry)
      modifies this
      ensures rows == Added(old(rows), e)
      ensures currentView == old(currentView) && activeRecord == old(activeRecord)
    {
      var existing := GetRecord(e.workDate, e.lineItem);
      if existing.None? {
        rows := rows + [e];
      }
    }

    /** `_delete_record`: DELETE every row with the key. */
    method DeleteRow(d: Date, k: int)
      modifies this
      ensures rows == Select(old(rows), Not(KeyIs(d, k)))
      ensures currentView == old(currentView) && activeRecord == old(activeRecord)
    {
      rows := Select(rows, Not(KeyIs(d, k)));
    }

    /** `get_timecard`: the rows of the date in storage order; also the new current view. */
    method GetTimecard(d: Date) returns (tc: TimeCard)
      modifies this
      ensures tc == TimeCard(Some(d), Day(rows, d))
      ensures currentView == tc
      ensures rows == old(rows) && activeRecord == old(activeRecord)
    {
      tc := TimeCard(Some(d), Day(rows, d));
      currentView := tc;
    }

    /**
     * `delete_record`: delete the key, then delete each remaining row of the
     * date and add it back with `line_item` set to its position. The second
     * loop changes the entries of the current view in place, so the view ends
     * up renumbered too.
     */
    method DeleteRecord(d: Date, k: int)
      modifies this
      ensures rows == Deleted(old(rows), d, k)
      ensures currentView == TimeCard(Some(d), Renumbered(Survivors(old(rows), d, k)))
      ensures activeRecord == old(activeRecord)
    {
      DeleteRow(d, k);
      ghost var kept := rows;
      var tc := GetTimecard(d);
      DeleteEach(tc.entries);
      DropDayKeys(kept, d);
      OffDateRows(kept, d);
      AddRenumbered(d, tc.entries);
      SelectCommute(old(rows), Not(KeyIs(d, k)), OnDate(d));
    }

    /** The first loop of `delete_record`: `_delete_record` of each entry's key. */
    method DeleteEach(entries: seq<TimeCardEntry>)
      modifies this
      ensures rows == Select(old(rows), Not(KeyIn(KeysOf(entries))))
      ensures currentView == old(currentView) && activeRecord == old(activeRecord)
    {
      ghost var start := rows;
      assert KeysOf(entries[..0]) == {};
      DropNoKeys(start);
      var i := 0;
      while i < |entries|
        invariant 0 <= i <= |entries|
        invariant rows == Select(start, Not(KeyIn(KeysOf(entries[..i]))))
        invariant currentView == old(currentView) && activeRecord == old(activeRecord)
      {
        var e := entries[i];
        DropKeyStep(start, KeysOf(entries[..i]), e.workDate, e.lineItem);
        assert KeysOf(entries[..i + 1]) == KeysOf(entries[..i]) + {Key(e)} by {
          assert entries[..i + 1] == entries[..i] + [e];
        }
        DeleteRow(e.workDate, e.lineItem);
        i := i + 1;
      }
      assert entries[..i] == entries;
    }

    /**
     * The second loop of `delete_record`: set each entry's `line_item` to its
     * position, in the current view as well, and add it.
     */
    method AddRenumbered(d: Date, entries: seq<TimeCardEntry>)
      requires forall x :: x in rows ==> x.workDate != d
      requires forall x :: x in entries ==> x.workDate == d
      requires currentView == TimeCard(Some(d), entries)
      modifies this
      ensures rows == old(rows) + Renumbered(entries)
      ensures currentView == TimeCard(Some(d), Renumbered(entries))
      ensures activeRecord == old(activeRecord)
    {
      ghost var others := rows;
      assert Renumbered(entries[..0]) == [] && entries[0..] == entries;
      var i := 0;
      while i < |entries|
        invariant 0 <= i <= |entries|
        invariant rows == others + Renumbered(entries[..i])
        invariant currentView == TimeCard(Some(d), Renumbered(entries[..i]) + entries[i..])
        invariant activeRecord == old(activeRecord)
      {
        var e := entries[i].(lineItem := i);
        ViewStep(entries, i);
        currentView := currentView.(entries := currentView.entries[i := e]);
        assert entries[i] in entries;
        NotYetNumbered(others, entries, d, i);
        AddRecord(e);
        RenumberedStep(entries, i);
        i := i + 1;
      }
      assert entries[..i] == entries && entries[i..] == [];
    }

    /** `find_records`: rows whose description contains the text and whose date is in [d1, d2], in storage order. */
    function FindRecords(text: string, d1: Date, d2: Date): (r: seq<TimeCardEntry>)
      reads this
      ensures forall e :: e in r <==> e in rows && Strings.Contains(e.description, text) && d1 <= e.workDate <= d2
      ensures forall e :: multiset(r)[e] == if Strings.Contains(e.description, text) && d1 <= e.workDate <= d2 then multiset(rows)[e] else 0
    {
      SelectCounts(rows, Matching(text, d1, d2));
      Select(rows, Matching(text, d1, d2))
    }
  }

  /**
   * The search keeps storage order: a row added to the store comes last
   * among the results, exactly when it matches.
   */
  lemma FindAfterAdd(rows: seq<TimeCardEntry>, e: TimeCardEntry, text: string, d1: Date, d2: Date)
    ensures Select(rows + [e], Matching(text, d1, d2))
            == Select(rows, Matching(text, d1, d2))
               + (if Strings.Contains(e.description, text) && d1 <= e.workDate <= d2 then [e] else [])
  {
    SelectAppend(rows, [e], Matching(text, d1, d2));
  }

  lemma OffDateRows(s: seq<TimeCardEntry>, d: Date)
    ensures forall x :: x in Select(s, Not(OnDate(d))) ==> x.workDate != d
  {
    forall x | x in Select(s, Not(OnDate(d))) ensures x.workDate != d {
      assert !Holds(OnDate(d), x);
    }
  }

  /** Renumbering the view's entry i in place extends the renumbered prefix by one. */
  lemma ViewStep(s: seq<TimeCardEntry>, i: nat)
    requires i < |s|
    ensures (Renumbered(s[..i]) + s[i..])[i := s[i].(lineItem := i)] == Renumbered(s[..i + 1]) + s[i + 1..]
  {
    RenumberedStep(s, i);
  }

  /** During the second loop of `delete_record` the key (d, i) is still free, so the add appends. */
  lemma NotYetNumbered(others: seq<TimeCardEntry>, day: seq<TimeCardEntry>, d: Date, i: nat)
    requires i < |day| && day[i].workDate == d
    requires forall x :: x in others ==> x.workDate != d
    ensures Added(others + Renumbered(day[..i]), day[i].(lineItem := i))
         == others + Renumbered(day[..i]) + [day[i].(lineItem := i)]
  {
    var r := others + Renumbered(day[..i]);
    forall x | x in r && x.workDate == d ensures x.lineItem != i {
      if x !in others {
        var j :| 0 <= j < i && Renumbered(day[..i])[j] == x;
      }
    }
  }
}
