/**
 * The handlers of the three screens that change the store or the paste
 * buffer: the day view (`TimeCardView`), the entry form (`TimeEntryEdit`)
 * and the search screen (`SearchView`). They are the callers that keep the
 * store's numbering: a new line always gets the next free line item.
 */
module Views {
  import opened Wrappers
  import opened Strings
  import opened Entries
  import opened Table
  import opened Database
  import opened Protocol
  import opened Aim
  import opened Ordering
  import opened Forms

  // ------------------------------------------------------------ listings

  /** One line of a list widget: its cells and the value selecting it yields. */
  datatype Row = Row(cells: seq<string>, value: int)

  /** The value of the day list's last line, "+ Add". */
  const ADD_ROW: int := 100

  /** `values()[2:]` as the day list shows it. */
  function Cells(p: SubmitEntry): seq<string>
  {
    [p.workorder, p.phase, p.hours, p.description, p.action, p.code]
  }

  /** The day list: one line per entry, selecting its position, then "+ Add". */
  function Listing(tc: TimeCard, showHours: real -> string): (r: seq<Row>)
    ensures |r| == |tc.entries| + 1
    ensures forall i :: 0 <= i < |tc.entries| ==> r[i] == Row(Cells(Project(tc.entries[i], showHours)), i)
    ensures r[|tc.entries|] == Row(["+ Add"], ADD_ROW)
  {
    seq(|tc.entries|, i requires 0 <= i < |tc.entries| => Row(Cells(Project(tc.entries[i], showHours)), i))
    + [Row(["+ Add"], ADD_ROW)]
  }

  /**
   * On a numbered day, selecting line i of the listing looks up exactly the
   * entry shown there, and selecting "+ Add" finds no entry as long as the
   * day has at most 100 entries.
   */
  lemma SelectionFindsShownEntry(rows: seq<TimeCardEntry>, d: Date, showHours: real -> string, i: int)
    requires Numbered(Day(rows, d))
    requires 0 <= i < |Listing(TimeCard(Some(d), Day(rows, d)), showHours)|
    ensures var r := Listing(TimeCard(Some(d), Day(rows, d)), showHours)[i];
            if i < |Day(rows, d)| then Find(rows, d, r.value) == Some(Day(rows, d)[i])
            else |Day(rows, d)| <= ADD_ROW ==> Find(rows, d, r.value) == None
  {
    var day := Day(rows, d);
    if i < |day| {
      FindAtPosition(rows, d, i);
    }
  }

  // ------------------------------------------------------------ overhead

  /** A default entry: every field but the date and line item. */
  datatype Template = Template(
    workorder: string, phase: string, hours: real, action: string, description: string, timeCode: string)

  const DEFAULT_ENTRIES: seq<Template> := [
    Template("000032", "039", 0.5, "OVERHEAD", "BREAK", "R"),
    Template("000020", "039", 3.5, "OVERHEAD", "LEAD WORK", "R")
  ]

  function Instantiate(t: Template, d: Date, item: int): TimeCardEntry
  {
    TimeCardEntry(d, item, t.workorder, t.phase, t.hours, t.description, t.action, t.timeCode)
  }

  /** The default entries for date `d`, numbered on from `count`. */
  function Overheads(d: Date, count: int): (r: seq<TimeCardEntry>)
    ensures |r| == |DEFAULT_ENTRIES|
    ensures forall i :: 0 <= i < |r| ==> r[i] == Instantiate(DEFAULT_ENTRIES[i], d, count + i)
  {
    seq(|DEFAULT_ENTRIES|, i requires 0 <= i < |DEFAULT_ENTRIES| => Instantiate(DEFAULT_ENTRIES[i], d, count + i))
  }

  /** `add_record` of each entry in turn. */
  function AddedAll(rows: seq<TimeCardEntry>, es: seq<TimeCardEntry>): seq<TimeCardEntry>
  {
    if es == [] then rows else Added(AddedAll(rows, es[..|es| - 1]), es[|es| - 1])
  }

  /**
   * Adding entries of date d numbered on from the day's size appends them
   * all, in order, to the store and to the day, and keeps every date numbered.
   */
  lemma {:induction false} AddAllAppends(rows: seq<TimeCardEntry>, es: seq<TimeCardEntry>, d: Date)
    requires WellNumbered(rows)
    requires forall i :: 0 <= i < |es| ==> es[i].workDate == d && es[i].lineItem == |Day(rows, d)| + i
    ensures AddedAll(rows, es) == rows + es
    ensures Day(rows + es, d) == Day(rows, d) + es
    ensures WellNumbered(rows + es)
  {
    if es == [] {
      assert rows + es == rows;
    } else {
      var init := es[..|es| - 1];
      var last := es[|es| - 1];
      AddAllAppends(rows, init, d);
      assert Day(rows + init, d) == Day(rows, d) + init;
      AppendPreservesNumbering(rows + init, last);
      assert rows + init + [last] == rows + es by {
        assert init + [last] == es;
      }
      SelectAppend(rows + init, [last], OnDate(d));
      assert Day([last], d) == [last];
      assert Day(rows, d) + init + [last] == Day(rows, d) + es by {
        assert init + [last] == es;
      }
    }
  }

  /**
   * `on_add_overhead` on a day the view shows as stored appends the two
   * default entries with the next two line items, and keeps every date numbered.
   */
  lemma OverheadAppends(rows: seq<TimeCardEntry>, d: Date)
    requires WellNumbered(rows)
    ensures var es := Overheads(d, |Day(rows, d)|);
            AddedAll(rows, es) == rows + es &&
            Day(rows + es, d) == Day(rows, d) + es &&
            WellNumbered(rows + es) &&
            es[0].lineItem == |Day(rows, d)| && es[1].lineItem == |Day(rows, d)| + 1
  {
    AddAllAppends(rows, Overheads(d, |Day(rows, d)|), d);
  }

  /** Pasting re-dates the buffered entry to the shown day and numbers it after the day's entries. */
  function Pasted(buffered: TimeCardEntry, d: Date, count: int): TimeCardEntry
  {
    buffered.(workDate := d, lineItem := count)
  }

  /** On a day the view shows as stored, a paste appends the entry to the day and keeps every date numbered. */
  lemma PasteAppends(rows: seq<TimeCardEntry>, buffered: TimeCardEntry, d: Date)
    requires WellNumbered(rows)
    ensures var e := Pasted(buffered, d, |Day(rows, d)|);
            Added(rows, e) == rows + [e] && Day(rows + [e], d) == Day(rows, d) + [e] && WellNumbered(rows + [e])
  {
    var e := Pasted(buffered, d, |Day(rows, d)|);
    AddAllAppends(rows, [e], d);
    assert AddedAll(rows, [e]) == Added(rows, e) by {
      assert [e][..0] == [];
    }
  }

  // ---------------------------------------------------------- entry form

  /** What the form's widgets hold when Done is pressed: everything but the key. */
  datatype FormInput = FormInput(
    workorder: string, phase: string, hours: string, description: string, action: int, timeCode: int)

  /** `save()`: the widgets' values written over the form; the date and line item stay. */
  function Saved(f: EntryForm, input: FormInput): (g: EntryForm)
    ensures (g.workDate, g.lineItem) == (f.workDate, f.lineItem)
  {
    f.(workorder := input.workorder, phase := input.phase, hours := input.hours,
       description := input.description, action := input.action, timeCode := input.timeCode)
  }

  /**
   * A new line entered through the form on a day the view shows as stored
   * is appended to the store and to the day, and keeps every date numbered.
   */
  lemma NewLineAppends(rows: seq<TimeCardEntry>, d: Date, input: FormInput, parseHours: string -> Option<real>)
    requires WellNumbered(rows)
    requires Normalize(Saved(BlankForm(TimeCard(Some(d), Day(rows, d))), input), parseHours).Some?
    ensures var e := Normalize(Saved(BlankForm(TimeCard(Some(d), Day(rows, d))), input), parseHours).value;
            Key(e) == (d, |Day(rows, d)|) &&
            Added(rows, e) == rows + [e] && Day(rows + [e], d) == Day(rows, d) + [e] && WellNumbered(rows + [e])
  {
    var e := Normalize(Saved(BlankForm(TimeCard(Some(d), Day(rows, d))), input), parseHours).value;
    AddAllAppends(rows, [e], d);
    assert AddedAll(rows, [e]) == Added(rows, e) by {
      assert [e][..0] == [];
    }
  }

  /**
   * Editing a stored line changes only that line's non-key fields, leaves
   * every date numbered, and the line then reads back as entered.
   */
  lemma EditOverwrites(rows: seq<TimeCardEntry>, rec: TimeCardEntry, input: FormInput,
                       showHours: real -> string, parseHours: string -> Option<real>)
    requires WellNumbered(rows) && rec in rows
    requires FormOf(rec, showHours).Some?
    requires Normalize(Saved(FormOf(rec, showHours).value, input), parseHours).Some?
    ensures var e := Normalize(Saved(FormOf(rec, showHours).value, input), parseHours).value;
            Key(e) == Key(rec) &&
            WellNumbered(Updated(rows, e)) && |Updated(rows, e)| == |rows| &&
            Find(Updated(rows, e), rec.workDate, rec.lineItem) == Some(e)
  {
    var e := Normalize(Saved(FormOf(rec, showHours).value, input), parseHours).value;
    UpdatePreservesNumbering(rows, e);
    UpdateThenFind(rows, e);
  }

  // ---------------------------------------------------------- search

  /** One search result line: its number from 1, date, workorder, phase and description. */
  function ResultRow(i: nat, e: TimeCardEntry, showDate: Date -> string): Row
  {
    Row([NatToString(i + 1), showDate(e.workDate), e.workorder, e.phase, e.description], i + 1)
  }

  /** Python's `s[k]`: a negative index counts from the end; past either end raises `IndexError`. */
  function PyIndex<T>(s: seq<T>, k: int): (r: Option<T>)
    ensures r.Some? <==> -|s| <= k < |s|
    ensures 0 <= k < |s| ==> r == Some(s[k])
    ensures -|s| <= k < 0 ==> r == Some(s[|s| + k])
  {
    if 0 <= k < |s| then Some(s[k]) else if -|s| <= k < 0 then Some(s[|s| + k]) else None
  }

  // ============================================================ classes

  /** The module-level paste buffer shared by the day view and the search view. */
  class Clipboard {
    var buffer: Option<TimeCardEntry>

    /** `PASTE_BUFFER = {}`: empty, and falsy like `None`. */
    constructor()
      ensures buffer == None
    {
      buffer := None;
    }
  }

  class TimeCardView {
    const db: TimeCardDatabase
    const clipboard: Clipboard
    /** Python's `str` on an hours value. */
    const showHours: real -> string
    /** The date picker's value. */
    var workDate: Date
    /** The card last loaded; empty until the frame loads it. */
    var cache: TimeCard
    var options: seq<Row>
    var total: real
    var totalInvalid: bool
    var status: string
    var statusInvalid: bool

    /** The view's card is the store's current day. */
    ghost predicate Synced()
      reads this, db
    {
      cache == TimeCard(Some(workDate), Day(db.rows, workDate))
    }

    /**
     * What `_reload_list` leaves: the view shows the store's current day,
     * which is also the store's current view, lists it with "+ Add" last,
     * totals its hours, in the error colour unless they are exactly 8, and
     * clears the status line.
     */
    ghost predicate Loaded()
      reads this, db
    {
      Synced() && db.currentView == cache && options == Listing(cache, showHours) &&
      total == CardHours(cache) && totalInvalid == (total != 8.0) &&
      status == "" && !statusInvalid
    }

    constructor(db: TimeCardDatabase, clipboard: Clipboard, showHours: real -> string, today: Date)
      ensures this.db == db && this.clipboard == clipboard && this.showHours == showHours
      ensures workDate == today && cache == TimeCard(None, []) && options == []
      ensures status == "" && !statusInvalid
    {
      this.db := db;
      this.clipboard := clipboard;
      this.showHours := showHours;
      workDate := today;
      cache := TimeCard(None, []);
      options := [];
      total := 0.0;
      totalInvalid := false;
      status := "";
      statusInvalid := false;
    }

    /** `_reload_list`: load the day, list it, total its hours, clear the status line. */
    method ReloadList()
      modifies this, db
      ensures Loaded()
      ensures db.rows == old(db.rows) && db.activeRecord == old(db.activeRecord) && workDate == old(workDate)
    {
      cache := db.GetTimecard(workDate);
      options := Listing(cache, showHours);
      total := CardHours(cache);
      totalInvalid := total != 8.0;
      status := "";
      statusInvalid := false;
    }

    /** `on_copy`: put the selected line's record, or nothing, in the paste buffer. */
    method Copy(selected: int)
      modifies clipboard
      ensures clipboard.buffer == db.GetRecord(workDate, selected)
    {
      clipboard.buffer := db.GetRecord(workDate, selected);
    }

    /** `on_paste`: add the buffered record to the shown day, after its entries. */
    method Paste()
      modifies this, db, clipboard
      ensures old(clipboard.buffer).None? ==> unchanged(this, db, clipboard)
      ensures old(clipboard.buffer).Some? ==>
                clipboard.buffer == Some(Pasted(old(clipboard.buffer).value, workDate, |old(cache.entries)|)) &&
                db.rows == Added(old(db.rows), clipboard.buffer.value) && Loaded()
      ensures workDate == old(workDate) && db.activeRecord == old(db.activeRecord)
    {
      if clipboard.buffer.Some? {
        var r := Pasted(clipboard.buffer.value, workDate, |cache.entries|);
        clipboard.buffer := Some(r);
        db.AddRecord(r);
        ReloadList();
      }
    }

    /** `on_add_overhead`: add the default entries numbered after the day's entries, then reload. */
    method AddOverhead()
      modifies this, db
      ensures db.rows == AddedAll(old(db.rows), Overheads(workDate, |old(cache.entries)|))
      ensures Loaded()
      ensures workDate == old(workDate) && db.activeRecord == old(db.activeRecord)
    {
      var count := |cache.entries|;
      var templates := Overheads(workDate, count);
      ghost var start := db.rows;
      var i := 0;
      while i < |templates|
        invariant 0 <= i <= |templates|
        invariant db.rows == AddedAll(start, templates[..i])
        invariant db.activeRecord == old(db.activeRecord) && workDate == old(workDate)
      {
        assert templates[..i + 1][..i] == templates[..i];
        db.AddRecord(templates[i]);
        i := i + 1;
      }
      assert templates[..i] == templates;
      var _ := db.GetTimecard(workDate);
      ReloadList();
    }

    /** `on_add`: the form will open a new line. */
    method Add()
      modifies db
      ensures db.activeRecord == None && db.rows == old(db.rows) && db.currentView == old(db.currentView)
    {
      db.activeRecord := None;
    }

    /** `on_edit`: the form will open the selected line's record, or a new line if there is none. */
    method Edit(selected: int)
      modifies db
      ensures db.activeRecord == db.GetRecord(workDate, selected)
      ensures db.rows == old(db.rows) && db.currentView == old(db.currentView)
    {
      db.activeRecord := db.GetRecord(workDate, selected);
    }

    /** `on_remove`: delete the selected line, renumbering the day, then reload. */
    method Remove(selected: int)
      modifies this, db
      ensures db.rows == Deleted(old(db.rows), workDate, selected)
      ensures Loaded()
      ensures workDate == old(workDate) && db.activeRecord == old(db.activeRecord)
    {
      db.DeleteRecord(workDate, selected);
      ReloadList();
    }

    /**
     * Show each message in turn in the status line; once one contains
     * "error" in any case the line stays in the error colour.
     */
    method ShowMessages(messages: seq<string>)
      modifies this
      ensures status == (if messages == [] then old(status) else messages[|messages| - 1])
      ensures statusInvalid <==>
                old(statusInvalid) || exists j :: 0 <= j < |messages| && Contains(Lower(messages[j]), "error")
      ensures workDate == old(workDate) && cache == old(cache)
    {
      var i := 0;
      while i < |messages|
        invariant 0 <= i <= |messages|
        invariant status == (if i == 0 then old(status) else messages[i - 1])
        invariant statusInvalid <==>
                    old(statusInvalid) || exists j :: 0 <= j < i && Contains(Lower(messages[j]), "error")
        invariant workDate == old(workDate) && cache == old(cache)
      {
        if Contains(Lower(messages[i]), "error") {
          statusInvalid := true;
        }
        status := messages[i];
        i := i + 1;
      }
    }

    /**
     * `_on_submit`: submit the day's entries, projected and ordered by
     * workorder, highest first, in one session that is always quit, even
     * when a lookup raised part way. The status line ends on the last
     * message the submission yielded, and turns to the error colour
     * exactly when the submission went through and an entry was rejected.
     */
    method Submit(aim: AimSession, employee: string, showDate: Date -> string)
      requires cache.date.Some?
      modifies this, aim.driver
      ensures workDate == old(workDate) && cache == old(cache)
      ensures var b := Batch(employee, showDate(cache.date.value), Submission(cache.entries, showHours));
              var r := Exec(aim.driver.fails, old(aim.driver.trace), Script(b));
              var errors := Errors(aim.driver.page, old(aim.driver.trace), b, |b.entries|);
              var shown := Yielded(b, |r.0| - |old(aim.driver.trace)|, r.1, errors);
              aim.driver.trace == r.0 + [Command.Quit] &&
              status == (if shown == [] then "logging in..." else shown[|shown| - 1]) &&
              statusInvalid == (old(statusInvalid) || (r.1 && errors != []))
      ensures var b := Batch(employee, showDate(cache.date.value), Submission(cache.entries, showHours));
              var errors := Errors(aim.driver.page, old(aim.driver.trace), b, |b.entries|);
              Exec(aim.driver.fails, old(aim.driver.trace), Script(b)).1 ==>
                aim.driver.trace == old(aim.driver.trace) + Script(b) + [Command.Quit] && status == Outcome(errors)
    {
      var entries := Submission(cache.entries, showHours);
      var date := showDate(cache.date.value);
      status := "Creating webdriver...";
      var session := aim.Enter();
      status := "logging in...";
      ghost var t0 := aim.driver.trace;
      ghost var b := Batch(employee, date, entries);
      var messages, completed := session.NewTimecard(employee, date, entries);
      ShowYielded(messages, b, |aim.driver.trace| - |t0|, completed, Errors(aim.driver.page, t0, b, |entries|));
      var _ := session.Exit();
    }

    /**
     * Show the messages a submission yielded: the status line ends on the
     * last one, and turns to the error colour exactly when the submission
     * went through and an entry was rejected.
     */
    method ShowYielded(messages: seq<string>, ghost b: Batch, ghost sent: int, ghost completed: bool, ghost errors: seq<string>)
      requires messages == Yielded(b, sent, completed, errors)
      modifies this
      ensures status == (if messages == [] then old(status) else messages[|messages| - 1])
      ensures statusInvalid == (old(statusInvalid) || (completed && errors != []))
      ensures completed ==> status == Outcome(errors)
      ensures workDate == old(workDate) && cache == old(cache)
    {
      YieldedIsError(b, sent, completed, errors);
      ShowMessages(messages);
    }
  }

  class TimeEntryEdit {
    const db: TimeCardDatabase
    /** `db.current_view` when the form was built. */
    const cache: TimeCard
    const showHours: real -> string
    /** Python's `float` on the hours text; `None` where it raises. */
    const parseHours: string -> Option<real>
    /** The form's values; `None` for the empty `{}` it holds before `reset` and after Done. */
    var data: Option<EntryForm>

    constructor(db: TimeCardDatabase, showHours: real -> string, parseHours: string -> Option<real>)
      ensures this.db == db && cache == db.currentView && data == None
      ensures this.showHours == showHours && this.parseHours == parseHours
    {
      this.db := db;
      cache := db.currentView;
      this.showHours := showHours;
      this.parseHours := parseHours;
      data := None;
    }

    /**
     * `reset`: open the active record, or a blank line numbered after the
     * view's entries. `ok` is false where the record's action or time code
     * is not in its table (the lookup raises) and the form is left as it was.
     */
    method Reset() returns (ok: bool)
      requires db.activeRecord.None? ==> cache.date.Some?
      modifies this
      ensures db.activeRecord.None? ==> ok && data == Some(BlankForm(cache))
      ensures db.activeRecord.Some? ==> (ok <==> FormOf(db.activeRecord.value, showHours).Some?)
      ensures db.activeRecord.Some? && ok ==> data == FormOf(db.activeRecord.value, showHours)
      ensures !ok ==> data == old(data)
    {
      if db.activeRecord.Some? {
        var f := FormOf(db.activeRecord.value, showHours);
        if f.Some? {
          data := f;
          ok := true;
        } else {
          ok := false;
        }
      } else {
        data := Some(BlankForm(cache));
        ok := true;
      }
    }

    /**
     * `on_done`: save the widgets into the form, normalise it, and add it
     * as a new record when no record is active, or update the active one,
     * which then holds the stored values. `stored` is false where a lookup
     * or the hours parse raises; then the store is left as it was.
     */
    method Done(input: FormInput) returns (stored: bool)
      requires data.Some?
      modifies this, db
      ensures var e := Normalize(Saved(old(data).value, input), parseHours);
              (stored <==> e.Some?) &&
              (!stored ==> db.rows == old(db.rows) && db.activeRecord == old(db.activeRecord)) &&
              (stored && old(db.activeRecord).None? ==> db.rows == Added(old(db.rows), e.value) && db.activeRecord == None) &&
              (stored && old(db.activeRecord).Some? ==> db.rows == Updated(old(db.rows), e.value) && db.activeRecord == Some(e.value))
      ensures stored ==> data == None
      ensures db.currentView == old(db.currentView)
    {
      var e := Normalize(Saved(data.value, input), parseHours);
      if e.None? {
        stored := false;
        return;
      }
      if db.activeRecord.None? {
        db.AddRecord(e.value);
      } else {
        db.UpdateRecord(e.value);
        db.activeRecord := Some(e.value);
      }
      data := None;
      stored := true;
    }
  }

  class SearchView {
    const db: TimeCardDatabase
    const clipboard: Clipboard
    /** Python's `str` on a date. */
    const showDate: Date -> string
    var filter: string
    var date1: Date
    var date2: Date
    var options: seq<Row>
    var total: string
    var records: seq<TimeCardEntry>

    constructor(db: TimeCardDatabase, clipboard: Clipboard, showDate: Date -> string, first: Date, today: Date)
      ensures this.db == db && this.clipboard == clipboard && this.showDate == showDate
      ensures filter == "" && date1 == first && date2 == today && options == [] && records == []
    {
      this.db := db;
      this.clipboard := clipboard;
      this.showDate := showDate;
      filter := "";
      date1 := first;
      date2 := today;
      options := [];
      total := "";
      records := [];
    }

    /** `_reload_list`: search, number the results from 1 in result order, and count them. */
    method ReloadList()
      modifies this
      ensures records == db.FindRecords(filter, date1, date2)
      ensures |options| == |records| && forall i :: 0 <= i < |records| ==> options[i] == ResultRow(i, records[i], showDate)
      ensures total == NatToString(|records|)
      ensures filter == old(filter) && date1 == old(date1) && date2 == old(date2)
    {
      var found := db.FindRecords(filter, date1, date2);
      var rows: seq<Row> := [];
      var i := 0;
      while i < |found|
        invariant 0 <= i <= |found|
        invariant |rows| == i && forall j :: 0 <= j < i ==> rows[j] == ResultRow(j, found[j], showDate)
      {
        rows := rows + [ResultRow(i, found[i], showDate)];
        i := i + 1;
      }
      options := rows;
      total := NatToString(|rows|);
      records := found;
    }

    /** `on_copy`: put result number `selected` in the paste buffer; `ok` is false where the index raises. */
    method Copy(selected: int) returns (ok: bool)
      modifies clipboard
      ensures ok <==> PyIndex(records, selected - 1).Some?
      ensures ok ==> clipboard.buffer == PyIndex(records, selected - 1)
      ensures !ok ==> clipboard.buffer == old(clipboard.buffer)
    {
      var r := PyIndex(records, selected - 1);
      if r.Some? {
        clipboard.buffer := r;
        ok := true;
      } else {
        ok := false;
      }
    }
  }

  /** Selecting the result numbered i + 1 and copying it gives the i-th result: the numbering round-trips. */
  lemma ResultSelectionRoundTrip(records: seq<TimeCardEntry>, showDate: Date -> string, i: int)
    requires 0 <= i < |records|
    ensures ResultRow(i, records[i], showDate).value == i + 1
    ensures PyIndex(records, ResultRow(i, records[i], showDate).value - 1) == Some(records[i])
  {
  }
}
