/**
 * The time-entry form: the values it opens with (`reset`) and the record
 * `on_done` builds from what was entered (zero-padded workorder and phase,
 * dropdown values turned back into names, hours parsed).
 */
module Forms {
  import opened Wrappers
  import opened Entries
  import opened Codes

  /** A string of `n` zeros. */
  function Zeros(n: nat): (r: string)
    ensures |r| == n && forall i :: 0 <= i < n ==> r[i] == '0'
  {
    seq(n, i => '0')
  }

  predicate Signed(s: string)
  {
    |s| > 0 && (s[0] == '+' || s[0] == '-')
  }

  /**
   * Python's `str.zfill`: pad with zeros on the left up to `width`, after a
   * leading sign if there is one; a string already that long is returned as is.
   */
  function ZFill(s: string, width: int): (r: string)
    ensures |s| >= width ==> r == s
    ensures |s| < width ==> |r| == width
    ensures |s| < width && !Signed(s) ==> r[..width - |s|] == Zeros(width - |s|) && r[width - |s|..] == s
    ensures |s| < width && Signed(s) ==>
              r[0] == s[0] && r[1..width - |s| + 1] == Zeros(width - |s|) && r[width - |s| + 1..] == s[1..]
  {
    if |s| >= width then s
    else if Signed(s) then [s[0]] + Zeros(width - |s|) + s[1..]
    else Zeros(width - |s|) + s
  }

  /** Padding twice pads no further than padding once. */
  lemma ZFillIdempotent(s: string, width: int)
    ensures ZFill(ZFill(s, width), width) == ZFill(s, width)
  {
  }

  /** An empty workorder or phase becomes all zeros. */
  lemma ZFillEmpty(width: nat)
    ensures ZFill("", width) == Zeros(width)
  {
    if width > 0 {
      assert ZFill("", width)[..width] == ZFill("", width);
    }
  }

  /** A form of digits stays digits once padded. */
  lemma ZFillDigits(s: string, width: int)
    requires forall i :: 0 <= i < |s| ==> '0' <= s[i] <= '9'
    ensures forall i :: 0 <= i < |ZFill(s, width)| ==> '0' <= ZFill(s, width)[i] <= '9'
  {
    if |s| < width {
      var r := ZFill(s, width);
      assert !Signed(s);
      forall i | 0 <= i < |r| ensures '0' <= r[i] <= '9' {
        if i < width - |s| {
          assert r[i] == r[..width - |s|][i];
        } else {
          assert r[i] == r[width - |s|..][i - (width - |s|)];
        }
      }
    }
  }

  /** What the form holds: text fields as typed, the dropdowns as their integer values. */
  datatype EntryForm = EntryForm(
    workDate: Date,
    lineItem: int,
    workorder: string,
    phase: string,
    hours: string,
    description: string,
    action: int,
    timeCode: int)

  /**
   * The form `reset` opens for a new line: the view's date, the next line
   * item after the view's entries, empty text, and the first action and
   * time code.
   */
  function BlankForm(view: TimeCard): (f: EntryForm)
    requires view.date.Some?
    ensures f.workDate == view.date.value && f.lineItem == Size(view)
    ensures f.workorder == f.phase == f.hours == f.description == ""
    ensures f.action in Reversed(ACTION_ITEMS) && Reversed(ACTION_ITEMS)[f.action] == "WORK COMPLETE"
    ensures f.timeCode in Reversed(TIME_CODE_ITEMS) && Reversed(TIME_CODE_ITEMS)[f.timeCode] == "R"
  {
    ActionNamed(1);
    TimeCodeNamed(1);
    EntryForm(view.date.value, |view.entries|, "", "", "", "", 1, 1)
  }

  /**
   * The form `reset` fills from the record being edited: hours shown as
   * text and the action and time code as their dropdown values; `None`
   * where a name is not in its table, which raises a `KeyError`.
   */
  function FormOf(rec: TimeCardEntry, showHours: real -> string): (f: Option<EntryForm>)
    ensures f.Some? <==> rec.action in Actions() && rec.timeCode in TimeCodes()
    ensures f.Some? ==> f.value.action == Actions()[rec.action] && f.value.timeCode == TimeCodes()[rec.timeCode]
  {
    if rec.action in Actions() && rec.timeCode in TimeCodes() then
      Some(EntryForm(rec.workDate, rec.lineItem, rec.workorder, rec.phase, showHours(rec.hours),
                     rec.description, Actions()[rec.action], TimeCodes()[rec.timeCode]))
    else None
  }

  /**
   * `on_done`'s record: the time code and action looked up in the reverse
   * tables, the hours parsed (`parseHours` stands for `float`, `None` where
   * it raises), the workorder padded to six digits and the phase to three.
   * `None` where a lookup or the parse raises.
   */
  function Normalize(f: EntryForm, parseHours: string -> Option<real>): (r: Option<TimeCardEntry>)
    ensures r.Some? <==> f.timeCode in Reversed(TIME_CODE_ITEMS) && f.action in Reversed(ACTION_ITEMS) && parseHours(f.hours).Some?
    ensures r.Some? ==> Key(r.value) == (f.workDate, f.lineItem) && |r.value.workorder| >= 6 && |r.value.phase| >= 3
    ensures r.Some? ==> r.value.timeCode in TimeCodes() && TimeCodes()[r.value.timeCode] == f.timeCode
    ensures r.Some? ==> r.value.action in Actions() && Actions()[r.value.action] == f.action
    ensures r.Some? ==> r.value.workorder == ZFill(f.workorder, 6) && r.value.phase == ZFill(f.phase, 3)
    ensures r.Some? ==> r.value.description == f.description && parseHours(f.hours) == Some(r.value.hours)
  {
    TimeCodesInvertible();
    ActionsInvertible();
    if f.timeCode !in Reversed(TIME_CODE_ITEMS) || f.action !in Reversed(ACTION_ITEMS) then None
    else
      match parseHours(f.hours)
      case None => None
      case Some(h) =>
        Some(TimeCardEntry(f.workDate, f.lineItem, ZFill(f.workorder, 6), ZFill(f.phase, 3), h,
                           f.description, Reversed(ACTION_ITEMS)[f.action], Reversed(TIME_CODE_ITEMS)[f.timeCode]))
  }

  lemma ActionNamed(v: int)
    requires 1 <= v <= 4
    ensures v in Reversed(ACTION_ITEMS) && Reversed(ACTION_ITEMS)[v] == ACTION_ITEMS[v - 1].0
  {
    var w := Swapped(ACTION_ITEMS);
    ActionsInvertible();
    AsMapHolds(w);
    assert DistinctKeys(w);
    assert w[v - 1] == (v, ACTION_ITEMS[v - 1].0);
  }

  lemma TimeCodeNamed(v: int)
    requires 1 <= v <= 10
    ensures v in Reversed(TIME_CODE_ITEMS) && Reversed(TIME_CODE_ITEMS)[v] == TIME_CODE_ITEMS[v - 1].0
  {
    var w := Swapped(TIME_CODE_ITEMS);
    TimeCodesInvertible();
    AsMapHolds(w);
    assert DistinctKeys(w);
    assert w[v - 1] == (v, TIME_CODE_ITEMS[v - 1].0);
  }

  /**
   * Opening a stored record and pressing Done without changes gives the
   * record back, when its names are in the tables, its workorder and phase
   * are at full width and its hours read back as shown.
   */
  lemma EditRoundTrip(rec: TimeCardEntry, showHours: real -> string, parseHours: string -> Option<real>)
    requires rec.action in Actions() && rec.timeCode in TimeCodes()
    requires |rec.workorder| >= 6 && |rec.phase| >= 3
    requires parseHours(showHours(rec.hours)) == Some(rec.hours)
    ensures FormOf(rec, showHours).Some?
    ensures Normalize(FormOf(rec, showHours).value, parseHours) == Some(rec)
  {
    ActionsInvertible();
    TimeCodesInvertible();
  }

  /** Saving a form twice in a row stores the same record: normalising a normalised form changes nothing. */
  lemma NormalizeIdempotent(f: EntryForm, showHours: real -> string, parseHours: string -> Option<real>)
    requires Normalize(f, parseHours).Some?
    requires forall h :: parseHours(showHours(h)) == Some(h)
    ensures FormOf(Normalize(f, parseHours).value, showHours).Some?
    ensures Normalize(FormOf(Normalize(f, parseHours).value, showHours).value, parseHours) == Normalize(f, parseHours)
  {
    var rec := Normalize(f, parseHours).value;
    EditRoundTrip(rec, showHours, parseHours);
  }
}
