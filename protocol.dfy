/**
 * The submission protocol of `AimSession.new_timecard` as pure functions:
 * the driver commands the script issues for a batch, the error list it
 * collects and the messages it yields. The commands do not depend on the
 * remote page's answers; only the error list does.
 */
module Protocol {
  import opened Strings

  /** The controls of the remote time-card form the script touches. */
  datatype Control =
    | New | Done | Save | AddFirst | AddNext | Person | WorkDate
    | Description | Hours | Workorder | Phase | Action | LeaveCode | LaborCode | ErrorMsg

  /** The element id of each control on the remote page. */
  function ElementId(c: Control): string
  {
    match c
    case New => "mainForm:buttonPanel:new"
    case Done => "mainForm:buttonPanel:done"
    case Save => "mainForm:buttonPanel:save"
    case AddFirst => "mainForm:TIMECARD_EDIT_content:oldTimecardLineList2:addTimecardItemButton2"
    case AddNext => "mainForm:buttonPanel:newDetail"
    case Person => "mainForm:TIMECARD_EDIT_content:ShopPersonZoom:level1"
    case WorkDate => "mainForm:TIMECARD_EDIT_content:workDateValue"
    case Description => "mainForm:TIMECARD_DETAIL_EDIT_content:ae_p_wka_d_description"
    case Hours => "mainForm:TIMECARD_DETAIL_EDIT_content:actHrsValue2"
    case Workorder => "mainForm:TIMECARD_DETAIL_EDIT_content:proposalZoom2:level0"
    case Phase => "mainForm:TIMECARD_DETAIL_EDIT_content:proposalZoom2:level1"
    case Action => "mainForm:TIMECARD_DETAIL_EDIT_content:actionTakenZoom2:level1"
    case LeaveCode => "mainForm:TIMECARD_DETAIL_EDIT_content:leaveCodeZoom2:level0"
    case LaborCode => "mainForm:TIMECARD_DETAIL_EDIT_content:timeTypeZoom2:level0"
    case ErrorMsg => "mainForm:TIMECARD_DETAIL_EDIT_content:messages"
  }

  const TIMECARD_PAGE: string := "https://cmms.admin.washington.edu/fmax/screen/TIMECARD_VIEW"

  /** One call on the browser driver. */
  datatype Command =
    | Navigate(url: string)
    | Click(control: Control)
    | Clear(control: Control)
    | Type(control: Control, text: string)
    | ReadText(control: Control)
    | Quit

  /** One submitted line: (workorder, phase, hours, description, action, code). */
  datatype SubmitEntry = SubmitEntry(
    workorder: string, phase: string, hours: string, description: string, action: string, code: string)

  /** What the script is asked to submit: the employee id, the date as text, and the entries in order. */
  datatype Batch = Batch(employee: string, date: string, entries: seq<SubmitEntry>)

  /** The time codes entered as leave: they fill only the leave-code field. */
  const LEAVE_CODES: set<string> := {"S", "A", "PH", "CT", "HOLIDAY"}

  predicate IsLeave(code: string)
  {
    code in LEAVE_CODES
  }

  /** Open a new time card for the employee and date, and open its first detail line. */
  function Header(b: Batch): seq<Command>
  {
    [Navigate(TIMECARD_PAGE), Click(New), Type(Person, b.employee), Type(WorkDate, b.date), Click(AddFirst)]
  }

  /** The detail fields, in the order they are cleared before each entry. */
  const DETAIL_FIELDS: seq<Control> := [Workorder, Phase, Description, Action, Hours, LeaveCode, LaborCode]

  /** Clear the detail fields, in that order. */
  const CLEARS: seq<Command> := [Clear(Workorder), Clear(Phase), Clear(Description), Clear(Action), Clear(Hours), Clear(LeaveCode), Clear(LaborCode)]

  /** Type the code: a leave code alone, any other as labor code with the workorder, phase and action. */
  function CodeKeys(e: SubmitEntry): seq<Command>
  {
    if IsLeave(e.code) then [Type(LeaveCode, e.code)]
    else [Type(LaborCode, e.code), Type(Workorder, e.workorder), Type(Phase, e.phase), Type(Action, e.action)]
  }

  /** The commands that fill one detail line. */
  function Fill(e: SubmitEntry): seq<Command>
  {
    [Clear(Workorder), Clear(Phase), Clear(Description), Clear(Action), Clear(Hours), Clear(LeaveCode), Clear(LaborCode)]
    + (if IsLeave(e.code) then [Type(LeaveCode, e.code)]
       else [Type(LaborCode, e.code), Type(Workorder, e.workorder), Type(Phase, e.phase), Type(Action, e.action)])
    + [Type(Hours, e.hours), Type(Description, e.description)]
  }

  /** Filling a line clears the fields, types the code, then the hours and the description. */
  lemma FillSplit(e: SubmitEntry)
    ensures Fill(e) == CLEARS + CodeKeys(e) + [Type(Hours, e.hours), Type(Description, e.description)]
  {
  }

  /** Commit the line and open the next one, then read the error field. */
  const COMMIT: seq<Command> := [Click(AddNext), ReadText(ErrorMsg)]

  /** The commands for entry `i` of `n`: the last entry is filled but not committed or checked. */
  function Block(e: SubmitEntry, i: nat, n: nat): seq<Command>
  {
    Fill(e) + (if i != n - 1 then COMMIT else [])
  }

  /** The commands for the first `i` entries. */
  function Body(es: seq<SubmitEntry>, i: nat): seq<Command>
    requires i <= |es|
  {
    if i == 0 then [] else Body(es, i - 1) + Block(es[i - 1], i - 1, |es|)
  }

  /** Finish the card and save it. */
  const FOOTER: seq<Command> := [Click(Done), Click(Save)]

  /** Every command `new_timecard` sends for the batch, in order. */
  function Script(b: Batch): seq<Command>
  {
    Header(b) + Body(b.entries, |b.entries|) + FOOTER
  }

  /**
   * The text of the error field read after entry `i` is committed. `page`
   * gives the field's text as a function of every command the driver has
   * received; `before` is what it received before the script started.
   */
  function ErrorText(page: seq<Command> -> string, before: seq<Command>, b: Batch, i: nat): string
    requires i < |b.entries|
  {
    page(before + Header(b) + Body(b.entries, i) + Fill(b.entries[i]) + [Click(AddNext)])
  }

  /** The workorders of the checked entries whose error field was not empty, among the first `i`. */
  function Errors(page: seq<Command> -> string, before: seq<Command>, b: Batch, i: nat): seq<string>
    requires i <= |b.entries|
  {
    if i == 0 then []
    else
      Errors(page, before, b, i - 1)
      + (if i - 1 != |b.entries| - 1 && ErrorText(page, before, b, i - 1) != "" then [b.entries[i - 1].workorder] else [])
  }

  /** The progress message yielded before entry `i` (counting from 1) of `n`. */
  function Progress(i: nat, n: nat): string
  {
    "Processing... " + NatToString(i) + "/" + NatToString(n)
  }

  /** The progress messages for the first `k` entries. */
  function ProgressMessages(k: nat, n: nat): seq<string>
  {
    if k == 0 then [] else ProgressMessages(k - 1, n) + [Progress(k, n)]
  }

  const DONE_MESSAGE: string := "Done! \U{1F60E}"
  const ERROR_PREFIX: string := "Error, invalid entries: "

  /** The terminal message. */
  function Outcome(errors: seq<string>): string
  {
    if errors == [] then DONE_MESSAGE else ERROR_PREFIX + Join(errors, ", ") + " \U{1F92C}"
  }

  /** Every message the generator yields for a batch whose error list is `errors`. */
  function Messages(n: nat, errors: seq<string>): seq<string>
  {
    ProgressMessages(n, n) + [Outcome(errors)]
  }

  // -------------------------------------------------------------- failures

  /**
   * The commands that first look up their element on the page. A lookup
   * that finds nothing within the driver's implicit wait raises, and the
   * command is not carried out. Navigating and quitting look nothing up.
   */
  predicate LooksUp(c: Command)
  {
    c.Click? || c.Clear? || c.Type? || c.ReadText?
  }

  /**
   * Whether command `j` of `cmds` raises. `fails` says whether a lookup
   * fails, given every command the driver received before it; the driver
   * had received `t` before the first of `cmds`.
   */
  predicate RaisesAt(fails: seq<Command> -> bool, t: seq<Command>, cmds: seq<Command>, j: nat)
    requires j < |cmds|
  {
    LooksUp(cmds[j]) && fails(t + cmds[..j])
  }

  /**
   * Issue `cmds` in turn to a driver that has received `t`: the commands
   * it then has received, and whether the run finished without raising.
   */
  function Exec(fails: seq<Command> -> bool, t: seq<Command>, cmds: seq<Command>): (seq<Command>, bool)
    decreases |cmds|
  {
    if cmds == [] then (t, true)
    else if LooksUp(cmds[0]) && fails(t) then (t, false)
    else Exec(fails, t + [cmds[0]], cmds[1..])
  }

  /**
   * A run sends a prefix of the commands: exactly those before the first
   * one that raises, and all of them when none does.
   */
  lemma {:induction false} ExecSendsPrefix(fails: seq<Command> -> bool, t: seq<Command>, cmds: seq<Command>)
    ensures var r := Exec(fails, t, cmds);
            |t| <= |r.0| <= |t| + |cmds| && r.0 == t + cmds[..|r.0| - |t|]
    ensures var r := Exec(fails, t, cmds);
            forall j :: 0 <= j < |r.0| - |t| ==> !RaisesAt(fails, t, cmds, j)
    ensures var r := Exec(fails, t, cmds);
            r.1 <==> |r.0| == |t| + |cmds|
    ensures var r := Exec(fails, t, cmds);
            r.1 ==> r.0 == t + cmds
    ensures var r := Exec(fails, t, cmds);
            !r.1 ==> RaisesAt(fails, t, cmds, |r.0| - |t|)
    decreases |cmds|
  {
    if cmds != [] {
      assert cmds[..0] == [] && t + cmds[..0] == t;
      if !(LooksUp(cmds[0]) && fails(t)) {
        var t1, rest := t + [cmds[0]], cmds[1..];
        ExecSendsPrefix(fails, t1, rest);
        var r := Exec(fails, t1, rest);
        var k := |r.0| - |t1|;
        assert r.0 == t + cmds[..k + 1] by {
          assert cmds[..k + 1] == [cmds[0]] + rest[..k];
        }
        forall j | 1 <= j < |cmds| ensures RaisesAt(fails, t, cmds, j) == RaisesAt(fails, t1, rest, j - 1) {
          assert cmds[j] == rest[j - 1];
          assert t + cmds[..j] == t1 + rest[..j - 1] by {
            assert cmds[..j] == [cmds[0]] + rest[..j - 1];
          }
        }
      }
    }
  }

  /** Running two command lists in turn is running their concatenation; a run that raised sends nothing more. */
  lemma {:induction false} ExecAppend(fails: seq<Command> -> bool, t: seq<Command>, a: seq<Command>, b: seq<Command>)
    ensures Exec(fails, t, a + b) == if Exec(fails, t, a).1 then Exec(fails, Exec(fails, t, a).0, b) else Exec(fails, t, a)
    decreases |a|
  {
    if a == [] {
      assert a + b == b;
    } else {
      assert (a + b)[0] == a[0] && (a + b)[1..] == a[1..] + b;
      if !(LooksUp(a[0]) && fails(t)) {
        ExecAppend(fails, t + [a[0]], a[1..], b);
      }
    }
  }

  /** A driver whose lookups never fail receives every command. */
  lemma {:induction false} ExecNeverFailing(fails: seq<Command> -> bool, t: seq<Command>, cmds: seq<Command>)
    requires forall h :: !fails(h)
    ensures Exec(fails, t, cmds) == (t + cmds, true)
    decreases |cmds|
  {
    if cmds != [] {
      assert !fails(t);
      ExecNeverFailing(fails, t + [cmds[0]], cmds[1..]);
      assert t + [cmds[0]] + cmds[1..] == t + cmds;
    } else {
      assert t + cmds == t;
    }
  }

  // ---------------------------------------------------------------- shape

  /** Filling a line only clears and types. */
  lemma FillOnlyClearsAndTypes(e: SubmitEntry)
    ensures forall c :: c in Fill(e) ==> c.Clear? || c.Type?
  {
  }

  /** Neither DONE nor SAVE is clicked while entries are filled. */
  lemma {:induction false} BodyNeverFinishes(es: seq<SubmitEntry>, i: nat)
    requires i <= |es|
    ensures Click(Done) !in Body(es, i) && Click(Save) !in Body(es, i)
  {
    if i > 0 {
      BodyNeverFinishes(es, i - 1);
      FillOnlyClearsAndTypes(es[i - 1]);
    }
  }

  /**
   * The script opens the card (navigate, NEW, employee, date, first line),
   * and ends with DONE then SAVE; neither is clicked anywhere else, so each
   * is clicked exactly once, for any batch, the empty one included.
   */
  lemma ScriptFrame(b: Batch)
    ensures |Script(b)| >= 7
    ensures Script(b)[..5] == [Navigate(TIMECARD_PAGE), Click(New), Type(Person, b.employee), Type(WorkDate, b.date), Click(AddFirst)]
    ensures Script(b)[|Script(b)| - 2..] == [Click(Done), Click(Save)]
    ensures Click(Done) !in Script(b)[..|Script(b)| - 2] && Click(Save) !in Script(b)[..|Script(b)| - 2]
  {
    var body := Body(b.entries, |b.entries|);
    BodyNeverFinishes(b.entries, |b.entries|);
    assert Script(b)[..|Script(b)| - 2] == Header(b) + body;
  }

  /** The commands for the first `i` entries are a prefix of those for the first `j`. */
  lemma {:induction false} BodyPrefix(es: seq<SubmitEntry>, i: nat, j: nat)
    requires i <= j <= |es|
    ensures |Body(es, i)| <= |Body(es, j)| && Body(es, j)[..|Body(es, i)|] == Body(es, i)
  {
    if i < j {
      BodyPrefix(es, i, j - 1);
      assert Body(es, j) == Body(es, j - 1) + Block(es[j - 1], j - 1, |es|);
    }
  }

  /** Where entry `i`'s commands start in the script. */
  function EntryStart(b: Batch, i: nat): nat
    requires i <= |b.entries|
  {
    |Header(b)| + |Body(b.entries, i)|
  }

  /**
   * The script holds, after the header, each entry's commands in turn, in
   * the order given: entry i is filled, and committed and checked unless it
   * is the last one.
   */
  lemma EntryCommandsAt(b: Batch, i: nat)
    requires i < |b.entries|
    ensures EntryStart(b, i + 1) == EntryStart(b, i) + |Block(b.entries[i], i, |b.entries|)|
    ensures EntryStart(b, i + 1) + 2 <= |Script(b)|
    ensures Script(b)[EntryStart(b, i)..EntryStart(b, i + 1)] == Block(b.entries[i], i, |b.entries|)
  {
    var es := b.entries;
    BodyPrefix(es, i + 1, |es|);
    var body := Body(es, |es|);
    var pre := Body(es, i + 1);
    assert pre == Body(es, i) + Block(es[i], i, |es|);
    assert Script(b) == Header(b) + pre + body[|pre|..] + FOOTER;
  }

  /** The commands that fill a line clear the seven detail fields in their fixed order, then only type. */
  lemma FillClearsFirst(e: SubmitEntry)
    ensures |Fill(e)| > 9
    ensures forall j :: 0 <= j < 7 ==> Fill(e)[j] == Clear(DETAIL_FIELDS[j])
    ensures forall j :: 7 <= j < |Fill(e)| ==> Fill(e)[j].Type?
    ensures Fill(e)[|Fill(e)| - 2..] == [Type(Hours, e.hours), Type(Description, e.description)]
  {
    var clears := [Clear(Workorder), Clear(Phase), Clear(Description), Clear(Action), Clear(Hours), Clear(LeaveCode), Clear(LaborCode)];
    var codes := if IsLeave(e.code) then [Type(LeaveCode, e.code)]
                 else [Type(LaborCode, e.code), Type(Workorder, e.workorder), Type(Phase, e.phase), Type(Action, e.action)];
    var last := [Type(Hours, e.hours), Type(Description, e.description)];
    assert Fill(e) == clears + codes + last;
    assert forall c: Command :: c in codes + last ==> c.Type?;
    assert forall j :: 7 <= j < |Fill(e)| ==> Fill(e)[j] == (codes + last)[j - 7];
  }

  /** A leave code is typed into the leave-code field, and nothing into workorder, phase, action or labor code. */
  lemma FillLeave(e: SubmitEntry)
    requires IsLeave(e.code)
    ensures Type(LeaveCode, e.code) in Fill(e)
    ensures forall c :: c in Fill(e) && c.Type? ==> c.control == LeaveCode || c.control == Hours || c.control == Description
  {
    assert Fill(e)[7] == Type(LeaveCode, e.code);
  }

  /** Any other code is typed into labor code, along with workorder, phase and action, and never into the leave-code field. */
  lemma FillLabor(e: SubmitEntry)
    requires !IsLeave(e.code)
    ensures Type(LaborCode, e.code) in Fill(e) && Type(Workorder, e.workorder) in Fill(e)
    ensures Type(Phase, e.phase) in Fill(e) && Type(Action, e.action) in Fill(e)
    ensures forall c :: c in Fill(e) && c.Type? ==> c.control != LeaveCode
  {
    assert Fill(e)[7] == Type(LaborCode, e.code);
    assert Fill(e)[8] == Type(Workorder, e.workorder);
    assert Fill(e)[9] == Type(Phase, e.phase);
    assert Fill(e)[10] == Type(Action, e.action);
  }

  /**
   * Three entries, the second rejected by the remote page: exactly its
   * workorder is reported; the first two were both committed and checked,
   * and the third was filled only, before the card was finished and saved.
   */
  lemma PartialFailure(page: seq<Command> -> string, before: seq<Command>, b: Batch)
    requires |b.entries| == 3
    requires ErrorText(page, before, b, 0) == "" && ErrorText(page, before, b, 1) != ""
    ensures Errors(page, before, b, 3) == [b.entries[1].workorder]
    ensures Script(b) == Header(b) + Fill(b.entries[0]) + COMMIT + Fill(b.entries[1]) + COMMIT + Fill(b.entries[2]) + FOOTER
  {
    var es := b.entries;
    assert Errors(page, before, b, 1) == [];
    assert Errors(page, before, b, 2) == [es[1].workorder];
    assert Body(es, 1) == Fill(es[0]) + COMMIT;
    assert Body(es, 2) == Fill(es[0]) + COMMIT + Fill(es[1]) + COMMIT;
  }

  // ---------------------------------------------------------------- errors

  /** Only the checked entries can fail: at most n-1 workorders, each one of an entry whose error field was not empty. */
  lemma {:induction false} ErrorsFromCheckedEntries(page: seq<Command> -> string, before: seq<Command>, b: Batch, i: nat)
    requires i <= |b.entries|
    ensures |Errors(page, before, b, i)| <= (if i == |b.entries| && i > 0 then i - 1 else i)
    ensures forall w :: w in Errors(page, before, b, i) ==>
              exists j :: 0 <= j < i && j != |b.entries| - 1 && ErrorText(page, before, b, j) != "" && b.entries[j].workorder == w
  {
    if i > 0 {
      ErrorsFromCheckedEntries(page, before, b, i - 1);
    }
  }

  /** The batch reports no error exactly when every checked entry's error field was empty. */
  lemma {:induction false} NoErrorsIffAllClear(page: seq<Command> -> string, before: seq<Command>, b: Batch, i: nat)
    requires i <= |b.entries|
    ensures Errors(page, before, b, i) == [] <==>
              forall j :: 0 <= j < i && j != |b.entries| - 1 ==> ErrorText(page, before, b, j) == ""
  {
    if i > 0 {
      NoErrorsIffAllClear(page, before, b, i - 1);
    }
  }

  /** The last entry's error field is never consulted: two pages that agree on the checked reads give the same errors. */
  lemma {:induction false} LastEntryUnchecked(page1: seq<Command> -> string, page2: seq<Command> -> string, before: seq<Command>, b: Batch, i: nat)
    requires i <= |b.entries|
    requires forall j :: 0 <= j < i && j != |b.entries| - 1 ==> ErrorText(page1, before, b, j) == ErrorText(page2, before, b, j)
    ensures Errors(page1, before, b, i) == Errors(page2, before, b, i)
  {
    if i > 0 {
      LastEntryUnchecked(page1, page2, before, b, i - 1);
    }
  }

  /** Conversely, every checked entry among the first `i` whose error field was not empty has its workorder reported. */
  lemma {:induction false} ErrorsReportEveryFailure(page: seq<Command> -> string, before: seq<Command>, b: Batch, i: nat, j: nat)
    requires j < i <= |b.entries|
    requires j != |b.entries| - 1 && ErrorText(page, before, b, j) != ""
    ensures b.entries[j].workorder in Errors(page, before, b, i)
  {
    if j < i - 1 {
      ErrorsReportEveryFailure(page, before, b, i - 1, j);
    }
  }

  /** Errors are reported in processing order: those of the first `i` entries are a prefix of those of the first `k`. */
  lemma {:induction false} ErrorsInOrder(page: seq<Command> -> string, before: seq<Command>, b: Batch, i: nat, k: nat)
    requires i <= k <= |b.entries|
    ensures |Errors(page, before, b, i)| <= |Errors(page, before, b, k)|
    ensures Errors(page, before, b, k)[..|Errors(page, before, b, i)|] == Errors(page, before, b, i)
  {
    if i < k {
      ErrorsInOrder(page, before, b, i, k - 1);
    }
  }

  // -------------------------------------------------------------- messages

  lemma {:induction false} ProgressMessagesAt(k: nat, n: nat)
    ensures |ProgressMessages(k, n)| == k
    ensures forall i :: 0 <= i < k ==> ProgressMessages(k, n)[i] == Progress(i + 1, n)
  {
    if k > 0 {
      ProgressMessagesAt(k - 1, n);
    }
  }

  /** For n entries: "Processing... i/n" for i = 1..n in order, then one terminal message. */
  lemma MessagesShape(n: nat, errors: seq<string>)
    ensures |Messages(n, errors)| == n + 1
    ensures forall i :: 0 <= i < n ==> Messages(n, errors)[i] == Progress(i + 1, n)
    ensures Messages(n, errors)[n] == Outcome(errors)
  {
    ProgressMessagesAt(n, n);
  }

  /** A progress message never reads as an error. */
  lemma ProgressIsNotError(i: nat, n: nat)
    ensures !Contains(Lower(Progress(i, n)), "error")
  {
    var a, b := NatToString(i), NatToString(n);
    var m := Progress(i, n);
    assert m == "Processing... " + a + "/" + b;
    var low := Lower(m);
    forall j | 0 <= j < |low| - 1 && low[j] == 'e' ensures low[j + 1] != 'r' {
    }
    NoErrorWithoutER(low);
  }

  /** The terminal message reads as an error exactly when some entry failed. */
  lemma OutcomeIsError(errors: seq<string>)
    ensures Contains(Lower(Outcome(errors)), "error") <==> errors != []
  {
    var low := Lower(Outcome(errors));
    if errors == [] {
      forall j | 0 <= j < |low| - 1 && low[j] == 'e' ensures low[j + 1] != 'r' {
      }
      NoErrorWithoutER(low);
    } else {
      assert low[..5] == "error";
      ContainsPrefix(low, "error");
    }
  }

  /**
   * The status line of the caller turns to the error colour when a message
   * contains "error" in any case; that happens for some message of the batch
   * exactly when the error list is not empty.
   */
  lemma SomeMessageIsError(n: nat, errors: seq<string>)
    ensures (exists i :: 0 <= i < |Messages(n, errors)| && Contains(Lower(Messages(n, errors)[i]), "error")) <==> errors != []
  {
    MessagesShape(n, errors);
    OutcomeIsError(errors);
    forall i | 0 <= i < n ensures !Contains(Lower(Messages(n, errors)[i]), "error") {
      ProgressIsNotError(i + 1, n);
    }
  }

  // ------------------------------------------------------ a run that raises

  /**
   * How many of the first `i` entries were begun within the first `sent`
   * commands of the script: an entry's progress message is yielded once
   * every command before its own went through.
   */
  function Reached(b: Batch, sent: int, i: nat): nat
    requires i <= |b.entries|
  {
    if i == 0 then 0 else Reached(b, sent, i - 1) + (if EntryStart(b, i - 1) <= sent then 1 else 0)
  }

  /**
   * The messages yielded by a run in which the first `sent` commands of the
   * script went through: a progress message per entry begun, then the
   * outcome only if the run was not interrupted by a raise.
   */
  function Yielded(b: Batch, sent: int, completed: bool, errors: seq<string>): seq<string>
  {
    ProgressMessages(Reached(b, sent, |b.entries|), |b.entries|) + (if completed then [Outcome(errors)] else [])
  }

  /** Entries start strictly later in the script the later they come. */
  lemma EntryStartMonotone(b: Batch, i: nat, j: nat)
    requires i <= j <= |b.entries|
    ensures EntryStart(b, i) <= EntryStart(b, j)
    ensures i < j ==> EntryStart(b, i) < EntryStart(b, j)
  {
    BodyPrefix(b.entries, i, j);
    if i < j {
      BodyPrefix(b.entries, i + 1, j);
      FillClearsFirst(b.entries[i]);
      assert Body(b.entries, i + 1) == Body(b.entries, i) + Block(b.entries[i], i, |b.entries|);
    }
  }

  lemma {:induction false} ReachedCount(b: Batch, sent: int, m: nat, i: nat)
    requires m <= |b.entries| && i <= |b.entries|
    requires forall j :: 0 <= j < |b.entries| ==> (EntryStart(b, j) <= sent <==> j < m)
    ensures Reached(b, sent, i) == if i < m then i else m
  {
    if i > 0 {
      ReachedCount(b, sent, m, i - 1);
    }
  }

  /** A run that raised within the header yields no message. */
  lemma ReachedNone(b: Batch, sent: int)
    requires sent < EntryStart(b, 0)
    ensures Reached(b, sent, |b.entries|) == 0
  {
    forall j | 0 <= j < |b.entries| ensures EntryStart(b, 0) <= EntryStart(b, j) {
      EntryStartMonotone(b, 0, j);
    }
    ReachedCount(b, sent, 0, |b.entries|);
  }

  /** A run that raised within entry i's commands has yielded exactly the first i + 1 progress messages. */
  lemma ReachedInEntry(b: Batch, sent: int, i: nat)
    requires i < |b.entries|
    requires EntryStart(b, i) <= sent < EntryStart(b, i + 1)
    ensures Reached(b, sent, |b.entries|) == i + 1
  {
    forall j | 0 <= j < |b.entries| ensures EntryStart(b, j) <= sent <==> j < i + 1 {
      if j <= i {
        EntryStartMonotone(b, j, i);
      } else {
        EntryStartMonotone(b, i + 1, j);
      }
    }
    ReachedCount(b, sent, i + 1, |b.entries|);
  }

  /** A run that got past every entry has yielded every progress message. */
  lemma ReachedAll(b: Batch, sent: int)
    requires EntryStart(b, |b.entries|) <= sent
    ensures Reached(b, sent, |b.entries|) == |b.entries|
  {
    forall j | 0 <= j < |b.entries| ensures EntryStart(b, j) <= sent {
      EntryStartMonotone(b, j, |b.entries|);
    }
    ReachedCount(b, sent, |b.entries|, |b.entries|);
  }

  /** A run that raised before the first entry yields nothing. */
  lemma YieldedBeforeEntries(b: Batch, sent: int, errors: seq<string>)
    requires sent < EntryStart(b, 0)
    ensures Yielded(b, sent, false, errors) == []
  {
    ReachedNone(b, sent);
  }

  /** A run that got past every entry yields every progress message, then the outcome if it went through. */
  lemma YieldedAfterEntries(b: Batch, sent: int, completed: bool, errors: seq<string>)
    requires EntryStart(b, |b.entries|) <= sent
    ensures Yielded(b, sent, completed, errors)
            == ProgressMessages(|b.entries|, |b.entries|) + (if completed then [Outcome(errors)] else [])
  {
    ReachedAll(b, sent);
  }

  /** A run that went through yields exactly the messages of the whole batch. */
  lemma YieldedCompleted(b: Batch, errors: seq<string>)
    ensures Yielded(b, |Script(b)|, true, errors) == Messages(|b.entries|, errors)
  {
    ReachedAll(b, |Script(b)|);
  }

  /**
   * Some yielded message reads as an error exactly when the run went
   * through and some entry was rejected: a run cut short by a raise
   * yields progress messages only.
   */
  lemma YieldedIsError(b: Batch, sent: int, completed: bool, errors: seq<string>)
    ensures var y := Yielded(b, sent, completed, errors);
            (exists i :: 0 <= i < |y| && Contains(Lower(y[i]), "error")) <==> completed && errors != []
  {
    var n := |b.entries|;
    var k := Reached(b, sent, n);
    var y := Yielded(b, sent, completed, errors);
    ProgressMessagesAt(k, n);
    forall i | 0 <= i < k ensures !Contains(Lower(y[i]), "error") {
      assert y[i] == Progress(i + 1, n);
      ProgressIsNotError(i + 1, n);
    }
    if completed {
      OutcomeIsError(errors);
      assert y[k] == Outcome(errors);
    }
  }

  /** The script up to where entry i starts is the header and the first i entries' commands. */
  lemma ScriptPrefix(b: Batch, i: nat)
    requires i <= |b.entries|
    ensures EntryStart(b, i) <= |Script(b)|
    ensures Script(b)[..EntryStart(b, i)] == Header(b) + Body(b.entries, i)
  {
    BodyPrefix(b.entries, i, |b.entries|);
    var body := Body(b.entries, |b.entries|);
    assert Script(b) == Header(b) + body + FOOTER;
    assert (Header(b) + body + FOOTER)[..|Header(b)| + |Body(b.entries, i)|] == Header(b) + body[..|Body(b.entries, i)|];
  }

  /** A run that went through sent every command. */
  lemma ExecCompleted(fails: seq<Command> -> bool, t: seq<Command>, cmds: seq<Command>)
    ensures Exec(fails, t, cmds).1 ==> Exec(fails, t, cmds).0 == t + cmds
  {
    ExecSendsPrefix(fails, t, cmds);
  }

  /** How many commands a run sends: at most all of them, and fewer when it raised. */
  lemma ExecLength(fails: seq<Command> -> bool, t: seq<Command>, cmds: seq<Command>)
    ensures |t| <= |Exec(fails, t, cmds).0| <= |t| + |cmds|
    ensures !Exec(fails, t, cmds).1 ==> |Exec(fails, t, cmds).0| < |t| + |cmds|
  {
    ExecSendsPrefix(fails, t, cmds);
  }

  /**
   * A run that went through `p` and then raised within `blk` is the run of
   * any script that begins with `p + blk`; it stopped inside `blk`.
   */
  lemma RaisedAfter(fails: seq<Command> -> bool, t0: seq<Command>, p: seq<Command>, blk: seq<Command>, s: seq<Command>)
    requires |p| + |blk| <= |s| && s[..|p| + |blk|] == p + blk
    requires Exec(fails, t0, p) == (t0 + p, true)
    requires !Exec(fails, t0 + p, blk).1
    ensures Exec(fails, t0, s) == Exec(fails, t0 + p, blk)
    ensures |t0| + |p| <= |Exec(fails, t0 + p, blk).0| < |t0| + |p| + |blk|
  {
    ExecAppend(fails, t0, p, blk);
    ExecAppend(fails, t0, p + blk, s[|p| + |blk|..]);
    assert (p + blk) + s[|p| + |blk|..] == s;
    ExecLength(fails, t0 + p, blk);
  }

  /** A run that went through `p` and then ran `f` is the run of `p + f`. */
  lemma RanAfter(fails: seq<Command> -> bool, t0: seq<Command>, p: seq<Command>, f: seq<Command>)
    requires Exec(fails, t0, p) == (t0 + p, true)
    ensures Exec(fails, t0, p + f) == Exec(fails, t0 + p, f)
    ensures |t0| + |p| <= |Exec(fails, t0 + p, f).0|
  {
    ExecAppend(fails, t0, p, f);
    ExecLength(fails, t0 + p, f);
  }

  /** A lookup that fails while the card is being opened ends the script there, before any message. */
  lemma RaisedInHeader(fails: seq<Command> -> bool, t0: seq<Command>, b: Batch, t: seq<Command>)
    requires Exec(fails, t0, Header(b)) == (t, false)
    ensures Exec(fails, t0, Script(b)) == (t, false)
    ensures |t| - |t0| < EntryStart(b, 0)
  {
    HeaderRaisedScript(fails, t0, b);
    ExecLength(fails, t0, Header(b));
  }

  lemma HeaderRaisedScript(fails: seq<Command> -> bool, t0: seq<Command>, b: Batch)
    requires !Exec(fails, t0, Header(b)).1
    ensures Exec(fails, t0, Script(b)) == Exec(fails, t0, Header(b))
  {
    var h := Header(b);
    assert Script(b)[..|h|] == h;
    assert t0 + [] == t0 && [] + h == h;
    RaisedAfter(fails, t0, [], h, Script(b));
  }

  /**
   * A lookup that fails among entry i's commands ends the script there,
   * after the progress messages of the first i + 1 entries.
   */
  lemma RaisedInEntry(fails: seq<Command> -> bool, t0: seq<Command>, b: Batch, i: nat, t: seq<Command>)
    requires i < |b.entries|
    requires Exec(fails, t0, Header(b) + Body(b.entries, i)) == (t0 + (Header(b) + Body(b.entries, i)), true)
    requires Exec(fails, t0 + (Header(b) + Body(b.entries, i)), Block(b.entries[i], i, |b.entries|)) == (t, false)
    ensures Exec(fails, t0, Script(b)) == (t, false)
    ensures Reached(b, |t| - |t0|, |b.entries|) == i + 1
  {
    var es := b.entries;
    var p := Header(b) + Body(es, i);
    var blk := Block(es[i], i, |es|);
    assert p + blk == Header(b) + Body(es, i + 1);
    ScriptPrefix(b, i + 1);
    RaisedAfter(fails, t0, p, blk, Script(b));
    ReachedInEntry(b, |t| - |t0|, i);
  }

  /**
   * One more entry's commands: a run of the script that went through the
   * header and the first i entries either goes through entry i too, or
   * ends inside it.
   */
  lemma EntryStep(fails: seq<Command> -> bool, t0: seq<Command>, b: Batch, i: nat, t: seq<Command>, ok: bool)
    requires i < |b.entries|
    requires Exec(fails, t0, Header(b) + Body(b.entries, i)) == (t0 + (Header(b) + Body(b.entries, i)), true)
    requires Exec(fails, t0 + (Header(b) + Body(b.entries, i)), Block(b.entries[i], i, |b.entries|)) == (t, ok)
    ensures ok ==> t == t0 + (Header(b) + Body(b.entries, i + 1))
    ensures ok ==> Exec(fails, t0, Header(b) + Body(b.entries, i + 1)) == (t, true)
    ensures !ok ==> Exec(fails, t0, Script(b)) == (t, false) && Reached(b, |t| - |t0|, |b.entries|) == i + 1
  {
    if ok {
      var p := Header(b) + Body(b.entries, i);
      var blk := Block(b.entries[i], i, |b.entries|);
      assert p + blk == Header(b) + Body(b.entries, i + 1);
      ExecAppend(fails, t0, p, blk);
      ExecCompleted(fails, t0 + p, blk);
      assert t0 + p + blk == t0 + (p + blk);
    } else {
      RaisedInEntry(fails, t0, b, i, t);
    }
  }

  /** Once every entry went through, the run of the script is the run of its footer, after every progress message. */
  lemma FooterRun(fails: seq<Command> -> bool, t0: seq<Command>, b: Batch, t: seq<Command>, ok: bool)
    requires Exec(fails, t0, Header(b) + Body(b.entries, |b.entries|)) == (t0 + (Header(b) + Body(b.entries, |b.entries|)), true)
    requires Exec(fails, t0 + (Header(b) + Body(b.entries, |b.entries|)), FOOTER) == (t, ok)
    ensures Exec(fails, t0, Script(b)) == (t, ok)
    ensures EntryStart(b, |b.entries|) <= |t| - |t0|
  {
    RanAfter(fails, t0, Header(b) + Body(b.entries, |b.entries|), FOOTER);
  }
}
