/**
 * The browser session that submits time cards. The driver is modelled by
 * what it receives: every command is appended to `trace`, and the text of
 * the error field is whatever the remote page shows after that history.
 */
module Aim {
  import opened Strings
  import opened Protocol

  /**
   * The browser driver: the commands it has received, the remote page's
   * answer to a read, and which lookups fail. A command that looks up an
   * element raises when the lookup fails, and is then not carried out; the
   * `ok` result says whether it went through.
   */
  class Driver {
    var trace: seq<Command>
    const page: seq<Command> -> string
    const fails: seq<Command> -> bool

    constructor(page: seq<Command> -> string, fails: seq<Command> -> bool)
      ensures trace == [] && this.page == page && this.fails == fails
    {
      trace := [];
      this.page := page;
      this.fails := fails;
    }

    method Get(url: string)
      modifies this
      ensures trace == old(trace) + [Navigate(url)]
    {
      trace := trace + [Navigate(url)];
    }

    method Click(c: Control) returns (ok: bool)
      modifies this
      ensures ok == !fails(old(trace))
      ensures trace == if ok then old(trace) + [Command.Click(c)] else old(trace)
    {
      ok := !fails(trace);
      if ok {
        trace := trace + [Command.Click(c)];
      }
    }

    method Clear(c: Control) returns (ok: bool)
      modifies this
      ensures ok == !fails(old(trace))
      ensures trace == if ok then old(trace) + [Command.Clear(c)] else old(trace)
    {
      ok := !fails(trace);
      if ok {
        trace := trace + [Command.Clear(c)];
      }
    }

    method SendKeys(c: Control, keys: string) returns (ok: bool)
      modifies this
      ensures ok == !fails(old(trace))
      ensures trace == if ok then old(trace) + [Type(c, keys)] else old(trace)
    {
      ok := !fails(trace);
      if ok {
        trace := trace + [Type(c, keys)];
      }
    }

    /** The text of a field, as the page shows it after every command received so far; empty when the lookup raised. */
    method Text(c: Control) returns (text: string, ok: bool)
      modifies this
      ensures ok == !fails(old(trace))
      ensures text == if ok then page(old(trace)) else ""
      ensures trace == if ok then old(trace) + [ReadText(c)] else old(trace)
    {
      ok := !fails(trace);
      text := "";
      if ok {
        text := page(trace);
        trace := trace + [ReadText(c)];
      }
    }

    method Quit()
      modifies this
      ensures trace == old(trace) + [Command.Quit]
    {
      trace := trace + [Command.Quit];
    }
  }

  class AimSession {
    const netid: string
    const shop: string
    const driver: Driver

    constructor(netid: string, driver: Driver)
      ensures this.netid == netid && this.driver == driver && shop == "17 ELECTRICAL"
    {
      this.netid := netid;
      this.shop := "17 ELECTRICAL";
      this.driver := driver;
    }

    /** Entering the session hands back the session itself; it does not log in. */
    method Enter() returns (s: AimSession)
      ensures s == this
      ensures driver.trace == old(driver.trace)
    {
      s := this;
    }

    /** Leaving the session quits the driver and suppresses any exception raised inside it. */
    method Exit() returns (suppress: bool)
      modifies driver
      ensures suppress
      ensures driver.trace == old(driver.trace) + [Command.Quit]
    {
      driver.Quit();
      suppress := true;
    }

    /*
     * The session's steps. Each takes the commands still to be issued,
     * `todo`, which begin with its own; its run of `todo` from before the
     * step is the run of the rest from after it, or stops here if it raised.
     */

    method Click(c: Control, ghost todo: seq<Command>) returns (ok: bool)
      requires todo != [] && todo[0] == Command.Click(c)
      modifies driver
      ensures driver.trace == if ok then old(driver.trace) + [Command.Click(c)] else old(driver.trace)
      ensures Exec(driver.fails, old(driver.trace), todo)
              == if ok then Exec(driver.fails, driver.trace, todo[1..]) else (driver.trace, false)
    {
      ok := driver.Click(c);
    }

    method Clear(c: Control, ghost todo: seq<Command>) returns (ok: bool)
      requires todo != [] && todo[0] == Command.Clear(c)
      modifies driver
      ensures driver.trace == if ok then old(driver.trace) + [Command.Clear(c)] else old(driver.trace)
      ensures Exec(driver.fails, old(driver.trace), todo)
              == if ok then Exec(driver.fails, driver.trace, todo[1..]) else (driver.trace, false)
    {
      ok := driver.Clear(c);
    }

    method SendKeysTo(c: Control, keys: string, ghost todo: seq<Command>) returns (ok: bool)
      requires todo != [] && todo[0] == Type(c, keys)
      modifies driver
      ensures driver.trace == if ok then old(driver.trace) + [Type(c, keys)] else old(driver.trace)
      ensures Exec(driver.fails, old(driver.trace), todo)
              == if ok then Exec(driver.fails, driver.trace, todo[1..]) else (driver.trace, false)
    {
      ok := driver.SendKeys(c, keys);
    }

    /** Clear the detail fields; stops at the first lookup that raises. */
    method ClearFields() returns (ok: bool)
      modifies driver
      ensures (driver.trace, ok) == Exec(driver.fails, old(driver.trace), CLEARS)
    {
      ghost var todo := CLEARS;
      ok := Clear(Workorder, todo);
      if !ok { return; }
      todo := todo[1..];
      ok := Clear(Phase, todo);
      if !ok { return; }
      todo := todo[1..];
      ok := Clear(Description, todo);
      if !ok { return; }
      todo := todo[1..];
      ok := Clear(Action, todo);
      if !ok { return; }
      todo := todo[1..];
      ok := Clear(Hours, todo);
      if !ok { return; }
      todo := todo[1..];
      ok := Clear(LeaveCode, todo);
      if !ok { return; }
      todo := todo[1..];
      ok := Clear(LaborCode, todo);
    }

    /** Type the entry's code and, for a labor code, its workorder, phase and action; stops at the first lookup that raises. */
    method TypeCode(e: SubmitEntry) returns (ok: bool)
      modifies driver
      ensures (driver.trace, ok) == Exec(driver.fails, old(driver.trace), CodeKeys(e))
    {
      ghost var todo := CodeKeys(e);
      if e.code in {"S", "A", "PH", "CT", "HOLIDAY"} {
        ok := SendKeysTo(LeaveCode, e.code, todo);
      } else {
        ok := SendKeysTo(LaborCode, e.code, todo);
        if !ok { return; }
        todo := todo[1..];
        ok := SendKeysTo(Workorder, e.workorder, todo);
        if !ok { return; }
        todo := todo[1..];
        ok := SendKeysTo(Phase, e.phase, todo);
        if !ok { return; }
        todo := todo[1..];
        ok := SendKeysTo(Action, e.action, todo);
      }
    }

    /** Fill the open detail line with one entry; stops at the first lookup that raises. */
    method FillLine(e: SubmitEntry) returns (ok: bool)
      modifies driver
      ensures (driver.trace, ok) == Exec(driver.fails, old(driver.trace), Fill(e))
    {
      ghost var t0 := driver.trace;
      ghost var rest := [Type(Hours, e.hours), Type(Description, e.description)];
      FillSplit(e);
      ExecAppend(driver.fails, t0, CLEARS, CodeKeys(e));
      ExecAppend(driver.fails, t0, CLEARS + CodeKeys(e), rest);
      ok := ClearFields();
      if !ok { return; }
      ok := TypeCode(e);
      if !ok { return; }
      ok := SendKeysTo(Hours, e.hours, rest);
      if !ok { return; }
      ok := SendKeysTo(Description, e.description, rest[1..]);
    }

    /** Open a new card for the employee and date, and its first detail line; stops at the first lookup that raises. */
    method OpenCard(employee: string, date: string) returns (ok: bool)
      modifies driver
      ensures (driver.trace, ok) == Exec(driver.fails, old(driver.trace), Header(Batch(employee, date, [])))
    {
      ghost var todo := Header(Batch(employee, date, []));
      driver.Get(TIMECARD_PAGE);
      todo := todo[1..];
      ok := Click(New, todo);
      if !ok { return; }
      todo := todo[1..];
      ok := SendKeysTo(Person, employee, todo);
      if !ok { return; }
      todo := todo[1..];
      ok := SendKeysTo(WorkDate, date, todo);
      if !ok { return; }
      todo := todo[1..];
      ok := Click(AddFirst, todo);
    }

    /**
     * Commit the filled line, opening the next one, and read the error field
     * the page then shows; stops at the first lookup that raises.
     */
    method CommitLine() returns (error: string, ok: bool)
      modifies driver
      ensures (driver.trace, ok) == Exec(driver.fails, old(driver.trace), COMMIT)
      ensures ok ==> error == driver.page(old(driver.trace) + [Command.Click(AddNext)])
    {
      ghost var todo := COMMIT;
      error := "";
      ok := Click(AddNext, todo);
      if !ok { return; }
      todo := todo[1..];
      error, ok := driver.Text(ErrorMsg);
    }

    /**
     * Enter entry `i` of the batch: fill it then, unless it is the last
     * one, commit it and record its workorder if the page shows an error.
     * The run of the script so far went through the header and the first
     * `i` entries; it now goes through entry `i` too, or ends inside it.
     */
    method EnterLine(e: SubmitEntry, last: bool, errors: seq<string>, ghost b: Batch, ghost t0: seq<Command>, ghost i: nat)
      returns (errors': seq<string>, ok: bool)
      requires i < |b.entries| && e == b.entries[i] && last == (i == |b.entries| - 1)
      requires Exec(driver.fails, t0, Header(b) + Body(b.entries, i)) == (driver.trace, true)
      requires errors == Errors(driver.page, t0, b, i)
      modifies driver
      ensures ok ==> Exec(driver.fails, t0, Header(b) + Body(b.entries, i + 1)) == (driver.trace, true)
      ensures ok ==> errors' == Errors(driver.page, t0, b, i + 1)
      ensures !ok ==> Exec(driver.fails, t0, Script(b)) == (driver.trace, false)
      ensures !ok ==> Reached(b, |driver.trace| - |t0|, |b.entries|) == i + 1
    {
      ExecCompleted(driver.fails, t0, Header(b) + Body(b.entries, i));
      ghost var p := Header(b) + Body(b.entries, i);
      ghost var before := driver.trace;
      assert before == t0 + p;
      errors', ok := EnterBlock(e, last, errors, b, t0, i);
      EntryStep(driver.fails, t0, b, i, driver.trace, ok);
    }

    /** The commands of entry `i`: fill, then commit and check unless it is the last. */
    method EnterBlock(e: SubmitEntry, last: bool, errors: seq<string>, ghost b: Batch, ghost t0: seq<Command>, ghost i: nat)
      returns (errors': seq<string>, ok: bool)
      requires i < |b.entries| && e == b.entries[i] && last == (i == |b.entries| - 1)
      requires driver.trace == t0 + (Header(b) + Body(b.entries, i))
      requires errors == Errors(driver.page, t0, b, i)
      modifies driver
      ensures (driver.trace, ok) == Exec(driver.fails, old(driver.trace), Block(e, i, |b.entries|))
      ensures ok ==> errors' == Errors(driver.page, t0, b, i + 1)
    {
      ghost var before := driver.trace;
      errors' := errors;
      ok := FillLine(e);
      ExecAppend(driver.fails, before, Fill(e), if !last then COMMIT else []);
      if !ok { return; }
      ExecCompleted(driver.fails, before, Fill(e));
      assert driver.trace == t0 + Header(b) + Body(b.entries, i) + Fill(e);
      if !last {
        var error;
        error, ok := CommitLine();
        if !ok { return; }
        assert error == ErrorText(driver.page, t0, b, i);
        if error != "" {
          errors' := errors + [e.workorder];
        }
      }
    }

    /**
     * The loop of `new_timecard` over a batch whose card is open: yield a
     * progress message before each entry, then enter it. A lookup that
     * raises ends the whole script there.
     */
    method EnterLines(entries: seq<SubmitEntry>, ghost b: Batch, ghost t0: seq<Command>)
      returns (messages: seq<string>, errors: seq<string>, ok: bool)
      requires b.entries == entries
      requires Exec(driver.fails, t0, Header(b)) == (driver.trace, true)
      modifies driver
      ensures ok ==> Exec(driver.fails, t0, Header(b) + Body(entries, |entries|)) == (driver.trace, true)
      ensures ok ==> errors == Errors(driver.page, t0, b, |entries|) && messages == ProgressMessages(|entries|, |entries|)
      ensures !ok ==> Exec(driver.fails, t0, Script(b)) == (driver.trace, false)
      ensures !ok ==> messages == ProgressMessages(Reached(b, |driver.trace| - |t0|, |entries|), |entries|)
    {
      var n := |entries|;
      assert Body(entries, 0) == [] && Header(b) + Body(entries, 0) == Header(b);
      errors := [];
      messages := [];
      ok := true;
      var i := 0;
      while i < n
        invariant 0 <= i <= n && ok
        invariant Exec(driver.fails, t0, Header(b) + Body(entries, i)) == (driver.trace, true)
        invariant errors == Errors(driver.page, t0, b, i)
        invariant messages == ProgressMessages(i, n)
      {
        messages := messages + [Progress(i + 1, n)];
        errors, ok := EnterLine(entries[i], i == n - 1, errors, b, t0, i);
        if !ok {
          return;
        }
        i := i + 1;
      }
    }

    /**
     * Submit one time card: open it for the employee and date, fill and
     * commit each entry, checking the error field after every entry but the
     * last, then finish and save. The messages are a progress line before
     * each entry, then the outcome naming the workorders the page rejected.
     * A lookup that raises ends the submission where it is, with the
     * messages yielded so far and no outcome; `completed` says whether the
     * whole script went through.
     */
    method NewTimecard(employee: string, date: string, entries: seq<SubmitEntry>) returns (messages: seq<string>, completed: bool)
      modifies driver
      ensures var b := Batch(employee, date, entries);
              var r := Exec(driver.fails, old(driver.trace), Script(b));
              driver.trace == r.0 && completed == r.1 &&
              messages == Yielded(b, |r.0| - |old(driver.trace)|, r.1, Errors(driver.page, old(driver.trace), b, |entries|))
      ensures var b := Batch(employee, date, entries);
              completed ==> driver.trace == old(driver.trace) + Script(b) &&
                            messages == Messages(|entries|, Errors(driver.page, old(driver.trace), b, |entries|))
    {
      ghost var b := Batch(employee, date, entries);
      ghost var t0 := driver.trace;
      ghost var errs := Errors(driver.page, t0, b, |entries|);
      messages := [];
      completed := OpenCard(employee, date);
      assert Header(Batch(employee, date, [])) == Header(b);
      if !completed {
        RaisedInHeader(driver.fails, t0, b, driver.trace);
        YieldedBeforeEntries(b, |driver.trace| - |t0|, errs);
        return;
      }
      var errors;
      messages, errors, completed := EnterLines(entries, b, t0);
      if !completed {
        return;
      }
      ExecCompleted(driver.fails, t0, Header(b) + Body(entries, |entries|));
      completed := Click(Done, FOOTER);
      if completed {
        completed := Click(Save, FOOTER[1..]);
      }
      FooterRun(driver.fails, t0, b, driver.trace, completed);
      YieldedAfterEntries(b, |driver.trace| - |t0|, completed, errs);
      if !completed {
        return;
      }
      if errors != [] {
        messages := messages + [ERROR_PREFIX + Join(errors, ", ") + " \U{1F92C}"];
      } else {
        messages := messages + [DONE_MESSAGE];
      }
      ExecCompleted(driver.fails, t0, Script(b));
    }
  }
}
