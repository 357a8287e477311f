/**
 * The order in which a day's entries are submitted: each entry is projected
 * to the six submitted fields, and the projections are sorted by workorder,
 * highest first, so that the low-numbered overhead workorders go last.
 * Python's sort is stable, also with `reverse=True`, so entries with the
 * same workorder keep their order.
 */
module Ordering {
  import opened Strings
  import opened Entries
  import opened Protocol

  /** `values()[2:]`: workorder, phase, hours as text, description, action and time code. */
  function Project(e: TimeCardEntry, showHours: real -> string): (p: SubmitEntry)
    ensures (p.workorder, p.phase, p.hours, p.description, p.action, p.code)
            == (Values(e, showHours).2, Values(e, showHours).3, Values(e, showHours).4,
                Values(e, showHours).5, Values(e, showHours).6, Values(e, showHours).7)
  {
    SubmitEntry(e.workorder, e.phase, showHours(e.hours), e.description, e.action, e.timeCode)
  }

  function Projected(s: seq<TimeCardEntry>, showHours: real -> string): (r: seq<SubmitEntry>)
    ensures |r| == |s| && forall i :: 0 <= i < |s| ==> r[i] == Project(s[i], showHours)
  {
    seq(|s|, i requires 0 <= i < |s| => Project(s[i], showHours))
  }

  /** Each next entry's workorder is at most the one before it. */
  predicate SortedDesc(s: seq<SubmitEntry>)
  {
    forall i :: 0 < i < |s| ==> LessEq(s[i].workorder, s[i - 1].workorder)
  }

  /** Put `x` before the first entry whose workorder is at most its own. */
  function Insert(x: SubmitEntry, t: seq<SubmitEntry>): seq<SubmitEntry>
  {
    if t == [] || LessEq(t[0].workorder, x.workorder) then [x] + t
    else [t[0]] + Insert(x, t[1..])
  }

  /** `sort(key=workorder, reverse=True)`, as a stable insertion sort. */
  function SortDesc(s: seq<SubmitEntry>): seq<SubmitEntry>
  {
    if s == [] then [] else Insert(s[0], SortDesc(s[1..]))
  }

  /** What `_on_submit` hands to the session for a day's entries. */
  function Submission(day: seq<TimeCardEntry>, showHours: real -> string): seq<SubmitEntry>
  {
    SortDesc(Projected(day, showHours))
  }

  /** The entries of `s` with workorder `w`, in order. */
  function WithWorkorder(s: seq<SubmitEntry>, w: string): seq<SubmitEntry>
  {
    if s == [] then []
    else (if s[0].workorder == w then [s[0]] else []) + WithWorkorder(s[1..], w)
  }

  lemma {:induction false} WithWorkorderAppend(a: seq<SubmitEntry>, b: seq<SubmitEntry>, w: string)
    ensures WithWorkorder(a + b, w) == WithWorkorder(a, w) + WithWorkorder(b, w)
  {
    if a == [] {
      assert a + b == b;
    } else {
      assert (a + b)[0] == a[0] && (a + b)[1..] == a[1..] + b;
      WithWorkorderAppend(a[1..], b, w);
    }
  }

  lemma {:induction false} InsertSorted(x: SubmitEntry, t: seq<SubmitEntry>)
    requires SortedDesc(t)
    ensures SortedDesc(Insert(x, t))
    ensures |Insert(x, t)| > 0 && (Insert(x, t)[0] == x || (t != [] && Insert(x, t)[0] == t[0]))
  {
    if t != [] && !LessEq(t[0].workorder, x.workorder) {
      InsertSorted(x, t[1..]);
      LessEqTotal(t[0].workorder, x.workorder);
      var r := Insert(x, t);
      assert r == [t[0]] + Insert(x, t[1..]);
      forall i | 0 < i < |r| ensures LessEq(r[i].workorder, r[i - 1].workorder) {
        if i == 1 {
          if t[1..] != [] && r[1] == t[1] {
            assert LessEq(t[1].workorder, t[0].workorder);
          }
        } else {
          assert r[i] == Insert(x, t[1..])[i - 1] && r[i - 1] == Insert(x, t[1..])[i - 2];
        }
      }
    }
  }

  lemma {:induction false} InsertPermutes(x: SubmitEntry, t: seq<SubmitEntry>)
    ensures multiset(Insert(x, t)) == multiset([x] + t)
  {
    if t != [] && !LessEq(t[0].workorder, x.workorder) {
      InsertPermutes(x, t[1..]);
      assert t == [t[0]] + t[1..];
    }
  }

  /** `x` lands before every entry with its own workorder, so those keep their order. */
  lemma {:induction false} InsertStable(x: SubmitEntry, t: seq<SubmitEntry>, w: string)
    ensures WithWorkorder(Insert(x, t), w) == WithWorkorder([x] + t, w)
  {
    if t == [] || LessEq(t[0].workorder, x.workorder) {
    } else {
      LessEqReflexive(x.workorder);
      assert t[0].workorder != x.workorder;
      InsertStable(x, t[1..], w);
      WithWorkorderAppend([t[0]], Insert(x, t[1..]), w);
      WithWorkorderAppend([x], t[1..], w);
      WithWorkorderAppend([t[0]], t[1..], w);
      WithWorkorderAppend([x], t, w);
      assert [t[0]] + t[1..] == t;
    }
  }

  /**
   * The session receives the entries ordered by workorder, highest first,
   * each exactly as often as given, and with the entries of any one
   * workorder in their original order.
   */
  lemma {:induction false} SortDescCorrect(s: seq<SubmitEntry>)
    ensures SortedDesc(SortDesc(s))
    ensures multiset(SortDesc(s)) == multiset(s)
    ensures forall w :: WithWorkorder(SortDesc(s), w) == WithWorkorder(s, w)
  {
    if s != [] {
      SortDescCorrect(s[1..]);
      InsertSorted(s[0], SortDesc(s[1..]));
      InsertPermutes(s[0], SortDesc(s[1..]));
      assert s == [s[0]] + s[1..];
      forall w ensures WithWorkorder(SortDesc(s), w) == WithWorkorder(s, w) {
        InsertStable(s[0], SortDesc(s[1..]), w);
        WithWorkorderAppend([s[0]], SortDesc(s[1..]), w);
        WithWorkorderAppend([s[0]], s[1..], w);
      }
    }
  }

  /** Sorted descending in the adjacent sense means every later workorder is at most every earlier one. */
  lemma {:induction false} SortedDescPairwise(s: seq<SubmitEntry>)
    requires SortedDesc(s)
    ensures forall i, j :: 0 <= i < j < |s| ==> LessEq(s[j].workorder, s[i].workorder)
  {
    if |s| > 1 {
      SortedDescPairwise(s[1..]);
      forall j | 1 < j < |s| ensures LessEq(s[j].workorder, s[0].workorder) {
        assert LessEq(s[j].workorder, s[1].workorder) by {
          assert s[j] == s[1..][j - 1] && s[1] == s[1..][0];
        }
        LessEqTransitive(s[j].workorder, s[1].workorder, s[0].workorder);
      }
      forall i, j | 0 <= i < j < |s| ensures LessEq(s[j].workorder, s[i].workorder) {
        if i > 0 {
          assert s[j] == s[1..][j - 1] && s[i] == s[1..][i - 1];
        }
      }
    }
  }

  /** The submission holds each of the day's entries, projected, ordered by workorder, highest first. */
  lemma SubmissionCorrect(day: seq<TimeCardEntry>, showHours: real -> string)
    ensures |Submission(day, showHours)| == |day|
    ensures forall i, j :: 0 <= i < j < |day| ==>
              LessEq(Submission(day, showHours)[j].workorder, Submission(day, showHours)[i].workorder)
    ensures multiset(Submission(day, showHours)) == multiset(Projected(day, showHours))
    ensures forall w :: WithWorkorder(Submission(day, showHours), w) == WithWorkorder(Projected(day, showHours), w)
  {
    var p := Projected(day, showHours);
    SortDescCorrect(p);
    SortedDescPairwise(SortDesc(p));
    assert |SortDesc(p)| == |multiset(SortDesc(p))| == |multiset(p)| == |p|;
  }

  /** Workorders 000020, 000032, 000010 are submitted as 000032, 000020, 000010. */
  lemma SubmissionExample(a: SubmitEntry, b: SubmitEntry, c: SubmitEntry)
    requires a.workorder == "000020" && b.workorder == "000032" && c.workorder == "000010"
    ensures SortDesc([a, b, c]) == [b, a, c]
  {
    var s := [a, b, c];
    assert s[1..] == [b, c] && s[1..][1..] == [c] && s[1..][1..][1..] == [];
    assert SortDesc([c]) == [c];
    LessAtFirstDifference(c.workorder, b.workorder, 4);
    assert SortDesc([b, c]) == [b, c];
    LessAtFirstDifference(a.workorder, b.workorder, 4);
    LessAtFirstDifference(c.workorder, a.workorder, 4);
    assert Insert(a, [c]) == [a, c];
    assert [b, c][1..] == [c];
  }
}
