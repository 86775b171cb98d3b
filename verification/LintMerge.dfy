/** The merge of style/run-lint.py: of what a linter reports, the entries on changed lines. Both lists are walked from
    their ends. */
module LintMerge {
  // A report of the linter: its line number, already parsed, and its text.
  datatype Entry = Entry(num: int, text: string)

  // One line of the diff tool: a line number, or the first and the last of a range.
  type Change = words: seq<int> | 1 <= |words| <= 2 witness [1]

  // The first word and the last, which may be the same.
  function StartEnd(change: Change): (int, int) {
    (change[0], change[|change| - 1])
  }

  predicate Covers(change: Change, e: Entry) {
    StartEnd(change).0 <= e.num <= StartEnd(change).1
  }

  predicate Changed(changes: seq<Change>, e: Entry) {
    exists c :: c in changes && Covers(c, e)
  }

  /** A line of the diff tool stands for the line it names, or for all lines from the first it names to the second. */
  lemma OnChangedLine(changes: seq<Change>, e: Entry)
    ensures Changed(changes, e) <==>
              exists c :: c in changes && (c == [e.num] || (|c| == 2 && c[0] <= e.num <= c[1]))
  {
    forall c | c in changes
      ensures Covers(c, e) <==> c == [e.num] || (|c| == 2 && c[0] <= e.num <= c[1])
    {
    }
  }

  // The entries to report, in the order of the linter.
  function Selected(changes: seq<Change>, lint: seq<Entry>): seq<Entry> {
    if lint == [] then []
    else (if Changed(changes, lint[0]) then [lint[0]] else []) + Selected(changes, lint[1..])
  }

  function Reversed(s: seq<Entry>): (r: seq<Entry>)
    ensures |r| == |s|
  {
    if s == [] then [] else Reversed(s[1..]) + [s[0]]
  }

  lemma {:induction false} ReversedAppend(s: seq<Entry>, t: seq<Entry>)
    ensures Reversed(s + t) == Reversed(t) + Reversed(s)
  {
    if s == [] {
      assert s + t == t;
    } else {
      assert (s + t)[1..] == s[1..] + t;
      ReversedAppend(s[1..], t);
    }
  }

  lemma {:induction false} ReversedTwice(s: seq<Entry>)
    ensures Reversed(Reversed(s)) == s
  {
    if s == [] {
    } else {
      ReversedTwice(s[1..]);
      ReversedAppend(Reversed(s[1..]), [s[0]]);
      assert Reversed([s[0]]) == [s[0]];
    }
  }

  // Ranges as a diff lists them: ascending and disjoint.
  predicate Ascending(changes: seq<Change>) {
    && (forall c :: 0 <= c < |changes| ==> StartEnd(changes[c]).0 <= StartEnd(changes[c]).1)
    && (forall c, d :: 0 <= c < d < |changes| ==> StartEnd(changes[c]).1 < StartEnd(changes[d]).0)
  }

  predicate InOrder(lint: seq<Entry>) {
    forall i, j :: 0 <= i <= j < |lint| ==> lint[i].num <= lint[j].num
  }

  // After an entry inside a range comes none before that range.
  predicate InStep(changes: seq<Change>, lint: seq<Entry>) {
    forall c, i, j :: 0 <= c < |changes| && 0 <= i < j < |lint| && Covers(changes[c], lint[i]) ==>
      StartEnd(changes[c]).0 <= lint[j].num
  }

  lemma InOrderInStep(changes: seq<Change>, lint: seq<Entry>)
    requires InOrder(lint)
    ensures InStep(changes, lint)
  {
  }

  lemma SelectedFirst(changes: seq<Change>, lint: seq<Entry>, i: nat)
    requires i < |lint|
    ensures Reversed(Selected(changes, lint[i..]))
         == Reversed(Selected(changes, lint[i + 1..])) + if Changed(changes, lint[i]) then [lint[i]] else []
  {
    assert lint[i..][1..] == lint[i + 1..];
    var rest := Selected(changes, lint[i + 1..]);
    if Changed(changes, lint[i]) {
      ReversedAppend([lint[i]], rest);
      assert Reversed([lint[i]]) == [lint[i]];
    } else {
      assert [] + rest == rest;
    }
  }

  lemma {:induction false} NoneSelected(changes: seq<Change>, lint: seq<Entry>)
    requires forall i :: 0 <= i < |lint| ==> !Changed(changes, lint[i])
    ensures Selected(changes, lint) == []
  {
    if lint == [] {
    } else {
      NoneSelected(changes, lint[1..]);
    }
  }

  lemma Regroup(a: seq<Entry>, b: seq<Entry>, c: seq<Entry>)
    ensures a + (b + c) == (a + b) + c
  {
  }

  lemma {:induction false} SelectedAppend(changes: seq<Change>, s: seq<Entry>, t: seq<Entry>)
    ensures Selected(changes, s + t) == Selected(changes, s) + Selected(changes, t)
  {
    hide Changed;
    if s == [] {
      assert s + t == t && [] + Selected(changes, t) == Selected(changes, t);
    } else {
      assert (s + t)[1..] == s[1..] + t;
      SelectedAppend(changes, s[1..], t);
      Regroup(if Changed(changes, s[0]) then [s[0]] else [], Selected(changes, s[1..]), Selected(changes, t));
    }
  }

  // The walk has passed every range from diff on for the entries before lint.
  ghost predicate Passed(changes: seq<Change>, lint: seq<Entry>, diffInx: int, lintInx: int)
    requires -1 <= diffInx < |changes| && -1 <= lintInx < |lint|
  {
    forall i, d :: 0 <= i <= lintInx && diffInx < d < |changes| ==> !Covers(changes[d], lint[i])
  }

  lemma LeftOver(changes: seq<Change>, lint: seq<Entry>, diffInx: int, lintInx: int)
    requires -1 <= diffInx < |changes| && -1 <= lintInx < |lint| && Passed(changes, lint, diffInx, lintInx)
    requires diffInx < 0 || lintInx < 0
    ensures Selected(changes, lint) == Selected(changes, lint[lintInx + 1..])
  {
    var front := lint[..lintInx + 1];
    forall i | 0 <= i < |front|
      ensures !Changed(changes, front[i])
    {
      assert front[i] == lint[i];
    }
    NoneSelected(changes, front);
    SelectedAppend(changes, front, lint[lintInx + 1..]);
    assert front + lint[lintInx + 1..] == lint;
  }

  // An entry behind the present range is in none of the ranges before it.
  lemma Behind(changes: seq<Change>, lint: seq<Entry>, diffInx: nat, lintInx: nat)
    requires Ascending(changes) && diffInx < |changes| && lintInx < |lint| && Passed(changes, lint, diffInx, lintInx)
    requires lint[lintInx].num > StartEnd(changes[diffInx]).1
    ensures !Changed(changes, lint[lintInx])
  {
    forall c | c in changes
      ensures !Covers(c, lint[lintInx])
    {
      var d :| 0 <= d < |changes| && changes[d] == c;
      assert d < diffInx ==> StartEnd(changes[d]).1 < StartEnd(changes[diffInx]).0;
    }
  }

  // What was picked, and the range each was picked for: no later entry lies before that range.
  ghost predicate Picked(changes: seq<Change>, lint: seq<Entry>, errors: seq<Entry>, picked: seq<nat>, cause: seq<nat>) {
    && |errors| == |picked| == |cause|
    && (forall k :: 0 <= k < |picked| ==> picked[k] < |lint| && errors[k] == lint[picked[k]])
    && (forall k :: 0 <= k < |cause| ==> cause[k] < |changes| && Covers(changes[cause[k]], errors[k]))
    && (forall k, m :: 0 <= k < m < |picked| ==> picked[k] > picked[m])
  }

  ghost predicate NoneBefore(changes: seq<Change>, lint: seq<Entry>, picked: seq<nat>, cause: seq<nat>) {
    && |picked| == |cause|
    && forall k :: 0 <= k < |cause| ==> cause[k] < |changes| && AllFrom(lint, picked[k], StartEnd(changes[cause[k]]).0)
  }

  // The entries from i on are at or behind the start.
  predicate AllFrom(lint: seq<Entry>, i: nat, start: int) {
    forall j :: i <= j < |lint| ==> start <= lint[j].num
  }

  /** Every entry on a changed line, from a place on, is picked. */
  ghost predicate Complete(changes: seq<Change>, lint: seq<Entry>, picked: seq<nat>, from: nat) {
    forall i :: from <= i < |lint| && Changed(changes, lint[i]) ==> i in picked
  }

  // The walk has come to an end, and the entries left over are on no changed line.
  lemma CompleteAtEnd(changes: seq<Change>, lint: seq<Entry>, picked: seq<nat>, diffInx: int, lintInx: int)
    requires -1 <= diffInx < |changes| && -1 <= lintInx < |lint| && Passed(changes, lint, diffInx, lintInx)
    requires Complete(changes, lint, picked, lintInx + 1) && (diffInx < 0 || lintInx < 0)
    ensures Complete(changes, lint, picked, 0)
  {
  }

  lemma CompleteIsInStep(changes: seq<Change>, lint: seq<Entry>, errors: seq<Entry>, picked: seq<nat>, cause: seq<nat>)
    requires Ascending(changes) && Picked(changes, lint, errors, picked, cause) && NoneBefore(changes, lint, picked, cause)
    requires Complete(changes, lint, picked, 0)
    ensures InStep(changes, lint)
  {
    forall c, i, j | 0 <= c < |changes| && 0 <= i < j < |lint| && Covers(changes[c], lint[i])
      ensures StartEnd(changes[c]).0 <= lint[j].num
    {
      CoversChanged(changes, c, lint[i]);
      var k :| 0 <= k < |picked| && picked[k] == i;
      assert cause[k] == c;
    }
  }

  /** One file. Whatever the order of the entries, those reported are on changed lines, and none is reported twice. All
      entries on changed lines are reported exactly when no entry in a range is followed by one before that range; then
      they come last first. */
  method MergeFile(changes: seq<Change>, lint: seq<Entry>)
    returns (errors: seq<Entry>, ghost picked: seq<nat>, ghost cause: seq<nat>)
    ensures Picked(changes, lint, errors, picked, cause)
    ensures Ascending(changes) ==> (Complete(changes, lint, picked, 0) <==> InStep(changes, lint))
    ensures Ascending(changes) && InStep(changes, lint) ==> errors == Reversed(Selected(changes, lint))
  {
    hide Selected, Reversed, Changed, InStep, AllFrom, Ascending, Passed, Picked, NoneBefore, Complete;
    errors, picked, cause := [], [], [];
    var diffInx, lintInx := |changes| - 1, |lint| - 1;
    ghost var ordered := Ascending(changes) && InStep(changes, lint);
    NothingYet(changes, lint);
    assert Picked(changes, lint, [], [], []) && NoneBefore(changes, lint, [], []) by { PickNone(changes, lint); }
    while diffInx >= 0 && lintInx >= 0
      invariant -1 <= diffInx < |changes| && -1 <= lintInx < |lint| && Picked(changes, lint, errors, picked, cause)
      invariant forall k :: 0 <= k < |picked| ==> picked[k] > lintInx
      invariant Ascending(changes) ==> NoneBefore(changes, lint, picked, cause)
      invariant Ascending(changes) && diffInx >= 0 ==> AllFrom(lint, lintInx + 1, StartEnd(changes[diffInx]).0)
      invariant ordered ==> Passed(changes, lint, diffInx, lintInx)
      invariant ordered ==> errors == Reversed(Selected(changes, lint[lintInx + 1..]))
      invariant ordered ==> Complete(changes, lint, picked, lintInx + 1)
      decreases diffInx + lintInx
    {
      var (start, end) := StartEnd(changes[diffInx]);
      var e := lint[lintInx];
      SelectedFirst(changes, lint, lintInx);
      EntryPassed(changes, lint, diffInx, lintInx);
      if start <= e.num <= end {
        assert Changed(changes, e) by { CoversChanged(changes, diffInx, e); }
        PickNext(changes, lint, errors, picked, cause, diffInx, lintInx);
        errors, picked, cause := errors + [e], picked + [lintInx], cause + [diffInx];
        lintInx := lintInx - 1;
      } else if e.num > end {
        lintInx := lintInx - 1;
      } else if e.num < start {
        RangePassed(changes, lint, diffInx, lintInx);
        diffInx := diffInx - 1;
      }
    }
    if ordered {
      LeftOver(changes, lint, diffInx, lintInx);
      CompleteAtEnd(changes, lint, picked, diffInx, lintInx);
    }
    if Ascending(changes) && Complete(changes, lint, picked, 0) {
      CompleteIsInStep(changes, lint, errors, picked, cause);
    }
  }

  // Moving on to the entry before.
  lemma EntryPassed(changes: seq<Change>, lint: seq<Entry>, diffInx: nat, lintInx: nat)
    requires diffInx < |changes| && lintInx < |lint|
    ensures Passed(changes, lint, diffInx, lintInx) ==> Passed(changes, lint, diffInx, lintInx - 1)
    ensures var (start, end) := StartEnd(changes[diffInx]);
            && (start <= lint[lintInx].num && AllFrom(lint, lintInx + 1, start) ==> AllFrom(lint, lintInx, start))
            && (Ascending(changes) ==> start <= end)
            && (Ascending(changes) && Passed(changes, lint, diffInx, lintInx) && lint[lintInx].num > end ==>
                  !Changed(changes, lint[lintInx]))
    ensures forall picked: seq<nat> :: !Changed(changes, lint[lintInx]) && Complete(changes, lint, picked, lintInx + 1) ==>
              Complete(changes, lint, picked, lintInx)
  {
    if Ascending(changes) && Passed(changes, lint, diffInx, lintInx)
      && lint[lintInx].num > StartEnd(changes[diffInx]).1
    {
      Behind(changes, lint, diffInx, lintInx);
    }
  }

  // Moving on to the range before.
  lemma RangePassed(changes: seq<Change>, lint: seq<Entry>, diffInx: nat, lintInx: nat)
    requires diffInx < |changes| && lintInx < |lint| && lint[lintInx].num < StartEnd(changes[diffInx]).0
    ensures InStep(changes, lint) && Passed(changes, lint, diffInx, lintInx) ==>
              Passed(changes, lint, diffInx - 1, lintInx)
    ensures Ascending(changes) && diffInx > 0 && AllFrom(lint, lintInx + 1, StartEnd(changes[diffInx]).0) ==>
              AllFrom(lint, lintInx + 1, StartEnd(changes[diffInx - 1]).0)
  {
    if Ascending(changes) && diffInx > 0 {
      assert StartEnd(changes[diffInx - 1]).1 < StartEnd(changes[diffInx]).0;
    }
  }

  lemma CoversChanged(changes: seq<Change>, d: nat, e: Entry)
    requires d < |changes| && Covers(changes[d], e)
    ensures Changed(changes, e)
  {
  }

  lemma NothingYet(changes: seq<Change>, lint: seq<Entry>)
    ensures Reversed(Selected(changes, lint[|lint|..])) == []
    ensures Passed(changes, lint, |changes| - 1, |lint| - 1) && Complete(changes, lint, [], |lint|)
    ensures changes != [] ==> AllFrom(lint, |lint|, StartEnd(changes[|changes| - 1]).0)
  {
  }

  lemma PickNone(changes: seq<Change>, lint: seq<Entry>)
    ensures Picked(changes, lint, [], [], []) && NoneBefore(changes, lint, [], [])
  {
  }

  // One more entry is picked.
  lemma PickNext(changes: seq<Change>, lint: seq<Entry>, errors: seq<Entry>, picked: seq<nat>, cause: seq<nat>,
                 diffInx: nat, lintInx: nat)
    requires diffInx < |changes| && lintInx < |lint| && Covers(changes[diffInx], lint[lintInx])
    requires Picked(changes, lint, errors, picked, cause) && forall k :: 0 <= k < |picked| ==> picked[k] > lintInx
    ensures Picked(changes, lint, errors + [lint[lintInx]], picked + [lintInx], cause + [diffInx])
    ensures NoneBefore(changes, lint, picked, cause) && AllFrom(lint, lintInx, StartEnd(changes[diffInx]).0) ==>
              NoneBefore(changes, lint, picked + [lintInx], cause + [diffInx])
    ensures Complete(changes, lint, picked, lintInx + 1) ==> Complete(changes, lint, picked + [lintInx], lintInx)
  {
    hide AllFrom, Changed;
  }

  // --- All files ------------------------------------------------------------------------------------------------------

  datatype File = File(changes: seq<Change>, lint: seq<Entry>)

  // What the log lists: the files last first, the entries of each in order.
  function Report(files: seq<File>): seq<Entry> {
    if files == [] then []
    else
      var last := files[|files| - 1];
      Selected(last.changes, last.lint) + Report(files[..|files| - 1])
  }

  /** Later files are listed before earlier ones. */
  lemma {:induction false} LaterFilesFirst(earlier: seq<File>, later: seq<File>)
    ensures Report(earlier + later) == Report(later) + Report(earlier)
  {
    if later == [] {
      assert earlier + later == earlier;
    } else {
      var n := |later| - 1;
      LaterFilesFirst(earlier, later[..n]);
      assert (earlier + later)[..|earlier| + n] == earlier + later[..n];
      Regroup(Selected(later[n].changes, later[n].lint), Report(later[..n]), Report(earlier));
    }
  }

  // The list of errors that log_errors writes out from its end.
  method RunLinter(files: seq<File>) returns (errors: seq<Entry>)
    requires forall f :: f in files ==> Ascending(f.changes) && InStep(f.changes, f.lint)
    ensures Reversed(errors) == Report(files)
  {
    errors := [];
    var i := 0;
    while i < |files|
      invariant i <= |files| && Reversed(errors) == Report(files[..i])
    {
      var f := files[i];
      var found, _, _ := MergeFile(f.changes, f.lint);
      ReversedAppend(errors, found);
      ReversedTwice(Selected(f.changes, f.lint));
      assert files[..i + 1][..i] == files[..i];
      errors := errors + found;
      i := i + 1;
    }
    assert files[..i] == files;
  }

  /** An entry is selected exactly when it is reported on a changed line. */
  lemma {:induction false} SelectedExactly(changes: seq<Change>, lint: seq<Entry>)
    ensures forall e :: multiset(Selected(changes, lint))[e] == if Changed(changes, e) then multiset(lint)[e] else 0
  {
    if lint == [] {
    } else {
      SelectedExactly(changes, lint[1..]);
      assert lint == [lint[0]] + lint[1..];
    }
  }

  /** What is out of step is lost: of two entries on changed lines at most one is reported. */
  method LosesEntry() returns (errors: seq<Entry>)
    ensures Selected([[1], [5]], [Entry(5, "first"), Entry(1, "second")]) ==
            [Entry(5, "first"), Entry(1, "second")]
    ensures |errors| < 2
  {
    var changes: seq<Change> := [[1], [5]];
    var lint := [Entry(5, "first"), Entry(1, "second")];
    OutOfStep(changes, lint);
    ghost var picked, cause;
    errors, picked, cause := MergeFile(changes, lint);
    BothPicked(changes, lint, errors, picked, cause);
  }

  lemma BothPicked(changes: seq<Change>, lint: seq<Entry>, errors: seq<Entry>, picked: seq<nat>, cause: seq<nat>)
    requires |lint| == 2 && Picked(changes, lint, errors, picked, cause)
    ensures |errors| >= 2 ==> Complete(changes, lint, picked, 0)
  {
    hide Changed, Covers;
    if |errors| >= 2 {
      assert picked[0] == 1 && picked[1] == 0;
    }
  }

  lemma OutOfStep(changes: seq<Change>, lint: seq<Entry>)
    requires changes == [[1], [5]] && lint == [Entry(5, "first"), Entry(1, "second")]
    ensures Ascending(changes) && !InStep(changes, lint) && Selected(changes, lint) == lint
  {
    CoversChanged(changes, 1, lint[0]);
    CoversChanged(changes, 0, lint[1]);
    assert Covers(changes[1], lint[0]) && StartEnd(changes[1]).0 > lint[1].num;
    assert lint[1..][1..] == [];
    assert Selected(changes, lint[1..]) == [lint[1]];
  }
}
