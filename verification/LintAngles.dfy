/** What the matchers of style/gwclint.py guarantee about angle brackets: a match, where one is found, is a '<' and a '>'
    with balanced round, square and curly brackets between them, exactly unless the scan passes over the first bracket
    and comes to a bracket pair instead. */
module LintAngles {
  import opened Optional
  import opened Brackets
  import opened LintMatcher
  import opened LintPartners

  // The stack as the stack machine has it, above a first bracket that stands for the angle bracket.
  function Above(back: bool, stack: seq<char>): seq<char> {
    ['('] + Kept(back, stack)
  }

  predicate AngleRooted(back: bool, stack: seq<char>) {
    stack != [] && stack[0] == Angle(back)
  }

  lemma {:induction false} TrimAngle(back: bool, stack: seq<char>)
    ensures Kept(back, Trim(stack, Angle(back))) == Kept(back, stack)
    ensures Trim(stack, Angle(back)) == [] || Trim(stack, Angle(back))[0] == stack[0]
  {
    if !TopIs(stack, Angle(back)) {
    } else {
      TrimAngle(back, stack[..|stack| - 1]);
    }
  }

  lemma KeptTop(back: bool, stack: seq<char>)
    requires stack != []
    ensures var u := Kept(back, stack);
            if TopIs(stack, Angle(back)) then u == Kept(back, stack[..|stack| - 1])
            else && u != [] && u[|u| - 1] == Facing(back, stack[|stack| - 1])
                 && u[..|u| - 1] == Kept(back, stack[..|stack| - 1])
  {
  }

  // A step that neither fails nor closes is a step of the stack machine; only the other angle bracket closes.
  predicate AngleAnswers(back: bool, stack: seq<char>, x: char, at: nat, o: Outcome) {
    match o
    case Closed(p) => p == at && x == Angle(!back) && Kept(back, stack) == []
    case Failed => true
    case Open(next) => AngleRooted(back, next) && Step(Above(back, stack), x) == Some(Above(back, next))
  }

  lemma ClosingAngle(back: bool, stack: seq<char>, x: char, at: nat)
    requires AngleRooted(back, stack) && IsCloser(x)
    ensures var t := Trim(stack, Angle(back));
            t != [] && x == Flip(Facing(back, t[|t| - 1])) ==> AngleAnswers(back, stack, x, at, Pop(t, at))
  {
    hide Flip, Kept, Trim;
    TrimAngle(back, stack);
    var t := Trim(stack, Angle(back));
    if t != [] {
      KeptTop(back, t);
      assert |t| > 1;
      var u := Above(back, t);
      assert u[..|u| - 1] == Above(back, t[..|t| - 1]);
    }
  }

  lemma PopAngle(back: bool, stack: seq<char>)
    requires AngleRooted(back, stack) && TopIs(stack, Angle(back))
    ensures Kept(back, stack[..|stack| - 1]) == Kept(back, stack)
    ensures |stack| == 1 ==> Kept(back, stack) == []
    ensures |stack| > 1 ==> AngleRooted(back, stack[..|stack| - 1])
  {
  }

  lemma ForwardAngle(line: seq<char>, i: nat, stack: seq<char>)
    requires i < |line| && AngleRooted(false, stack)
    ensures AngleAnswers(false, stack, line[i], i + 1, ForwardStep(line, i, stack))
  {
    hide Flip, Kept, Trim, EndsWithOperator, Matches;
    var c := line[i];
    KeptSnoc(false, stack, c);
    assert Above(false, stack) + [c] == ['('] + (Kept(false, stack) + [c]);
    TrimAngle(false, stack);
    if TopIs(stack, '<') {
      PopAngle(false, stack);
    }
    if IsCloser(c) {
      ClosingAngle(false, stack, c, i + 1);
      var t := Trim(stack, '<');
      if t != [] {
        MatchesFlip(t[|t| - 1], c);
      }
    }
  }

  // --- Lines ----------------------------------------------------------------------------------------------------------

  predicate AngleRead(back: bool, text: seq<char>, a: nat, m: nat, stack: seq<char>) {
    && a < m <= |text| && AngleRooted(back, stack)
    && Run('(', text[a + 1..m]) == Some(Above(back, stack))
  }

  // Between a and b the brackets are balanced, and the two are angle brackets.
  ghost predicate AnglePair(text: seq<char>, a: nat, b: nat) {
    a < b < |text| && text[a] == '<' && text[b] == '>' && Balanced(text[a + 1..b])
  }

  lemma AngleNext(back: bool, text: seq<char>, a: nat, m: nat, stack: seq<char>, at: nat, o: Outcome)
    requires AngleRead(back, text, a, m, stack) && m < |text| && AngleAnswers(back, stack, text[m], at, o)
    ensures match o
            case Closed(_) => text[m] == Angle(!back) && Balanced(text[a + 1..m])
            case Failed => true
            case Open(next) => AngleRead(back, text, a, m + 1, next)
  {
    hide Kept, Flip;
    SliceSnoc(text, a + 1, m, m + 1);
    RunSnoc('(', text[a + 1..m], text[m]);
    RunIsBalanced('(', text[a + 1..m]);
    if o.Closed? {
      assert Above(back, stack) == ['('];
    }
  }

  lemma {:induction false} AngleLine(text: seq<char>, a: nat, base: nat, line: seq<char>, i: nat, stack: seq<char>)
    requires i <= |line| && base + |line| <= |text| && line == text[base..base + |line|]
    requires AngleRead(false, text, a, base + i, stack) && text[a] == '<'
    ensures match Forward(line, i, stack)
            case Closed(at) => 0 < at <= |line| && AnglePair(text, a, base + at - 1)
            case Failed => true
            case Open(next) => AngleRead(false, text, a, base + |line|, next)
    decreases |line| - i
  {
    hide ForwardStep, AngleAnswers, Run, Balanced;
    if i == |line| {
    } else {
      var o := ForwardStep(line, i, stack);
      ForwardAngle(line, i, stack);
      AngleNext(false, text, a, base + i, stack, i + 1, o);
      if o.Open? {
        AngleLine(text, a, base, line, i + 1, o.stack);
      } else if o.Closed? {
        AngleClosedAt(false, stack, line[i], i + 1, o);
      }
    }
  }

  lemma AngleClosedAt(back: bool, stack: seq<char>, x: char, at: nat, o: Outcome)
    requires AngleAnswers(back, stack, x, at, o) && o.Closed?
    ensures o.at == at
  {
  }

  ghost predicate AngleReport(lines: seq<seq<char>>, a: nat, l: nat, o: Outcome)
    requires l < |lines|
  {
    match o
    case Closed(at) => 0 < at <= |lines[l]| && AnglePair(Text(lines), a, Index(lines, l, at - 1))
    case Failed => true
    case Open(next) => AngleRead(false, Text(lines), a, Index(lines, l + 1, 0), next)
  }

  ghost predicate AngleFound(lines: seq<seq<char>>, a: nat, r: Place) {
    r.pos != -1 ==>
      && r.num < |lines| && r.line == lines[r.num] && 0 < r.pos <= |r.line|
      && AnglePair(Text(lines), a, Index(lines, r.num, r.pos - 1))
  }

  lemma {:induction false} CloseOnAngle(lines: seq<seq<char>>, a: nat, l: nat, o: Outcome)
    requires l < |lines| && a < |Text(lines)| && Text(lines)[a] == '<' && AngleReport(lines, a, l, o)
    ensures AngleFound(lines, a, CloseOn(lines, l, o))
    decreases |lines| - l
  {
    hide Forward, AngleRead, AnglePair, Text;
    if !o.Open? || o.stack == [] || l == |lines| - 1 {
    } else {
      LineInText(lines, l + 1);
      AngleLine(Text(lines), a, Index(lines, l + 1, 0), lines[l + 1], 0, o.stack);
      CloseOnAngle(lines, a, l + 1, Forward(lines[l + 1], 0, o.stack));
    }
  }

  // A '<' that may open an argument list: not the second of a shift, and no operator name.
  predicate MayOpen(line: seq<char>, pos: nat)
    requires pos < |line|
  {
    line[pos] == '<' && !(pos > 0 && (line[pos - 1] == '<' || EndsWithOperator(line[..pos])))
  }

  // The scan from such a '<' ends nowhere, or at a '>' with balanced brackets between.
  lemma ScanFindsAngle(lines: seq<seq<char>>, l: nat, pos: nat)
    requires l < |lines| && pos < |lines[l]| && MayOpen(lines[l], pos)
    ensures AngleFound(lines, Index(lines, l, pos), CloseOn(lines, l, Forward(lines[l], pos, [])))
  {
    hide AngleRead, AnglePair, Text, Forward, AngleFound, EndsWithOperator;
    var line, base, text := lines[l], Index(lines, l, 0), Text(lines);
    CharAt(lines, l, pos);
    LineInText(lines, l);
    ForwardFromAngle(line, pos);
    FirstAngle(false, text, base + pos);
    AngleLine(text, base + pos, base, line, pos + 1, ['<']);
    CloseOnAngle(lines, base + pos, l, Forward(line, pos, []));
  }

  // Where a scan that has nothing to close comes to something: a bracket, a semicolon, or a '<' that may open.
  function NextMark(line: seq<char>, i: nat): (j: nat)
    requires i <= |line|
    ensures i <= j <= |line|
    ensures forall k :: i <= k < j ==> !IsBracket(line[k])
    decreases |line| - i
  {
    if i == |line| || IsBracket(line[i]) || line[i] == ';' || MayOpen(line, i) then i else NextMark(line, i + 1)
  }

  lemma {:induction false} ForwardToMark(line: seq<char>, i: nat)
    requires i <= |line|
    ensures Forward(line, i, []) == Forward(line, NextMark(line, i), [])
    decreases |line| - i
  {
    hide EndsWithOperator;
    if NextMark(line, i) == i {
    } else {
      assert ForwardStep(line, i, []) == Open([]);
      ForwardToMark(line, i + 1);
    }
  }

  lemma {:induction false} BalancedPlain(s: seq<char>)
    requires forall k :: 0 <= k < |s| ==> !IsBracket(s[k])
    ensures Balanced(s)
    decreases |s|
  {
    if s == [] {
    } else {
      BalancedPlain(s[1..]);
      BalancedSkip(s[0], s[1..]);
      assert [s[0]] + s[1..] == s;
    }
  }

  /** The '<' is passed over, and an opener that has a partner is the next thing the scan comes to. */
  ghost predicate Misled(lines: seq<seq<char>>, l: nat, pos: nat)
    requires l < |lines| && pos < |lines[l]|
  {
    var line := lines[l];
    var j := NextMark(line, pos + 1);
    && !MayOpen(line, pos) && !IsOperator(line, pos) && j < |line| && IsOpener(line[j])
    && exists b :: Partners(Text(lines), Index(lines, l, j), b)
  }

  /** From a '<' CloseExpression finds nothing, or a '>' with balanced brackets between, exactly unless it is misled;
      then it returns the partner of that opener. */
  lemma CloseFindsAngle(lines: seq<seq<char>>, l: nat, pos: nat)
    requires l < |lines| && pos < |lines[l]| && lines[l][pos] == '<'
    ensures AngleFound(lines, Index(lines, l, pos), Close(lines, l, pos)) <==> !Misled(lines, l, pos)
    ensures Misled(lines, l, pos) ==> Close(lines, l, pos) == Close(lines, l, NextMark(lines[l], pos + 1))
  {
    hide AnglePair, Text, Forward, AngleFound, EndsWithOperator, Partners, NextMark;
    var line := lines[l];
    if IsOperator(line, pos) {
      NothingFound(lines, Index(lines, l, pos), Close(lines, l, pos));
    } else if MayOpen(line, pos) {
      ScanFindsAngle(lines, l, pos);
    } else {
      ForwardPast(line, pos);
      PassedAngle(lines, l, pos);
    }
  }

  lemma ForwardPast(line: seq<char>, pos: nat)
    requires pos < |line| && line[pos] == '<' && !MayOpen(line, pos)
    ensures Forward(line, pos, []) == Forward(line, NextMark(line, pos + 1), [])
  {
    ForwardToMark(line, pos + 1);
  }

  // What the scan finds once it has passed over a '<'.
  lemma PassedAngle(lines: seq<seq<char>>, l: nat, pos: nat)
    requires l < |lines| && pos < |lines[l]| && lines[l][pos] == '<'
    requires !MayOpen(lines[l], pos) && !IsOperator(lines[l], pos)
    ensures var j := NextMark(lines[l], pos + 1);
            var r := CloseOn(lines, l, Forward(lines[l], j, []));
            && (AngleFound(lines, Index(lines, l, pos), r) <==> !Misled(lines, l, pos))
            && (Misled(lines, l, pos) ==> r == Close(lines, l, j))
  {
    hide AnglePair, Text, EndsWithOperator, Partners, MayOpen;
    var line, a := lines[l], Index(lines, l, pos);
    var j := NextMark(line, pos + 1);
    var r := CloseOn(lines, l, Forward(line, j, []));
    if j < |line| && IsOpener(line[j]) {
      CloseFindsPartner(lines, l, j);
      if r.pos != -1 {
        ClosedByBracket(Text(lines), Index(lines, l, j), a, Index(lines, r.num, r.pos - 1));
      }
    } else if j < |line| && MayOpen(line, j) {
      ScanFindsAngle(lines, l, j);
      if r.pos != -1 {
        WiderPair(lines, l, pos, j, Index(lines, r.num, r.pos - 1));
      }
    } else {
      MarkFails(line, pos + 1);
    }
  }

  lemma ClosedByBracket(text: seq<char>, j: nat, a: nat, b: nat)
    requires Partners(text, j, b)
    ensures !AnglePair(text, a, b)
  {
  }

  // At a closer, a semicolon or the end of the line there is nothing to close.
  lemma MarkFails(line: seq<char>, i: nat)
    requires i <= |line|
    requires var j := NextMark(line, i); j < |line| ==> !IsOpener(line[j]) && !MayOpen(line, j)
    ensures var o := Forward(line, NextMark(line, i), []); o == Failed || o == Open([])
  {
    MarkIsMark(line, i);
  }

  lemma {:induction false} MarkIsMark(line: seq<char>, i: nat)
    requires i <= |line|
    ensures var j := NextMark(line, i); j < |line| ==> IsBracket(line[j]) || line[j] == ';' || MayOpen(line, j)
    decreases |line| - i
  {
    hide EndsWithOperator;
    if NextMark(line, i) == i {
    } else {
      MarkIsMark(line, i + 1);
    }
  }

  // No bracket lies between the two.
  lemma WiderPair(lines: seq<seq<char>>, l: nat, pos: nat, j: nat, b: nat)
    requires l < |lines| && pos < j < |lines[l]| && lines[l][pos] == '<'
    requires forall k :: pos < k < j ==> !IsBracket(lines[l][k])
    requires AnglePair(Text(lines), Index(lines, l, j), b)
    ensures AnglePair(Text(lines), Index(lines, l, pos), b)
  {
    hide Text, Balanced;
    var text, a, m := Text(lines), Index(lines, l, pos), Index(lines, l, j);
    CharAt(lines, l, pos);
    var between := text[a + 1..m + 1];
    forall k | 0 <= k < |between|
      ensures !IsBracket(between[k])
    {
      CharAt(lines, l, pos + 1 + k);
    }
    BalancedPlain(between);
    BalancedAppend(between, text[m + 1..b]);
    assert text[a + 1..b] == between + text[m + 1..b];
  }

  lemma ForwardFromAngle(line: seq<char>, pos: nat)
    requires pos < |line| && MayOpen(line, pos)
    ensures Forward(line, pos, []) == Forward(line, pos + 1, ['<'])
  {
    assert [] + ['<'] == ['<'];
  }

  lemma FirstAngle(back: bool, text: seq<char>, a: nat)
    requires a < |text|
    ensures AngleRead(back, text, a, a + 1, [Angle(back)])
  {
    assert [Angle(back)][..0] == [];
    assert Kept(back, [Angle(back)]) == [];
    assert Above(back, [Angle(back)]) == ['('];
    assert text[a + 1..a + 1] == [];
  }

  lemma NothingFound(lines: seq<seq<char>>, a: nat, r: Place)
    requires r.pos == -1
    ensures AngleFound(lines, a, r)
  {
  }

  /** The second '<' of a shift is passed over. */
  lemma ShiftMisleads()
    ensures var lines := [['<', '<', '(', ')']];
            Close(lines, 0, 1) == Place(lines[0], 0, 4) && !AngleFound(lines, Index(lines, 0, 1), Close(lines, 0, 1))
  {
    var lines := [['<', '<', '(', ')']];
    assert Forward(lines[0], 3, ['(']) == Closed(4);
    assert [] + ['('] == ['('];
    assert Forward(lines[0], 2, []) == Closed(4);
    assert Forward(lines[0], 1, []) == Closed(4);
    MisledAt(lines, 1, 4);
  }

  /** So is the '<' of an operator name. */
  lemma OperatorMisleads()
    ensures var lines := [OPERATOR + ['<', '(', ')']];
            Close(lines, 0, 8) == Place(lines[0], 0, 11) && !AngleFound(lines, Index(lines, 0, 8), Close(lines, 0, 8))
  {
    var line := OPERATOR + ['<', '(', ')'];
    assert line[..8] == OPERATOR && line[..8][0..] == OPERATOR;
    assert Forward(line, 10, ['(']) == Closed(11);
    assert [] + ['('] == ['('];
    assert Forward(line, 9, []) == Closed(11);
    assert Forward(line, 8, []) == Closed(11);
    MisledAt([line], 8, 11);
  }

  lemma MisledAt(lines: seq<seq<char>>, pos: nat, at: nat)
    requires |lines| == 1 && pos < |lines[0]| && 0 < at <= |lines[0]| && lines[0][at - 1] == ')'
    requires Close(lines, 0, pos) == Place(lines[0], 0, at)
    ensures !AngleFound(lines, Index(lines, 0, pos), Close(lines, 0, pos))
  {
    CharAt(lines, 0, at - 1);
  }

  // --- Backward -------------------------------------------------------------------------------------------------------

  lemma BackwardAngle(line: seq<char>, i: nat, stack: seq<char>)
    requires i < |line| && AngleRooted(true, stack)
    ensures AngleAnswers(true, stack, Flip(line[i]), i, BackwardStep(line, i, stack))
    ensures SkipsTwo(line, i) ==> i > 0 && !IsBracket(line[i - 1])
  {
    hide Kept, Trim, EndsWithOperator, Matches, Flip;
    var c := line[i];
    FlipTwice(c);
    if !IsBracket(c) {
      FlipOther(c);
    }
    KeptSnoc(true, stack, c);
    assert Above(true, stack) + [Flip(c)] == ['('] + (Kept(true, stack) + [Flip(c)]);
    TrimAngle(true, stack);
    if TopIs(stack, '>') {
      PopAngle(true, stack);
    }
    if SkipsTwo(line, i) {
      if EndsWithOperator(line[..i]) {
        OperatorIsNoBracket(line[..i]);
      }
    } else if IsOpener(c) {
      FlipTwice(Flip(c));
      ClosingAngle(true, stack, Flip(c), i);
      var t := Trim(stack, '>');
      if t != [] {
        FlipTwice(t[|t| - 1]);
        MatchesFlip(c, t[|t| - 1]);
      }
    }
  }

  lemma {:induction false} AngleLineBack(text: seq<char>, top: nat, line: seq<char>, i: int, stack: seq<char>)
    requires -1 <= i < |line| && i <= top < |text|
    requires forall j :: 0 <= j <= i ==> text[top - j] == Flip(line[j])
    requires AngleRead(true, text, 0, top - i, stack)
    ensures match Backward(line, i, stack)
            case Closed(at) => at < |line| && at < top && text[top - at] == '<' && Balanced(text[1..top - at])
            case Failed => true
            case Open(next) => AngleRead(true, text, 0, top + 1, next)
    decreases i
  {
    hide BackwardStep, AngleAnswers, SkipsTwo, Flip, Run, Balanced, Kept;
    if i < 0 {
    } else {
      var o := BackwardStep(line, i, stack);
      BackwardAngle(line, i, stack);
      AngleNext(true, text, 0, top - i, stack, i, o);
      if o.Open? {
        if SkipsTwo(line, i) {
          AngleOther(text, top - i + 1, o.stack, line[i - 1]);
          AngleLineBack(text, top, line, i - 2, o.stack);
        } else {
          AngleLineBack(text, top, line, i - 1, o.stack);
        }
      } else if o.Closed? {
        AngleClosedAt(true, stack, Flip(line[i]), i, o);
      }
    }
  }

  lemma AngleOther(text: seq<char>, m: nat, stack: seq<char>, x: char)
    requires AngleRead(true, text, 0, m, stack) && m < |text| && text[m] == Flip(x) && !IsBracket(x)
    ensures AngleRead(true, text, 0, m + 1, stack)
  {
    hide Kept;
    FlipOther(x);
    SliceSnoc(text, 1, m, m + 1);
    RunSnoc('(', text[1..m], text[m]);
  }

  ghost predicate AngleReportBack(lines: seq<seq<char>>, b: nat, l: nat, o: Outcome)
    requires l < |lines| && b < |Text(lines)| && Index(lines, l, 0) <= b
  {
    var m := Before(Text(lines), b);
    |m| == b + 1 &&
    match o
    case Closed(at) =>
      && at < |lines[l]| && Index(lines, l, at) < b
      && m[b - Index(lines, l, at)] == '<' && Balanced(m[1..b - Index(lines, l, at)])
    case Failed => true
    case Open(next) => AngleRead(true, m, 0, b - Index(lines, l, 0) + 1, next)
  }

  ghost predicate AngleStart(lines: seq<seq<char>>, b: nat, r: Place) {
    r.pos != -1 ==>
      && r.num < |lines| && r.line == lines[r.num] && 0 <= r.pos < |r.line|
      && AnglePair(Text(lines), Index(lines, r.num, r.pos), b)
  }

  lemma MirroredPair(text: seq<char>, a: nat, b: nat)
    requires a < b < |text| && text[b] == '>' && |Before(text, b)| == b + 1
    requires Before(text, b)[b - a] == '<' && Balanced(Before(text, b)[1..b - a])
    ensures AnglePair(text, a, b)
  {
    hide Mirror, Flip, Balanced;
    BeforeAt(text, b, a);
    FlipTwice(text[a]);
    FlipOther('<');
    MirrorMiddle(text[..a + 1], text[a + 1..b], [text[b]]);
    assert text[..a + 1] + text[a + 1..b] + [text[b]] == text[..b + 1];
    MirrorIsBalanced(text[a + 1..b]);
  }

  lemma AngleLineBefore(lines: seq<seq<char>>, b: nat, l: nat, stack: seq<char>)
    requires 0 < l < |lines| && b < |Text(lines)| && Index(lines, l, 0) <= b
    requires AngleReportBack(lines, b, l, Open(stack))
    ensures Index(lines, l - 1, 0) <= b
    ensures AngleReportBack(lines, b, l - 1, Backward(lines[l - 1], |lines[l - 1]| - 1, stack))
  {
    hide AngleRead, Text, Backward, Before, Balanced;
    var line, m := lines[l - 1], Before(Text(lines), b);
    LineInText(lines, l - 1);
    LineMirrored(lines, b, l - 1, |line| - 1);
    AngleLineBack(m, b - Index(lines, l - 1, 0), line, |line| - 1, stack);
  }

  lemma {:induction false} OpenOnAngle(lines: seq<seq<char>>, b: nat, l: nat, o: Outcome)
    requires l < |lines| && b < |Text(lines)| && Index(lines, l, 0) <= b && Text(lines)[b] == '>'
    requires AngleReportBack(lines, b, l, o)
    ensures AngleStart(lines, b, OpenOn(lines, l, o))
    decreases l
  {
    hide Backward, AngleRead, Before, Text, Balanced, AnglePair;
    match o
    case Closed(at) => MirroredPair(Text(lines), Index(lines, l, at), b);
    case Failed =>
    case Open(stack) =>
      if stack == [] || l == 0 {
      } else {
        AngleLineBefore(lines, b, l, stack);
        OpenOnAngle(lines, b, l - 1, Backward(lines[l - 1], |lines[l - 1]| - 1, stack));
      }
  }

  // The scan backward from a '>' that is part of no operator ends nowhere, or at a '<' with balanced brackets between.
  lemma ScanFindsStart(lines: seq<seq<char>>, l: nat, pos: nat)
    requires l < |lines| && pos < |lines[l]| && lines[l][pos] == '>' && !SkipsTwo(lines[l], pos)
    ensures AngleStart(lines, Index(lines, l, pos), OpenOn(lines, l, Backward(lines[l], pos, [])))
  {
    hide AngleRead, Text, Backward, AngleStart, Before, Flip, SkipsTwo, Balanced;
    var line, base, text := lines[l], Index(lines, l, 0), Text(lines);
    CharAt(lines, l, pos);
    var b := base + pos;
    var m := Before(text, b);
    BeforeAt(text, b, b);
    FirstAngle(true, m, 0);
    BackwardFromAngle(line, pos);
    LineMirrored(lines, b, l, pos);
    AngleLineBack(m, pos, line, pos - 1, ['>']);
    OpenOnAngle(lines, b, l, Backward(line, pos, []));
  }

  lemma SkippedIsPlain(line: seq<char>, i: nat)
    requires i < |line| && SkipsTwo(line, i)
    ensures i > 0 && !IsBracket(line[i - 1]) && !IsBracket(line[i])
  {
    if EndsWithOperator(line[..i]) {
      OperatorIsNoBracket(line[..i]);
    }
  }

  // Where a scan backward that has nothing to open comes to something: a bracket, a semicolon, or a '>' of its own.
  function PrevMark(line: seq<char>, i: int): (j: int)
    requires -1 <= i < |line|
    ensures -1 <= j <= i
    ensures forall k :: j < k <= i ==> !IsBracket(line[k])
    decreases i
  {
    if i < 0 then -1
    else if SkipsTwo(line, i) then
      SkippedIsPlain(line, i);
      PrevMark(line, i - 2)
    else if IsBracket(line[i]) || line[i] == ';' || line[i] == '>' then i
    else PrevMark(line, i - 1)
  }

  lemma {:induction false} BackwardToMark(line: seq<char>, i: int)
    requires -1 <= i < |line|
    ensures Backward(line, i, []) == Backward(line, PrevMark(line, i), [])
    ensures var j := PrevMark(line, i);
            j >= 0 ==> !SkipsTwo(line, j) && (IsBracket(line[j]) || line[j] == ';' || line[j] == '>')
    decreases i
  {
    hide SkipsTwo;
    if i < 0 || PrevMark(line, i) == i {
    } else {
      assert BackwardStep(line, i, []) == Open([]);
      if SkipsTwo(line, i) {
        SkippedIsPlain(line, i);
        BackwardToMark(line, i - 2);
      } else {
        BackwardToMark(line, i - 1);
      }
    }
  }

  /** The '>' is passed over, and a closer that has a partner is the next thing the scan comes to. */
  ghost predicate MisledBack(lines: seq<seq<char>>, l: nat, pos: nat)
    requires l < |lines| && pos < |lines[l]|
  {
    var line := lines[l];
    SkipsTwo(line, pos) &&
    var j := PrevMark(line, pos - 2);
    j >= 0 && IsCloser(line[j]) && exists a :: Partners(Text(lines), a, Index(lines, l, j))
  }

  /** From a '>' ReverseCloseExpression finds nothing, or a '<' with balanced brackets between, exactly unless it is
      misled; then it returns the partner of that closer. */
  lemma ReverseFindsAngle(lines: seq<seq<char>>, l: nat, pos: nat)
    requires l < |lines| && pos < |lines[l]| && lines[l][pos] == '>'
    ensures AngleStart(lines, Index(lines, l, pos), ReverseClose(lines, l, pos)) <==> !MisledBack(lines, l, pos)
    ensures MisledBack(lines, l, pos) ==>
              ReverseClose(lines, l, pos) == ReverseClose(lines, l, PrevMark(lines[l], pos - 2))
  {
    hide AnglePair, Text, Backward, AngleStart, Partners, PrevMark, SkipsTwo;
    var line := lines[l];
    if SkipsTwo(line, pos) {
      SkippedIsPlain(line, pos);
      BackwardPast(line, pos);
      PassedStart(lines, l, pos);
    } else {
      ScanFindsStart(lines, l, pos);
    }
  }

  lemma BackwardPast(line: seq<char>, pos: nat)
    requires pos < |line| && SkipsTwo(line, pos)
    ensures pos > 0 && Backward(line, pos, []) == Backward(line, PrevMark(line, pos - 2), [])
  {
    BackwardToMark(line, pos - 2);
  }

  // What the scan finds once it has passed over a '>'.
  lemma PassedStart(lines: seq<seq<char>>, l: nat, pos: nat)
    requires l < |lines| && pos < |lines[l]| && lines[l][pos] == '>' && SkipsTwo(lines[l], pos)
    ensures var j := PrevMark(lines[l], pos - 2);
            var r := OpenOn(lines, l, Backward(lines[l], j, []));
            && (AngleStart(lines, Index(lines, l, pos), r) <==> !MisledBack(lines, l, pos))
            && (MisledBack(lines, l, pos) ==> r == ReverseClose(lines, l, j))
  {
    hide AnglePair, Text, Partners, SkipsTwo;
    var line, b := lines[l], Index(lines, l, pos);
    SkippedIsPlain(line, pos);
    BackwardToMark(line, pos - 2);
    var j := PrevMark(line, pos - 2);
    if j >= 0 {
      var r := OpenOn(lines, l, Backward(line, j, []));
      if IsCloser(line[j]) {
        ReverseFindsPartner(lines, l, j);
        if r.pos != -1 {
          OpenedByBracket(Text(lines), Index(lines, r.num, r.pos), Index(lines, l, j), b);
        }
      } else if line[j] == '>' {
        ScanFindsStart(lines, l, j);
        if r.pos != -1 {
          WiderStart(lines, l, j, pos, Index(lines, r.num, r.pos));
        }
      }
    }
  }

  lemma OpenedByBracket(text: seq<char>, a: nat, j: nat, b: nat)
    requires Partners(text, a, j)
    ensures !AnglePair(text, a, b)
  {
  }

  lemma WiderStart(lines: seq<seq<char>>, l: nat, j: nat, pos: nat, a: nat)
    requires l < |lines| && j < pos < |lines[l]| && lines[l][pos] == '>'
    requires forall k :: j <= k < pos ==> !IsBracket(lines[l][k])
    requires AnglePair(Text(lines), a, Index(lines, l, j))
    ensures AnglePair(Text(lines), a, Index(lines, l, pos))
  {
    hide Text, Balanced;
    var text, m, b := Text(lines), Index(lines, l, j), Index(lines, l, pos);
    CharAt(lines, l, pos);
    var between := text[m..b];
    forall k | 0 <= k < |between|
      ensures !IsBracket(between[k])
    {
      CharAt(lines, l, j + k);
    }
    BalancedPlain(between);
    BalancedAppend(text[a + 1..m], between);
    assert text[a + 1..b] == text[a + 1..m] + between;
  }

  /** The '>' of an arrow is passed over. */
  lemma ArrowMisleads()
    ensures var lines := [['f', '(', ')', '-', '>']];
            && ReverseClose(lines, 0, 4) == Place(lines[0], 0, 1)
            && !AngleStart(lines, Index(lines, 0, 4), ReverseClose(lines, 0, 4))
  {
    var line := ['f', '(', ')', '-', '>'];
    assert Backward(line, 1, [')']) == Closed(1);
    assert [] + [')'] == [')'];
    assert Backward(line, 2, []) == Closed(1);
    assert Backward(line, 4, []) == Closed(1);
    CharAt([line], 0, 1);
  }

  lemma BackwardFromAngle(line: seq<char>, pos: nat)
    requires pos < |line| && line[pos] == '>' && !SkipsTwo(line, pos)
    ensures Backward(line, pos, []) == Backward(line, pos - 1, ['>'])
  {
    assert [] + ['>'] == ['>'];
  }
}
