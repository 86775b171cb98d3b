/** The matchers of style/gwclint.py find exactly the balanced partner of a round, square or curly bracket, in both
    directions, across lines, and whatever angle brackets and operators stand in between. */
module LintPartners {
  import opened Optional
  import opened Brackets
  import opened LintMatcher

  // --- The stack without its angle brackets ---------------------------------------------------------------------------

  function Angle(back: bool): char {
    if back then '>' else '<'
  }

  // Backward the text is read in the mirror.
  function Facing(back: bool, c: char): char {
    if back then Flip(c) else c
  }

  function Kept(back: bool, stack: seq<char>): seq<char> {
    if stack == [] then []
    else if TopIs(stack, Angle(back)) then Kept(back, stack[..|stack| - 1])
    else Kept(back, stack[..|stack| - 1]) + [Facing(back, stack[|stack| - 1])]
  }

  // The first bracket is no angle bracket.
  predicate Rooted(back: bool, stack: seq<char>) {
    stack != [] && IsOpener(Facing(back, stack[0]))
  }

  lemma KeptSnoc(back: bool, stack: seq<char>, c: char)
    ensures Kept(back, stack + [c])
         == if c == Angle(back) then Kept(back, stack) else Kept(back, stack) + [Facing(back, c)]
  {
    assert (stack + [c])[..|stack|] == stack;
  }

  lemma {:induction false} KeptRooted(back: bool, stack: seq<char>)
    requires Rooted(back, stack)
    ensures Kept(back, stack) != [] && Kept(back, stack)[0] == Facing(back, stack[0])
  {
    if |stack| > 1 {
      KeptRooted(back, stack[..|stack| - 1]);
    } else {
      assert Kept(back, stack[..0]) == [];
    }
  }

  lemma {:induction false} KeptTrim(back: bool, stack: seq<char>)
    requires Rooted(back, stack)
    ensures Rooted(back, Trim(stack, Angle(back))) && Kept(back, Trim(stack, Angle(back))) == Kept(back, stack)
    ensures Trim(stack, Angle(back))[0] == stack[0]
  {
    if !TopIs(stack, Angle(back)) {
    } else {
      var init := stack[..|stack| - 1];
      assert |stack| > 1;
      KeptTrim(back, init);
      assert Kept(back, stack) == Kept(back, init);
    }
  }

  // Taking the top off: nothing is left exactly when one bracket was kept.
  lemma KeptPop(back: bool, stack: seq<char>)
    requires Rooted(back, stack)
    ensures |stack| > 1 ==> Rooted(back, stack[..|stack| - 1])
    ensures var u := Kept(back, stack);
            if TopIs(stack, Angle(back)) then |stack| > 1 && u == Kept(back, stack[..|stack| - 1])
            else && u != [] && u[|u| - 1] == Facing(back, stack[|stack| - 1])
                 && u[..|u| - 1] == Kept(back, stack[..|stack| - 1])
                 && (|u| == 1 <==> |stack| == 1)
  {
    hide Flip;
    FlipOther(Angle(back));
    if |stack| > 1 {
      KeptRooted(back, stack[..|stack| - 1]);
    }
  }

  // --- One character --------------------------------------------------------------------------------------------------

  // How a step of a matcher answers to a step of the stack machine on x.
  predicate Answers(back: bool, stack: seq<char>, x: char, at: nat, o: Outcome) {
    var u := Kept(back, stack);
    u != [] &&
    match o
    case Closed(p) => p == at && |u| == 1 && x == Flip(u[0])
    case Failed => Step(u, x) == None && !(|u| == 1 && x == Flip(u[0]))
    case Open(next) => Rooted(back, next) && next[0] == stack[0] && Step(u, x) == Some(Kept(back, next))
  }

  lemma MatchesFlip(open: char, close: char)
    ensures IsCloser(close) ==> (Matches(open, close) <==> close == Flip(open))
    ensures IsOpener(open) ==> (Matches(open, close) <==> close == Flip(open))
  {
  }

  // A bracket that must match the top.
  lemma ClosingAnswers(back: bool, stack: seq<char>, x: char, at: nat)
    requires Rooted(back, stack) && IsCloser(x)
    ensures var t := Trim(stack, Angle(back));
            && t != []
            && Answers(back, stack, x, at, if x == Flip(Facing(back, t[|t| - 1])) then Pop(t, at) else Failed)
  {
    hide Flip, Kept, Trim;
    KeptTrim(back, stack);
    var t := Trim(stack, Angle(back));
    KeptPop(back, t);
  }

  lemma ForwardAnswers(line: seq<char>, i: nat, stack: seq<char>)
    requires i < |line| && Rooted(false, stack)
    ensures Answers(false, stack, line[i], i + 1, ForwardStep(line, i, stack))
  {
    hide Flip, Kept, Trim, EndsWithOperator, Matches;
    var c := line[i];
    KeptRooted(false, stack);
    KeptSnoc(false, stack, c);
    KeptPop(false, stack);
    KeptTrim(false, stack);
    if IsCloser(c) {
      ClosingAnswers(false, stack, c, i + 1);
      var t := Trim(stack, '<');
      MatchesFlip(t[|t| - 1], c);
    }
  }

  lemma BackwardAnswers(line: seq<char>, i: nat, stack: seq<char>)
    requires i < |line| && Rooted(true, stack)
    ensures Answers(true, stack, Flip(line[i]), i, BackwardStep(line, i, stack))
    ensures SkipsTwo(line, i) ==> i > 0 && !IsBracket(line[i - 1])
  {
    hide Kept, Trim, EndsWithOperator, Matches, Flip;
    var c := line[i];
    FlipTwice(c);
    if !IsBracket(c) {
      FlipOther(c);
    }
    KeptRooted(true, stack);
    KeptSnoc(true, stack, c);
    KeptPop(true, stack);
    KeptTrim(true, stack);
    if SkipsTwo(line, i) {
      if EndsWithOperator(line[..i]) {
        OperatorIsNoBracket(line[..i]);
      }
    } else if IsOpener(c) {
      FlipTwice(Flip(c));
      ClosingAnswers(true, stack, Flip(c), i);
      var t := Trim(stack, '>');
      FlipTwice(t[|t| - 1]);
      MatchesFlip(c, t[|t| - 1]);
    }
  }

  // --- One line -------------------------------------------------------------------------------------------------------

  // The stack machine has read the text between the bracket at a and m, and stands as the matcher does.
  predicate ReadTo(back: bool, text: seq<char>, a: nat, m: nat, stack: seq<char>) {
    && a < m <= |text| && IsOpener(text[a])
    && Rooted(back, stack) && Run(text[a], text[a + 1..m]) == Some(Kept(back, stack))
  }

  lemma ReadNext(back: bool, text: seq<char>, a: nat, m: nat, stack: seq<char>, at: nat, o: Outcome)
    requires ReadTo(back, text, a, m, stack) && m < |text| && Answers(back, stack, text[m], at, o)
    ensures match o
            case Closed(_) => Partners(text, a, m)
            case Failed => forall b :: !Partners(text, a, b)
            case Open(next) => ReadTo(back, text, a, m + 1, next)
  {
    hide Kept, Partners, Flip, Run, Step;
    SliceSnoc(text, a + 1, m, m + 1);
    RunSnoc(text[a], text[a + 1..m], text[m]);
    KeptRooted(back, stack);
    match o
    case Closed(_) =>
      assert Kept(back, stack) == [text[a]];
      PartnerRun(text, a, m);
    case Failed =>
      forall b
        ensures !Partners(text, a, b)
      {
        NoPartnerAfter(text, a, m, b);
      }
    case Open(next) =>
  }

  lemma {:induction false} ForwardLine(text: seq<char>, a: nat, base: nat, line: seq<char>, i: nat, stack: seq<char>)
    requires i <= |line| && base + |line| <= |text| && line == text[base..base + |line|]
    requires ReadTo(false, text, a, base + i, stack)
    ensures match Forward(line, i, stack)
            case Closed(at) => 0 < at <= |line| && Partners(text, a, base + at - 1)
            case Failed => forall b :: !Partners(text, a, b)
            case Open(next) => ReadTo(false, text, a, base + |line|, next)
    decreases |line| - i
  {
    hide ReadTo, Partners, ForwardStep, Answers;
    if i == |line| {
    } else {
      var o := ForwardStep(line, i, stack);
      ReadRooted(false, text, a, base + i, stack);
      ForwardAnswers(line, i, stack);
      ReadNext(false, text, a, base + i, stack, i + 1, o);
      if o.Open? {
        ForwardLine(text, a, base, line, i + 1, o.stack);
      } else if o.Closed? {
        ClosedAt(false, stack, line[i], i + 1, o);
      }
    }
  }

  lemma ReadRooted(back: bool, text: seq<char>, a: nat, m: nat, stack: seq<char>)
    requires ReadTo(back, text, a, m, stack)
    ensures Rooted(back, stack) && a < m <= |text| && IsOpener(text[a])
  {
  }

  lemma ClosedAt(back: bool, stack: seq<char>, x: char, at: nat, o: Outcome)
    requires Answers(back, stack, x, at, o) && o.Closed?
    ensures o.at == at
  {
  }

  // Backward, text is the mirror image and the character at i of the line is found at top - i.
  lemma {:induction false} BackwardLine(text: seq<char>, top: nat, line: seq<char>, i: int, stack: seq<char>)
    requires -1 <= i < |line| && i <= top < |text|
    requires forall j :: 0 <= j <= i ==> text[top - j] == Flip(line[j])
    requires ReadTo(true, text, 0, top - i, stack)
    ensures match Backward(line, i, stack)
            case Closed(at) => at < |line| && at <= top && Partners(text, 0, top - at)
            case Failed => forall b :: !Partners(text, 0, b)
            case Open(next) => ReadTo(true, text, 0, top + 1, next)
    decreases i
  {
    hide ReadTo, Partners, BackwardStep, Answers, SkipsTwo, Flip;
    if i < 0 {
    } else {
      var o := BackwardStep(line, i, stack);
      ReadRooted(true, text, 0, top - i, stack);
      BackwardAnswers(line, i, stack);
      ReadNext(true, text, 0, top - i, stack, i, o);
      if o.Open? {
        if SkipsTwo(line, i) {
          ReadOther(text, top - i + 1, o.stack, line[i - 1]);
          BackwardLine(text, top, line, i - 2, o.stack);
        } else {
          BackwardLine(text, top, line, i - 1, o.stack);
        }
      } else if o.Closed? {
        ClosedAt(true, stack, Flip(line[i]), i, o);
      }
    }
  }

  // A skipped character that is no bracket makes no difference.
  lemma ReadOther(text: seq<char>, m: nat, stack: seq<char>, x: char)
    requires ReadTo(true, text, 0, m, stack) && m < |text| && text[m] == Flip(x) && !IsBracket(x)
    ensures ReadTo(true, text, 0, m + 1, stack)
  {
    hide Kept;
    FlipOther(x);
    SliceSnoc(text, 1, m, m + 1);
    RunSnoc(text[0], text[1..m], text[m]);
  }

  // --- All lines ------------------------------------------------------------------------------------------------------

  function Text(lines: seq<seq<char>>): seq<char> {
    if lines == [] then [] else Text(lines[..|lines| - 1]) + lines[|lines| - 1]
  }

  // Where a column of a line is found in the text.
  function Index(lines: seq<seq<char>>, l: nat, col: nat): nat
    requires l <= |lines|
  {
    |Text(lines[..l])| + col
  }

  lemma {:induction false} LineInText(lines: seq<seq<char>>, l: nat)
    requires l < |lines|
    ensures Index(lines, l, 0) + |lines[l]| == Index(lines, l + 1, 0) <= |Text(lines)|
    ensures Text(lines)[Index(lines, l, 0)..Index(lines, l + 1, 0)] == lines[l]
    decreases |lines|
  {
    var init := lines[..|lines| - 1];
    assert lines[..|lines|] == lines;
    if l == |lines| - 1 {
    } else {
      LineInText(init, l);
      assert init[..l] == lines[..l] && init[..l + 1] == lines[..l + 1];
      assert Text(lines)[Index(lines, l, 0)..Index(lines, l + 1, 0)]
          == Text(init)[Index(lines, l, 0)..Index(lines, l + 1, 0)];
    }
  }

  lemma {:induction false} IndexGrows(lines: seq<seq<char>>, l: nat, m: nat)
    requires l <= m <= |lines|
    ensures Index(lines, l, 0) <= Index(lines, m, 0)
    decreases m - l
  {
    if l == m {
    } else {
      IndexGrows(lines, l + 1, m);
      LineInText(lines, l);
    }
  }

  // Different columns of different lines are different places in the text.
  lemma IndexOnce(lines: seq<seq<char>>, l: nat, c: nat, m: nat, d: nat)
    requires l < |lines| && m < |lines| && c < |lines[l]| && d < |lines[m]| && Index(lines, l, c) == Index(lines, m, d)
    ensures l == m && c == d
  {
    LineInText(lines, l);
    LineInText(lines, m);
    if l < m {
      IndexGrows(lines, l + 1, m);
    } else if m < l {
      IndexGrows(lines, m + 1, l);
    }
  }

  /** What a matcher that started at a has found: the partner, or that there is none. */
  ghost predicate FindsEnd(lines: seq<seq<char>>, a: nat, r: Place) {
    if r.pos == -1 then r.num == |lines| && forall b :: !Partners(Text(lines), a, b)
    else && r.num < |lines| && r.line == lines[r.num] && 0 < r.pos <= |r.line|
         && Partners(Text(lines), a, Index(lines, r.num, r.pos - 1))
  }

  ghost predicate LineReport(lines: seq<seq<char>>, a: nat, l: nat, o: Outcome)
    requires l < |lines|
  {
    match o
    case Closed(at) => 0 < at <= |lines[l]| && Partners(Text(lines), a, Index(lines, l, at - 1))
    case Failed => forall b :: !Partners(Text(lines), a, b)
    case Open(next) => ReadTo(false, Text(lines), a, Index(lines, l + 1, 0), next)
  }

  lemma {:induction false} CloseOnFinds(lines: seq<seq<char>>, a: nat, l: nat, o: Outcome)
    requires l < |lines| && LineReport(lines, a, l, o)
    ensures FindsEnd(lines, a, CloseOn(lines, l, o))
    decreases |lines| - l
  {
    hide Forward, ReadTo, Partners, Text;
    if !o.Open? {
    } else {
      var text := Text(lines);
      ReadRooted(false, text, a, Index(lines, l + 1, 0), o.stack);
      if l == |lines| - 1 {
        forall b
          ensures !Partners(text, a, b)
        {
          assert lines[..|lines|] == lines;
          NoPartnerAtEnd(text, a, o.stack, b);
        }
      } else {
        var next := Forward(lines[l + 1], 0, o.stack);
        LineInText(lines, l + 1);
        ForwardLine(text, a, Index(lines, l + 1, 0), lines[l + 1], 0, o.stack);
        CloseOnFinds(lines, a, l + 1, next);
      }
    }
  }

  lemma NoPartnerAtEnd(text: seq<char>, a: nat, stack: seq<char>, b: nat)
    requires ReadTo(false, text, a, |text|, stack)
    ensures !Partners(text, a, b)
  {
    if b < |text| {
      NoPartnerYet(text, a, |text|, b);
    }
  }

  lemma ForwardFirst(line: seq<char>, pos: nat)
    requires pos < |line| && IsOpener(line[pos])
    ensures Forward(line, pos, []) == Forward(line, pos + 1, [line[pos]])
  {
    assert [] + [line[pos]] == [line[pos]];
  }

  /** CloseExpression: from a round, square or curly bracket it finds the one that closes it, or says that none does. */
  lemma CloseFindsPartner(lines: seq<seq<char>>, l: nat, pos: nat)
    requires l < |lines| && pos < |lines[l]| && IsOpener(lines[l][pos])
    ensures FindsEnd(lines, Index(lines, l, pos), Close(lines, l, pos))
  {
    hide ReadTo, Partners, Text, Forward, FindsEnd;
    var line, base, text := lines[l], Index(lines, l, 0), Text(lines);
    LineInText(lines, l);
    var c := line[pos];
    assert text[base + pos] == text[base..base + |line|][pos] == c;
    FirstRead(false, text, base + pos, [c]);
    ForwardFirst(line, pos);
    ForwardLine(text, base + pos, base, line, pos + 1, [c]);
    CloseOnFinds(lines, base + pos, l, Forward(line, pos, []));
  }

  lemma FirstRead(back: bool, text: seq<char>, a: nat, stack: seq<char>)
    requires a < |text| && IsOpener(text[a]) && |stack| == 1 && Facing(back, stack[0]) == text[a]
    ensures ReadTo(back, text, a, a + 1, stack)
  {
    FlipOther(Angle(back));
    assert Kept(back, stack[..0]) == [];
    assert Kept(back, stack) == [] + [text[a]] == [text[a]];
    assert text[a + 1..a + 1] == [];
  }

  // --- Backward, in the mirror ----------------------------------------------------------------------------------------

  lemma {:induction false} MirrorAt(s: seq<char>, k: nat)
    requires k < |s|
    ensures Mirror(s)[k] == Flip(s[|s| - 1 - k])
  {
    if k == |s| - 1 {
    } else {
      MirrorAt(s[1..], k);
    }
  }

  lemma MirrorMiddle(front: seq<char>, t: seq<char>, end: seq<char>)
    ensures Mirror(front + t + end)[|end|..|end| + |t|] == Mirror(t)
  {
    hide Mirror, Flip;
    MirrorAppend(front, t);
    MirrorAppend(front + t, end);
    Middle(Mirror(end), Mirror(t), Mirror(front));
  }

  lemma Middle(a: seq<char>, b: seq<char>, c: seq<char>)
    ensures (a + (b + c))[|a|..|a| + |b|] == b
  {
  }

  // The text up to the bracket at b, in the mirror.
  function Before(text: seq<char>, b: nat): seq<char>
    requires b < |text|
  {
    Mirror(text[..b + 1])
  }

  lemma BeforeAt(text: seq<char>, b: nat, k: nat)
    requires b < |text| && k <= b
    ensures |Before(text, b)| == b + 1 && Before(text, b)[b - k] == Flip(text[k])
  {
    MirrorAt(text[..b + 1], b - k);
  }

  lemma BeforePartners(text: seq<char>, a: nat, b: nat)
    requires b < |text| && IsCloser(text[b]) && a < b
    ensures Partners(text, a, b) <==> Partners(Before(text, b), 0, b - a)
  {
    hide Mirror, Flip, Balanced;
    var m := Before(text, b);
    BeforeAt(text, b, a);
    BeforeAt(text, b, b);
    FlipTwice(text[a]);
    FlipTwice(text[b]);
    MirrorMiddle(text[..a + 1], text[a + 1..b], [text[b]]);
    assert text[..a + 1] + text[a + 1..b] + [text[b]] == text[..b + 1];
    MirrorIsBalanced(text[a + 1..b]);
    FlipOnce(text[a], text[b]);
  }

  lemma FlipOnce(c: char, d: char)
    ensures Flip(c) == d <==> c == Flip(d)
  {
  }

  lemma StartUnique(text: seq<char>, a: nat, c: nat, b: nat)
    requires Partners(text, a, b) && Partners(text, c, b)
    ensures a == c
  {
    FlipTwice(text[a]);
    BeforePartners(text, a, b);
    BeforePartners(text, c, b);
    PartnerUnique(Before(text, b), 0, b - a, b - c);
  }

  ghost predicate FindsStart(lines: seq<seq<char>>, b: nat, r: Place) {
    if r.pos == -1 then r.num == 0 && forall a :: !Partners(Text(lines), a, b)
    else && r.num < |lines| && r.line == lines[r.num] && 0 <= r.pos < |r.line|
         && Partners(Text(lines), Index(lines, r.num, r.pos), b)
  }

  ghost predicate BackReport(lines: seq<seq<char>>, b: nat, l: nat, o: Outcome)
    requires l < |lines| && b < |Text(lines)| && Index(lines, l, 0) <= b
  {
    var m := Before(Text(lines), b);
    match o
    case Closed(at) => at < |lines[l]| && Index(lines, l, at) <= b && Partners(m, 0, b - Index(lines, l, at))
    case Failed => forall k :: !Partners(m, 0, k)
    case Open(next) => ReadTo(true, m, 0, b - Index(lines, l, 0) + 1, next)
  }

  lemma NoStart(text: seq<char>, b: nat)
    requires b < |text| && IsCloser(text[b]) && forall k :: !Partners(Before(text, b), 0, k)
    ensures forall a :: !Partners(text, a, b)
  {
    hide Balanced;
    forall a: nat
      ensures !Partners(text, a, b)
    {
      if a < b {
        BeforePartners(text, a, b);
        assert !Partners(Before(text, b), 0, b - a);
      }
    }
  }

  lemma NoStartAtBeginning(m: seq<char>, stack: seq<char>, k: nat)
    requires ReadTo(true, m, 0, |m|, stack)
    ensures !Partners(m, 0, k)
  {
    if k < |m| {
      NoPartnerYet(m, 0, |m|, k);
    }
  }

  // One more line, from its end.
  lemma LineBefore(lines: seq<seq<char>>, b: nat, l: nat, stack: seq<char>)
    requires 0 < l < |lines| && b < |Text(lines)| && Index(lines, l, 0) <= b
    requires ReadTo(true, Before(Text(lines), b), 0, b - Index(lines, l, 0) + 1, stack)
    ensures Index(lines, l - 1, 0) <= b
    ensures BackReport(lines, b, l - 1, Backward(lines[l - 1], |lines[l - 1]| - 1, stack))
  {
    hide ReadTo, Partners, Text, Backward, Before;
    var line, m := lines[l - 1], Before(Text(lines), b);
    LineInText(lines, l - 1);
    var top := b - Index(lines, l - 1, 0);
    LineMirrored(lines, b, l - 1, |line| - 1);
    BackwardLine(m, top, line, |line| - 1, stack);
  }

  lemma LineMirrored(lines: seq<seq<char>>, b: nat, l: nat, i: int)
    requires l < |lines| && b < |Text(lines)| && i < |lines[l]| && Index(lines, l, 0) + i <= b
    requires Index(lines, l, 0) <= b
    ensures |Before(Text(lines), b)| == b + 1
    ensures forall j :: 0 <= j <= i ==> Before(Text(lines), b)[b - Index(lines, l, 0) - j] == Flip(lines[l][j])
  {
    hide Before, Text, Flip;
    var text, base := Text(lines), Index(lines, l, 0);
    LineInText(lines, l);
    BeforeAt(text, b, b);
    forall j | 0 <= j <= i
      ensures Before(text, b)[b - base - j] == Flip(lines[l][j])
    {
      BeforeAt(text, b, base + j);
      assert text[base + j] == text[base..base + |lines[l]|][j];
    }
  }

  lemma {:induction false} OpenOnFinds(lines: seq<seq<char>>, b: nat, l: nat, o: Outcome)
    requires l < |lines| && b < |Text(lines)| && Index(lines, l, 0) <= b && IsCloser(Text(lines)[b])
    requires BackReport(lines, b, l, o)
    ensures FindsStart(lines, b, OpenOn(lines, l, o))
    decreases l
  {
    hide Backward, ReadTo, Partners, Before;
    var text := Text(lines);
    var m := Before(text, b);
    match o
    case Closed(at) =>
      PartnersApart(m, b - Index(lines, l, at));
      BeforePartners(text, Index(lines, l, at), b);
    case Failed => NoStart(text, b);
    case Open(stack) =>
      ReadRooted(true, m, 0, b - Index(lines, l, 0) + 1, stack);
      if l == 0 {
        BeforeAt(text, b, b);
        assert lines[..0] == [];
        forall k
          ensures !Partners(m, 0, k)
        {
          NoStartAtBeginning(m, stack, k);
        }
        NoStart(text, b);
      } else {
        LineBefore(lines, b, l, stack);
        OpenOnFinds(lines, b, l - 1, Backward(lines[l - 1], |lines[l - 1]| - 1, stack));
      }
  }

  lemma PartnersApart(text: seq<char>, k: nat)
    requires Partners(text, 0, k)
    ensures k > 0
  {
  }

  lemma BackwardFirst(line: seq<char>, pos: nat)
    requires pos < |line| && IsCloser(line[pos])
    ensures Backward(line, pos, []) == Backward(line, pos - 1, [line[pos]])
  {
    assert [] + [line[pos]] == [line[pos]];
  }

  /** ReverseCloseExpression: from a closing bracket it finds the one that opened it, or says that none did. */
  lemma ReverseFindsPartner(lines: seq<seq<char>>, l: nat, pos: nat)
    requires l < |lines| && pos < |lines[l]| && IsCloser(lines[l][pos])
    ensures FindsStart(lines, Index(lines, l, pos), ReverseClose(lines, l, pos))
  {
    hide ReadTo, Partners, Text, Backward, FindsStart, Before, Flip;
    var line, base, text := lines[l], Index(lines, l, 0), Text(lines);
    LineInText(lines, l);
    var c, b := line[pos], base + pos;
    assert text[b] == text[base..base + |line|][pos] == c;
    var m := Before(text, b);
    BeforeAt(text, b, b);
    FlipTwice(c);
    FirstRead(true, m, 0, [c]);
    BackwardFirst(line, pos);
    LineMirrored(lines, b, l, pos);
    BackwardLine(m, pos, line, pos - 1, [c]);
    OpenOnFinds(lines, b, l, Backward(line, pos, []));
  }

  // --- There and back -------------------------------------------------------------------------------------------------

  /** The match is the one partner there is: the matcher succeeds exactly when the bracket has one. */
  lemma CloseIsExact(lines: seq<seq<char>>, l: nat, pos: nat, m: nat, col: nat)
    requires l < |lines| && pos < |lines[l]| && lines[l][pos] in ['(', '[', '{'] && m < |lines| && col < |lines[m]|
    ensures Close(lines, l, pos) == Place(lines[m], m, col + 1)
       <==> Partners(Text(lines), Index(lines, l, pos), Index(lines, m, col))
    ensures Close(lines, l, pos) == Place(lines[m], m, col + 1) ==>
              [lines[l][pos], lines[m][col]] in [['(', ')'], ['[', ']'], ['{', '}']]
  {
    CharAt(lines, l, pos);
    CharAt(lines, m, col);
    PartnersPair(Text(lines), Index(lines, l, pos), Index(lines, m, col));
    hide Partners, Text, Close;
    var r, a := Close(lines, l, pos), Index(lines, l, pos);
    CloseFindsPartner(lines, l, pos);
    if Partners(Text(lines), a, Index(lines, m, col)) {
      PartnerUnique(Text(lines), a, Index(lines, m, col), Index(lines, r.num, r.pos - 1));
      IndexOnce(lines, m, col, r.num, r.pos - 1);
    }
  }

  lemma PartnersPair(text: seq<char>, a: nat, b: nat)
    ensures Partners(text, a, b) ==> [text[a], text[b]] in [['(', ')'], ['[', ']'], ['{', '}']]
  {
    hide Balanced;
  }

  lemma ReverseIsExact(lines: seq<seq<char>>, l: nat, pos: nat, m: nat, col: nat)
    requires l < |lines| && pos < |lines[l]| && lines[l][pos] in [')', ']', '}'] && m < |lines| && col < |lines[m]|
    ensures ReverseClose(lines, l, pos) == Place(lines[m], m, col)
       <==> Partners(Text(lines), Index(lines, m, col), Index(lines, l, pos))
  {
    hide Partners, Text, ReverseClose;
    var r, b := ReverseClose(lines, l, pos), Index(lines, l, pos);
    ReverseFindsPartner(lines, l, pos);
    if Partners(Text(lines), Index(lines, m, col), b) {
      StartUnique(Text(lines), Index(lines, m, col), Index(lines, r.num, r.pos), b);
      IndexOnce(lines, m, col, r.num, r.pos);
    }
  }

  /** From anything that is no bracket nothing is found. */
  lemma OthersFindNothing(lines: seq<seq<char>>, l: nat, pos: nat)
    requires l < |lines| && pos < |lines[l]|
    ensures lines[l][pos] !in ['(', '[', '{', '<'] ==> Close(lines, l, pos) == Place(lines[l], |lines|, -1)
    ensures lines[l][pos] !in [')', ']', '}', '>'] ==> ReverseClose(lines, l, pos) == Place(lines[l], 0, -1)
  {
    hide Forward, Backward;
  }

  /** From an opener to its end and back is the opener, and from a closer to its start and forth is the closer. */
  lemma ThereAndBack(lines: seq<seq<char>>, l: nat, pos: nat, m: nat, col: nat)
    requires l < |lines| && pos < |lines[l]| && IsOpener(lines[l][pos])
    requires m < |lines| && col < |lines[m]| && IsCloser(lines[m][col])
    ensures Close(lines, l, pos) == Place(lines[m], m, col + 1)
       <==> ReverseClose(lines, m, col) == Place(lines[l], l, pos)
  {
    CloseIsExact(lines, l, pos, m, col);
    ReverseIsExact(lines, m, col, l, pos);
  }

  lemma CloseThenReverse(lines: seq<seq<char>>, l: nat, pos: nat)
    requires l < |lines| && pos < |lines[l]| && IsOpener(lines[l][pos]) && Close(lines, l, pos).pos != -1
    ensures var r := Close(lines, l, pos);
            && r.num < |lines| && 0 < r.pos <= |lines[r.num]|
            && ReverseClose(lines, r.num, r.pos - 1) == Place(lines[l], l, pos)
  {
    hide Close, ReverseClose, Text, Balanced, Flip;
    var r := Close(lines, l, pos);
    CloseFindsPartner(lines, l, pos);
    LineInText(lines, l);
    LineInText(lines, r.num);
    CharAt(lines, l, pos);
    CharAt(lines, r.num, r.pos - 1);
    FlipTwice(lines[l][pos]);
    FlipTwice(lines[r.num][r.pos - 1]);
    ThereAndBack(lines, l, pos, r.num, r.pos - 1);
  }

  lemma CharAt(lines: seq<seq<char>>, l: nat, col: nat)
    requires l < |lines| && col < |lines[l]|
    ensures Index(lines, l, col) < |Text(lines)| && Text(lines)[Index(lines, l, col)] == lines[l][col]
  {
    hide Text;
    LineInText(lines, l);
    assert lines[l][col] == Text(lines)[Index(lines, l, 0)..Index(lines, l + 1, 0)][col];
  }
}
