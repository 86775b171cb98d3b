/** Where the matchers of style/gwclint.py do find angle brackets: once shifts, arrows, comparisons and operator names are
    set aside, in text whose brackets of all four kinds are nested. */
module LintArguments {
  import opened Optional
  import opened Brackets
  import opened LintMatcher
  import opened LintPartners

  // --- Nested text ----------------------------------------------------------------------------------------------------

  predicate Opens(c: char) {
    IsOpener(c) || c == '<'
  }

  predicate Plain(c: char) {
    !IsBracket(c) && c != '<' && c != '>'
  }

  function Closer(c: char): char {
    if c == '<' then '>' else Flip(c)
  }

  /** Nothing, a character that is no bracket, two nested texts, or a pair of brackets around a nested text. */
  ghost predicate Nested(s: seq<char>)
    decreases |s|
  {
    || s == []
    || (|s| == 1 && Plain(s[0]))
    || (exists k :: 0 < k < |s| && Splits(s, k))
    || Wraps(s)
  }

  ghost predicate Splits(s: seq<char>, k: nat)
    requires 0 < k < |s|
    decreases |s|, 0
  {
    Nested(s[..k]) && Nested(s[k..])
  }

  ghost predicate Wraps(s: seq<char>)
    decreases |s|, 0
  {
    |s| >= 2 && Opens(s[0]) && s[|s| - 1] == Closer(s[0]) && Nested(s[1..|s| - 1])
  }

  // --- Operators ------------------------------------------------------------------------------------------------------

  predicate Has(line: seq<char>, i: int, c: char) {
    0 <= i < |line| && line[i] == c
  }

  // Shifts, arrows and operator names; forward, of a name like operator-> the last character counts; backward a
  // comparison between spaces counts too.
  predicate InOperator(back: bool, line: seq<char>, c: nat)
    requires c < |line|
  {
    || (line[c] == '<' && (Has(line, c - 1, '<') || Has(line, c + 1, '<') || (!back && EndsWithOperator(line[..c]))))
    || (line[c] == '>' && c > 0 &&
        (|| line[c - 1] == '-'
         || EndsWithOperator(line[..if back then c else c - 1])
         || (back && IsSpace(line[c - 1]) && Has(line, c + 1, '=') && c + 2 < |line| && IsSpace(line[c + 2]))))
  }

  // The line with its operators set aside.
  function Clean(back: bool, line: seq<char>): (r: seq<char>)
    ensures |r| == |line|
  {
    seq(|line|, c requires 0 <= c < |line| => if InOperator(back, line, c) then ' ' else line[c])
  }

  function Cleaned(back: bool, lines: seq<seq<char>>): (r: seq<seq<char>>)
    ensures |r| == |lines| && forall l :: 0 <= l < |lines| ==> r[l] == Clean(back, lines[l])
  {
    seq(|lines|, l requires 0 <= l < |lines| => Clean(back, lines[l]))
  }

  // No semicolon, nothing like <<<, and no shift right after the word operator.
  predicate StraightAt(line: seq<char>, c: nat)
    requires c < |line|
  {
    && line[c] != ';'
    && (line[c] == '<' && Has(line, c + 1, '<') ==> !Has(line, c - 1, '<') && !EndsWithOperator(line[..c]))
  }

  ghost predicate Straight(lines: seq<seq<char>>, p: nat, q: nat) {
    forall l, c :: 0 <= l < |lines| && 0 <= c < |lines[l]| && p <= Index(lines, l, c) < q ==> StraightAt(lines[l], c)
  }

  lemma {:induction false} SameText(back: bool, lines: seq<seq<char>>, l: nat, c: nat)
    requires l <= |lines|
    ensures Index(Cleaned(back, lines), l, c) == Index(lines, l, c)
  {
    var cl := Cleaned(back, lines);
    if l == 0 {
    } else {
      SameText(back, lines, l - 1, 0);
      assert lines[..l][..l - 1] == lines[..l - 1] && cl[..l][..l - 1] == cl[..l - 1];
    }
  }

  // --- The scan forward -----------------------------------------------------------------------------------------------

  // Between the two characters of a shift the first is on the stack.
  function Held(line: seq<char>, c: nat, stack: seq<char>): seq<char> {
    if Has(line, c, '<') && Has(line, c - 1, '<') then stack + ['<'] else stack
  }

  // What the scan comes to from column c of line l.
  function Resume(lines: seq<seq<char>>, l: nat, c: nat, stack: seq<char>): Place
    requires l < |lines|
  {
    CloseOn(lines, l, Forward(lines[l], c, Held(lines[l], c, stack)))
  }

  ghost predicate At(lines: seq<seq<char>>, l: nat, c: nat, p: nat) {
    l < |lines| && c <= |lines[l]| && Index(lines, l, c) == p
  }

  // From the end of a line the scan goes on to the next character of the text.
  lemma {:induction false} NextChar(lines: seq<seq<char>>, l: nat, c: nat, p: nat, stack: seq<char>)
    returns (m: nat, d: nat)
    requires At(lines, l, c, p) && p < |Text(lines)| && stack != []
    ensures At(lines, m, d, p) && d < |lines[m]|
    ensures Resume(lines, m, d, stack) == Resume(lines, l, c, stack)
    decreases |lines| - l
  {
    hide Text, ForwardStep;
    if c < |lines[l]| {
      m, d := l, c;
    } else {
      LineInText(lines, l);
      AllText(lines);
      m, d := NextChar(lines, l + 1, 0, p, stack);
    }
  }

  lemma AllText(lines: seq<seq<char>>)
    ensures Index(lines, |lines|, 0) == |Text(lines)|
  {
    assert lines[..|lines|] == lines;
  }

  // The character there, with operators set aside.
  lemma CleanChar(back: bool, lines: seq<seq<char>>, m: nat, d: nat, p: nat)
    requires At(lines, m, d, p) && d < |lines[m]|
    ensures p < |Text(Cleaned(back, lines))| && Text(Cleaned(back, lines))[p] == Clean(back, lines[m])[d]
  {
    hide Text, Clean;
    SameText(back, lines, m, d);
    CharAt(Cleaned(back, lines), m, d);
  }

  lemma SameLength(back: bool, lines: seq<seq<char>>)
    ensures |Text(Cleaned(back, lines))| == |Text(lines)|
  {
    hide Text;
    SameText(back, lines, |lines|, 0);
    AllText(lines);
    AllText(Cleaned(back, lines));
  }

  // One character that leaves the stack open.
  lemma StepOn(lines: seq<seq<char>>, l: nat, c: nat, stack: seq<char>, next: seq<char>)
    requires l < |lines| && c < |lines[l]|
    requires ForwardStep(lines[l], c, Held(lines[l], c, stack)) == Open(Held(lines[l], c + 1, next))
    ensures Resume(lines, l, c, stack) == Resume(lines, l, c + 1, next)
    ensures At(lines, l, c + 1, Index(lines, l, c) + 1)
  {
    hide Text, ForwardStep, Held;
  }

  // An operator changes nothing.
  lemma ForwardPlain(line: seq<char>, c: nat, stack: seq<char>)
    requires c < |line| && StraightAt(line, c) && stack != [] && Plain(Clean(false, line)[c])
    ensures ForwardStep(line, c, Held(line, c, stack)) == Open(Held(line, c + 1, stack))
  {
    NoOperator(line);
    hide EndsWithOperator;
    var t := stack + ['<'];
    assert t[..|t| - 1] == stack && t[|t| - 1] == '<';
  }

  lemma NoOperator(line: seq<char>)
    ensures !EndsWithOperator(line[..0])
  {
  }

  lemma ForwardOpens(line: seq<char>, c: nat, stack: seq<char>)
    requires c < |line| && Opens(Clean(false, line)[c])
    ensures line[c] == Clean(false, line)[c]
    ensures ForwardStep(line, c, Held(line, c, stack)) == Open(Held(line, c + 1, stack + [line[c]]))
    ensures Held(line, c, stack) == stack
  {
    hide EndsWithOperator;
  }

  // A closer takes its own opener off again.
  lemma ForwardCloses(line: seq<char>, c: nat, stack: seq<char>, o: char)
    requires c < |line| && Opens(o) && Clean(false, line)[c] == Closer(o)
    ensures ForwardStep(line, c, Held(line, c, stack + [o])) ==
            if stack == [] then Closed(c + 1) else Open(Held(line, c + 1, stack))
  {
    hide EndsWithOperator;
    var t := stack + [o];
    assert t[..|t| - 1] == stack && t[|t| - 1] == o;
  }

  // The scan passes over nested text and leaves the stack as it was.
  lemma {:induction false} PassesNested(lines: seq<seq<char>>, l: nat, c: nat, p: nat, q: nat, stack: seq<char>)
    returns (m: nat, d: nat)
    requires p <= q <= |Text(Cleaned(false, lines))| && Nested(Text(Cleaned(false, lines))[p..q]) && Straight(lines, p, q)
    requires At(lines, l, c, p) && stack != []
    ensures At(lines, m, d, q) && Resume(lines, m, d, stack) == Resume(lines, l, c, stack)
    decreases q - p
  {
    hide Text, Cleaned, Resume, StraightAt, At;
    var text := Text(Cleaned(false, lines));
    var s := text[p..q];
    if p == q {
      m, d := l, c;
    } else if q == p + 1 && Plain(s[0]) {
      m, d := PassesPlain(lines, l, c, p, stack);
    } else if Wraps(s) {
      m, d := PassesPair(lines, l, c, p, q, stack);
    } else {
      var k: nat :| 0 < k < |s| && Splits(s, k);
      assert s[..k] == text[p..p + k] && s[k..] == text[p + k..q];
      m, d := PassesNested(lines, l, c, p, p + k, stack);
      m, d := PassesNested(lines, m, d, p + k, q, stack);
    }
  }

  lemma PassesPlain(lines: seq<seq<char>>, l: nat, c: nat, p: nat, stack: seq<char>) returns (m: nat, d: nat)
    requires p < |Text(Cleaned(false, lines))| && Plain(Text(Cleaned(false, lines))[p]) && Straight(lines, p, p + 1)
    requires At(lines, l, c, p) && stack != []
    ensures At(lines, m, d, p + 1) && Resume(lines, m, d, stack) == Resume(lines, l, c, stack)
  {
    SameLength(false, lines);
    m, d := NextChar(lines, l, c, p, stack);
    CleanChar(false, lines, m, d, p);
    hide Text, Cleaned, Clean, ForwardStep, Resume, StraightAt, Held, Plain;
    ForwardPlain(lines[m], d, stack);
    StepOn(lines, m, d, stack, stack);
    d := d + 1;
  }

  lemma {:induction false} PassesPair(lines: seq<seq<char>>, l: nat, c: nat, p: nat, q: nat, stack: seq<char>)
    returns (m: nat, d: nat)
    requires p < q <= |Text(Cleaned(false, lines))| && Wraps(Text(Cleaned(false, lines))[p..q]) && Straight(lines, p, q)
    requires At(lines, l, c, p) && stack != []
    ensures At(lines, m, d, q) && Resume(lines, m, d, stack) == Resume(lines, l, c, stack)
    decreases q - p, 0
  {
    hide Text, Cleaned, Clean, ForwardStep, Resume, StraightAt, Held, Opens, Closer;
    var text := Text(Cleaned(false, lines));
    var s, o := text[p..q], text[p];
    assert s[0] == o && s[1..|s| - 1] == text[p + 1..q - 1] && s[|s| - 1] == text[q - 1];
    SameLength(false, lines);
    m, d := NextChar(lines, l, c, p, stack);
    CleanChar(false, lines, m, d, p);
    ForwardOpens(lines[m], d, stack);
    StepOn(lines, m, d, stack, stack + [o]);
    m, d := PassesNested(lines, m, d + 1, p + 1, q - 1, stack + [o]);
    m, d := NextChar(lines, m, d, q - 1, stack + [o]);
    CleanChar(false, lines, m, d, q - 1);
    ForwardCloses(lines[m], d, stack, o);
    StepOn(lines, m, d, stack + [o], stack);
    d := d + 1;
  }

  // The text from a '<' up to another place is nested, operators set aside.
  ghost predicate NestedBetween(back: bool, lines: seq<seq<char>>, l: nat, pos: nat, m: nat, col: nat) {
    && l < |lines| && pos < |lines[l]| && m < |lines| && col < |lines[m]|
    && var a, b := Index(lines, l, pos), Index(lines, m, col);
       a < b <= |Text(Cleaned(back, lines))| && Nested(Text(Cleaned(back, lines))[a + 1..b])
       && Straight(lines, a + 1, b)
  }

  // The scan from a '<' to the end of nested text.
  lemma OpensArguments(lines: seq<seq<char>>, l: nat, pos: nat, m: nat, col: nat)
    requires NestedBetween(false, lines, l, pos, m, col) && Clean(false, lines[l])[pos] == '<'
    requires !Has(lines[l], pos + 1, '=')
    ensures Close(lines, l, pos) == Resume(lines, m, col, ['<'])
  {
    hide Text, Cleaned, ForwardStep, StraightAt, Nested, EndsWithOperator, Held, CloseOn, Forward;
    var a, b := Index(lines, l, pos), Index(lines, m, col);
    ForwardOpens(lines[l], pos, []);
    assert [] + ['<'] == ['<'];
    StepOn(lines, l, pos, [], ['<']);
    SameLength(false, lines);
    var n, d := PassesNested(lines, l, pos + 1, a + 1, b, ['<']);
    CharAt(lines, m, col);
    n, d := NextChar(lines, n, d, b, ['<']);
    IndexOnce(lines, n, d, m, col);
  }

  /** From a '<' that opens an argument list CloseExpression finds the '>' that closes it, on whatever line. */
  lemma CloseFindsArguments(lines: seq<seq<char>>, l: nat, pos: nat, m: nat, col: nat)
    requires NestedBetween(false, lines, l, pos, m, col) && !Has(lines[l], pos + 1, '=')
    requires Clean(false, lines[l])[pos] == '<' && Clean(false, lines[m])[col] == '>'
    ensures Close(lines, l, pos) == Place(lines[m], m, col + 1)
  {
    OpensArguments(lines, l, pos, m, col);
    hide Clean, ForwardStep, NestedBetween, Close;
    assert [] + ['<'] == ['<'];
    ForwardCloses(lines[m], col, [], '<');
  }

  /** It finds nothing if it comes to another closing bracket first, or to a semicolon. */
  lemma CloseGivesUp(lines: seq<seq<char>>, l: nat, pos: nat, m: nat, col: nat)
    requires NestedBetween(false, lines, l, pos, m, col) && !Has(lines[l], pos + 1, '=')
    requires Clean(false, lines[l])[pos] == '<' && lines[m][col] in [')', ']', '}', ';']
    ensures Close(lines, l, pos).pos == -1
  {
    OpensArguments(lines, l, pos, m, col);
    hide Clean, NestedBetween, Close, EndsWithOperator;
    assert ['<'][..0] == [] && Trim([], '<') == [];
    assert Trim(['<'], '<') == [];
  }

  // --- The scan backward ----------------------------------------------------------------------------------------------

  // The first character of a shift goes with the second.
  function Skipped(line: seq<char>, c: int): (d: int)
    ensures d <= c && (c >= -1 ==> d >= -1)
  {
    if Has(line, c, '<') && Has(line, c + 1, '<') then c - 1 else c
  }

  function ResumeBack(lines: seq<seq<char>>, l: nat, c: int, stack: seq<char>): Place
    requires l < |lines| && c < |lines[l]|
  {
    OpenOn(lines, l, Backward(lines[l], Skipped(lines[l], c), stack))
  }

  // Column c of line l is the last one before q.
  ghost predicate Before(lines: seq<seq<char>>, l: nat, c: int, q: nat) {
    l < |lines| && -1 <= c < |lines[l]| && Index(lines, l, 0) + c + 1 == q
  }

  lemma {:induction false} PrevChar(lines: seq<seq<char>>, l: nat, c: int, q: nat, stack: seq<char>)
    returns (m: nat, d: nat)
    requires Before(lines, l, c, q) && q > 0 && stack != []
    ensures Before(lines, m, d, q) && At(lines, m, d, q - 1)
    ensures ResumeBack(lines, m, d, stack) == ResumeBack(lines, l, c, stack)
    decreases l
  {
    hide Text, BackwardStep;
    if c >= 0 {
      m, d := l, c;
    } else {
      NothingBefore(lines);
      LineInText(lines, l - 1);
      m, d := PrevChar(lines, l - 1, |lines[l - 1]| - 1, q, stack);
    }
  }

  lemma NothingBefore(lines: seq<seq<char>>)
    ensures Index(lines, 0, 0) == 0
  {
    assert lines[..0] == [];
  }

  lemma StepBack(lines: seq<seq<char>>, l: nat, c: nat, q: nat, stack: seq<char>, next: seq<char>)
    requires Before(lines, l, c, q)
    requires Skipped(lines[l], c) == c && Skipped(lines[l], c - 1) == c - 1 && !SkipsTwo(lines[l], c)
    requires BackwardStep(lines[l], c, stack) == Open(next)
    ensures ResumeBack(lines, l, c, stack) == ResumeBack(lines, l, c - 1, next)
    ensures Before(lines, l, c - 1, q - 1)
  {
    hide Text, BackwardStep, SkipsTwo, Skipped;
  }

  // An operator changes nothing, whether it is skipped or not.
  lemma BackwardPlain(line: seq<char>, c: nat, stack: seq<char>)
    requires c < |line| && StraightAt(line, c) && Plain(Clean(true, line)[c])
    ensures Backward(line, Skipped(line, c), stack) == Backward(line, Skipped(line, c - 1), stack)
  {
    hide EndsWithOperator, Backward;
    if line[c] == '<' {
      BackwardShift(line, c, stack);
    } else if line[c] == '>' {
      BackwardMark(line, c, stack);
    } else {
      BackwardOther(line, c, stack);
    }
  }

  lemma BackwardShift(line: seq<char>, c: nat, stack: seq<char>)
    requires c < |line| && StraightAt(line, c) && line[c] == '<' && InOperator(true, line, c)
    ensures Backward(line, Skipped(line, c), stack) == Backward(line, Skipped(line, c - 1), stack)
  {
    hide EndsWithOperator;
  }

  lemma BackwardMark(line: seq<char>, c: nat, stack: seq<char>)
    requires c < |line| && line[c] == '>' && InOperator(true, line, c)
    ensures Backward(line, Skipped(line, c), stack) == Backward(line, Skipped(line, c - 1), stack)
  {
    assert SkipsTwo(line, c) && Skipped(line, c) == c && Skipped(line, c - 1) == c - 1 by {
      MarkSkips(line, c);
    }
    BeforeMark(line, c);
    hide InOperator, SkipsTwo, Skipped, EndsWithOperator;
    assert Backward(line, c, stack) == Backward(line, c - 2, stack);
    BackwardOther(line, c - 1, stack);
  }

  lemma MarkSkips(line: seq<char>, c: nat)
    requires c < |line| && line[c] == '>' && InOperator(true, line, c)
    ensures SkipsTwo(line, c) && Skipped(line, c) == c && Skipped(line, c - 1) == c - 1
  {
    BeforeMark(line, c);
    hide EndsWithOperator;
  }

  // What stands before the mark is neither a bracket nor a semicolon.
  lemma BeforeMark(line: seq<char>, c: nat)
    requires c < |line| && line[c] == '>' && InOperator(true, line, c)
    ensures c > 0 && Plain(line[c - 1]) && line[c - 1] != ';'
  {
    hide EndsWithOperator;
    if c > 0 && EndsWithOperator(line[..c]) {
      LastOfOperator(line[..c]);
    }
  }

  lemma LastOfOperator(s: seq<char>)
    requires EndsWithOperator(s)
    ensures s != [] && (IsSpace(s[|s| - 1]) || s[|s| - 1] == 'r')
  {
    if s != [] && IsSpace(s[|s| - 1]) {
    } else {
      assert |s| >= 8 && s[|s| - 8..] == OPERATOR;
      hide EndsWithOperator;
      assert s[|s| - 8..][7] == s[|s| - 1];
    }
  }

  lemma BackwardOther(line: seq<char>, c: nat, stack: seq<char>)
    requires c < |line| && Plain(line[c]) && line[c] != ';'
    ensures Backward(line, c, stack) == Backward(line, c - 1, stack) == Backward(line, Skipped(line, c - 1), stack)
  {
  }

  lemma BackwardPushes(line: seq<char>, c: nat, stack: seq<char>)
    requires c < |line| && (IsCloser(Clean(true, line)[c]) || Clean(true, line)[c] == '>')
    ensures line[c] == Clean(true, line)[c]
    ensures Skipped(line, c) == c && Skipped(line, c - 1) == c - 1 && !SkipsTwo(line, c)
    ensures BackwardStep(line, c, stack) == Open(stack + [line[c]])
  {
    hide EndsWithOperator;
  }

  lemma BackwardTakes(line: seq<char>, c: nat, stack: seq<char>)
    requires c < |line| && Opens(Clean(true, line)[c])
    ensures line[c] == Clean(true, line)[c]
    ensures Skipped(line, c) == c && Skipped(line, c - 1) == c - 1 && !SkipsTwo(line, c)
    ensures BackwardStep(line, c, stack + [Closer(line[c])]) == if stack == [] then Closed(c) else Open(stack)
  {
    NoOperatorOpens(line, c);
    TakesTop(line, c, stack);
  }

  lemma NoOperatorOpens(line: seq<char>, c: nat)
    requires c < |line| && Opens(Clean(true, line)[c])
    ensures line[c] == Clean(true, line)[c]
    ensures Skipped(line, c) == c && Skipped(line, c - 1) == c - 1 && !SkipsTwo(line, c)
  {
    hide EndsWithOperator;
  }

  // An opener takes its own closer off again.
  lemma TakesTop(line: seq<char>, c: nat, stack: seq<char>)
    requires c < |line| && Opens(line[c]) && !SkipsTwo(line, c)
    ensures BackwardStep(line, c, stack + [Closer(line[c])]) == if stack == [] then Closed(c) else Open(stack)
  {
    hide SkipsTwo;
    var t := stack + [Closer(line[c])];
    assert t[..|t| - 1] == stack && t[|t| - 1] == Closer(line[c]);
  }

  lemma CloserIs(o: char)
    requires Opens(o)
    ensures IsCloser(Closer(o)) || Closer(o) == '>'
  {
  }

  lemma {:induction false} PassesBack(lines: seq<seq<char>>, l: nat, c: int, p: nat, q: nat, stack: seq<char>)
    returns (m: nat, d: int)
    requires p <= q <= |Text(Cleaned(true, lines))| && Nested(Text(Cleaned(true, lines))[p..q]) && Straight(lines, p, q)
    requires Before(lines, l, c, q) && stack != []
    ensures Before(lines, m, d, p) && ResumeBack(lines, m, d, stack) == ResumeBack(lines, l, c, stack)
    decreases q - p
  {
    hide Text, Cleaned, ResumeBack, StraightAt;
    var text := Text(Cleaned(true, lines));
    var s := text[p..q];
    if p == q {
      m, d := l, c;
    } else if q == p + 1 && Plain(s[0]) {
      m, d := PassesPlainBack(lines, l, c, q, stack);
    } else if Wraps(s) {
      m, d := PassesPairBack(lines, l, c, p, q, stack);
    } else {
      var k: nat :| 0 < k < |s| && Splits(s, k);
      assert s[..k] == text[p..p + k] && s[k..] == text[p + k..q];
      m, d := PassesBack(lines, l, c, p + k, q, stack);
      m, d := PassesBack(lines, m, d, p, p + k, stack);
    }
  }

  lemma PassesPlainBack(lines: seq<seq<char>>, l: nat, c: int, q: nat, stack: seq<char>) returns (m: nat, d: int)
    requires 0 < q <= |Text(Cleaned(true, lines))| && Plain(Text(Cleaned(true, lines))[q - 1]) && Straight(lines, q - 1, q)
    requires Before(lines, l, c, q) && stack != []
    ensures Before(lines, m, d, q - 1) && ResumeBack(lines, m, d, stack) == ResumeBack(lines, l, c, stack)
  {
    m, d := PrevChar(lines, l, c, q, stack);
    CleanChar(true, lines, m, d, q - 1);
    hide Text, Cleaned, Clean, Backward, StraightAt, Skipped, Plain;
    BackwardPlain(lines[m], d, stack);
    d := d - 1;
  }

  lemma {:induction false} PassesPairBack(lines: seq<seq<char>>, l: nat, c: int, p: nat, q: nat, stack: seq<char>)
    returns (m: nat, d: int)
    requires p < q <= |Text(Cleaned(true, lines))| && Wraps(Text(Cleaned(true, lines))[p..q]) && Straight(lines, p, q)
    requires Before(lines, l, c, q) && stack != []
    ensures Before(lines, m, d, p) && ResumeBack(lines, m, d, stack) == ResumeBack(lines, l, c, stack)
    decreases q - p, 0
  {
    hide Text, Cleaned, Clean, BackwardStep, ResumeBack, StraightAt, SkipsTwo, Skipped, Opens, Closer;
    var text := Text(Cleaned(true, lines));
    var s, o := text[p..q], text[q - 1];
    assert s[|s| - 1] == o && s[1..|s| - 1] == text[p + 1..q - 1] && s[0] == text[p];
    CloserIs(s[0]);
    m, d := PrevChar(lines, l, c, q, stack);
    CleanChar(true, lines, m, d, q - 1);
    BackwardPushes(lines[m], d, stack);
    StepBack(lines, m, d, q, stack, stack + [o]);
    m, d := PassesBack(lines, m, d - 1, p + 1, q - 1, stack + [o]);
    m, d := PrevChar(lines, m, d, p + 1, stack + [o]);
    CleanChar(true, lines, m, d, p);
    BackwardTakes(lines[m], d, stack);
    StepBack(lines, m, d, p + 1, stack + [o], stack);
    d := d - 1;
  }

  // The scan from a '>' back to the beginning of nested text.
  lemma ClosesArguments(lines: seq<seq<char>>, l: nat, pos: nat, m: nat, col: nat)
    requires NestedBetween(true, lines, m, col, l, pos) && Clean(true, lines[l])[pos] == '>'
    ensures ReverseClose(lines, l, pos) == ResumeBack(lines, m, col, ['>'])
  {
    hide Text, Cleaned, BackwardStep, StraightAt, Nested, SkipsTwo, Skipped, OpenOn, Backward;
    var a, b := Index(lines, m, col), Index(lines, l, pos);
    BackwardPushes(lines[l], pos, []);
    assert [] + ['>'] == ['>'];
    StepBack(lines, l, pos, b + 1, [], ['>']);
    var n, d := PassesBack(lines, l, pos - 1, a + 1, b, ['>']);
    n, d := PrevChar(lines, n, d, a + 1, ['>']);
    IndexOnce(lines, n, d, m, col);
  }

  /** And from the '>' ReverseCloseExpression finds the '<' that opens the list. */
  lemma ReverseFindsArguments(lines: seq<seq<char>>, l: nat, pos: nat, m: nat, col: nat)
    requires NestedBetween(true, lines, m, col, l, pos)
    requires Clean(true, lines[l])[pos] == '>' && Clean(true, lines[m])[col] == '<'
    ensures ReverseClose(lines, l, pos) == Place(lines[m], m, col)
  {
    ClosesArguments(lines, l, pos, m, col);
    hide Clean, BackwardStep, NestedBetween, ReverseClose, Skipped, SkipsTwo;
    assert [] + ['>'] == ['>'];
    BackwardTakes(lines[m], col, []);
  }

  /** Unless it comes to another opening bracket first, or to a semicolon. */
  lemma ReverseGivesUp(lines: seq<seq<char>>, l: nat, pos: nat, m: nat, col: nat)
    requires NestedBetween(true, lines, m, col, l, pos)
    requires Clean(true, lines[l])[pos] == '>' && lines[m][col] in ['(', '[', '{', ';']
    ensures ReverseClose(lines, l, pos).pos == -1
  {
    ClosesArguments(lines, l, pos, m, col);
    hide Clean, NestedBetween, ReverseClose, EndsWithOperator;
    assert ['>'][..0] == [] && Trim([], '>') == [];
    assert Trim(['>'], '>') == [];
  }
}
