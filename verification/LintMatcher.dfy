/** The bracket matchers of style/gwclint.py: FindEndOfExpressionInLine, CloseExpression and their reverse forms, with
    their treatment of angle brackets. */
module LintMatcher {
  import opened Optional
  import opened Brackets

  // What the scan of a character or of a line comes to. Closed carries the position that is returned.
  datatype Outcome = Closed(at: nat) | Failed | Open(stack: seq<char>)

  // The triple the matchers return.
  datatype Place = Place(line: seq<char>, num: nat, pos: int)

  // --- Regular expressions --------------------------------------------------------------------------------------------

  predicate IsSpace(c: char) {
    c == ' ' || c == '\t' || c == '\n' || c == '\r' || c == '\U{0B}' || c == '\U{0C}'
  }

  predicate IsWord(c: char) {
    'a' <= c <= 'z' || 'A' <= c <= 'Z' || '0' <= c <= '9' || c == '_'
  }

  const OPERATOR: seq<char> := ['o', 'p', 'e', 'r', 'a', 't', 'o', 'r']

  // The word operator at the end, then only white space.
  predicate EndsWithOperator(s: seq<char>) {
    if s != [] && IsSpace(s[|s| - 1]) then EndsWithOperator(s[..|s| - 1])
    else |s| >= 8 && s[|s| - 8..] == OPERATOR && (|s| > 8 ==> !IsWord(s[|s| - 9]))
  }

  /** What the pattern matches: the word, at a word boundary, and white space to the end. */
  predicate ReadsOperator(s: seq<char>, k: nat) {
    && k + 8 <= |s| && s[k..k + 8] == OPERATOR && (k > 0 ==> !IsWord(s[k - 1]))
    && forall i :: k + 8 <= i < |s| ==> IsSpace(s[i])
  }

  lemma {:induction false} OperatorAtEnd(s: seq<char>)
    ensures EndsWithOperator(s) <==> exists k: nat :: ReadsOperator(s, k)
  {
    var init := if s == [] then s else s[..|s| - 1];
    if s != [] && IsSpace(s[|s| - 1]) {
      OperatorAtEnd(init);
      if k: nat :| ReadsOperator(init, k) {
        assert s[k..k + 8] == init[k..k + 8];
        assert ReadsOperator(s, k);
      }
      if k: nat :| ReadsOperator(s, k) {
        assert s[k + 7] == s[k..k + 8][7];
        assert s[k..k + 8] == init[k..k + 8];
        assert ReadsOperator(init, k);
      }
    } else if |s| >= 8 {
      if EndsWithOperator(s) {
        assert s[|s| - 8..|s|] == s[|s| - 8..];
        assert ReadsOperator(s, |s| - 8);
      }
      if k: nat :| ReadsOperator(s, k) {
        assert k + 8 == |s|;
        assert s[|s| - 8..] == s[k..k + 8];
      }
    }
  }

  lemma OperatorIsNoBracket(s: seq<char>)
    requires EndsWithOperator(s)
    ensures s != [] && !IsBracket(s[|s| - 1])
  {
    if !IsSpace(s[|s| - 1]) {
      assert s[|s| - 1] == s[|s| - 8..][7];
    }
  }

  // >= between two spaces, the first of them at i.
  predicate SpacedGreaterEqual(line: seq<char>, i: nat) {
    i + 3 < |line| && IsSpace(line[i]) && line[i + 1] == '>' && line[i + 2] == '=' && IsSpace(line[i + 3])
  }

  // --- One character --------------------------------------------------------------------------------------------------

  predicate TopIs(stack: seq<char>, c: char) {
    stack != [] && stack[|stack| - 1] == c
  }

  // Pending angle brackets on top turn out to be operators.
  function Trim(stack: seq<char>, angle: char): (r: seq<char>)
    ensures r <= stack && !TopIs(r, angle)
  {
    if TopIs(stack, angle) then Trim(stack[..|stack| - 1], angle) else stack
  }

  predicate Matches(open: char, close: char) {
    (open == '(' && close == ')') || (open == '[' && close == ']') || (open == '{' && close == '}')
  }

  // The top is taken off; the last one closes the expression.
  function Pop(stack: seq<char>, at: nat): Outcome
    requires stack != []
  {
    if |stack| == 1 then Closed(at) else Open(stack[..|stack| - 1])
  }

  function Settle(stack: seq<char>): Outcome {
    if stack == [] then Failed else Open(stack)
  }

  function ForwardStep(line: seq<char>, i: nat, stack: seq<char>): Outcome
    requires i < |line|
  {
    var c := line[i];
    if IsOpener(c) then Open(stack + [c])
    else if c == '<' then
      if i > 0 && line[i - 1] == '<' then
        if TopIs(stack, '<') then Settle(stack[..|stack| - 1]) else Open(stack)
      else if i > 0 && EndsWithOperator(line[..i]) then Open(stack)
      else Open(stack + ['<'])
    else if IsCloser(c) then
      var t := Trim(stack, '<');
      if t != [] && Matches(t[|t| - 1], c) then Pop(t, i + 1) else Failed
    else if c == '>' then
      if i > 0 && (line[i - 1] == '-' || EndsWithOperator(line[..i - 1])) then Open(stack)
      else if TopIs(stack, '<') then Pop(stack, i + 1)
      else Open(stack)
    else if c == ';' then Settle(Trim(stack, '<'))
    else Open(stack)
  }

  // Whether the character before is skipped with this one.
  predicate SkipsTwo(line: seq<char>, i: nat)
    requires i < |line|
  {
    i > 0 && if line[i] == '>' then
               line[i - 1] == '-' || SpacedGreaterEqual(line, i - 1) || EndsWithOperator(line[..i])
             else line[i] == '<' && line[i - 1] == '<'
  }

  function BackwardStep(line: seq<char>, i: nat, stack: seq<char>): Outcome
    requires i < |line|
  {
    var c := line[i];
    if SkipsTwo(line, i) then Open(stack)
    else if IsCloser(c) || c == '>' then Open(stack + [c])
    else if c == '<' then
      if TopIs(stack, '>') then Pop(stack, i) else Open(stack)
    else if IsOpener(c) then
      var t := Trim(stack, '>');
      if t != [] && Matches(c, t[|t| - 1]) then Pop(t, i) else Failed
    else if c == ';' then Settle(Trim(stack, '>'))
    else Open(stack)
  }

  // --- One line -------------------------------------------------------------------------------------------------------

  function Forward(line: seq<char>, i: nat, stack: seq<char>): Outcome
    decreases |line| - i
  {
    if i >= |line| then Open(stack)
    else
      var o := ForwardStep(line, i, stack);
      if o.Open? then Forward(line, i + 1, o.stack) else o
  }

  function Backward(line: seq<char>, i: int, stack: seq<char>): Outcome
    requires i < |line|
    decreases i
  {
    if i < 0 then Open(stack)
    else
      var o := BackwardStep(line, i, stack);
      if o.Open? then Backward(line, if SkipsTwo(line, i) then i - 2 else i - 1, o.stack) else o
  }

  // The pair the line scans return: a position, and the stack that is left unless the scan has ended.
  function Reported(o: Outcome): (int, Option<seq<char>>) {
    match o
    case Closed(at) => (at as int, None)
    case Failed => (-1, None)
    case Open(stack) => (-1, Some(stack))
  }

  method FindEndOfExpressionInLine(line: seq<char>, startpos: nat, stack: seq<char>)
    returns (pos: int, rest: Option<seq<char>>)
    ensures (pos, rest) == Reported(Forward(line, startpos, stack))
  {
    var i, pending := startpos, stack;
    while i < |line|
      invariant Forward(line, i, pending) == Forward(line, startpos, stack)
      decreases |line| - i
    {
      match ForwardStep(line, i, pending)
      case Closed(at) => return at, None;
      case Failed => return -1, None;
      case Open(next) => pending := next;
      i := i + 1;
    }
    return -1, Some(pending);
  }

  method FindStartOfExpressionInLine(line: seq<char>, endpos: int, stack: seq<char>)
    returns (pos: int, rest: Option<seq<char>>)
    requires endpos < |line|
    ensures (pos, rest) == Reported(Backward(line, endpos, stack))
  {
    var i, pending := endpos, stack;
    while i >= 0
      invariant i < |line| && Backward(line, i, pending) == Backward(line, endpos, stack)
      decreases i
    {
      match BackwardStep(line, i, pending)
      case Closed(at) => return at, None;
      case Failed => return -1, None;
      case Open(next) => pending := next;
      if SkipsTwo(line, i) {
        i := i - 1;
      }
      i := i - 1;
    }
    return -1, Some(pending);
  }

  // --- Many lines -----------------------------------------------------------------------------------------------------

  // Where the line scan of line l leads.
  function CloseOn(lines: seq<seq<char>>, l: nat, o: Outcome): Place
    requires l < |lines|
    decreases |lines| - l
  {
    match o
    case Closed(at) => Place(lines[l], l, at)
    case Failed => Place(lines[l], |lines|, -1)
    case Open(stack) =>
      if stack == [] || l == |lines| - 1 then Place(lines[l], |lines|, -1)
      else CloseOn(lines, l + 1, Forward(lines[l + 1], 0, stack))
  }

  function OpenOn(lines: seq<seq<char>>, l: nat, o: Outcome): Place
    requires l < |lines|
    decreases l
  {
    match o
    case Closed(at) => Place(lines[l], l, at)
    case Failed => Place(lines[l], 0, -1)
    case Open(stack) =>
      if stack == [] || l == 0 then Place(lines[l], 0, -1)
      else OpenOn(lines, l - 1, Backward(lines[l - 1], |lines[l - 1]| - 1, stack))
  }

  // A shift or a comparison at pos.
  predicate IsOperator(line: seq<char>, pos: nat) {
    pos + 1 < |line| && line[pos] == '<' && (line[pos + 1] == '<' || line[pos + 1] == '=')
  }

  function Close(lines: seq<seq<char>>, l: nat, pos: nat): Place
    requires l < |lines| && pos < |lines[l]|
  {
    var c := lines[l][pos];
    if !(IsOpener(c) || c == '<') || IsOperator(lines[l], pos) then Place(lines[l], |lines|, -1)
    else CloseOn(lines, l, Forward(lines[l], pos, []))
  }

  function ReverseClose(lines: seq<seq<char>>, l: nat, pos: nat): Place
    requires l < |lines| && pos < |lines[l]|
  {
    var c := lines[l][pos];
    if !(IsCloser(c) || c == '>') then Place(lines[l], 0, -1)
    else OpenOn(lines, l, Backward(lines[l], pos, []))
  }

  method CloseExpression(lines: seq<seq<char>>, linenum: nat, pos: nat) returns (r: Place)
    requires linenum < |lines| && pos < |lines[linenum]|
    ensures r == Close(lines, linenum, pos)
  {
    var line := lines[linenum];
    if !(IsOpener(line[pos]) || line[pos] == '<') || IsOperator(line, pos) {
      return Place(line, |lines|, -1);
    }
    var end, stack := FindEndOfExpressionInLine(line, pos, []);
    if end > -1 {
      return Place(line, linenum, end);
    }
    var l := linenum;
    while stack.Some? && stack.value != [] && l < |lines| - 1
      invariant l < |lines| && line == lines[l]
      invariant CloseOn(lines, l, if stack.Some? then Open(stack.value) else Failed) == Close(lines, linenum, pos)
      decreases |lines| - l
    {
      l := l + 1;
      line := lines[l];
      end, stack := FindEndOfExpressionInLine(line, 0, stack.value);
      if end > -1 {
        return Place(line, l, end);
      }
    }
    return Place(line, |lines|, -1);
  }

  method ReverseCloseExpression(lines: seq<seq<char>>, linenum: nat, pos: nat) returns (r: Place)
    requires linenum < |lines| && pos < |lines[linenum]|
    ensures r == ReverseClose(lines, linenum, pos)
  {
    var line := lines[linenum];
    if !(IsCloser(line[pos]) || line[pos] == '>') {
      return Place(line, 0, -1);
    }
    var start, stack := FindStartOfExpressionInLine(line, pos, []);
    if start > -1 {
      return Place(line, linenum, start);
    }
    var l := linenum;
    while stack.Some? && stack.value != [] && l > 0
      invariant l < |lines| && line == lines[l]
      invariant OpenOn(lines, l, if stack.Some? then Open(stack.value) else Failed) == ReverseClose(lines, linenum, pos)
      decreases l
    {
      l := l - 1;
      line := lines[l];
      start, stack := FindStartOfExpressionInLine(line, |line| - 1, stack.value);
      if start > -1 {
        return Place(line, l, start);
      }
    }
    return Place(line, 0, -1);
  }
}
