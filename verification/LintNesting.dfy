/** The preprocessor stack of NestingState in style/gwclint.py: how #if, #else, #elif and #endif save and restore the
    nesting stack. What a line otherwise does to the nesting stack is left open. */
module LintNesting {
  import opened Optional
  import opened LintMatcher

  datatype Line = Line(num: nat, text: seq<char>)

  datatype Directive = If | Else | Endif | Other

  // --- Directives -----------------------------------------------------------------------------------------------------

  function SkipSpace(s: seq<char>): seq<char> {
    if s != [] && IsSpace(s[0]) then SkipSpace(s[1..]) else s
  }

  // The longest word at the front.
  function Word(s: seq<char>): seq<char> {
    if s != [] && IsWord(s[0]) then [s[0]] + Word(s[1..]) else []
  }

  // #elif counts as #else.
  function Named(word: seq<char>): Directive {
    if word == "if" || word == "ifdef" || word == "ifndef" then If
    else if word == "else" || word == "elif" then Else
    else if word == "endif" then Endif
    else Other
  }

  function Kind(line: Line): Directive {
    var s := SkipSpace(line.text);
    if s == [] || s[0] != '#' then Other else Named(Word(SkipSpace(s[1..])))
  }

  predicate AllSpace(s: seq<char>) {
    forall i :: 0 <= i < |s| ==> IsSpace(s[i])
  }

  predicate AllWord(s: seq<char>) {
    forall i :: 0 <= i < |s| ==> IsWord(s[i])
  }

  /** What the patterns of a directive match: white space, a hash sign, white space, and a word that ends there. */
  predicate Reads(text: seq<char>, a: seq<char>, b: seq<char>, word: seq<char>, rest: seq<char>) {
    && text == a + (['#'] + (b + (word + rest)))
    && AllSpace(a) && AllSpace(b) && AllWord(word) && word != [] && (rest != [] ==> !IsWord(rest[0]))
  }

  lemma {:induction false} SkipSpaceOver(a: seq<char>, s: seq<char>)
    requires AllSpace(a) && (s != [] ==> !IsSpace(s[0]))
    ensures SkipSpace(a + s) == s
  {
    if a == [] {
      assert a + s == s;
    } else {
      assert (a + s)[1..] == a[1..] + s;
      SkipSpaceOver(a[1..], s);
    }
  }

  lemma {:induction false} WordOver(w: seq<char>, rest: seq<char>)
    requires AllWord(w) && (rest != [] ==> !IsWord(rest[0]))
    ensures Word(w + rest) == w
  {
    if w == [] {
      assert w + rest == rest;
    } else {
      assert (w + rest)[1..] == w[1..] + rest;
      WordOver(w[1..], rest);
    }
  }

  lemma {:induction false} SkipSpaceParts(s: seq<char>)
    ensures exists a :: AllSpace(a) && s == a + SkipSpace(s)
  {
    if s != [] && IsSpace(s[0]) {
      SkipSpaceParts(s[1..]);
      var a :| AllSpace(a) && s[1..] == a + SkipSpace(s[1..]);
      assert AllSpace([s[0]] + a) && s == [s[0]] + a + SkipSpace(s);
    } else {
      assert AllSpace([]) && s == [] + SkipSpace(s);
    }
  }

  lemma {:induction false} WordParts(s: seq<char>)
    ensures AllWord(Word(s)) && Word(s) <= s
    ensures var rest := s[|Word(s)|..]; s == Word(s) + rest && (rest != [] ==> !IsWord(rest[0]))
  {
    if s == [] || !IsWord(s[0]) {
    } else {
      WordParts(s[1..]);
    }
  }

  /** A line that reads like a directive is of the kind its word names. */
  lemma KindOfDirective(line: Line, a: seq<char>, b: seq<char>, word: seq<char>, rest: seq<char>)
    requires Reads(line.text, a, b, word, rest)
    ensures Kind(line) == Named(word)
  {
    hide Named;
    var tail := ['#'] + (b + (word + rest));
    SkipSpaceOver(a, tail);
    assert tail[1..] == b + (word + rest);
    assert (word + rest)[0] == word[0];
    SkipSpaceOver(b, word + rest);
    WordOver(word, rest);
  }

  /** Any other line is none. */
  lemma DirectiveReads(line: Line)
    requires Kind(line) != Other
    ensures exists a, b, word, rest :: Reads(line.text, a, b, word, rest) && Named(word) == Kind(line)
  {
    hide SkipSpace, Word, AllSpace, AllWord, Named;
    var s := SkipSpace(line.text);
    var t := SkipSpace(s[1..]);
    var word := Word(t);
    NamedWord(word);
    SkipSpaceParts(line.text);
    var a :| AllSpace(a) && line.text == a + s;
    SkipSpaceParts(s[1..]);
    var b :| AllSpace(b) && s[1..] == b + t;
    WordParts(t);
    var rest := t[|word|..];
    hide Kind;
    assert s == ['#'] + s[1..];
    assert Reads(line.text, a, b, word, rest);
  }

  lemma NamedWord(word: seq<char>)
    ensures Named(word) != Other ==> word != []
  {
  }

  ghost predicate ReadsAs(text: seq<char>, words: set<seq<char>>) {
    exists a, b, word, rest :: Reads(text, a, b, word, rest) && word in words
  }

  /** The directives of each kind, by their words. */
  lemma DirectivesByWord(line: Line)
    ensures Kind(line) == If <==> ReadsAs(line.text, {"if", "ifdef", "ifndef"})
    ensures Kind(line) == Else <==> ReadsAs(line.text, {"else", "elif"})
    ensures Kind(line) == Endif <==> ReadsAs(line.text, {"endif"})
  {
    hide Reads, Kind;
    forall a, b, word, rest | Reads(line.text, a, b, word, rest)
      ensures Kind(line) == Named(word)
    {
      KindOfDirective(line, a, b, word, rest);
    }
    if Kind(line) != Other {
      DirectiveReads(line);
    }
  }

  lemma DirectiveSample(num: nat)
    ensures Kind(Line(num, " #\tifndef X")) == If
  {
    assert Reads(" #\tifndef X", " ", "\t", "ifndef", " X");
    KindOfDirective(Line(num, " #\tifndef X"), " ", "\t", "ifndef", " X");
  }

  // --- The state ------------------------------------------------------------------------------------------------------

  datatype Saved<B> = Saved(beforeIf: seq<B>, beforeElse: seq<B>, seenElse: bool)

  datatype Nesting<B> = Nesting(stack: seq<B>, pp: seq<Saved<B>>)

  // The rest of Update: what a line does to the nesting stack.
  type Rest<!B> = (Line, seq<B>) -> seq<B>

  function Preprocess<B>(s: Nesting<B>, kind: Directive): Nesting<B> {
    match kind
    case If => Nesting(s.stack, s.pp + [Saved(s.stack, [], false)])
    case Else =>
      if s.pp == [] then s
      else
        var top := s.pp[|s.pp| - 1];
        var marked := if top.seenElse then top else top.(seenElse := true, beforeElse := s.stack);
        Nesting(top.beforeIf, s.pp[|s.pp| - 1 := marked])
    case Endif =>
      if s.pp == [] then s
      else
        var top := s.pp[|s.pp| - 1];
        Nesting(if top.seenElse then top.beforeElse else s.stack, s.pp[..|s.pp| - 1])
    case Other => s
  }

  function Advance<B>(f: Rest<B>, s: Nesting<B>, line: Line): Nesting<B> {
    var t := Preprocess(s, Kind(line));
    t.(stack := f(line, t.stack))
  }

  function Process<B>(f: Rest<B>, s: Nesting<B>, lines: seq<Line>): Nesting<B> {
    if lines == [] then s else Advance(f, Process(f, s, lines[..|lines| - 1]), lines[|lines| - 1])
  }

  class NestingState<B> {
    var stack: seq<B>
    var previousStackTop: Option<B>
    var ppStack: seq<Saved<B>>

    function View(): Nesting<B>
      reads this
    {
      Nesting(stack, ppStack)
    }

    constructor ()
      ensures View() == Nesting([], []) && previousStackTop == None
    {
      stack, previousStackTop, ppStack := [], None, [];
    }

    method UpdatePreprocessor(line: Line)
      modifies this`stack, this`ppStack
      ensures View() == Preprocess(old(View()), Kind(line))
    {
      var kind, last := Kind(line), |ppStack| - 1;
      if kind == If {
        ppStack := ppStack + [Saved(stack, [], false)];
      } else if kind == Else {
        if ppStack != [] {
          if !ppStack[last].seenElse {
            ppStack := ppStack[last := Saved(ppStack[last].beforeIf, stack, true)];
          }
          stack := ppStack[last].beforeIf;
        }
      } else if kind == Endif {
        if ppStack != [] {
          if ppStack[last].seenElse {
            stack := ppStack[last].beforeElse;
          }
          ppStack := ppStack[..last];
        }
      }
    }

    method Update(f: Rest<B>, line: Line)
      modifies this
      ensures View() == Advance(f, old(View()), line)
      ensures previousStackTop == if old(stack) == [] then None else Some(old(stack[|stack| - 1]))
    {
      previousStackTop := if stack == [] then None else Some(stack[|stack| - 1]);
      UpdatePreprocessor(line);
      stack := f(line, stack);
    }

    // A whole file, line by line.
    method UpdateAll(f: Rest<B>, lines: seq<Line>)
      modifies this
      ensures View() == Process(f, old(View()), lines)
    {
      var i := 0;
      while i < |lines|
        invariant i <= |lines| && View() == Process(f, old(View()), lines[..i])
      {
        Update(f, lines[i]);
        assert lines[..i + 1][..i] == lines[..i];
        i := i + 1;
      }
      assert lines[..i] == lines;
    }
  }

  // --- The reference: a scan that skips -------------------------------------------------------------------------------

  // For each open #if, whether an #else or #elif of it has been met. Directives without their #if change nothing.
  function Mark(marks: seq<bool>, kind: Directive): seq<bool> {
    match kind
    case If => marks + [false]
    case Else => if marks == [] then [] else marks[|marks| - 1 := true]
    case Endif => if marks == [] then [] else marks[..|marks| - 1]
    case Other => marks
  }

  function Marks(lines: seq<Line>): seq<bool> {
    if lines == [] then [] else Mark(Marks(lines[..|lines| - 1]), Kind(lines[|lines| - 1]))
  }

  predicate Skipping(marks: seq<bool>) {
    true in marks
  }

  // The lines outside every #else and #elif branch.
  function Outside(lines: seq<Line>): seq<Line> {
    if lines == [] then []
    else Outside(lines[..|lines| - 1]) + if Skipping(Marks(lines)) then [] else [lines[|lines| - 1]]
  }

  // A scan that knows of no directives.
  function PlainScan<B>(f: Rest<B>, stack: seq<B>, lines: seq<Line>): seq<B> {
    if lines == [] then stack else f(lines[|lines| - 1], PlainScan(f, stack, lines[..|lines| - 1]))
  }

  /** Every #else, #elif and #endif belongs to an #if of the same lines. */
  predicate Matched(lines: seq<Line>) {
    lines == [] ||
    (Matched(lines[..|lines| - 1]) &&
     (Kind(lines[|lines| - 1]) == Else || Kind(lines[|lines| - 1]) == Endif ==> Marks(lines[..|lines| - 1]) != []))
  }

  predicate WellNested(lines: seq<Line>) {
    Matched(lines) && Marks(lines) == []
  }

  // --- The simulation -------------------------------------------------------------------------------------------------

  /** Above the base there is one entry for each open #if. The stack of the skipping scan is the stack itself outside
      all branches, and inside it is kept in the outermost entry whose #else has been met. */
  ghost predicate Simulates<B>(base: seq<Saved<B>>, marks: seq<bool>, plain: seq<B>, s: Nesting<B>) {
    && |s.pp| == |base| + |marks| && base <= s.pp
    && (forall i :: 0 <= i < |marks| ==> s.pp[|base| + i].seenElse == marks[i])
    && (!Skipping(marks) ==> s.stack == plain)
    && (forall i :: 0 <= i < |marks| && marks[i] && !Skipping(marks[..i]) ==> s.pp[|base| + i].beforeElse == plain)
  }

  lemma SimulatesStep<B>(base: seq<Saved<B>>, marks: seq<bool>, plain: seq<B>, s: Nesting<B>, kind: Directive)
    requires Simulates(base, marks, plain, s)
    requires base != [] && marks == [] ==> kind == If || kind == Other
    ensures Simulates(base, Mark(marks, kind), plain, Preprocess(s, kind))
  {
    var next, t := Mark(marks, kind), Preprocess(s, kind);
    var k := |marks| - 1;
    match kind
    case Other =>
    case If =>
      assert next[..|marks|] == marks;
      forall i | 0 <= i < |next| && next[i] && !Skipping(next[..i])
        ensures t.pp[|base| + i].beforeElse == plain
      {
        assert next[..i] == marks[..i];
      }
    case Else =>
      if marks != [] {
        assert next[k];
        forall i | 0 <= i < |next| && next[i] && !Skipping(next[..i])
          ensures t.pp[|base| + i].beforeElse == plain
        {
          assert next[..i] == marks[..i];
          if i == k && !marks[k] {
            OneMore(marks);
          }
        }
      }
    case Endif =>
      if marks != [] {
        OneMore(marks);
        forall i | 0 <= i < |next| && next[i] && !Skipping(next[..i])
          ensures t.pp[|base| + i].beforeElse == plain
        {
          assert next[..i] == marks[..i];
        }
      }
  }

  lemma OneMore(marks: seq<bool>)
    requires marks != []
    ensures Skipping(marks) <==> Skipping(marks[..|marks| - 1]) || marks[|marks| - 1]
  {
    assert marks == marks[..|marks| - 1] + [marks[|marks| - 1]];
  }

  lemma {:induction false} ProcessSimulates<B>(f: Rest<B>, s: Nesting<B>, lines: seq<Line>)
    requires s.pp == [] || Matched(lines)
    ensures Simulates(s.pp, Marks(lines), PlainScan(f, s.stack, Outside(lines)), Process(f, s, lines))
  {
    if lines == [] {
      assert s.pp <= s.pp;
    } else {
      var init, line := lines[..|lines| - 1], lines[|lines| - 1];
      ProcessSimulates(f, s, init);
      var marks, plain, t := Marks(init), PlainScan(f, s.stack, Outside(init)), Process(f, s, init);
      SimulatesStep(s.pp, marks, plain, t, Kind(line));
      SimulatesLine(f, s.pp, Marks(lines), plain, Preprocess(t, Kind(line)), line);
      if Skipping(Marks(lines)) {
        assert Outside(lines) == Outside(init);
      } else {
        assert Outside(lines)[..|Outside(init)|] == Outside(init);
      }
    }
  }

  // A line outside the branches acts on both stacks, a line inside on neither that matters.
  lemma SimulatesLine<B>(f: Rest<B>, base: seq<Saved<B>>, marks: seq<bool>, plain: seq<B>, s: Nesting<B>, line: Line)
    requires Simulates(base, marks, plain, s)
    ensures Simulates(base, marks, if Skipping(marks) then plain else f(line, plain), s.(stack := f(line, s.stack)))
  {
    if !Skipping(marks) {
      assert forall i :: 0 <= i < |marks| ==> marks[i] in marks;
    }
  }

  // --- What the preprocessor stack is for -----------------------------------------------------------------------------

  /** Over well-nested lines, met in any state, the nesting stack is what a scan that skips every #else and #elif branch
      makes of it, and the preprocessor stack is as before. */
  lemma WellNestedSkips<B>(f: Rest<B>, s: Nesting<B>, lines: seq<Line>)
    requires WellNested(lines)
    ensures Process(f, s, lines) == Nesting(PlainScan(f, s.stack, Outside(lines)), s.pp)
  {
    ProcessSimulates(f, s, lines);
    assert Process(f, s, lines).pp == s.pp;
  }

  /** Over any lines of a file, well nested or not, the same holds wherever the scan stands outside the branches. */
  lemma WholeFileSkips<B>(f: Rest<B>, lines: seq<Line>)
    requires !Skipping(Marks(lines))
    ensures Process(f, Nesting([], []), lines).stack == PlainScan(f, [], Outside(lines))
    ensures |Process(f, Nesting([], []), lines).pp| == |Marks(lines)|
  {
    ProcessSimulates(f, Nesting([], []), lines);
  }

  // As long as an #if stays open, what was saved before it is kept.
  lemma {:induction false} SavedKept<B>(f: Rest<B>, s: Nesting<B>, open: Line, body: seq<Line>)
    requires Kind(open) == If && StaysOpen(body)
    ensures var t := Process(f, Advance(f, s, open), body);
            |t.pp| > |s.pp| && t.pp[..|s.pp|] == s.pp && t.pp[|s.pp|].beforeIf == s.stack
    ensures |Process(f, Advance(f, s, open), body).pp| == |s.pp| + 1 + Depth(body)
  {
    if body == [] {
    } else {
      SavedKept(f, s, open, body[..|body| - 1]);
    }
  }

  // How many #if are open beyond those open before.
  function Depth(lines: seq<Line>): int {
    if lines == [] then 0
    else
      Depth(lines[..|lines| - 1]) +
      match Kind(lines[|lines| - 1]) case If => 1 case Endif => -1 case _ => 0
  }

  predicate StaysOpen(lines: seq<Line>) {
    lines == [] || (StaysOpen(lines[..|lines| - 1]) && Depth(lines) >= 0)
  }

  /** Every #else and #elif branch starts from the stack before its #if, whatever the branches before it did. */
  lemma BranchStartsBeforeIf<B>(f: Rest<B>, s: Nesting<B>, open: Line, body: seq<Line>, branch: Line)
    requires Kind(open) == If && StaysOpen(body) && Depth(body) == 0 && Kind(branch) == Else
    ensures Process(f, Advance(f, s, open), body + [branch]).stack == f(branch, s.stack)
  {
    SavedKept(f, s, open, body);
    assert (body + [branch])[..|body|] == body;
  }
}
