/** Balanced brackets, by grammar, and the stack that recognises them. */
module Brackets {
  import opened Optional

  predicate IsOpener(c: char) {
    c == '(' || c == '[' || c == '{'
  }

  predicate IsCloser(c: char) {
    c == ')' || c == ']' || c == '}'
  }

  predicate IsBracket(c: char) {
    IsOpener(c) || IsCloser(c)
  }

  // Each bracket and its counterpart; other characters are their own.
  function Flip(c: char): char {
    match c
    case '(' => ')'
    case '[' => ']'
    case '{' => '}'
    case ')' => '('
    case ']' => '['
    case '}' => '{'
    case _ => c
  }

  lemma FlipTwice(c: char)
    ensures Flip(Flip(c)) == c
    ensures IsOpener(Flip(c)) <==> IsCloser(c)
  {
  }

  lemma FlipOther(c: char)
    requires !IsBracket(c)
    ensures Flip(c) == c
  {
  }

  // --- The grammar ----------------------------------------------------------------------------------------------------

  /** Nothing; a character that is no bracket, then balanced text; or a bracket pair around balanced text, then balanced
      text. */
  ghost predicate Balanced(s: seq<char>)
    decreases |s|
  {
    || s == []
    || (!IsBracket(s[0]) && Balanced(s[1..]))
    || (IsOpener(s[0]) && exists k :: 0 < k < |s| && Pairs(s, k))
  }

  ghost predicate Pairs(s: seq<char>, k: nat)
    requires 0 < k < |s|
    decreases |s|, 0
  {
    s[k] == Flip(s[0]) && Balanced(s[1..k]) && Balanced(s[k + 1..])
  }

  // The bracket at a and the one at b belong together.
  ghost predicate Partners(text: seq<char>, a: nat, b: nat) {
    a < b < |text| && IsOpener(text[a]) && text[b] == Flip(text[a]) && Balanced(text[a + 1..b])
  }

  lemma BalancedPair(d: char, inner: seq<char>, rest: seq<char>)
    requires IsOpener(d) && Balanced(inner) && Balanced(rest)
    ensures Balanced([d] + inner + [Flip(d)] + rest)
  {
    var s := [d] + inner + [Flip(d)] + rest;
    var k := 1 + |inner|;
    assert s[1..k] == inner && s[k + 1..] == rest;
    assert Pairs(s, k);
  }

  lemma BalancedWrap(d: char, inner: seq<char>)
    requires IsOpener(d) && Balanced(inner)
    ensures Balanced([d] + inner + [Flip(d)])
  {
    BalancedPair(d, inner, []);
    assert [d] + inner + [Flip(d)] + [] == [d] + inner + [Flip(d)];
  }

  lemma BalancedSkip(x: char, s: seq<char>)
    requires !IsBracket(x) && Balanced(s)
    ensures Balanced([x] + s)
  {
    assert ([x] + s)[1..] == s;
  }

  lemma {:induction false} BalancedAppend(s: seq<char>, t: seq<char>)
    requires Balanced(s) && Balanced(t)
    ensures Balanced(s + t)
    decreases |s|
  {
    hide Flip;
    if s == [] {
      assert s + t == t;
    } else if !IsBracket(s[0]) {
      BalancedAppend(s[1..], t);
      BalancedSkip(s[0], s[1..] + t);
      assert s + t == [s[0]] + (s[1..] + t);
    } else {
      var k :| 0 < k < |s| && Pairs(s, k);
      BalancedAppend(s[k + 1..], t);
      BalancedPair(s[0], s[1..k], s[k + 1..] + t);
      assert s == [s[0]] + s[1..k] + [Flip(s[0])] + s[k + 1..];
      assert s + t == [s[0]] + s[1..k] + [Flip(s[0])] + (s[k + 1..] + t);
    }
  }

  // --- The stack ------------------------------------------------------------------------------------------------------

  // One character; none if it does not fit, or if it closes the last bracket.
  function Step(u: seq<char>, x: char): Option<seq<char>>
    requires u != []
  {
    if IsOpener(x) then Some(u + [x])
    else if IsCloser(x) then
      if x == Flip(u[|u| - 1]) && |u| > 1 then Some(u[..|u| - 1]) else None
    else Some(u)
  }

  function Run(o: char, t: seq<char>): (u: Option<seq<char>>)
    ensures u.Some? ==> u.value != [] && u.value[0] == o
  {
    if t == [] then Some([o])
    else
      var u := Run(o, t[..|t| - 1]);
      if u.None? then None else Step(u.value, t[|t| - 1])
  }

  lemma RunSnoc(o: char, t: seq<char>, x: char)
    ensures Run(o, t + [x]) == if Run(o, t).None? then None else Step(Run(o, t).value, x)
  {
    assert (t + [x])[..|t|] == t;
  }

  lemma {:induction false} RunPrefix(o: char, t: seq<char>, k: nat)
    requires k <= |t| && Run(o, t).Some?
    ensures Run(o, t[..k]).Some?
  {
    if k == |t| {
      assert t[..k] == t;
    } else {
      RunPrefix(o, t[..|t| - 1], k);
      assert t[..|t| - 1][..k] == t[..k];
    }
  }

  /** Balanced text leaves the stack as it was. */
  lemma {:induction false} RunBalanced(o: char, t: seq<char>, b: seq<char>)
    requires Run(o, t).Some? && Balanced(b)
    ensures Run(o, t + b) == Run(o, t)
    decreases |b|
  {
    hide Run, Flip;
    if b == [] {
      assert t + b == t;
    } else if !IsBracket(b[0]) {
      RunSnoc(o, t, b[0]);
      RunBalanced(o, t + [b[0]], b[1..]);
      assert t + [b[0]] + b[1..] == t + b;
    } else {
      var k :| 0 < k < |b| && Pairs(b, k);
      var d, inner, rest := b[0], b[1..k], b[k + 1..];
      RunSnoc(o, t, d);
      RunBalanced(o, t + [d], inner);
      RunPair(o, t, d, inner);
      RunBalanced(o, t + [d] + inner + [Flip(d)], rest);
      assert b == [d] + inner + [Flip(d)] + rest;
      assert t + [d] + inner + [Flip(d)] + rest == t + b;
    }
  }

  // An opener and its closer cancel.
  lemma RunPair(o: char, t: seq<char>, d: char, b: seq<char>)
    requires IsOpener(d) && Run(o, t).Some? && Run(o, t + [d] + b) == Run(o, t + [d])
    ensures Run(o, t + [d] + b + [Flip(d)]) == Run(o, t)
  {
    RunSnoc(o, t, d);
    RunSnoc(o, t + [d] + b, Flip(d));
    var u := Run(o, t).value;
    assert (u + [d])[..|u|] == u;
  }

  /** The text read so far is balanced but for the openers on the stack above the first. */
  ghost predicate Layers(t: seq<char>, u: seq<char>)
    requires u != []
    decreases |u|
  {
    if |u| == 1 then Balanced(t) else exists k :: 0 <= k < |t| && Layer(t, u, k)
  }

  ghost predicate Layer(t: seq<char>, u: seq<char>, k: nat)
    requires |u| > 1 && k < |t|
    decreases |u|, 0
  {
    t[k] == u[|u| - 1] && IsOpener(t[k]) && Balanced(t[k + 1..]) && Layers(t[..k], u[..|u| - 1])
  }

  lemma LayersExtend(t: seq<char>, u: seq<char>, b: seq<char>)
    requires u != [] && Layers(t, u) && Balanced(b)
    ensures Layers(t + b, u)
  {
    if |u| == 1 {
      BalancedAppend(t, b);
    } else {
      var k :| 0 <= k < |t| && Layer(t, u, k);
      BalancedAppend(t[k + 1..], b);
      assert (t + b)[k + 1..] == t[k + 1..] + b && (t + b)[..k] == t[..k];
      assert Layer(t + b, u, k);
    }
  }

  lemma LayersOpen(t: seq<char>, u: seq<char>, x: char)
    requires u != [] && Layers(t, u) && IsOpener(x)
    ensures Layers(t + [x], u + [x])
  {
    var s := t + [x];
    assert s[|t| + 1..] == [] && s[..|t|] == t && (u + [x])[..|u|] == u;
    assert Layer(s, u + [x], |t|);
  }

  lemma LayersClose(t: seq<char>, u: seq<char>, x: char)
    requires |u| > 1 && Layers(t, u) && x == Flip(u[|u| - 1])
    ensures Layers(t + [x], u[..|u| - 1])
  {
    hide Balanced, Flip;
    var k :| 0 <= k < |t| && Layer(t, u, k);
    var pair := [t[k]] + t[k + 1..] + [x];
    BalancedWrap(t[k], t[k + 1..]);
    LayersExtend(t[..k], u[..|u| - 1], pair);
    assert t + [x] == t[..k] + pair;
  }

  lemma {:induction false} RunLayers(o: char, t: seq<char>)
    requires Run(o, t).Some?
    ensures Layers(t, Run(o, t).value)
  {
    if t == [] {
    } else {
      hide Layers, Flip;
      var init, x := t[..|t| - 1], t[|t| - 1];
      RunLayers(o, init);
      var u := Run(o, init).value;
      assert t == init + [x];
      if IsOpener(x) {
        LayersOpen(init, u, x);
      } else if IsCloser(x) {
        LayersClose(init, u, x);
      } else {
        BalancedSkip(x, []);
        assert [x] + [] == [x];
        LayersExtend(init, u, [x]);
      }
    }
  }

  /** The stack comes back to its one opener exactly on balanced text. */
  lemma RunIsBalanced(o: char, t: seq<char>)
    ensures Run(o, t) == Some([o]) <==> Balanced(t)
  {
    if Run(o, t) == Some([o]) {
      RunLayers(o, t);
    }
    if Balanced(t) {
      RunBalanced(o, [], t);
      assert [] + t == t;
    }
  }

  // --- Partners are unique --------------------------------------------------------------------------------------------

  lemma PartnerRun(text: seq<char>, a: nat, b: nat)
    requires a < b < |text| && IsOpener(text[a])
    ensures Partners(text, a, b) <==> Run(text[a], text[a + 1..b]) == Some([text[a]]) && text[b] == Flip(text[a])
    ensures Partners(text, a, b) ==> Run(text[a], text[a + 1..b] + [text[b]]).None?
  {
    RunIsBalanced(text[a], text[a + 1..b]);
    RunSnoc(text[a], text[a + 1..b], text[b]);
  }

  lemma SliceSnoc(text: seq<char>, i: nat, m: nat, j: nat)
    requires i <= m < j <= |text|
    ensures text[i..j][..m - i + 1] == text[i..m + 1] == text[i..m] + [text[m]]
  {
    assert text[i..j][..m - i + 1] == text[i..m + 1];
  }

  // As long as the stack accepts the text, no partner has been passed.
  lemma NoPartnerYet(text: seq<char>, a: nat, m: nat, b: nat)
    requires a < m <= |text| && IsOpener(text[a]) && Run(text[a], text[a + 1..m]).Some? && b < m
    ensures !Partners(text, a, b)
  {
    if Partners(text, a, b) {
      PartnerRun(text, a, b);
      SliceSnoc(text, a + 1, b, m);
      RunPrefix(text[a], text[a + 1..m], b - a);
    }
  }

  // After a character that does not fit there is none either.
  lemma NoPartnerAfter(text: seq<char>, a: nat, m: nat, b: nat)
    requires a < m < |text| && IsOpener(text[a]) && Run(text[a], text[a + 1..m]).Some?
    requires Run(text[a], text[a + 1..m] + [text[m]]).None?
    requires !(Run(text[a], text[a + 1..m]) == Some([text[a]]) && text[m] == Flip(text[a]))
    ensures !Partners(text, a, b)
  {
    if Partners(text, a, b) {
      PartnerRun(text, a, b);
      if b < m {
        NoPartnerYet(text, a, m, b);
      } else if b > m {
        SliceSnoc(text, a + 1, m, b);
        RunPrefix(text[a], text[a + 1..b], m - a);
      }
    }
  }

  lemma PartnerUnique(text: seq<char>, a: nat, b: nat, c: nat)
    requires Partners(text, a, b) && Partners(text, a, c)
    ensures b == c
  {
    PartnerRun(text, a, b);
    PartnerRun(text, a, c);
    if b < c {
      NoPartnerYet(text, a, c, b);
    } else if c < b {
      NoPartnerYet(text, a, b, c);
    }
  }

  // --- The mirror image -----------------------------------------------------------------------------------------------

  // Read from the end, with every bracket turned round.
  function Mirror(s: seq<char>): (r: seq<char>)
    ensures |r| == |s|
  {
    if s == [] then [] else Mirror(s[1..]) + [Flip(s[0])]
  }

  lemma {:induction false} MirrorAppend(s: seq<char>, t: seq<char>)
    ensures Mirror(s + t) == Mirror(t) + Mirror(s)
  {
    if s == [] {
      assert s + t == t;
    } else {
      assert (s + t)[1..] == s[1..] + t;
      MirrorAppend(s[1..], t);
    }
  }

  lemma {:induction false} MirrorTwice(s: seq<char>)
    ensures Mirror(Mirror(s)) == s
  {
    if s == [] {
    } else {
      MirrorTwice(s[1..]);
      MirrorAppend(Mirror(s[1..]), [Flip(s[0])]);
      FlipTwice(s[0]);
      assert Mirror([Flip(s[0])]) == [s[0]] by {
        MirrorCons(Flip(s[0]), []);
      }
    }
  }

  lemma {:induction false} MirrorBalanced(s: seq<char>)
    requires Balanced(s)
    ensures Balanced(Mirror(s))
    decreases |s|
  {
    hide Mirror, Flip;
    if s == [] {
      MirrorEmpty();
    } else {
      if !IsBracket(s[0]) {
        MirrorBalanced(s[1..]);
        BalancedSkip(s[0], []);
        BalancedAppend(Mirror(s[1..]), [s[0]] + []);
        MirrorCons(s[0], s[1..]);
        FlipOther(s[0]);
        assert [s[0]] + s[1..] == s && [s[0]] + [] == [s[0]];
      } else {
        var k :| 0 < k < |s| && Pairs(s, k);
        MirrorBalanced(s[1..k]);
        MirrorBalanced(s[k + 1..]);
        BalancedWrap(s[0], Mirror(s[1..k]));
        BalancedAppend(Mirror(s[k + 1..]), [s[0]] + Mirror(s[1..k]) + [Flip(s[0])]);
        MirrorPair(s[0], s[1..k], s[k + 1..]);
        assert s == [s[0]] + s[1..k] + [Flip(s[0])] + s[k + 1..];
      }
    }
  }

  lemma MirrorPair(d: char, inner: seq<char>, rest: seq<char>)
    ensures Mirror([d] + inner + [Flip(d)] + rest) == Mirror(rest) + ([d] + Mirror(inner) + [Flip(d)])
  {
    hide *;
    FlipTwice(d);
    Regroup([d], inner, [Flip(d)], rest);
    MirrorCons(d, inner + ([Flip(d)] + rest));
    MirrorAppend(inner, [Flip(d)] + rest);
    MirrorCons(Flip(d), rest);
    Regroup(Mirror(rest), [d], Mirror(inner), [Flip(d)]);
  }

  lemma Regroup(a: seq<char>, b: seq<char>, c: seq<char>, d: seq<char>)
    ensures a + b + c + d == a + (b + (c + d)) == a + (b + c + d)
  {
  }

  lemma MirrorEmpty()
    ensures Mirror([]) == []
  {
  }

  lemma MirrorCons(x: char, s: seq<char>)
    ensures Mirror([x] + s) == Mirror(s) + [Flip(x)]
  {
    assert ([x] + s)[1..] == s;
  }

  lemma MirrorIsBalanced(s: seq<char>)
    ensures Balanced(Mirror(s)) <==> Balanced(s)
  {
    if Balanced(s) {
      MirrorBalanced(s);
    }
    if Balanced(Mirror(s)) {
      MirrorBalanced(Mirror(s));
      MirrorTwice(s);
    }
  }
}
