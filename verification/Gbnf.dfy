/** GBNF as a language: rules, what an expression generates under them, and the algebra
    that lets proofs work with languages rather than derivations. */
module Gbnf {
  import opened Conversation

  /** A rule's identifier, as the parts it is spelled from. */
  datatype RuleName =
    | Ws | Empty | StringRule | IntegerRule | StringArray
    | State(prefix: string, index: nat)
    | ArgumentsTail(tool: string, index: nat)
    | ArgumentsHead(tool: string, index: nat)
    | Arguments(tool: string)
    | Call(tool: string)
    | ToolCallRule | CallTail | Root

  /** The expressions the compiler writes. Character classes are sets. */
  datatype Expr =
    | Lit(text: string)
    | OneOf(chars: set<char>)
    | NoneOf(chars: set<char>)
    | Ref(name: RuleName)
    | Cat(first: Expr, second: Expr)
    | Choice(options: seq<Expr>)
    | Opt(inner: Expr)
    | Star(inner: Expr)

  type Rules = seq<(RuleName, Expr)>

  function Body(g: Rules, name: RuleName): Option<Expr> {
    if g == [] then None
    else if g[0].0 == name then Some(g[0].1)
    else Body(g[1..], name)
  }

  /** `depth` bounds the rules entered one inside another; it bounds nothing else. */
  ghost predicate Derives(g: Rules, e: Expr, s: string, depth: nat)
    decreases depth, e, |s|
  {
    match e
    case Lit(text) => s == text
    case OneOf(chars) => |s| == 1 && s[0] in chars
    case NoneOf(chars) => |s| == 1 && s[0] !in chars
    case Ref(name) => depth > 0 && Body(g, name).Some? && Derives(g, Body(g, name).value, s, depth - 1)
    case Cat(first, second) =>
      exists k | 0 <= k <= |s| :: Derives(g, first, s[..k], depth) && Derives(g, second, s[k..], depth)
    case Choice(options) => exists o | o in options :: Derives(g, o, s, depth)
    case Opt(inner) => s == "" || Derives(g, inner, s, depth)
    case Star(inner) =>
      s == "" || exists k | 0 < k <= |s| :: Derives(g, inner, s[..k], depth) && Derives(g, e, s[k..], depth)
  }

  /** `s` is a text of `e` under the rules of `g`. */
  ghost predicate Generates(g: Rules, e: Expr, s: string) {
    exists depth: nat :: Derives(g, e, s, depth)
  }

  lemma {:induction false} DeeperDerives(g: Rules, e: Expr, s: string, depth: nat, more: nat)
    requires Derives(g, e, s, depth) && depth <= more
    ensures Derives(g, e, s, more)
    decreases depth, e, |s|
  {
    match e
    case Lit(_) =>
    case OneOf(_) =>
    case NoneOf(_) =>
    case Ref(name) =>
      DeeperDerives(g, Body(g, name).value, s, depth - 1, more - 1);
    case Cat(first, second) =>
      var k :| 0 <= k <= |s| && Derives(g, first, s[..k], depth) && Derives(g, second, s[k..], depth);
      DeeperDerives(g, first, s[..k], depth, more);
      DeeperDerives(g, second, s[k..], depth, more);
    case Choice(options) =>
      var o :| o in options && Derives(g, o, s, depth);
      DeeperDerives(g, o, s, depth, more);
    case Opt(inner) =>
      if s != "" { DeeperDerives(g, inner, s, depth, more); }
    case Star(inner) =>
      if s != "" {
        var k :| 0 < k <= |s| && Derives(g, inner, s[..k], depth) && Derives(g, e, s[k..], depth);
        DeeperDerives(g, inner, s[..k], depth, more);
        DeeperDerives(g, e, s[k..], depth, more);
      }
  }

  // ------------------------------------------------------------------ the algebra of texts

  lemma OfLit(g: Rules, text: string, s: string)
    ensures Generates(g, Lit(text), s) <==> s == text
  {
    if s == text { assert Derives(g, Lit(text), s, 0); }
  }

  lemma OfOneOf(g: Rules, chars: set<char>, s: string)
    ensures Generates(g, OneOf(chars), s) <==> |s| == 1 && s[0] in chars
  {
    if |s| == 1 && s[0] in chars { assert Derives(g, OneOf(chars), s, 0); }
  }

  lemma OfNoneOf(g: Rules, chars: set<char>, s: string)
    ensures Generates(g, NoneOf(chars), s) <==> |s| == 1 && s[0] !in chars
  {
    if |s| == 1 && s[0] !in chars { assert Derives(g, NoneOf(chars), s, 0); }
  }

  lemma OfRef(g: Rules, name: RuleName, s: string)
    ensures Generates(g, Ref(name), s) <==> Body(g, name).Some? && Generates(g, Body(g, name).value, s)
  {
    if Body(g, name).Some? && Generates(g, Body(g, name).value, s) {
      var depth: nat :| Derives(g, Body(g, name).value, s, depth);
      assert Derives(g, Ref(name), s, depth + 1);
    }
    if Generates(g, Ref(name), s) {
      var depth: nat :| Derives(g, Ref(name), s, depth);
      assert Derives(g, Body(g, name).value, s, depth - 1);
    }
  }

  ghost predicate Splits(g: Rules, first: Expr, second: Expr, s: string, k: int) {
    0 <= k <= |s| && Generates(g, first, s[..k]) && Generates(g, second, s[k..])
  }

  lemma OfCat(g: Rules, first: Expr, second: Expr, s: string)
    ensures Generates(g, Cat(first, second), s) <==> exists k :: Splits(g, first, second, s, k)
  {
    if Generates(g, Cat(first, second), s) {
      var depth: nat :| Derives(g, Cat(first, second), s, depth);
      var k :| 0 <= k <= |s| && Derives(g, first, s[..k], depth) && Derives(g, second, s[k..], depth);
      assert Splits(g, first, second, s, k);
    }
    if k :| Splits(g, first, second, s, k) {
      CatIntro(g, first, second, s, k);
    }
  }

  lemma CatIntro(g: Rules, first: Expr, second: Expr, s: string, k: int)
    requires Splits(g, first, second, s, k)
    ensures Generates(g, Cat(first, second), s)
  {
    var d1: nat :| Derives(g, first, s[..k], d1);
    var d2: nat :| Derives(g, second, s[k..], d2);
    var d := if d1 < d2 then d2 else d1;
    DeeperDerives(g, first, s[..k], d1, d);
    DeeperDerives(g, second, s[k..], d2, d);
    assert Derives(g, Cat(first, second), s, d);
  }

  /** Concatenation, from the pieces. */
  lemma CatJoins(g: Rules, first: Expr, second: Expr, a: string, b: string)
    requires Generates(g, first, a) && Generates(g, second, b)
    ensures Generates(g, Cat(first, second), a + b)
  {
    assert (a + b)[..|a|] == a && (a + b)[|a|..] == b;
    CatIntro(g, first, second, a + b, |a|);
  }

  lemma CatSplits(g: Rules, first: Expr, second: Expr, s: string) returns (a: string, b: string)
    requires Generates(g, Cat(first, second), s)
    ensures s == a + b && Generates(g, first, a) && Generates(g, second, b)
  {
    OfCat(g, first, second, s);
    var k :| Splits(g, first, second, s, k);
    a, b := s[..k], s[k..];
  }

  lemma LitJoins(g: Rules, text: string, second: Expr, b: string)
    requires Generates(g, second, b)
    ensures Generates(g, Cat(Lit(text), second), text + b)
  {
    OfLit(g, text, text);
    CatJoins(g, Lit(text), second, text, b);
  }

  lemma LitSplits(g: Rules, text: string, second: Expr, s: string) returns (b: string)
    requires Generates(g, Cat(Lit(text), second), s)
    ensures s == text + b && Generates(g, second, b)
  {
    var a;
    a, b := CatSplits(g, Lit(text), second, s);
    OfLit(g, text, a);
  }

  lemma OfChoice(g: Rules, options: seq<Expr>, s: string)
    ensures Generates(g, Choice(options), s) <==> exists o | o in options :: Generates(g, o, s)
  {
    if Generates(g, Choice(options), s) {
      var depth: nat :| Derives(g, Choice(options), s, depth);
      var o :| o in options && Derives(g, o, s, depth);
      assert Generates(g, o, s);
    }
    if o :| o in options && Generates(g, o, s) {
      var depth: nat :| Derives(g, o, s, depth);
      assert Derives(g, Choice(options), s, depth);
    }
  }

  lemma OfOpt(g: Rules, inner: Expr, s: string)
    ensures Generates(g, Opt(inner), s) <==> s == "" || Generates(g, inner, s)
  {
    if s == "" { assert Derives(g, Opt(inner), s, 0); }
    if Generates(g, inner, s) {
      var depth: nat :| Derives(g, inner, s, depth);
      assert Derives(g, Opt(inner), s, depth);
    }
    if Generates(g, Opt(inner), s) && s != "" {
      var depth: nat :| Derives(g, Opt(inner), s, depth);
      assert Derives(g, inner, s, depth);
    }
  }

  /** A repetition: nothing, or one nonempty piece and the rest. */
  lemma OfStar(g: Rules, inner: Expr, s: string)
    ensures Generates(g, Star(inner), s)
      <==> s == "" || exists k :: 0 < k && Splits(g, inner, Star(inner), s, k)
  {
    var e := Star(inner);
    if s == "" { assert Derives(g, e, s, 0); }
    if Generates(g, e, s) && s != "" {
      var depth: nat :| Derives(g, e, s, depth);
      var k :| 0 < k <= |s| && Derives(g, inner, s[..k], depth) && Derives(g, e, s[k..], depth);
      assert Splits(g, inner, e, s, k);
    }
    if k :| 0 < k && Splits(g, inner, e, s, k) {
      var d1: nat :| Derives(g, inner, s[..k], d1);
      var d2: nat :| Derives(g, e, s[k..], d2);
      var d := if d1 < d2 then d2 else d1;
      DeeperDerives(g, inner, s[..k], d1, d);
      DeeperDerives(g, e, s[k..], d2, d);
      assert Derives(g, e, s, d);
    }
  }

  /** A rule is only ever appended, so what it means never changes. */
  lemma {:induction false} BodyStays(g: Rules, more: Rules, name: RuleName)
    ensures Body(g + more, name) == if Body(g, name).Some? then Body(g, name) else Body(more, name)
  {
    if g == [] {
      assert g + more == more;
    } else {
      assert (g + more)[1..] == g[1..] + more;
      BodyStays(g[1..], more, name);
    }
  }
}
