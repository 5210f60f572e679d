/** The three value rules, the texts they generate, and that those are JSON. */
module Values {
  import opened Conversation
  import opened Gbnf
  import opened ObjectText
  import opened Json

  const CONTROLS: set<char> := set c: char | c < ' '

  const ESCAPED: set<char> := {'"', '\\', 'b', 'f', 'n', 'r', 't'}

  /** What a string's plain characters are not: quote, backslash, DEL and the controls. */
  const UNPLAIN: set<char> := {'"', '\\', '\U{007F}'} + CONTROLS

  function HexFour(): Expr {
    Cat(OneOf(HEX), Cat(OneOf(HEX), Cat(OneOf(HEX), OneOf(HEX))))
  }

  function EscapeExpr(): Expr {
    Cat(Lit("\\"), Choice([OneOf(ESCAPED), Cat(Lit("u"), HexFour())]))
  }

  function CharacterExpr(): Expr {
    Choice([NoneOf(UNPLAIN), EscapeExpr()])
  }

  function StringExpr(): Expr {
    Cat(Lit("\""), Cat(Star(CharacterExpr()), Lit("\"")))
  }

  function IntegerExpr(): Expr {
    Cat(Opt(Lit("-")), Choice([Lit("0"), Cat(OneOf(NONZERO), Star(OneOf(DIGITS)))]))
  }

  function MoreExpr(): Expr {
    Cat(Lit(","), Cat(Ref(Ws), Cat(Ref(StringRule), Ref(Ws))))
  }

  function StringArrayExpr(): Expr {
    Cat(Lit("["), Cat(Ref(Ws), Cat(Opt(Cat(Ref(StringRule), Cat(Ref(Ws), Star(MoreExpr())))), Lit("]"))))
  }

  // ------------------------------------------------------------------------------------- strings

  /** One character of a string, as the rule writes it. */
  predicate OneCharacter(t: string) {
    || (|t| == 1 && t[0] !in UNPLAIN)
    || (|t| == 2 && t[0] == '\\' && t[1] in ESCAPED)
    || (|t| == 6 && t[0] == '\\' && t[1] == 'u' && FourHex(t[2..]))
  }

  /** The JSON string characters, less a raw DEL and the escape `\/`. */
  predicate StrictCharacters(t: string) {
    || t == ""
    || (t[0] !in UNPLAIN && StrictCharacters(t[1..]))
    || (t[0] == '\\' && |t| >= 2 && t[1] in ESCAPED && StrictCharacters(t[2..]))
    || (t[0] == '\\' && |t| >= 6 && t[1] == 'u' && FourHex(t[2..6]) && StrictCharacters(t[6..]))
  }

  lemma OfHexFour(g: Rules, s: string)
    ensures Generates(g, HexFour(), s) <==> FourHex(s)
  {
    hide Generates;
    var one := OneOf(HEX);
    var two, three := Cat(one, one), Cat(one, Cat(one, one));
    if Generates(g, HexFour(), s) {
      var a, r1 := CatSplits(g, one, three, s);
      var b, r2 := CatSplits(g, one, two, r1);
      var c, d := CatSplits(g, one, one, r2);
      OfOneOf(g, HEX, a);
      OfOneOf(g, HEX, b);
      OfOneOf(g, HEX, c);
      OfOneOf(g, HEX, d);
    }
    if FourHex(s) {
      OfOneOf(g, HEX, [s[0]]);
      OfOneOf(g, HEX, [s[1]]);
      OfOneOf(g, HEX, [s[2]]);
      OfOneOf(g, HEX, [s[3]]);
      CatJoins(g, one, one, [s[2]], [s[3]]);
      CatJoins(g, one, two, [s[1]], [s[2]] + [s[3]]);
      CatJoins(g, one, three, [s[0]], [s[1]] + ([s[2]] + [s[3]]));
      assert s == [s[0]] + ([s[1]] + ([s[2]] + [s[3]]));
    }
  }

  lemma OfEscape(g: Rules, s: string)
    ensures Generates(g, EscapeExpr(), s)
      <==> || (|s| == 2 && s[0] == '\\' && s[1] in ESCAPED)
           || (|s| == 6 && s[0] == '\\' && s[1] == 'u' && FourHex(s[2..]))
  {
    hide Generates;
    var short, long := OneOf(ESCAPED), Cat(Lit("u"), HexFour());
    var options := [short, long];
    assert options[0] == short && options[1] == long;
    if Generates(g, EscapeExpr(), s) {
      var t := LitSplits(g, "\\", Choice(options), s);
      OfChoice(g, options, t);
      if Generates(g, short, t) {
        OfOneOf(g, ESCAPED, t);
      } else {
        var h := LitSplits(g, "u", HexFour(), t);
        OfHexFour(g, h);
        assert s[2..] == h;
      }
    }
    if |s| == 2 && s[0] == '\\' && s[1] in ESCAPED {
      OfOneOf(g, ESCAPED, [s[1]]);
      OfChoice(g, options, [s[1]]);
      LitJoins(g, "\\", Choice(options), [s[1]]);
      assert s == "\\" + [s[1]];
    }
    if |s| == 6 && s[0] == '\\' && s[1] == 'u' && FourHex(s[2..]) {
      OfHexFour(g, s[2..]);
      LitJoins(g, "u", HexFour(), s[2..]);
      OfChoice(g, options, "u" + s[2..]);
      LitJoins(g, "\\", Choice(options), "u" + s[2..]);
      assert s == "\\" + ("u" + s[2..]);
    }
  }

  lemma OfCharacter(g: Rules, s: string)
    ensures Generates(g, CharacterExpr(), s) <==> OneCharacter(s)
  {
    var options := [NoneOf(UNPLAIN), EscapeExpr()];
    OfChoice(g, options, s);
    OfNoneOf(g, UNPLAIN, s);
    OfEscape(g, s);
    assert options[0] == NoneOf(UNPLAIN) && options[1] == EscapeExpr();
  }

  lemma {:induction false} OfCharacters(g: Rules, s: string)
    ensures Generates(g, Star(CharacterExpr()), s) <==> StrictCharacters(s)
    decreases |s|
  {
    hide Generates;
    OfStar(g, CharacterExpr(), s);
    forall k | 0 < k <= |s| ensures Splits(g, CharacterExpr(), Star(CharacterExpr()), s, k)
      <==> OneCharacter(s[..k]) && StrictCharacters(s[k..])
    {
      OfCharacter(g, s[..k]);
      OfCharacters(g, s[k..]);
    }
    if s != "" && StrictCharacters(s) {
      var k := if s[0] !in UNPLAIN then 1 else if s[1] in ESCAPED then 2 else 6;
      assert |s| >= 6 ==> s[..6][2..] == s[2..6];
      assert OneCharacter(s[..k]) && StrictCharacters(s[k..]);
    }
    if k :| 0 < k <= |s| && OneCharacter(s[..k]) && StrictCharacters(s[k..]) {
      assert k == 6 ==> s[..6][2..] == s[2..6];
    }
  }

  predicate StrictString(s: string) {
    |s| >= 2 && s[0] == '"' && s[|s| - 1] == '"' && StrictCharacters(s[1..|s| - 1])
  }

  /** The string rule, exactly. */
  lemma OfString(g: Rules, s: string)
    ensures Generates(g, StringExpr(), s) <==> StrictString(s)
  {
    hide Generates, CharacterExpr, StrictCharacters;
    var body := Star(CharacterExpr());
    if Generates(g, StringExpr(), s) {
      var rest := LitSplits(g, "\"", Cat(body, Lit("\"")), s);
      var t, quote := CatSplits(g, body, Lit("\""), rest);
      OfLit(g, "\"", quote);
      OfCharacters(g, t);
      assert s[1..|s| - 1] == t;
    }
    if StrictString(s) {
      var t := s[1..|s| - 1];
      OfCharacters(g, t);
      OfLit(g, "\"", "\"");
      CatJoins(g, body, Lit("\""), t, "\"");
      LitJoins(g, "\"", Cat(body, Lit("\"")), t + "\"");
      assert s == "\"" + (t + "\"");
    }
  }

  lemma {:induction false} StrictIsJson(t: string)
    requires StrictCharacters(t)
    ensures Characters(t)
    decreases |t|
  {
    if t != "" {
      if t[0] !in UNPLAIN {
        assert t[0] !in CONTROLS;
        StrictIsJson(t[1..]);
      } else if t[1] in ESCAPED {
        StrictIsJson(t[2..]);
      } else {
        StrictIsJson(t[6..]);
      }
    }
  }

  /** A raw DEL is JSON and the rule refuses it; nothing the rule writes is not JSON. */
  lemma StringsAreJson(s: string)
    ensures StrictString(s) ==> JsonString(s)
    ensures JsonString("\"\U{007F}\"") && !StrictString("\"\U{007F}\"")
  {
    if StrictString(s) {
      StrictIsJson(s[1..|s| - 1]);
    }
    var del := "\"\U{007F}\"";
    assert del[1..2] == "\U{007F}" && "\U{007F}"[1..] == "";
    assert Characters("\U{007F}") && '\U{007F}' in UNPLAIN;
  }

  // ------------------------------------------------------------------------------------ integers

  lemma {:induction false} OfDigits(g: Rules, s: string)
    ensures Generates(g, Star(OneOf(DIGITS)), s) <==> Digits(s)
  {
    OfStar(g, OneOf(DIGITS), s);
    if s != "" {
      forall k | 0 < k <= |s| ensures Generates(g, OneOf(DIGITS), s[..k]) <==> k == 1 && s[0] in DIGITS {
        OfOneOf(g, DIGITS, s[..k]);
      }
      OfDigits(g, s[1..]);
      assert s == [s[0]] + s[1..];
      if Digits(s) {
        assert Splits(g, OneOf(DIGITS), Star(OneOf(DIGITS)), s, 1);
      }
    }
  }

  lemma OfUnsigned(g: Rules, s: string)
    ensures Generates(g, Choice([Lit("0"), Cat(OneOf(NONZERO), Star(OneOf(DIGITS)))]), s) <==> Unsigned(s)
  {
    var many := Cat(OneOf(NONZERO), Star(OneOf(DIGITS)));
    var options := [Lit("0"), many];
    OfChoice(g, options, s);
    OfLit(g, "0", s);
    assert options[0] == Lit("0") && options[1] == many;
    if Generates(g, many, s) {
      var a, b := CatSplits(g, OneOf(NONZERO), Star(OneOf(DIGITS)), s);
      OfOneOf(g, NONZERO, a);
      OfDigits(g, b);
      assert s[1..] == b;
    }
    if s != "" && s[0] in NONZERO && Digits(s[1..]) {
      OfOneOf(g, NONZERO, [s[0]]);
      OfDigits(g, s[1..]);
      CatJoins(g, OneOf(NONZERO), Star(OneOf(DIGITS)), [s[0]], s[1..]);
      assert s == [s[0]] + s[1..];
    }
  }

  /** The integer rule, exactly: no exponent, no leading zero. */
  lemma OfInteger(g: Rules, s: string)
    ensures Generates(g, IntegerExpr(), s) <==> JsonInteger(s)
  {
    hide Generates, Unsigned;
    var sign := Opt(Lit("-"));
    var digits := Choice([Lit("0"), Cat(OneOf(NONZERO), Star(OneOf(DIGITS)))]);
    if Generates(g, IntegerExpr(), s) {
      var a, b := CatSplits(g, sign, digits, s);
      OfOpt(g, Lit("-"), a);
      OfLit(g, "-", a);
      OfUnsigned(g, b);
      assert a == "" ==> s == b;
      assert a == "-" ==> s[1..] == b;
    }
    if Unsigned(s) {
      OfUnsigned(g, s);
      OfOpt(g, Lit("-"), "");
      CatJoins(g, sign, digits, "", s);
      assert "" + s == s;
    }
    if s != "" && s[0] == '-' && Unsigned(s[1..]) {
      OfUnsigned(g, s[1..]);
      OfOpt(g, Lit("-"), "-");
      OfLit(g, "-", "-");
      CatJoins(g, sign, digits, "-", s[1..]);
      assert "-" + s[1..] == s;
    }
  }

  // ---------------------------------------------------------------------------- arrays of string

  predicate HasStrings(g: Rules) {
    Body(g, Ws) == Some(WsExpr()) && Body(g, StringRule) == Some(StringExpr())
  }

  lemma SpacesAreJson(s: string)
    ensures Spaces(s) ==> JsonSpaces(s)
  {
  }

  ghost predicate MoreParts(s: string, a: string, m: string, b: string, rest: string) {
    s == "," + a + m + b + rest && Spaces(a) && StrictString(m) && Spaces(b)
  }

  /** Any number of further strings, each after a comma, with spaces around it. */
  ghost predicate MoreStrings(s: string)
    decreases |s|
  {
    s == "" || exists a, m, b, rest | |rest| < |s| :: MoreParts(s, a, m, b, rest) && MoreStrings(rest)
  }

  ghost predicate ListParts(s: string, m: string, b: string, rest: string) {
    s == m + b + rest && StrictString(m) && Spaces(b) && MoreStrings(rest)
  }

  ghost predicate ArrayParts(s: string, a: string, list: string) {
    s == "[" + a + list + "]" && Spaces(a) && (list == "" || exists m, b, rest :: ListParts(list, m, b, rest))
  }

  /** An array of strings as the rule writes it: spaces wherever they may stand, and no comma
      first or last. */
  ghost predicate StrictArray(s: string) {
    exists a, list :: ArrayParts(s, a, list)
  }

  lemma OfStringRef(g: Rules, s: string)
    requires HasStrings(g)
    ensures Generates(g, Ref(StringRule), s) <==> StrictString(s)
  {
    OfRef(g, StringRule, s);
    OfString(g, s);
  }

  /** One more string: a comma, and the string with its spaces. */
  lemma OfMore(g: Rules, s: string)
    requires HasStrings(g)
    ensures Generates(g, MoreExpr(), s) <==> exists a, m, b :: MoreParts(s, a, m, b, "")
  {
    hide Generates, StrictString, Spaces;
    var after := Cat(Ref(StringRule), Ref(Ws));
    if Generates(g, MoreExpr(), s) {
      var t := LitSplits(g, ",", Cat(Ref(Ws), after), s);
      var a, r := CatSplits(g, Ref(Ws), after, t);
      var m, b := CatSplits(g, Ref(StringRule), Ref(Ws), r);
      OfWs(g, a);
      OfWs(g, b);
      OfStringRef(g, m);
      assert "," + (a + (m + b)) == "," + a + m + b + "";
      assert MoreParts(s, a, m, b, "");
    }
    if a, m, b :| MoreParts(s, a, m, b, "") {
      OfWs(g, a);
      OfWs(g, b);
      OfStringRef(g, m);
      CatJoins(g, Ref(StringRule), Ref(Ws), m, b);
      CatJoins(g, Ref(Ws), after, a, m + b);
      LitJoins(g, ",", Cat(Ref(Ws), after), a + (m + b));
      assert "," + (a + (m + b)) == "," + a + m + b + "";
    }
  }

  lemma {:induction false} OfMores(g: Rules, s: string)
    requires HasStrings(g)
    ensures Generates(g, Star(MoreExpr()), s) <==> MoreStrings(s)
    decreases |s|
  {
    hide Generates, MoreExpr, StrictString, Spaces;
    OfStar(g, MoreExpr(), s);
    if k :| 0 < k <= |s| && Splits(g, MoreExpr(), Star(MoreExpr()), s, k) {
      OfMore(g, s[..k]);
      OfMores(g, s[k..]);
      var a, m, b :| MoreParts(s[..k], a, m, b, "");
      assert s == s[..k] + s[k..];
      assert MoreParts(s, a, m, b, s[k..]);
    }
    if s != "" && MoreStrings(s) {
      var a, m, b, rest :| |rest| < |s| && MoreParts(s, a, m, b, rest) && MoreStrings(rest);
      var one := "," + a + m + b + "";
      var k := |one|;
      assert s == one + rest && s[..k] == one && s[k..] == rest;
      assert MoreParts(one, a, m, b, "");
      OfMore(g, one);
      OfMores(g, rest);
      assert Splits(g, MoreExpr(), Star(MoreExpr()), s, k);
    }
  }

  lemma OfList(g: Rules, s: string)
    requires HasStrings(g)
    ensures Generates(g, Cat(Ref(StringRule), Cat(Ref(Ws), Star(MoreExpr()))), s)
       <==> exists m, b, rest :: ListParts(s, m, b, rest)
  {
    hide Generates, MoreExpr, StrictString, Spaces, MoreStrings;
    var tail := Cat(Ref(Ws), Star(MoreExpr()));
    if Generates(g, Cat(Ref(StringRule), tail), s) {
      var m, r := CatSplits(g, Ref(StringRule), tail, s);
      var b, rest := CatSplits(g, Ref(Ws), Star(MoreExpr()), r);
      OfStringRef(g, m);
      OfWs(g, b);
      OfMores(g, rest);
      assert m + (b + rest) == m + b + rest;
      assert ListParts(s, m, b, rest);
    }
    if m, b, rest :| ListParts(s, m, b, rest) {
      OfStringRef(g, m);
      OfWs(g, b);
      OfMores(g, rest);
      CatJoins(g, Ref(Ws), Star(MoreExpr()), b, rest);
      CatJoins(g, Ref(StringRule), tail, m, b + rest);
      assert m + (b + rest) == m + b + rest;
    }
  }

  /** The array rule, exactly. */
  lemma OfStringArray(g: Rules, s: string)
    requires HasStrings(g)
    ensures Generates(g, StringArrayExpr(), s) <==> StrictArray(s)
  {
    hide Generates, MoreExpr, Spaces, ListParts;
    var list := Cat(Ref(StringRule), Cat(Ref(Ws), Star(MoreExpr())));
    var inside := Cat(Opt(list), Lit("]"));
    if Generates(g, StringArrayExpr(), s) {
      var rest := LitSplits(g, "[", Cat(Ref(Ws), inside), s);
      var a, r := CatSplits(g, Ref(Ws), inside, rest);
      var inner, close := CatSplits(g, Opt(list), Lit("]"), r);
      OfWs(g, a);
      OfLit(g, "]", close);
      OfOpt(g, list, inner);
      OfList(g, inner);
      assert "[" + (a + (inner + "]")) == "[" + a + inner + "]";
      assert ArrayParts(s, a, inner);
    }
    if a, inner :| ArrayParts(s, a, inner) {
      OfWs(g, a);
      OfLit(g, "]", "]");
      OfOpt(g, list, inner);
      OfList(g, inner);
      CatJoins(g, Opt(list), Lit("]"), inner, "]");
      CatJoins(g, Ref(Ws), inside, a, inner + "]");
      LitJoins(g, "[", Cat(Ref(Ws), inside), a + (inner + "]"));
      assert "[" + (a + (inner + "]")) == "[" + a + inner + "]";
    }
  }

  /** `text` is a list of strings and the spaces after it. */
  ghost predicate StringsThenSpaces(text: string, list: string, b: string) {
    text == list + b && Spaces(b) && Separated((m: string) => JsonString(m), list)
  }

  /** One string, and whatever more of them follow. */
  lemma {:induction false} MoreAreSeparated(first: string, gap: string, more: string)
    returns (list: string, b: string)
    requires JsonString(first) && Spaces(gap) && MoreStrings(more)
    ensures StringsThenSpaces(first + gap + more, list, b)
    decreases |more|
  {
    hide JsonString, Characters, Spaces, JsonSpaces, StrictString;
    var one := (m: string) => JsonString(m);
    if more == "" {
      list, b := first, gap;
      assert first + gap + more == first + gap;
      assert one(first);
    } else {
      var a, next, c, rest :| |rest| < |more| && MoreParts(more, a, next, c, rest) && MoreStrings(rest);
      StringsAreJson(next);
      var later;
      later, b := MoreAreSeparated(next, c, rest);
      list := first + gap + "," + a + later;
      OneMoreInFront(first, gap, a, next + c + rest, later, b);
      assert first + gap + more == first + gap + "," + a + (next + c + rest);
    }
  }

  lemma OneMoreInFront(first: string, gap: string, a: string, text: string, later: string, b: string)
    requires JsonString(first) && Spaces(gap) && Spaces(a) && StringsThenSpaces(text, later, b)
    ensures StringsThenSpaces(first + gap + "," + a + text, first + gap + "," + a + later, b)
  {
    hide JsonString, Spaces, JsonSpaces;
    var list := first + gap + "," + a + later;
    SpacesAreJson(gap);
    SpacesAreJson(a);
    assert first + gap + "," + a + (later + b) == list + b;
    assert FirstOf((m: string) => JsonString(m), list, first, gap, a, later);
  }

  /** Every array the rule writes is a JSON array of strings. */
  lemma StringArraysAreJson(s: string)
    requires StrictArray(s)
    ensures JsonStrings(s)
  {
    hide JsonString, Spaces, JsonSpaces, StrictString, MoreStrings;
    var one := (m: string) => JsonString(m);
    var a, inner :| ArrayParts(s, a, inner);
    SpacesAreJson(a);
    var text, b := "", "";
    if inner == "" {
      NoSpaces();
    } else {
      var m, gap, rest :| ListParts(inner, m, gap, rest);
      StringsAreJson(m);
      text, b := MoreAreSeparated(m, gap, rest);
      SpacesAreJson(b);
    }
    assert inner == text + b;
    assert s == "[" + a + text + b + "]";
    assert EnclosedParts("[", "]", one, s, a, text, b);
  }

  lemma NoSpaces()
    ensures JsonSpaces("")
  {
  }
}
