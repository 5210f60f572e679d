/** What a property of each type may be given, and how much of JSON that leaves out. */
module ValueTexts {
  import opened Gbnf
  import opened Avoidance
  import opened ObjectText
  import opened Json
  import opened Values
  import opened Grammar

  /** The texts of a type: a string, an integer, or an array of strings, and of no other type
      any. */
  ghost predicate OfType(t: ValueType, v: string) {
    match t
    case TextType => StrictString(v)
    case IntegerType => JsonInteger(v)
    case ArrayType(TextType) => StrictArray(v)
    case _ => false
  }

  /** A schema is in scope exactly where each property is text, an integer or an array of
      texts. */
  lemma WhatIsInScope(schema: Schema)
    ensures InScope(schema) <==>
      forall i | 0 <= i < |schema.properties| :: schema.properties[i].1 in {TextType, IntegerType, ArrayType(TextType)}
  {
  }

  /** Each property goes by its own name, is required where the schema says so, and is given
      exactly the texts of its type. */
  lemma PropertiesTakeTheirType(g: Rules, tools: seq<Tool>, i: nat, j: nat, v: string)
    requires Compiled(g, tools) && i < |tools| && j < |tools[i].schema.properties|
    ensures InScope(tools[i].schema)
    ensures var property, p := tools[i].schema.properties[j], PropsOf(tools[i].schema)[j];
      && p.key == property.0 && (p.required <==> property.0 in tools[i].schema.required)
      && (Generates(g, Ref(p.rule), v) <==> OfType(property.1, v))
  {
    hide Generates, HasObject, Avoids, CallRefs, Braced, CallExpr, StrictString, JsonInteger, StrictArray, StringExpr,
      IntegerExpr, StringArrayExpr, WsExpr;
    assert ToolCompiled(g, tools[i]);
    var p := PropsOf(tools[i].schema)[j];
    assert p in PropsOf(tools[i].schema);
    OfRef(g, p.rule, v);
    OfString(g, v);
    OfInteger(g, v);
    if p.rule == StringArray {
      assert Body(g, StringArray).Some?;
      assert Body(g, Ws) == Shared(Ws) && Body(g, StringRule) == Shared(StringRule);
      OfStringArray(g, v);
    }
  }

  // -------------------------------------------------------------------- what of JSON is left out

  /** A slash written as an escape. */
  predicate EscapesSlash(t: string) {
    t != "" &&
    if t[0] == '\\' && |t| >= 2 then t[1] == '/' || EscapesSlash(t[2..]) else EscapesSlash(t[1..])
  }

  lemma FourHexEscapeNothing(t: string)
    requires |t| >= 4 && FourHex(t[..4])
    ensures EscapesSlash(t) <==> EscapesSlash(t[4..])
    ensures '\U{007F}' !in t[..4]
  {
    HexIs(t[0]);
    HexIs(t[1]);
    HexIs(t[2]);
    HexIs(t[3]);
    assert t[1..][1..] == t[2..] && t[2..][1..] == t[3..] && t[3..][1..] == t[4..];
    hide EscapesSlash;
    NoEscapeHere(t);
    NoEscapeHere(t[1..]);
    NoEscapeHere(t[2..]);
    NoEscapeHere(t[3..]);
  }

  lemma NoEscapeHere(t: string)
    requires t != "" && t[0] != '\\'
    ensures EscapesSlash(t) <==> EscapesSlash(t[1..])
  {
  }

  lemma HexIs(c: char)
    ensures c in HEX <==> '0' <= c <= '9' || 'a' <= c <= 'f' || 'A' <= c <= 'F'
  {
  }

  lemma DigitIs(c: char)
    ensures c in DIGITS <==> '0' <= c <= '9'
    ensures c in NONZERO <==> '1' <= c <= '9'
  {
  }

  /** The strings a grammar lets through are JSON's own, less a bare DEL and a slash written as
      an escape. */
  lemma {:induction false} HowStrictCharactersAre(t: string)
    ensures StrictCharacters(t) <==> Characters(t) && '\U{007F}' !in t && !EscapesSlash(t)
    decreases |t|
  {
    if t != "" {
      if t[0] != '\\' {
        HowStrictCharactersAre(t[1..]);
        assert t == [t[0]] + t[1..];
        PlainIs(t[0]);
      } else if |t| >= 2 {
        HowStrictCharactersAre(t[2..]);
        assert t == [t[0], t[1]] + t[2..];
        EscapedIs(t[1]);
        if |t| >= 6 && t[1] == 'u' && FourHex(t[2..6]) {
          HowStrictCharactersAre(t[6..]);
          assert t[2..][..4] == t[2..6] && t[2..][4..] == t[6..];
          FourHexEscapeNothing(t[2..]);
          assert t[2..] == t[2..6] + t[6..];
        }
      }
    }
  }

  lemma PlainIs(c: char)
    ensures c !in UNPLAIN <==> Unescaped(c) && c != '\U{007F}'
  {
  }

  lemma EscapedIs(c: char)
    ensures c in ESCAPED <==> c in {'"', '\\', '/', 'b', 'f', 'n', 'r', 't'} && c != '/'
  {
  }

  lemma HowStrictStringsAre(s: string)
    ensures StrictString(s) <==> JsonString(s) && '\U{007F}' !in s && !EscapesSlash(s[1..|s| - 1])
  {
    hide StrictCharacters, Characters, EscapesSlash;
    if |s| >= 2 {
      HowStrictCharactersAre(s[1..|s| - 1]);
      if s[0] == '"' && s[|s| - 1] == '"' {
        assert s == "\"" + s[1..|s| - 1] + "\"";
      }
    }
  }

  /** And its white space is JSON's, less the carriage return. */
  lemma HowStrictSpacesAre(s: string)
    ensures Spaces(s) <==> JsonSpaces(s) && '\r' !in s
  {
  }

  // ------------------------------------------------------------------------ every list of strings

  function Commas(strings: seq<string>): string {
    if strings == [] then "" else "," + strings[0] + Commas(strings[1..])
  }

  /** A list of strings written as an array, without a space. */
  function ArrayText(strings: seq<string>): string {
    if strings == [] then "[]" else "[" + (strings[0] + Commas(strings[1..])) + "]"
  }

  lemma {:induction false} CommasAreMore(strings: seq<string>)
    requires forall i | 0 <= i < |strings| :: StrictString(strings[i])
    ensures MoreStrings(Commas(strings))
  {
    hide StrictString, Spaces;
    if strings != [] {
      var m, rest := strings[0], Commas(strings[1..]);
      CommasAreMore(strings[1..]);
      NoSpacesAtAll();
      assert Commas(strings) == "," + "" + m + "" + rest;
      assert MoreParts(Commas(strings), "", m, "", rest);
    }
  }

  lemma NoSpacesAtAll()
    ensures Spaces("")
  {
  }

  /** However many strings there are, an array of them may be written. */
  lemma EveryListMayBeWritten(strings: seq<string>)
    requires forall i | 0 <= i < |strings| :: StrictString(strings[i])
    ensures OfType(ArrayType(TextType), ArrayText(strings))
  {
    hide StrictString, Spaces, MoreStrings;
    NoSpacesAtAll();
    if strings == [] {
      assert "[]" == "[" + "" + "" + "]";
      assert ArrayParts("[]", "", "");
    } else {
      var m, rest := strings[0], Commas(strings[1..]);
      CommasAreMore(strings[1..]);
      assert m + rest == m + "" + rest;
      assert ListParts(m + rest, m, "", rest);
      assert ArrayText(strings) == "[" + "" + (m + rest) + "]";
      assert ArrayParts(ArrayText(strings), "", m + rest);
    }
  }
}
