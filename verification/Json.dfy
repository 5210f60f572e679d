/** The part of JSON the grammar promises: strings (section 7 of RFC 8259), integers
    (section 6), arrays of strings (section 5) and objects (section 4), and the value
    rules that generate only those. */
module Json {
  import opened Gbnf
  import opened ObjectText

  // ------------------------------------------------------------------------- RFC 8259's texts

  predicate JsonSpaces(s: string) {
    forall k | 0 <= k < |s| :: s[k] in {' ', '\t', '\n', '\r'}
  }

  predicate Unescaped(c: char) {
    ' ' <= c && c != '"' && c != '\\'
  }

  const HEX: set<char> := {'0', '1', '2', '3', '4', '5', '6', '7', '8', '9',
                           'a', 'b', 'c', 'd', 'e', 'f', 'A', 'B', 'C', 'D', 'E', 'F'}

  predicate FourHex(s: string) {
    |s| == 4 && s[0] in HEX && s[1] in HEX && s[2] in HEX && s[3] in HEX
  }

  /** The characters between a string's quotes. */
  predicate Characters(t: string) {
    || t == ""
    || (Unescaped(t[0]) && Characters(t[1..]))
    || (t[0] == '\\' && |t| >= 2 && t[1] in {'"', '\\', '/', 'b', 'f', 'n', 'r', 't'} && Characters(t[2..]))
    || (t[0] == '\\' && |t| >= 6 && t[1] == 'u' && FourHex(t[2..6]) && Characters(t[6..]))
  }

  predicate JsonString(s: string) {
    |s| >= 2 && s[0] == '"' && s[|s| - 1] == '"' && Characters(s[1..|s| - 1])
  }

  const DIGITS: set<char> := {'0', '1', '2', '3', '4', '5', '6', '7', '8', '9'}
  const NONZERO: set<char> := {'1', '2', '3', '4', '5', '6', '7', '8', '9'}

  predicate Digits(s: string) {
    forall k | 0 <= k < |s| :: s[k] in DIGITS
  }

  predicate Unsigned(s: string) {
    s == "0" || (s != "" && s[0] in NONZERO && Digits(s[1..]))
  }

  /** A number with no fraction and no exponent. */
  predicate JsonInteger(s: string) {
    Unsigned(s) || (s != "" && s[0] == '-' && Unsigned(s[1..]))
  }

  /** One or more texts of a kind, separated as `ws , ws`. */
  ghost predicate Separated(one: string -> bool, s: string)
    decreases |s|
  {
    one(s) || exists m, a, b, rest | |rest| < |s| :: FirstOf(one, s, m, a, b, rest) && Separated(one, rest)
  }

  predicate FirstOf(one: string -> bool, s: string, m: string, a: string, b: string, rest: string) {
    s == m + a + "," + b + rest && one(m) && JsonSpaces(a) && JsonSpaces(b)
  }

  ghost predicate Enclosed(open: string, close: string, one: string -> bool, s: string) {
    exists a, list, b :: EnclosedParts(open, close, one, s, a, list, b)
  }

  ghost predicate EnclosedParts(open: string, close: string, one: string -> bool, s: string,
                                a: string, list: string, b: string)
  {
    s == open + a + list + b + close && JsonSpaces(a) && JsonSpaces(b) && (list == "" || Separated(one, list))
  }

  ghost predicate MemberOf(value: string -> bool, s: string) {
    exists name, a, b, v :: MemberOfParts(value, s, name, a, b, v)
  }

  predicate MemberOfParts(value: string -> bool, s: string, name: string, a: string, b: string, v: string) {
    s == name + a + ":" + b + v && JsonString(name) && JsonSpaces(a) && JsonSpaces(b) && value(v)
  }

  /** An object whose values are all of the given kind. */
  ghost predicate JsonObject(value: string -> bool, s: string) {
    Enclosed("{", "}", (m: string) => MemberOf(value, m), s)
  }

  ghost predicate JsonStrings(s: string) {
    Enclosed("[", "]", (m: string) => JsonString(m), s)
  }

  /** What a tool's argument may be. */
  ghost predicate ArgumentValue(v: string) {
    JsonString(v) || JsonInteger(v) || JsonStrings(v)
  }

  // --------------------------------------------------------------------- objects are JSON objects

  /** A property name that needs no escaping. */
  predicate PlainKey(key: string) {
    forall k | 0 <= k < |key| :: Unescaped(key[k])
  }

  lemma {:induction false} PlainIsCharacters(key: string)
    requires PlainKey(key)
    ensures Characters(key)
  {
    if key != "" {
      PlainIsCharacters(key[1..]);
    }
  }

  lemma PlainIsString(key: string)
    requires PlainKey(key)
    ensures JsonString(Quoted(key))
  {
    PlainIsCharacters(key);
    assert Quoted(key)[1..|Quoted(key)| - 1] == key;
  }

  /** What the value rules and the keys must be for the whole to be JSON. */
  ghost predicate Sensible(g: Rules, props: seq<Property>, value: string -> bool) {
    && (forall i | 0 <= i < |props| :: PlainKey(props[i].key))
    && (forall i, v | 0 <= i < |props| && Generates(g, Ref(props[i].rule), v) :: value(v))
  }

  lemma MemberIsJson(g: Rules, props: seq<Property>, value: string -> bool, i: nat, s: string)
    requires Sensible(g, props, value) && i < |props| && IsMember(g, props[i], s)
    ensures MemberOf(value, s)
  {
    var a, b, v :| MemberParts(g, props[i], s, a, b, v);
    PlainIsString(props[i].key);
    assert MemberOfParts(value, s, Quoted(props[i].key), a, b, v);
  }

  lemma {:induction false} SpelledIsSeparated(g: Rules, props: seq<Property>, value: string -> bool,
                                              chosen: seq<nat>, pieces: seq<string>)
    requires Sensible(g, props, value) && Spells(g, props, chosen, pieces, true) && chosen != []
    ensures Separated((m: string) => MemberOf(value, m), Joined(pieces))
    decreases |pieces|
  {
    hide Sensible, Generates, MemberOf, IsMember, JsonString;
    var one := (m: string) => MemberOf(value, m);
    assert IsMember(g, props[chosen[0]], pieces[0]);
    MemberIsJson(g, props, value, chosen[0], pieces[0]);
    if |pieces| == 1 {
      assert Joined(pieces) == pieces[0] + "" == pieces[0];
    } else {
      assert IsFollow(g, props[chosen[1]], pieces[1]);
      var a, m :| FollowParts(g, props[chosen[1]], pieces[1], a, m);
      var later := [m] + pieces[2..];
      var others := chosen[1..];
      forall j | 0 <= j < |others|
        ensures others[j] < |props|
          && if j == 0 then IsMember(g, props[others[j]], later[j]) else IsFollow(g, props[others[j]], later[j])
      {
        assert others[j] == chosen[j + 1];
        if j > 0 { assert later[j] == pieces[j + 1]; }
      }
      SpelledIsSeparated(g, props, value, others, later);
      assert later[1..] == pieces[2..] && pieces[1..][1..] == pieces[2..];
      var rest := Joined(later);
      assert rest == m + Joined(pieces[2..]);
      assert Joined(pieces) == pieces[0] + (pieces[1] + Joined(pieces[2..]));
      assert Joined(pieces) == pieces[0] + "" + "," + a + rest;
      assert FirstOf(one, Joined(pieces), pieces[0], "", a, rest);
    }
  }

  lemma ListIsSeparated(g: Rules, props: seq<Property>, value: string -> bool, list: string)
    requires Sensible(g, props, value) && ListText(g, props, 0, true, list)
    ensures list == "" || Separated((m: string) => MemberOf(value, m), list)
  {
    hide Generates, Sensible, MemberOf, IsMember, IsFollow, Separated;
    var chosen, pieces :| Listing(g, props, 0, true, list, chosen, pieces);
    if chosen != [] {
      SpelledIsSeparated(g, props, value, chosen, pieces);
    }
  }

  /** Every text of an object rule is a JSON object, given sensible values and names. */
  lemma ObjectIsJson(g: Rules, tool: string, props: seq<Property>, value: string -> bool, s: string)
    requires HasObject(g, tool, props) && Sensible(g, props, value)
    requires Generates(g, Ref(Arguments(tool)), s)
    ensures JsonObject(value, s)
  {
    hide Generates, HasObject, Sensible, MemberOf, ListText, Separated;
    ObjectRuleGenerates(g, tool, props, s);
    var a, list, b :| ObjectParts(g, props, s, a, list, b);
    ListIsSeparated(g, props, value, list);
    assert EnclosedParts("{", "}", (m: string) => MemberOf(value, m), s, a, list, b);
  }
}
