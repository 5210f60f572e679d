/** Where an object written bare into a reply ends: braces counted, strings and escapes
    skipped, and why that is exactly the end of the JSON object written there. */
module Braces {
  import opened Conversation
  import opened Json

  datatype Mode = Plain | InString | Escaped

  datatype Reading = Reading(depth: int, mode: Mode)

  function Read1(at: Reading, c: char): Reading {
    match at.mode
    case Escaped => at.(mode := InString)
    case InString => if c == '\\' then at.(mode := Escaped) else if c == '"' then at.(mode := Plain) else at
    case Plain =>
      if c == '"' then at.(mode := InString)
      else if c == '{' then at.(depth := at.depth + 1)
      else if c == '}' then at.(depth := at.depth - 1)
      else at
  }

  function After(at: Reading, s: string): Reading {
    if s == "" then at else Read1(After(at, s[..|s| - 1]), s[|s| - 1])
  }

  const OUTSIDE := Reading(0, Plain)

  /** The brace before `end` closes, outside any string, the object opened at `start`. */
  predicate ClosesAt(text: string, start: nat, end: nat) {
    start < end <= |text| && text[end - 1] == '}' && After(OUTSIDE, text[start..end - 1]) == Reading(1, Plain)
  }

  ghost predicate EndsAt(text: string, start: nat, end: Option<nat>) {
    match end
    case Some(e) => ClosesAt(text, start, e) && forall k | 0 <= k < e :: !ClosesAt(text, start, k)
    case None => forall k: nat :: !ClosesAt(text, start, k)
  }

  lemma AfterOneMore(text: string, start: nat, i: nat)
    requires start <= i < |text|
    ensures After(OUTSIDE, text[start..i + 1]) == Read1(After(OUTSIDE, text[start..i]), text[i])
  {
    assert text[start..i + 1][..i - start] == text[start..i];
  }

  /** Where the object that begins at `start` is over: just after its last brace, or nowhere. */
  method ObjectEnd(text: string, start: nat) returns (end: Option<nat>)
    requires start <= |text|
    ensures EndsAt(text, start, end)
    ensures end.Some? ==> start < end.value <= |text|
  {
    hide After, Read1;
    var depth, quoted, i := 0, false, start;
    AfterNothing(text, start);
    while i < |text|
      invariant start <= i <= |text| + 1
      invariant i <= |text| ==> After(OUTSIDE, text[start..i]) == Reading(depth, if quoted then InString else Plain)
      invariant forall k | 0 <= k <= i :: !ClosesAt(text, start, k)
    {
      var c := text[i];
      AfterOneMore(text, start, i);
      ReadCases(Reading(depth, if quoted then InString else Plain), c);
      if quoted {
        if c == '\\' {
          if i + 1 < |text| {
            AfterOneMore(text, start, i + 1);
            ReadCases(Reading(depth, Escaped), text[i + 1]);
          }
          i := i + 1;
        } else if c == '"' {
          quoted := false;
        }
      } else if c == '"' {
        quoted := true;
      } else if c == '{' {
        depth := depth + 1;
      } else if c == '}' {
        depth := depth - 1;
        if depth == 0 {
          return Some(i + 1);
        }
      }
      i := i + 1;
    }
    return None;
  }

  lemma AfterNothing(text: string, start: nat)
    requires start <= |text|
    ensures After(OUTSIDE, text[start..start]) == OUTSIDE
  {
  }

  lemma ReadCases(at: Reading, c: char)
    ensures Read1(at, c) ==
      if at.mode == Escaped then Reading(at.depth, InString)
      else if at.mode == InString then Reading(at.depth, if c == '\\' then Escaped else if c == '"' then Plain else InString)
      else if c == '"' then Reading(at.depth, InString)
      else Reading(at.depth + (if c == '{' then 1 else if c == '}' then -1 else 0), Plain)
  {
  }

  // ------------------------------------------------------------------- texts that leave no trace

  lemma {:induction false} AfterConcat(at: Reading, a: string, b: string)
    ensures After(at, a + b) == After(After(at, a), b)
  {
    if b == "" {
      assert a + b == a;
    } else {
      AfterConcat(at, a, b[..|b| - 1]);
      assert (a + b)[..|a + b| - 1] == a + b[..|b| - 1];
    }
  }

  /** The object being read stays open throughout. */
  ghost predicate Inside(at: Reading, s: string) {
    forall k | 0 <= k <= |s| :: After(at, s[..k]).depth >= 1
  }

  lemma InsideConcat(at: Reading, a: string, b: string)
    requires Inside(at, a) && Inside(After(at, a), b)
    ensures Inside(at, a + b)
  {
    hide After;
    forall k | 0 <= k <= |a + b| ensures After(at, (a + b)[..k]).depth >= 1 {
      if k <= |a| {
        assert (a + b)[..k] == a[..k];
      } else {
        assert (a + b)[..k] == a + b[..k - |a|];
        AfterConcat(at, a, b[..k - |a|]);
      }
    }
  }

  /** Wherever it stands inside an object, a text that balances its own braces and strings. */
  ghost predicate Neutral(s: string) {
    forall d: int | d >= 1 :: Keeps(d, s)
  }

  ghost predicate Keeps(d: int, s: string) {
    After(Reading(d, Plain), s) == Reading(d, Plain) && Inside(Reading(d, Plain), s)
  }

  lemma NeutralConcat(a: string, b: string)
    requires Neutral(a) && Neutral(b)
    ensures Neutral(a + b)
  {
    hide After, Inside;
    forall d: int | d >= 1 ensures Keeps(d, a + b) {
      assert Keeps(d, a) && Keeps(d, b);
      AfterConcat(Reading(d, Plain), a, b);
      InsideConcat(Reading(d, Plain), a, b);
    }
  }

  predicate Dull(s: string) {
    forall k | 0 <= k < |s| :: s[k] !in {'"', '{', '}'}
  }

  lemma {:induction false} DullStays(d: int, s: string)
    requires Dull(s)
    ensures After(Reading(d, Plain), s) == Reading(d, Plain)
  {
    if s != "" {
      DullStays(d, s[..|s| - 1]);
    }
  }

  lemma DullIsNeutral(s: string)
    requires Dull(s)
    ensures Neutral(s)
  {
    forall d: int | d >= 1 ensures Keeps(d, s) {
      DullStays(d, s);
      forall k | 0 <= k <= |s| ensures After(Reading(d, Plain), s[..k]).depth >= 1 {
        DullStays(d, s[..k]);
      }
    }
  }

  /** Nothing between the quotes of a string is read as a brace, whatever it is. */
  lemma {:induction false} DepthInString(d: int, m: Mode, t: string, k: nat)
    requires m != Plain && k <= |t| && Characters(t) && m == InString
    ensures After(Reading(d, m), t[..k]).depth == d && (k == |t| ==> After(Reading(d, m), t) == Reading(d, InString))
    decreases |t|
  {
    assert t[..|t|] == t;
    if t != "" {
      var n := if Unescaped(t[0]) && Characters(t[1..]) then 1
               else if |t| >= 2 && t[0] == '\\' && t[1] in {'"', '\\', '/', 'b', 'f', 'n', 'r', 't'} && Characters(t[2..]) then 2
               else 6;
      Chunk(d, t[..n]);
      if k < n {
        assert t[..n][..k] == t[..k];
      } else {
        DepthInString(d, InString, t[n..], k - n);
        assert t[..k] == t[..n] + t[n..][..k - n];
        assert t == t[..n] + t[n..];
        AfterConcat(Reading(d, InString), t[..n], t[n..][..k - n]);
        AfterConcat(Reading(d, InString), t[..n], t[n..]);
      }
    }
  }

  /** One character of a string, or one escape. */
  lemma Chunk(d: int, s: string)
    requires (|s| == 1 && Unescaped(s[0])) || (|s| == 2 && s[0] == '\\') || (|s| == 6 && s[0] == '\\' && s[1] == 'u' && FourHex(s[2..6]))
    ensures After(Reading(d, InString), s) == Reading(d, InString)
    ensures forall k | 0 <= k <= |s| :: After(Reading(d, InString), s[..k]).depth == d
  {
    forall k | 0 <= k <= |s| ensures After(Reading(d, InString), s[..k]) == Reading(d, if k == 1 && s[0] == '\\' then Escaped else InString) {
      ChunkPrefix(d, s, k);
    }
    assert s[..|s|] == s;
  }

  lemma {:induction false} ChunkPrefix(d: int, s: string, k: nat)
    requires k <= |s|
    requires (|s| == 1 && Unescaped(s[0])) || (|s| == 2 && s[0] == '\\') || (|s| == 6 && s[0] == '\\' && s[1] == 'u' && FourHex(s[2..6]))
    ensures After(Reading(d, InString), s[..k]) == Reading(d, if k == 1 && s[0] == '\\' then Escaped else InString)
  {
    if k > 0 {
      ChunkPrefix(d, s, k - 1);
      assert s[..k][..k - 1] == s[..k - 1];
      if k > 2 {
        assert s[k - 1] == s[2..6][k - 3];
      }
    }
  }

  lemma StringIsNeutral(s: string)
    requires JsonString(s)
    ensures Neutral(s)
  {
    var t := s[1..|s| - 1];
    assert s == "\"" + t + "\"";
    forall d: int | d >= 1 ensures Keeps(d, s) {
      var at := Reading(d, Plain);
      One(at, '"');
      One(Reading(d, InString), '"');
      forall k | 0 <= k <= |t| ensures After(Reading(d, InString), t[..k]).depth >= 1 {
        DepthInString(d, InString, t, k);
      }
      DepthInString(d, InString, t, |t|);
      AfterConcat(at, "\"", t);
      AfterConcat(at, "\"" + t, "\"");
      InsideConcat(at, "\"", t);
      InsideConcat(at, "\"" + t, "\"");
    }
  }

  lemma One(at: Reading, c: char)
    ensures After(at, [c]) == Read1(at, c)
    ensures at.depth >= 1 && Read1(at, c).depth >= 1 ==> Inside(at, [c])
  {
    assert [c][..0] == "" && [c][..1] == [c];
    assert After(at, [c]) == Read1(After(at, ""), c);
  }

  lemma IntegerIsNeutral(s: string)
    requires JsonInteger(s)
    ensures Neutral(s)
  {
    var u := if Unsigned(s) then s else s[1..];
    assert Dull(u) by {
      if u != "0" {
        forall k | 0 <= k < |u| ensures u[k] in DIGITS {
          if k > 0 { assert u[k] == u[1..][k - 1]; }
        }
      }
    }
    forall k | 0 <= k < |s| ensures s[k] !in {'"', '{', '}'} {
      if u == s { assert s[k] == u[k]; } else if k > 0 { assert s[k] == u[k - 1]; }
    }
    DullIsNeutral(s);
  }

  lemma {:induction false} SeparatedIsNeutral(one: string -> bool, s: string)
    requires Separated(one, s) && forall m | one(m) :: Neutral(m)
    ensures Neutral(s)
    decreases |s|
  {
    hide Neutral;
    if !one(s) {
      var m, a, b, rest :| |rest| < |s| && FirstOf(one, s, m, a, b, rest) && Separated(one, rest);
      SeparatedIsNeutral(one, rest);
      DullIsNeutral(a);
      DullIsNeutral(",");
      DullIsNeutral(b);
      NeutralConcat(m, a);
      NeutralConcat(m + a, ",");
      NeutralConcat(m + a + ",", b);
      NeutralConcat(m + a + "," + b, rest);
    }
  }

  /** What stands between the brackets or braces. */
  lemma EnclosedIsNeutral(open: string, close: string, one: string -> bool, s: string) returns (body: string)
    requires Enclosed(open, close, one, s) && forall m | one(m) :: Neutral(m)
    ensures s == open + body + close && Neutral(body)
  {
    hide Neutral;
    var a, list, b :| EnclosedParts(open, close, one, s, a, list, b);
    DullIsNeutral(a);
    DullIsNeutral(b);
    if list == "" {
      DullIsNeutral(list);
    } else {
      SeparatedIsNeutral(one, list);
    }
    NeutralConcat(a, list);
    NeutralConcat(a + list, b);
    body := a + list + b;
    assert s == open + body + close;
  }

  lemma MemberIsNeutral(value: string -> bool, s: string)
    requires MemberOf(value, s) && forall v | value(v) :: Neutral(v)
    ensures Neutral(s)
  {
    hide Neutral, JsonString;
    var name, a, b, v :| MemberOfParts(value, s, name, a, b, v);
    StringIsNeutral(name);
    DullIsNeutral(a);
    DullIsNeutral(":");
    DullIsNeutral(b);
    NeutralConcat(name, a);
    NeutralConcat(name + a, ":");
    NeutralConcat(name + a + ":", b);
    NeutralConcat(name + a + ":" + b, v);
  }

  /** Every value a tool's argument may have. */
  lemma ArgumentIsNeutral(v: string)
    requires ArgumentValue(v)
    ensures Neutral(v)
  {
    hide Neutral, JsonString;
    if JsonString(v) {
      StringIsNeutral(v);
    } else if JsonInteger(v) {
      IntegerIsNeutral(v);
    } else {
      forall m | JsonString(m) ensures Neutral(m) { StringIsNeutral(m); }
      var body := EnclosedIsNeutral("[", "]", (m: string) => JsonString(m), v);
      DullIsNeutral("[");
      DullIsNeutral("]");
      NeutralConcat("[", body);
      NeutralConcat("[" + body, "]");
    }
  }

  /** A JSON object, whatever its strings hold, is closed by its own last brace and by
      nothing before it; so is one inside another. */
  lemma ObjectEndsAtItsBrace(value: string -> bool, before: string, t: string, rest: string)
    requires JsonObject(value, t) && forall v | value(v) :: Neutral(v)
    ensures EndsAt(before + t + rest, |before|, Some(|before| + |t|))
    ensures Neutral(t)
  {
    hide Neutral, Inside, After;
    forall m | MemberOf(value, m) ensures Neutral(m) { MemberIsNeutral(value, m); }
    var body := EnclosedIsNeutral("{", "}", (m: string) => MemberOf(value, m), t);
    BracedIsNeutral(body);
    BracedEnds(before, body, rest);
  }

  lemma BracedIsNeutral(body: string)
    requires Neutral(body)
    ensures Neutral("{" + body + "}")
  {
    hide Inside, After;
    forall d: int | d >= 1 ensures Keeps(d, "{" + body + "}") {
      var at := Reading(d, Plain);
      assert Keeps(d + 1, body);
      One(at, '{');
      One(Reading(d + 1, Plain), '}');
      AfterConcat(at, "{", body);
      AfterConcat(at, "{" + body, "}");
      InsideConcat(at, "{", body);
      InsideConcat(at, "{" + body, "}");
    }
  }

  lemma BracedEnds(before: string, body: string, rest: string)
    requires Neutral(body)
    ensures EndsAt(before + ("{" + body + "}") + rest, |before|, Some(|before| + |body| + 2))
  {
    hide After;
    var text, start, end := before + ("{" + body + "}") + rest, |before|, |before| + |body| + 2;
    assert Keeps(1, body);
    One(OUTSIDE, '{');
    AfterConcat(OUTSIDE, "{", body);
    assert text[start..end - 1] == "{" + body;
    forall k | 0 <= k < end ensures !ClosesAt(text, start, k) {
      if k > start && text[k - 1] == '}' && After(OUTSIDE, text[start..k - 1]) == Reading(1, Plain) {
        AfterOneMore(text, start, k - 1);
        assert text[start..k] == "{" + body[..k - start - 1];
        AfterConcat(OUTSIDE, "{", body[..k - start - 1]);
        assert false;
      }
    }
  }
}
