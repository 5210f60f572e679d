/** Ordered objects with optional keys: the head/tail rules, the texts they generate, and
    what makes those texts JSON objects. */
module ObjectText {
  import opened Conversation
  import opened Gbnf

  /** A property as it is compiled: its key, the rule of its value, and whether it must appear. */
  datatype Property = Property(key: string, rule: RuleName, required: bool)

  const SPACES: set<char> := {' ', '\t', '\n'}

  predicate Spaces(s: string) {
    forall k | 0 <= k < |s| :: s[k] in SPACES
  }

  function Quoted(key: string): string {
    "\"" + key + "\""
  }

  // ------------------------------------------------------------------------------ the rules

  function WsExpr(): Expr {
    Star(OneOf(SPACES))
  }

  /** `"key" ws ":" ws value`. */
  function MemberExpr(p: Property): Expr {
    Cat(Lit(Quoted(p.key)), Cat(Ref(Ws), Cat(Lit(":"), Cat(Ref(Ws), Ref(p.rule)))))
  }

  /** The same, given something came before it. */
  function FollowExpr(p: Property): Expr {
    Cat(Lit(","), Cat(Ref(Ws), MemberExpr(p)))
  }

  function TailRef(tool: string, n: nat, i: nat): Expr {
    Ref(if i < n then ArgumentsTail(tool, i) else Empty)
  }

  function HeadRef(tool: string, n: nat, i: nat): Expr {
    Ref(if i < n then ArgumentsHead(tool, i) else Empty)
  }

  /** The members from property `i` on, after at least one other. */
  function TailExpr(tool: string, props: seq<Property>, i: nat): Expr
    requires i < |props|
  {
    var follow, next := FollowExpr(props[i]), TailRef(tool, |props|, i + 1);
    if props[i].required then Cat(follow, next) else Cat(Opt(follow), next)
  }

  /** The same, given nothing has. */
  function HeadExpr(tool: string, props: seq<Property>, i: nat): Expr
    requires i < |props|
  {
    var taken := Cat(MemberExpr(props[i]), TailRef(tool, |props|, i + 1));
    if props[i].required then taken else Choice([taken, HeadRef(tool, |props|, i + 1)])
  }

  /** `"{" ws inner ws "}"`. */
  function Braced(inner: Expr): Expr {
    Cat(Lit("{"), Cat(Ref(Ws), Cat(inner, Cat(Ref(Ws), Lit("}")))))
  }

  function ObjectExpr(tool: string, n: nat): Expr {
    Braced(HeadRef(tool, n, 0))
  }

  /** The grammar holds every rule of this object. */
  predicate HasObject(g: Rules, tool: string, props: seq<Property>) {
    && Body(g, Ws) == Some(WsExpr()) && Body(g, Empty) == Some(Lit(""))
    && (forall i | 0 <= i < |props| :: Body(g, ArgumentsTail(tool, i)) == Some(TailExpr(tool, props, i)))
    && (forall i | 0 <= i < |props| :: Body(g, ArgumentsHead(tool, i)) == Some(HeadExpr(tool, props, i)))
    && Body(g, Arguments(tool)) == Some(ObjectExpr(tool, |props|))
  }

  // ------------------------------------------------------------------------------ the texts

  ghost predicate IsMember(g: Rules, p: Property, s: string) {
    exists a, b, v :: MemberParts(g, p, s, a, b, v)
  }

  ghost predicate MemberParts(g: Rules, p: Property, s: string, a: string, b: string, v: string) {
    s == Quoted(p.key) + a + ":" + b + v && Spaces(a) && Spaces(b) && Generates(g, Ref(p.rule), v)
  }

  ghost predicate IsFollow(g: Rules, p: Property, s: string) {
    exists a, m :: FollowParts(g, p, s, a, m)
  }

  ghost predicate FollowParts(g: Rules, p: Property, s: string, a: string, m: string) {
    s == "," + a + m && Spaces(a) && IsMember(g, p, m)
  }

  function Joined(pieces: seq<string>): string {
    if pieces == [] then "" else pieces[0] + Joined(pieces[1..])
  }

  /** An in-order subset of the properties from `from` on, holding every required one. */
  ghost predicate Selects(props: seq<Property>, from: nat, chosen: seq<nat>) {
    && (forall j | 0 <= j < |chosen| :: from <= chosen[j] < |props|)
    && (forall j, k | 0 <= j < k < |chosen| :: chosen[j] < chosen[k])
    && (forall i | from <= i < |props| && props[i].required :: i in chosen)
  }

  /** One piece per chosen property: a member, after a comma unless it leads. */
  ghost predicate Spells(g: Rules, props: seq<Property>, chosen: seq<nat>, pieces: seq<string>, leads: bool) {
    && |pieces| == |chosen|
    && forall j | 0 <= j < |chosen| :: chosen[j] < |props|
         && if leads && j == 0 then IsMember(g, props[chosen[j]], pieces[j]) else IsFollow(g, props[chosen[j]], pieces[j])
  }

  ghost predicate Listing(g: Rules, props: seq<Property>, from: nat, leads: bool, s: string,
                          chosen: seq<nat>, pieces: seq<string>)
  {
    Selects(props, from, chosen) && Spells(g, props, chosen, pieces, leads) && s == Joined(pieces)
  }

  /** The key/value list of an object from property `from` on. */
  ghost predicate ListText(g: Rules, props: seq<Property>, from: nat, leads: bool, s: string) {
    exists chosen, pieces :: Listing(g, props, from, leads, s, chosen, pieces)
  }

  ghost predicate ObjectParts(g: Rules, props: seq<Property>, s: string, a: string, list: string, b: string) {
    s == "{" + a + list + b + "}" && Spaces(a) && Spaces(b) && ListText(g, props, 0, true, list)
  }

  // ---------------------------------------------------------------------- small rules, exactly

  lemma {:induction false} OfSpaces(g: Rules, s: string)
    ensures Generates(g, WsExpr(), s) <==> Spaces(s)
  {
    OfStar(g, OneOf(SPACES), s);
    if s != "" {
      forall k | 0 < k <= |s| ensures Generates(g, OneOf(SPACES), s[..k]) <==> k == 1 && s[0] in SPACES {
        OfOneOf(g, SPACES, s[..k]);
      }
      OfSpaces(g, s[1..]);
      assert s == [s[0]] + s[1..];
      if Spaces(s) {
        assert Splits(g, OneOf(SPACES), WsExpr(), s, 1);
      }
      if k :| 0 < k && Splits(g, OneOf(SPACES), WsExpr(), s, k) {
        assert k == 1;
      }
    }
  }

  lemma OfWs(g: Rules, s: string)
    requires Body(g, Ws) == Some(WsExpr())
    ensures Generates(g, Ref(Ws), s) <==> Spaces(s)
  {
    OfRef(g, Ws, s);
    OfSpaces(g, s);
  }

  lemma OfMember(g: Rules, p: Property, s: string)
    requires Body(g, Ws) == Some(WsExpr())
    ensures Generates(g, MemberExpr(p), s) <==> IsMember(g, p, s)
  {
    hide Generates;
    var afterColon := Cat(Ref(Ws), Ref(p.rule));
    var afterKey := Cat(Ref(Ws), Cat(Lit(":"), afterColon));
    if Generates(g, MemberExpr(p), s) {
      var rest := LitSplits(g, Quoted(p.key), afterKey, s);
      var a, r1 := CatSplits(g, Ref(Ws), Cat(Lit(":"), afterColon), rest);
      var r2 := LitSplits(g, ":", afterColon, r1);
      var b, v := CatSplits(g, Ref(Ws), Ref(p.rule), r2);
      OfWs(g, a);
      OfWs(g, b);
      assert s == Quoted(p.key) + a + ":" + b + v;
      assert MemberParts(g, p, s, a, b, v);
    }
    if a, b, v :| MemberParts(g, p, s, a, b, v) {
      OfWs(g, a);
      OfWs(g, b);
      CatJoins(g, Ref(Ws), Ref(p.rule), b, v);
      LitJoins(g, ":", afterColon, b + v);
      CatJoins(g, Ref(Ws), Cat(Lit(":"), afterColon), a, ":" + (b + v));
      LitJoins(g, Quoted(p.key), afterKey, a + (":" + (b + v)));
      assert s == Quoted(p.key) + (a + (":" + (b + v)));
    }
  }

  lemma OfFollow(g: Rules, p: Property, s: string)
    requires Body(g, Ws) == Some(WsExpr())
    ensures Generates(g, FollowExpr(p), s) <==> IsFollow(g, p, s)
  {
    hide Generates, MemberExpr;
    if Generates(g, FollowExpr(p), s) {
      var rest := LitSplits(g, ",", Cat(Ref(Ws), MemberExpr(p)), s);
      var a, m := CatSplits(g, Ref(Ws), MemberExpr(p), rest);
      OfWs(g, a);
      OfMember(g, p, m);
      assert s == "," + a + m;
      assert FollowParts(g, p, s, a, m);
    }
    if a, m :| FollowParts(g, p, s, a, m) {
      OfWs(g, a);
      OfMember(g, p, m);
      CatJoins(g, Ref(Ws), MemberExpr(p), a, m);
      LitJoins(g, ",", Cat(Ref(Ws), MemberExpr(p)), a + m);
      assert s == "," + (a + m);
    }
  }

  // ------------------------------------------------------------------- one property at a time

  lemma NothingLeft(g: Rules, props: seq<Property>, leads: bool, s: string)
    ensures ListText(g, props, |props|, leads, s) <==> s == ""
  {
    if s == "" {
      assert Listing(g, props, |props|, leads, s, [], []);
    }
    if chosen, pieces :| Listing(g, props, |props|, leads, s, chosen, pieces) {
      assert chosen == [];
    }
  }

  /** What a leading piece is. */
  ghost predicate IsPiece(g: Rules, p: Property, leads: bool, s: string) {
    if leads then IsMember(g, p, s) else IsFollow(g, p, s)
  }

  ghost predicate Taken(g: Rules, props: seq<Property>, i: nat, leads: bool, s: string, k: int)
    requires i < |props|
  {
    0 <= k <= |s| && IsPiece(g, props[i], leads, s[..k]) && ListText(g, props, i + 1, false, s[k..])
  }

  lemma SelectsOneMore(props: seq<Property>, i: nat, chosen: seq<nat>)
    requires i < |props| && Selects(props, i + 1, chosen)
    ensures Selects(props, i, [i] + chosen)
  {
    var all := [i] + chosen;
    forall j | 0 <= j < |all| ensures i <= all[j] < |props| {
      assert j == 0 || all[j] == chosen[j - 1];
    }
    forall j, k | 0 <= j < k < |all| ensures all[j] < all[k] {
      assert all[k] == chosen[k - 1] >= i + 1;
      assert j == 0 || all[j] == chosen[j - 1];
    }
    assert forall r :: r in all <==> r == i || r in chosen;
  }

  lemma SpellsOneMore(g: Rules, props: seq<Property>, i: nat, chosen: seq<nat>, leads: bool, first: string, pieces: seq<string>)
    requires i < |props| && Spells(g, props, chosen, pieces, false) && IsPiece(g, props[i], leads, first)
    ensures Spells(g, props, [i] + chosen, [first] + pieces, leads)
  {
    hide IsMember, IsFollow;
    var all, spelled := [i] + chosen, [first] + pieces;
    forall j | 0 <= j < |all|
      ensures all[j] < |props|
      ensures if leads && j == 0 then IsMember(g, props[all[j]], spelled[j]) else IsFollow(g, props[all[j]], spelled[j])
    {
      if j > 0 { assert spelled[j] == pieces[j - 1] && all[j] == chosen[j - 1]; }
    }
  }

  lemma TakeOne(g: Rules, props: seq<Property>, i: nat, leads: bool, s: string, k: int)
    requires i < |props| && Taken(g, props, i, leads, s, k)
    ensures ListText(g, props, i, leads, s)
  {
    hide Selects, Spells, IsPiece;
    var chosen, pieces :| Listing(g, props, i + 1, false, s[k..], chosen, pieces);
    SelectsOneMore(props, i, chosen);
    SpellsOneMore(g, props, i, chosen, leads, s[..k], pieces);
    assert ([s[..k]] + pieces)[1..] == pieces;
    assert s == s[..k] + s[k..];
    assert Listing(g, props, i, leads, s, [i] + chosen, [s[..k]] + pieces);
  }

  lemma SkipOne(g: Rules, props: seq<Property>, i: nat, leads: bool, s: string)
    requires i < |props| && !props[i].required && ListText(g, props, i + 1, leads, s)
    ensures ListText(g, props, i, leads, s)
  {
    var chosen, pieces :| Listing(g, props, i + 1, leads, s, chosen, pieces);
    assert Listing(g, props, i, leads, s, chosen, pieces);
  }

  /** Property `i` leads the list, or is optional and left out. */
  lemma TakeOrSkip(g: Rules, props: seq<Property>, i: nat, leads: bool, s: string)
    requires i < |props|
    ensures ListText(g, props, i, leads, s)
      <==> (exists k :: Taken(g, props, i, leads, s, k)) || (!props[i].required && ListText(g, props, i + 1, leads, s))
  {
    if ListText(g, props, i, leads, s) {
      var chosen, pieces :| Listing(g, props, i, leads, s, chosen, pieces);
      if chosen != [] && chosen[0] == i {
        var k := |pieces[0]|;
        assert s[..k] == pieces[0] && s[k..] == Joined(pieces[1..]);
        forall r | i + 1 <= r < |props| && props[r].required ensures r in chosen[1..] {
          assert r in chosen;
        }
        assert Listing(g, props, i + 1, false, s[k..], chosen[1..], pieces[1..]);
        assert Taken(g, props, i, leads, s, k);
      } else {
        forall j | 0 <= j < |chosen| ensures i + 1 <= chosen[j] {
          if j > 0 { assert chosen[0] < chosen[j]; }
        }
        assert Listing(g, props, i + 1, leads, s, chosen, pieces);
      }
    }
    if k :| Taken(g, props, i, leads, s, k) {
      TakeOne(g, props, i, leads, s, k);
    }
    if !props[i].required && ListText(g, props, i + 1, leads, s) {
      SkipOne(g, props, i, leads, s);
    }
  }

  lemma {:induction false} OfTail(g: Rules, tool: string, props: seq<Property>, i: nat, s: string)
    requires HasObject(g, tool, props) && i <= |props|
    ensures Generates(g, TailRef(tool, |props|, i), s) <==> ListText(g, props, i, false, s)
    decreases |props| - i
  {
    if i == |props| {
      OfRef(g, Empty, s);
      OfLit(g, "", s);
      NothingLeft(g, props, false, s);
    } else {
      var p, follow, next := props[i], FollowExpr(props[i]), TailRef(tool, |props|, i + 1);
      OfRef(g, ArgumentsTail(tool, i), s);
      TakeOrSkip(g, props, i, false, s);
      var first := if p.required then follow else Opt(follow);
      OfCat(g, first, next, s);
      forall k | 0 <= k <= |s|
        ensures Generates(g, next, s[k..]) <==> ListText(g, props, i + 1, false, s[k..])
        ensures Generates(g, follow, s[..k]) <==> IsFollow(g, p, s[..k])
        ensures Generates(g, Opt(follow), s[..k]) <==> k == 0 || IsFollow(g, p, s[..k])
      {
        OfTail(g, tool, props, i + 1, s[k..]);
        OfFollow(g, p, s[..k]);
        OfOpt(g, follow, s[..k]);
      }
      assert s[0..] == s;
      if k :| Taken(g, props, i, false, s, k) {
        assert Splits(g, first, next, s, k);
      }
      if !p.required && ListText(g, props, i + 1, false, s) {
        assert Splits(g, first, next, s, 0);
      }
      if k :| Splits(g, first, next, s, k) {
        if IsFollow(g, p, s[..k]) { assert Taken(g, props, i, false, s, k); }
      }
    }
  }

  lemma {:induction false} OfHead(g: Rules, tool: string, props: seq<Property>, i: nat, s: string)
    requires HasObject(g, tool, props) && i <= |props|
    ensures Generates(g, HeadRef(tool, |props|, i), s) <==> ListText(g, props, i, true, s)
    decreases |props| - i
  {
    hide Generates, ListText, IsMember, IsFollow, MemberExpr, FollowExpr;
    if i == |props| {
      OfRef(g, Empty, s);
      OfLit(g, "", s);
      NothingLeft(g, props, true, s);
    } else {
      var p, next := props[i], TailRef(tool, |props|, i + 1);
      var taken, skip := Cat(MemberExpr(p), next), HeadRef(tool, |props|, i + 1);
      OfRef(g, ArgumentsHead(tool, i), s);
      TakeOrSkip(g, props, i, true, s);
      OfCat(g, MemberExpr(p), next, s);
      forall k | 0 <= k <= |s| ensures Splits(g, MemberExpr(p), next, s, k) <==> Taken(g, props, i, true, s, k) {
        OfTail(g, tool, props, i + 1, s[k..]);
        OfMember(g, p, s[..k]);
      }
      OfHead(g, tool, props, i + 1, s);
      OfChoice(g, [taken, skip], s);
      assert [taken, skip][0] == taken && [taken, skip][1] == skip;
      if k :| Taken(g, props, i, true, s, k) {
        assert Splits(g, MemberExpr(p), next, s, k);
      }
    }
  }

  ghost predicate BraceParts(g: Rules, inner: Expr, s: string, a: string, body: string, b: string) {
    s == "{" + a + body + b + "}" && Spaces(a) && Spaces(b) && Generates(g, inner, body)
  }

  lemma BracedSplits(g: Rules, inner: Expr, s: string) returns (a: string, body: string, b: string)
    requires Body(g, Ws) == Some(WsExpr()) && Generates(g, Braced(inner), s)
    ensures BraceParts(g, inner, s, a, body, b)
  {
    hide Generates;
    var rest := LitSplits(g, "{", Cat(Ref(Ws), Cat(inner, Cat(Ref(Ws), Lit("}")))), s);
    var r1, r2, brace;
    a, r1 := CatSplits(g, Ref(Ws), Cat(inner, Cat(Ref(Ws), Lit("}"))), rest);
    body, r2 := CatSplits(g, inner, Cat(Ref(Ws), Lit("}")), r1);
    b, brace := CatSplits(g, Ref(Ws), Lit("}"), r2);
    OfWs(g, a);
    OfWs(g, b);
    OfLit(g, "}", brace);
    assert "{" + (a + (body + (b + "}"))) == "{" + a + body + b + "}";
  }

  lemma BracedJoins(g: Rules, inner: Expr, s: string, a: string, body: string, b: string)
    requires Body(g, Ws) == Some(WsExpr()) && BraceParts(g, inner, s, a, body, b)
    ensures Generates(g, Braced(inner), s)
  {
    hide Generates;
    OfWs(g, a);
    OfWs(g, b);
    OfLit(g, "}", "}");
    CatJoins(g, Ref(Ws), Lit("}"), b, "}");
    CatJoins(g, inner, Cat(Ref(Ws), Lit("}")), body, b + "}");
    CatJoins(g, Ref(Ws), Cat(inner, Cat(Ref(Ws), Lit("}"))), a, body + (b + "}"));
    LitJoins(g, "{", Cat(Ref(Ws), Cat(inner, Cat(Ref(Ws), Lit("}")))), a + (body + (b + "}")));
    assert "{" + (a + (body + (b + "}"))) == "{" + a + body + b + "}";
  }

  /** The object rule generates exactly the texts whose keys are an in-order subset of the
      properties holding every required one, with a comma between two and nowhere else. */
  lemma ObjectRuleGenerates(g: Rules, tool: string, props: seq<Property>, s: string)
    requires HasObject(g, tool, props)
    ensures Generates(g, Ref(Arguments(tool)), s) <==> exists a, list, b :: ObjectParts(g, props, s, a, list, b)
  {
    hide Generates, ListText, HeadRef;
    var head := HeadRef(tool, |props|, 0);
    OfRef(g, Arguments(tool), s);
    if Generates(g, Ref(Arguments(tool)), s) {
      var a, list, b := BracedSplits(g, head, s);
      OfHead(g, tool, props, 0, list);
      assert ObjectParts(g, props, s, a, list, b);
    }
    if a, list, b :| ObjectParts(g, props, s, a, list, b) {
      OfHead(g, tool, props, 0, list);
      BracedJoins(g, head, s, a, list, b);
    }
  }
}
