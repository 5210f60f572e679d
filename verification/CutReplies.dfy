/** Replies the grammar compels and the page cuts: two arguments that do it, each in a call
    of a tool with one text property. */
module CutReplies {
  import opened Gbnf
  import opened Avoidance
  import opened ObjectText
  import opened Values
  import opened Grammar
  import opened Reply
  import opened Thinking
  import opened ReadBack

  /** A tool named `t` whose one property, `a`, is a text. */
  function Sample(): Tool {
    Tool("t", Schema([("a", TextType)], {"a"}))
  }

  function SampleArguments(value: string): string {
    "{\"a\":\"" + value + "\"}"
  }

  function SampleCall(value: string): string {
    "{\"name\":\"t\",\"arguments\":" + SampleArguments(value) + "}"
  }

  function SampleReply(value: string): string {
    TRIGGER + "\n" + SampleCall(value) + "\n```"
  }

  /** The grammar of that tool can be compiled, so what follows is about something. */
  method CompileSample() returns (g: Rules)
    ensures Compiled(g, [Sample()])
  {
    assert InScope(Sample().schema);
    var r := Compile([Sample()]);
    g := r.value;
  }

  lemma SampleArgumentsAreAllowed(g: Rules, value: string)
    requires Compiled(g, [Sample()]) && StrictCharacters(value)
    ensures InScope(Sample().schema)
    ensures ObjectParts(g, PropsOf(Sample().schema), SampleArguments(value), "", "\"a\":\"" + value + "\"", "")
  {
    hide Generates, HasObject, Avoids, CallRefs, Braced, StrictCharacters, Body, ListText, SampleArguments, StringExpr;
    SampleText(g, value);
    var props, v := PropsOf(Sample().schema), "\"" + value + "\"";
    var p := props[0];
    var member := "\"a\":\"" + value + "\"";
    assert Quoted("a") == "\"a\"";
    assert member == Quoted("a") + "" + ":" + "" + v;
    assert MemberParts(g, p, member, "", "", v);
    OneMemberList(g, props, member);
    SampleSpelled(value);
    assert SampleArguments(value) == "{" + "" + member + "" + "}";
  }

  lemma SampleSpelled(value: string)
    ensures SampleArguments(value) == "{" + "" + ("\"a\":\"" + value + "\"") + "" + "}"
  {
  }

  /** The sample's one property is written by the string rule, which writes the value. */
  lemma SampleText(g: Rules, value: string)
    requires Compiled(g, [Sample()]) && StrictCharacters(value)
    ensures InScope(Sample().schema) && PropsOf(Sample().schema) == [Property("a", StringRule, true)]
    ensures Generates(g, Ref(StringRule), "\"" + value + "\"")
  {
    hide Generates, HasObject, Avoids, CallRefs, Braced, StrictCharacters;
    var tool := [Sample()][0];
    assert ToolCompiled(g, tool);
    var props, v := PropsOf(tool.schema), "\"" + value + "\"";
    assert props[0] in props && props[0] == Property("a", StringRule, true);
    assert v[1..|v| - 1] == value;
    OfRef(g, StringRule, v);
    OfString(g, v);
  }

  lemma OneMemberList(g: Rules, props: seq<Property>, member: string)
    requires |props| == 1 && IsMember(g, props[0], member)
    ensures ListText(g, props, 0, true, member)
  {
    hide IsMember;
    var pieces := [member];
    assert pieces[1..] == [] && Joined(pieces) == member + Joined([]);
    assert Listing(g, props, 0, true, member, [0], pieces);
  }

  lemma SampleIsACall(g: Rules, value: string)
    requires Compiled(g, [Sample()]) && StrictCharacters(value)
    ensures IsCall(g, [Sample()], SampleCall(value))
  {
    hide Compiled, ObjectParts, StrictCharacters, PropsOf, SampleArguments, CallParts;
    SampleArgumentsAreAllowed(g, value);
    var tools, arguments := [Sample()], SampleArguments(value);
    var body := "\"name\":\"t\",\"arguments\":" + arguments;
    SampleBody(g, value, arguments);
    assert IsCallOf(g, tools[0], body);
    assert SampleCall(value) == "{" + "" + body + "" + "}";
    assert IsCallWith(g, tools, SampleCall(value), "", body, "", 0);
  }

  lemma SampleBody(g: Rules, value: string, arguments: string)
    requires InScope(Sample().schema)
    requires ObjectParts(g, PropsOf(Sample().schema), arguments, "", "\"a\":\"" + value + "\"", "")
    ensures CallParts(g, Sample(), "\"name\":\"t\",\"arguments\":" + arguments, "", "", "", arguments)
  {
    hide ObjectParts, PropsOf, InScope;
    var body := "\"name\":\"t\",\"arguments\":" + arguments;
    assert Quoted("t") == "\"t\"";
    assert "\"name\"" + ":" + "" + Quoted("t") + "," + "" + "\"arguments\"" + ":" + "" == "\"name\":\"t\",\"arguments\":";
    assert body == "\"name\"" + ":" + "" + Quoted("t") + "," + "" + "\"arguments\"" + ":" + "" + arguments;
  }

  /** For every text without a quote or an escape, the sample reply is one the grammar
      compels, and its prose, which is empty, opens nothing. */
  lemma SampleIsCompelled(g: Rules, value: string)
    requires Compiled(g, [Sample()]) && StrictCharacters(value)
    ensures Calls(g, [Sample()], SampleReply(value), |TRIGGER|, SampleCall(value))
    ensures O.NothingOpens(SampleReply(value), 0, 0)
  {
    hide Compiled, IsCall, StrictCharacters, SampleCall;
    SampleIsACall(g, value);
    var s, k := SampleReply(value), |TRIGGER|;
    assert s == TRIGGER + ("\n" + SampleCall(value) + "\n```");
    assert s[..k] == TRIGGER && s[k..] == "\n" + SampleCall(value) + "\n```";
    TriggerIsNulFree();
  }

  /** Where a pattern stands, its characters are the text's. */
  lemma CharacterOf(p: string, s: string, a: int, k: nat)
    requires k < |p|
    ensures At(p, s, a) ==> 0 <= a + k < |s| && s[a + k] == p[k]
  {
    if At(p, s, a) {
      assert s[a..a + |p|][k] == s[a + k];
    }
  }

  /** A fence in an argument: the page ends the call there. */
  lemma AFenceIsCut(g: Rules, reader: S.Reader, ran: seq<S.Call>)
    requires Compiled(g, [Sample()])
    ensures var s := SampleReply("```");
            Calls(g, [Sample()], s, |TRIGGER|, SampleCall("```"))
            && S.DrawnReply(reader, ran, s) != DrawnWhole(reader, ran, [], s, 0, 0, SampleCall("```"))
  {
    hide Compiled, Calls, SampleReply, SampleCall, StrictCharacters;
    PlainIsStrict("```");
    SampleIsCompelled(g, "```");
    Holds("```");
    assert Occurs("```", SampleCall("```"));
    CompelledReplyIsDrawn(g, [Sample()], SampleReply("```"), |TRIGGER|, SampleCall("```"), reader, ran);
  }

  /** The tag of a thought in an argument, and no fence: the page ends the answer there. */
  lemma AThinkTagIsCut(g: Rules, reader: S.Reader, ran: seq<S.Call>)
    requires Compiled(g, [Sample()])
    ensures var s := SampleReply(OPEN);
            Calls(g, [Sample()], s, |TRIGGER|, SampleCall(OPEN)) && !Occurs("```", SampleCall(OPEN))
            && S.DrawnReply(reader, ran, s) != DrawnWhole(reader, ran, [], s, 0, 0, SampleCall(OPEN))
  {
    hide Compiled, Calls, SampleReply, SampleCall, StrictCharacters;
    PlainIsStrict(OPEN);
    SampleIsCompelled(g, OPEN);
    Holds(OPEN);
    assert '`' !in SampleCall(OPEN) by { NoTicks(); }
    NoFenceWithoutTicks(SampleCall(OPEN));
    CompelledReplyIsDrawn(g, [Sample()], SampleReply(OPEN), |TRIGGER|, SampleCall(OPEN), reader, ran);
  }

  lemma Holds(value: string)
    ensures Occurs(value, SampleCall(value)) && Occurs(value, SampleReply(value))
  {
    var call, s := SampleCall(value), SampleReply(value);
    var before := "{\"name\":\"t\",\"arguments\":{\"a\":\"";
    assert call == before + value + "\"}}";
    assert call[|before|..|before| + |value|] == value;
    assert At(value, call, |before|);
    var opening := TRIGGER + "\n" + before;
    assert s == opening + value + "\"}}\n```";
    assert s[|opening|..|opening| + |value|] == value;
    assert At(value, s, |opening|);
  }

  lemma NoTicks()
    ensures '`' !in SampleCall(OPEN)
  {
    assert '`' !in "{\"name\":\"t\",\"arguments\":" && '`' !in "{\"a\":\"" && '`' !in OPEN && '`' !in "\"}";
  }

  lemma NoFenceWithoutTicks(call: string)
    requires '`' !in call
    ensures !Occurs("```", call)
  {
    forall a ensures !At("```", call, a) {
      CharacterOf("```", call, a, 0);
    }
  }

  lemma {:induction false} PlainIsStrict(t: string)
    requires forall c | c in t :: c !in UNPLAIN
    ensures StrictCharacters(t)
  {
    if t != "" {
      PlainIsStrict(t[1..]);
    }
  }
}
