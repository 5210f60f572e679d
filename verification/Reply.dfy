/** The whole reply grammar: what a constrained model may say. */
module Reply {
  import opened Conversation
  import opened Gbnf
  import opened Avoidance
  import opened ObjectText
  import opened Json
  import opened Values
  import opened Grammar

  /** The parts of one well-formed call. */
  ghost predicate CallParts(g: Rules, tool: Tool, s: string, w1: string, w2: string, w3: string, arguments: string) {
    && s == "\"name\"" + ":" + w1 + Quoted(tool.name) + "," + w2 + "\"arguments\"" + ":" + w3 + arguments
    && Spaces(w1) && Spaces(w2) && Spaces(w3)
    && InScope(tool.schema)
    && exists a, list, b :: ObjectParts(g, PropsOf(tool.schema), arguments, a, list, b)
  }

  ghost predicate IsCallOf(g: Rules, tool: Tool, s: string) {
    exists w1, w2, w3, arguments :: CallParts(g, tool, s, w1, w2, w3, arguments)
  }

  /** `{"name": <a tool>, "arguments": <an object of its schema>}`. */
  ghost predicate IsCall(g: Rules, tools: seq<Tool>, s: string) {
    exists a, body, b, i :: IsCallWith(g, tools, s, a, body, b, i)
  }

  ghost predicate IsCallWith(g: Rules, tools: seq<Tool>, s: string, a: string, body: string, b: string, i: int) {
    0 <= i < |tools| && s == "{" + a + body + b + "}" && Spaces(a) && Spaces(b) && IsCallOf(g, tools[i], body)
  }

  lemma OfCall(g: Rules, tool: Tool, s: string)
    requires ToolCompiled(g, tool) && Body(g, Ws) == Some(WsExpr())
    ensures Generates(g, CallExpr(tool.name), s) <==> IsCallOf(g, tool, s)
  {
    hide Generates, Body, HasObject, InScope, PropsOf, ObjectParts, Spaces;
    var args := Ref(Arguments(tool.name));
    var e8 := Cat(Ref(Ws), args);
    var e7 := Cat(Lit(":"), e8);
    var e6 := Cat(Lit("\"arguments\""), e7);
    var e5 := Cat(Ref(Ws), e6);
    var e4 := Cat(Lit(","), e5);
    var e3 := Cat(Lit(Quoted(tool.name)), e4);
    var e2 := Cat(Ref(Ws), e3);
    var e1 := Cat(Lit(":"), e2);
    assert CallExpr(tool.name) == Cat(Lit("\"name\""), e1);
    if Generates(g, CallExpr(tool.name), s) {
      var r1 := LitSplits(g, "\"name\"", e1, s);
      var r2 := LitSplits(g, ":", e2, r1);
      var w1, r3 := CatSplits(g, Ref(Ws), e3, r2);
      var r4 := LitSplits(g, Quoted(tool.name), e4, r3);
      var r5 := LitSplits(g, ",", e5, r4);
      var w2, r6 := CatSplits(g, Ref(Ws), e6, r5);
      var r7 := LitSplits(g, "\"arguments\"", e7, r6);
      var r8 := LitSplits(g, ":", e8, r7);
      var w3, arguments := CatSplits(g, Ref(Ws), args, r8);
      OfWs(g, w1);
      OfWs(g, w2);
      OfWs(g, w3);
      ObjectRuleGenerates(g, tool.name, PropsOf(tool.schema), arguments);
      CallText(Quoted(tool.name), w1, w2, w3, arguments);
      assert CallParts(g, tool, s, w1, w2, w3, arguments);
    }
    if w1, w2, w3, arguments :| CallParts(g, tool, s, w1, w2, w3, arguments) {
      OfWs(g, w1);
      OfWs(g, w2);
      OfWs(g, w3);
      ObjectRuleGenerates(g, tool.name, PropsOf(tool.schema), arguments);
      CatJoins(g, Ref(Ws), args, w3, arguments);
      LitJoins(g, ":", e8, w3 + arguments);
      LitJoins(g, "\"arguments\"", e7, ":" + (w3 + arguments));
      CatJoins(g, Ref(Ws), e6, w2, "\"arguments\"" + (":" + (w3 + arguments)));
      LitJoins(g, ",", e5, w2 + ("\"arguments\"" + (":" + (w3 + arguments))));
      LitJoins(g, Quoted(tool.name), e4, "," + (w2 + ("\"arguments\"" + (":" + (w3 + arguments)))));
      CatJoins(g, Ref(Ws), e3, w1, Quoted(tool.name) + ("," + (w2 + ("\"arguments\"" + (":" + (w3 + arguments))))));
      LitJoins(g, ":", e2, w1 + (Quoted(tool.name) + ("," + (w2 + ("\"arguments\"" + (":" + (w3 + arguments)))))));
      LitJoins(g, "\"name\"", e1,
               ":" + (w1 + (Quoted(tool.name) + ("," + (w2 + ("\"arguments\"" + (":" + (w3 + arguments))))))));
      CallText(Quoted(tool.name), w1, w2, w3, arguments);
    }
  }

  lemma CallText(name: string, w1: string, w2: string, w3: string, arguments: string)
    ensures "\"name\"" + (":" + (w1 + (name + ("," + (w2 + ("\"arguments\"" + (":" + (w3 + arguments))))))))
         == "\"name\"" + ":" + w1 + name + "," + w2 + "\"arguments\"" + ":" + w3 + arguments
  {
    assert "," + (w2 + ("\"arguments\"" + (":" + (w3 + arguments)))) == "," + w2 + "\"arguments\"" + ":" + w3 + arguments;
    assert w1 + (name + ("," + w2 + "\"arguments\"" + ":" + w3 + arguments))
        == w1 + name + "," + w2 + "\"arguments\"" + ":" + w3 + arguments;
  }

  lemma {:induction false} CallRefMembers(tools: seq<Tool>, e: Expr)
    ensures e in CallRefs(tools) <==> exists i | 0 <= i < |tools| :: e == Ref(Call(tools[i].name))
  {
    if tools != [] {
      var front := tools[..|tools| - 1];
      CallRefMembers(front, e);
      forall i | 0 <= i < |front| ensures front[i] == tools[i] {}
      if i :| 0 <= i < |tools| && e == Ref(Call(tools[i].name)) {
        if i < |front| { assert front[i] == tools[i]; }
      }
    }
  }

  /** One of the tools' calls. */
  lemma OfSomeCall(g: Rules, tools: seq<Tool>, s: string)
    requires Compiled(g, tools)
    ensures Generates(g, Choice(CallRefs(tools)), s) <==> exists i | 0 <= i < |tools| :: IsCallOf(g, tools[i], s)
  {
    OfChoice(g, CallRefs(tools), s);
    hide Generates, Body, HasObject, InScope, PropsOf, CallParts, IsCallOf, SharedSound, Avoids, CallExpr;
    forall i | 0 <= i < |tools| ensures Generates(g, Ref(Call(tools[i].name)), s) <==> IsCallOf(g, tools[i], s) {
      OfRef(g, Call(tools[i].name), s);
      assert ToolCompiled(g, tools[i]);
      OfCall(g, tools[i], s);
    }
    if e :| e in CallRefs(tools) && Generates(g, e, s) {
      CallRefMembers(tools, e);
      var i :| 0 <= i < |tools| && e == Ref(Call(tools[i].name));
      assert IsCallOf(g, tools[i], s);
    }
    if i :| 0 <= i < |tools| && IsCallOf(g, tools[i], s) {
      CallRefMembers(tools, Ref(Call(tools[i].name)));
      assert Ref(Call(tools[i].name)) in CallRefs(tools);
    }
  }

  lemma OfToolCall(g: Rules, tools: seq<Tool>, s: string)
    requires Compiled(g, tools)
    ensures Generates(g, Ref(ToolCallRule), s) <==> IsCall(g, tools, s)
  {
    OfRef(g, ToolCallRule, s);
    hide Generates, IsCallOf, Spaces, Avoids, HasObject, SharedSound, ToolCompiled, CallRefs, Braced;
    var choice := Choice(CallRefs(tools));
    if Generates(g, Ref(ToolCallRule), s) {
      var a, body, b := BracedSplits(g, choice, s);
      OfSomeCall(g, tools, body);
      var i :| 0 <= i < |tools| && IsCallOf(g, tools[i], body);
      assert IsCallWith(g, tools, s, a, body, b, i);
    }
    if a, body, b, i :| IsCallWith(g, tools, s, a, body, b, i) {
      OfSomeCall(g, tools, body);
      BracedJoins(g, choice, s, a, body, b);
    }
  }

  /** What follows the trigger: a newline, a call, and the closing fence. */
  lemma OfCallTail(g: Rules, tools: seq<Tool>, s: string)
    requires Compiled(g, tools)
    ensures Generates(g, Ref(CallTail), s) <==> exists call :: s == "\n" + call + "\n```" && IsCall(g, tools, call)
  {
    OfRef(g, CallTail, s);
    hide Generates, IsCall, Avoids, HasObject, SharedSound, ToolCompiled, CallRefs, Braced;
    var close := Cat(Lit("\n"), Lit("```"));
    var afterLine := Cat(Ref(ToolCallRule), close);
    if Generates(g, Ref(CallTail), s) {
      var rest := LitSplits(g, "\n", afterLine, s);
      var call, r := CatSplits(g, Ref(ToolCallRule), close, rest);
      var fence := LitSplits(g, "\n", Lit("```"), r);
      OfLit(g, "```", fence);
      OfToolCall(g, tools, call);
      assert "\n" + (call + ("\n" + "```")) == "\n" + call + "\n```";
    }
    if call :| s == "\n" + call + "\n```" && IsCall(g, tools, call) {
      OfToolCall(g, tools, call);
      OfLit(g, "```", "```");
      LitJoins(g, "\n", Lit("```"), "```");
      CatJoins(g, Ref(ToolCallRule), close, call, "\n" + "```");
      LitJoins(g, "\n", afterLine, call + ("\n" + "```"));
      assert "\n" + (call + ("\n" + "```")) == "\n" + call + "\n```";
    }
  }

  /** A reply that calls: prose up to and including the first trigger, and then one call
      and its fence, and nothing. */
  ghost predicate Calls(g: Rules, tools: seq<Tool>, s: string, k: int, call: string) {
    && |TRIGGER| <= k <= |s| && NulFree(s[..k])
    && At(TRIGGER, s[..k], k - |TRIGGER|) && !Occurs(TRIGGER, s[..k - 1])
    && s[k..] == "\n" + call + "\n```" && IsCall(g, tools, call)
  }

  lemma HandsOver(g: Rules, tools: seq<Tool>, s: string, k: int)
    requires Compiled(g, tools)
    ensures Hands(g, TRIGGER, CallTail, "", s, k) <==> exists call :: Calls(g, tools, s, k, call)
  {
    hide Generates, IsCall, Compiled, Occurs, NulFree, Matched, At;
    if 0 < k <= |s| {
      assert "" + s[..k] == s[..k] && "" + s[..k - 1] == s[..k - 1];
      MatchedIsAtTheEnd(TRIGGER, s[..k]);
      OfCallTail(g, tools, s[k..]);
      AtFits(TRIGGER, s[..k], k - |TRIGGER|);
      if Hands(g, TRIGGER, CallTail, "", s, k) {
        var call :| s[k..] == "\n" + call + "\n```" && IsCall(g, tools, call);
        assert Calls(g, tools, s, k, call);
      }
      if call :| Calls(g, tools, s, k, call) {
        assert s[k..] == "\n" + call + "\n```" && IsCall(g, tools, call);
      }
    }
  }

  lemma AtFits(p: string, text: string, a: int)
    ensures At(p, text, a) ==> 0 <= a <= |text| - |p|
  {
  }

  /** The language of the compiled grammar: any text without the trigger; or text that runs
      into it, followed by one well-formed call, its closing fence, and the end. */
  lemma ReplyLanguage(g: Rules, tools: seq<Tool>, s: string)
    requires Compiled(g, tools)
    ensures Generates(g, Ref(Root), s)
      <==> (NulFree(s) && !Occurs(TRIGGER, s)) || exists k, call :: Calls(g, tools, s, k, call)
  {
    hide Generates, Avoids, Occurs, NulFree, Hands, Calls, SharedSound, ToolCompiled, CallRefs, Braced;
    OfRef(g, Root, s);
    TriggerIsNulFree();
    AvoidsUntilForced(g, TRIGGER, "safe", CallTail, s);
    if k :| Hands(g, TRIGGER, CallTail, "", s, k) {
      HandsOver(g, tools, s, k);
    }
    if k, call :| Calls(g, tools, s, k, call) {
      HandsOver(g, tools, s, k);
    }
  }

  lemma TriggerIsNulFree()
    ensures NulFree(TRIGGER) && TRIGGER != ""
  {
  }

  /** Every property name of a schema is written without escapes. */
  predicate PlainSchema(schema: Schema) {
    forall i | 0 <= i < |schema.properties| :: PlainKey(schema.properties[i].0)
  }

  lemma SharedValuesAreJson(g: Rules, rule: RuleName, v: string)
    requires SharedSound(g) && rule in {StringRule, IntegerRule, StringArray} && Body(g, rule) == Shared(rule)
    requires Generates(g, Ref(rule), v)
    ensures ArgumentValue(v)
  {
    OfRef(g, rule, v);
    hide Generates, StringExpr, IntegerExpr, StringArrayExpr, WsExpr;
    if rule == StringRule {
      OfString(g, v);
      StringsAreJson(v);
    } else if rule == IntegerRule {
      OfInteger(g, v);
    } else {
      assert Body(g, StringArray).Some?;
      assert Body(g, Ws) == Shared(Ws) && Body(g, StringRule) == Shared(StringRule);
      OfStringArray(g, v);
      StringArraysAreJson(v);
    }
  }

  /** Whatever arguments the grammar lets a call carry are a JSON object of argument values. */
  lemma ArgumentsAreJson(g: Rules, tools: seq<Tool>, i: nat, s: string)
    requires Compiled(g, tools) && i < |tools| && PlainSchema(tools[i].schema)
    requires Generates(g, Ref(Arguments(tools[i].name)), s)
    ensures JsonObject((v: string) => ArgumentValue(v), s)
  {
    hide Generates, ArgumentValue, JsonObject, PlainKey, HasObject, Avoids, CallRefs, Braced, CallExpr;
    var tool := tools[i];
    assert ToolCompiled(g, tool);
    var props := PropsOf(tool.schema);
    var value := (v: string) => ArgumentValue(v);
    forall j, v | 0 <= j < |props| && Generates(g, Ref(props[j].rule), v) ensures value(v) {
      assert props[j] in props;
      assert props[j].rule in {StringRule, IntegerRule, StringArray};
      SharedValuesAreJson(g, props[j].rule, v);
    }
    assert Sensible(g, props, value);
    ObjectIsJson(g, tool.name, props, value, s);
  }
}
