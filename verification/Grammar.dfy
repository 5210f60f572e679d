/** The grammar compiler: rules appended one by one, and the language of what it hands
    back. */
module Grammar {
  import opened Conversation
  import opened Gbnf
  import opened Avoidance
  import opened ObjectText
  import opened Values

  datatype ValueType = TextType | IntegerType | ArrayType(items: ValueType) | OtherType(name: string)

  /** An object schema: its properties in the order the map hands them out. */
  datatype Schema = Schema(properties: seq<(string, ValueType)>, required: set<string>)

  datatype Tool = Tool(name: string, schema: Schema)

  /** A schema outside the compiler's scope is named, never guessed at. */
  datatype GrammarError = GrammarError(tool: string, outOfScope: ValueType)

  datatype Result<+T> = Ok(value: T) | Err(error: GrammarError)

  const TRIGGER := "```tool"

  /** The rule of a value, where its type is in scope. */
  function ValueRuleOf(t: ValueType): Option<RuleName> {
    match t
    case TextType => Some(StringRule)
    case IntegerType => Some(IntegerRule)
    case ArrayType(items) => if items.TextType? then Some(StringArray) else None
    case OtherType(_) => None
  }

  predicate InScope(schema: Schema) {
    forall i | 0 <= i < |schema.properties| :: ValueRuleOf(schema.properties[i].1).Some?
  }

  /** The type of the first property no rule is for. */
  ghost predicate FirstOut(schema: Schema, t: ValueType) {
    exists k | 0 <= k < |schema.properties| ::
      && schema.properties[k].1 == t && ValueRuleOf(t).None?
      && forall l | 0 <= l < k :: ValueRuleOf(schema.properties[l].1).Some?
  }

  function PropsOf(schema: Schema): (props: seq<Property>)
    requires InScope(schema)
    ensures |props| == |schema.properties|
    ensures forall i | 0 <= i < |props| ::
      props[i] == Property(schema.properties[i].0, ValueRuleOf(schema.properties[i].1).value,
                           schema.properties[i].0 in schema.required)
  {
    seq(|schema.properties|, i requires 0 <= i < |schema.properties| =>
      Property(schema.properties[i].0, ValueRuleOf(schema.properties[i].1).value,
               schema.properties[i].0 in schema.required))
  }

  /** The rules every tool shares, written once. */
  function Shared(name: RuleName): Option<Expr> {
    match name
    case Ws => Some(WsExpr())
    case Empty => Some(Lit(""))
    case StringRule => Some(StringExpr())
    case IntegerRule => Some(IntegerExpr())
    case StringArray => Some(StringArrayExpr())
    case _ => None
  }

  /** What is present of the shared rules is what it should be, with what it refers to. */
  ghost predicate SharedSound(g: Rules) {
    && (forall name: RuleName :: Shared(name).Some? && Body(g, name).Some? ==> Body(g, name) == Shared(name))
    && (Body(g, StringArray).Some? ==> Body(g, Ws).Some? && Body(g, StringRule).Some?)
  }

  /** Whose rule it is, when it belongs to one tool. */
  predicate Owned(name: RuleName, tool: string) {
    name == Arguments(tool) || name == Call(tool)
    || (name.ArgumentsTail? && name.tool == tool) || (name.ArgumentsHead? && name.tool == tool)
  }

  predicate Untouched(g: Rules, tool: string) {
    forall k | 0 <= k < |g| :: !Owned(g[k].0, tool)
  }

  predicate NoStates(g: Rules, prefix: string) {
    forall k | 0 <= k < |g| :: !(g[k].0.State? && g[k].0.prefix == prefix)
  }

  lemma {:induction false} NotThere(g: Rules, name: RuleName)
    ensures Body(g, name).None? <==> forall k | 0 <= k < |g| :: g[k].0 != name
  {
    if g != [] {
      NotThere(g[1..], name);
      assert forall k | 0 < k < |g| :: g[k] == g[1..][k - 1];
    }
  }

  lemma BodyKept(g: Rules, more: Rules, name: RuleName)
    requires g <= more && Body(g, name).Some?
    ensures Body(more, name) == Body(g, name)
  {
    assert more == g + more[|g|..];
    BodyStays(g, more[|g|..], name);
  }

  lemma Appended(g: Rules, name: RuleName, body: Expr, other: RuleName)
    requires Body(g, name).None?
    ensures Body(g + [(name, body)], other) == if other == name then Some(body) else Body(g, other)
  {
    BodyStays(g, [(name, body)], other);
  }

  lemma ObjectKept(g: Rules, more: Rules, tool: string, props: seq<Property>)
    requires g <= more && HasObject(g, tool, props)
    ensures HasObject(more, tool, props)
  {
    BodyKept(g, more, Ws);
    BodyKept(g, more, Empty);
    BodyKept(g, more, Arguments(tool));
    forall i | 0 <= i < |props| ensures Body(more, ArgumentsTail(tool, i)) == Some(TailExpr(tool, props, i)) {
      BodyKept(g, more, ArgumentsTail(tool, i));
    }
    forall i | 0 <= i < |props| ensures Body(more, ArgumentsHead(tool, i)) == Some(HeadExpr(tool, props, i)) {
      BodyKept(g, more, ArgumentsHead(tool, i));
    }
  }

  lemma AvoidsKept(g: Rules, more: Rules, p: string, prefix: string, tail: RuleName)
    requires g <= more && Avoids(g, p, prefix, tail)
    ensures Avoids(more, p, prefix, tail)
  {
    forall i: nat | i < |p| ensures HasStateRule(more, p, prefix, tail, i) {
      assert HasStateRule(g, p, prefix, tail, i);
      var specials :| StateRule(g, p, prefix, tail, i, specials);
      BodyKept(g, more, State(prefix, i));
      assert StateRule(more, p, prefix, tail, i, specials);
    }
  }

  // ----------------------------------------------------------------------------- the compiler

  class Compiler {
    var rules: Rules

    constructor ()
      ensures rules == []
    {
      rules := [];
    }

    /** A fresh rule; defining one twice is the caller's mistake. */
    method Define(name: RuleName, body: Expr)
      requires Body(rules, name).None?
      modifies this
      ensures rules == old(rules) + [(name, body)] && Body(rules, name) == Some(body)
    {
      rules := rules + [(name, body)];
      Appended(old(rules), name, body, name);
    }

    /** A shared rule, added where it is not there yet. */
    method Ensure(name: RuleName)
      requires Shared(name).Some? && SharedSound(rules)
      requires name == StringArray ==> Body(rules, Ws).Some? && Body(rules, StringRule).Some?
      modifies this
      ensures SharedSound(rules) && Body(rules, name) == Shared(name)
      ensures rules == old(rules) || rules == old(rules) + [(name, Shared(name).value)]
    {
      if Body(rules, name).None? {
        forall other: RuleName ensures Body(rules + [(name, Shared(name).value)], other)
          == if other == name then Shared(name) else Body(rules, other)
        {
          Appended(rules, name, Shared(name).value, other);
        }
        rules := rules + [(name, Shared(name).value)];
      }
    }

    /** Which rule a property's value is written by. */
    method ValueRule(tool: string, t: ValueType) returns (r: Result<RuleName>)
      requires SharedSound(rules)
      modifies this
      ensures SharedSound(rules) && old(rules) <= rules
      ensures forall k | |old(rules)| <= k < |rules| :: Shared(rules[k].0).Some?
      ensures match ValueRuleOf(t)
              case Some(rule) => r == Ok(rule) && Body(rules, rule) == Shared(rule)
              case None => r == Err(GrammarError(tool, t))
    {
      match t {
        case TextType =>
          Ensure(StringRule);
          r := Ok(StringRule);
        case IntegerType =>
          Ensure(IntegerRule);
          r := Ok(IntegerRule);
        case ArrayType(items) =>
          if items.TextType? {
            Ensure(Ws);
            ghost var withWs := rules;
            Ensure(StringRule);
            BodyKept(withWs, rules, Ws);
            Ensure(StringArray);
            r := Ok(StringArray);
          } else {
            r := Err(GrammarError(tool, t));
          }
        case OtherType(_) =>
          r := Err(GrammarError(tool, t));
      }
    }

    /** Every property's rule, in order, or the first that is out of scope. */
    method ValueRules(tool: string, schema: Schema) returns (r: Result<seq<Property>>)
      requires SharedSound(rules)
      modifies this
      ensures SharedSound(rules) && old(rules) <= rules
      ensures forall k | |old(rules)| <= k < |rules| :: Shared(rules[k].0).Some?
      ensures r.Ok? <==> InScope(schema)
      ensures r.Ok? ==> r.value == PropsOf(schema)
      ensures r.Ok? ==> forall i | 0 <= i < |r.value| :: Body(rules, r.value[i].rule) == Shared(r.value[i].rule)
      ensures r.Err? ==> r.error.tool == tool && FirstOut(schema, r.error.outOfScope)
    {
      var props: seq<Property> := [];
      for i := 0 to |schema.properties|
        invariant SharedSound(rules) && old(rules) <= rules && |props| == i
        invariant forall k | |old(rules)| <= k < |rules| :: Shared(rules[k].0).Some?
        invariant forall j | 0 <= j < i :: ValueRuleOf(schema.properties[j].1).Some?
        invariant forall j | 0 <= j < i :: props[j] == Property(schema.properties[j].0,
                    ValueRuleOf(schema.properties[j].1).value, schema.properties[j].0 in schema.required)
        invariant forall j | 0 <= j < i :: Body(rules, props[j].rule) == Shared(props[j].rule)
      {
        var (key, t) := schema.properties[i];
        ghost var before := rules;
        var rule := ValueRule(tool, t);
        if rule.Err? {
          return Err(rule.error);
        }
        forall j | 0 <= j < i ensures Body(rules, props[j].rule) == Shared(props[j].rule) {
          SharedIsSome(props[j], schema.properties[j].1);
          BodyKept(before, rules, props[j].rule);
        }
        props := props + [Property(key, rule.value, key in schema.required)];
      }
      r := Ok(props);
    }

    /** The tail rules, from the last property back. */
    method DefineTails(tool: string, props: seq<Property>, ghost base: Rules) returns (tailRef: seq<RuleName>)
      requires Grown(base, rules, tool)
      requires forall name | Owned(name, tool) :: Body(rules, name).None?
      modifies this
      ensures Grown(base, rules, tool) && |tailRef| == |props| + 1
      ensures forall j: nat | j <= |props| :: Ref(tailRef[j]) == TailRef(tool, |props|, j)
      ensures forall j: nat | j < |props| :: Body(rules, ArgumentsTail(tool, j)) == Some(TailExpr(tool, props, j))
      ensures forall name | Owned(name, tool) && !name.ArgumentsTail? :: Body(rules, name).None?
    {
      hide TailExpr, FollowExpr;
      var n := |props|;
      tailRef := seq(n + 1, _ => Empty);
      var i := n;
      while i > 0
        invariant 0 <= i <= n && |tailRef| == n + 1 && Grown(base, rules, tool)
        invariant forall j | 0 <= j <= n :: tailRef[j] == if i <= j < n then ArgumentsTail(tool, j) else Empty
        invariant forall j: nat | i <= j < n :: Body(rules, ArgumentsTail(tool, j)) == Some(TailExpr(tool, props, j))
        invariant forall j: nat | j < i :: Body(rules, ArgumentsTail(tool, j)) == None
        invariant forall name | Owned(name, tool) && !name.ArgumentsTail? :: Body(rules, name).None?
      {
        i := i - 1;
        var follow, next := FollowExpr(props[i]), Ref(tailRef[i + 1]);
        var body := if props[i].required then Cat(follow, next) else Cat(Opt(follow), next);
        TailShape(tool, props, i);
        OneRuleMore(base, rules, tool, ArgumentsTail(tool, i), body);
        Define(ArgumentsTail(tool, i), body);
        tailRef := tailRef[i := ArgumentsTail(tool, i)];
      }
    }

    /** The same given nothing came before it. */
    method DefineHeads(tool: string, props: seq<Property>, tailRef: seq<RuleName>, ghost base: Rules)
      returns (head: RuleName)
      requires Grown(base, rules, tool) && |tailRef| == |props| + 1
      requires forall j: nat | j <= |props| :: Ref(tailRef[j]) == TailRef(tool, |props|, j)
      requires forall j: nat | j < |props| :: Body(rules, ArgumentsTail(tool, j)) == Some(TailExpr(tool, props, j))
      requires forall name | Owned(name, tool) && !name.ArgumentsTail? :: Body(rules, name).None?
      modifies this
      ensures Grown(base, rules, tool) && Ref(head) == HeadRef(tool, |props|, 0)
      ensures forall j: nat | j < |props| :: Body(rules, ArgumentsTail(tool, j)) == Some(TailExpr(tool, props, j))
      ensures forall j: nat | j < |props| :: Body(rules, ArgumentsHead(tool, j)) == Some(HeadExpr(tool, props, j))
      ensures Body(rules, Arguments(tool)).None?
    {
      hide TailExpr, HeadExpr, MemberExpr;
      var n := |props|;
      var headRef := seq(n + 1, _ => Empty);
      var i := n;
      while i > 0
        invariant 0 <= i <= n && |headRef| == n + 1 && Grown(base, rules, tool)
        invariant forall j | 0 <= j <= n :: headRef[j] == if i <= j < n then ArgumentsHead(tool, j) else Empty
        invariant forall j: nat | j < n :: Body(rules, ArgumentsTail(tool, j)) == Some(TailExpr(tool, props, j))
        invariant forall j: nat | i <= j < n :: Body(rules, ArgumentsHead(tool, j)) == Some(HeadExpr(tool, props, j))
        invariant forall j: nat | j < i :: Body(rules, ArgumentsHead(tool, j)) == None
        invariant Body(rules, Arguments(tool)).None?
      {
        i := i - 1;
        var taken := Cat(MemberExpr(props[i]), Ref(tailRef[i + 1]));
        var body := if props[i].required then taken else Choice([taken, Ref(headRef[i + 1])]);
        HeadShape(tool, props, i);
        OneRuleMore(base, rules, tool, ArgumentsHead(tool, i), body);
        Define(ArgumentsHead(tool, i), body);
        headRef := headRef[i := ArgumentsHead(tool, i)];
      }
      head := headRef[0];
    }

    /** The two shared rules every object refers to. */
    method EnsureSpaces(tool: string)
      requires SharedSound(rules) && Untouched(rules, tool)
      modifies this
      ensures SharedSound(rules) && old(rules) <= rules
      ensures Body(rules, Ws) == Some(WsExpr()) && Body(rules, Empty) == Some(Lit(""))
      ensures forall k | |old(rules)| <= k < |rules| :: Shared(rules[k].0).Some?
      ensures forall name | Owned(name, tool) :: Body(rules, name).None?
    {
      hide WsExpr, StringExpr, IntegerExpr, StringArrayExpr;
      Ensure(Ws);
      ghost var withWs := rules;
      Ensure(Empty);
      BodyKept(withWs, rules, Ws);
      forall name | Owned(name, tool) ensures Body(rules, name).None? {
        NotThere(rules, name);
      }
    }

    /** The head and tail rules of an object, and the object itself. */
    method DefineObject(tool: string, props: seq<Property>)
      requires SharedSound(rules) && Untouched(rules, tool)
      modifies this
      ensures SharedSound(rules) && old(rules) <= rules && HasObject(rules, tool, props)
      ensures forall k | |old(rules)| <= k < |rules| ::
                Shared(rules[k].0).Some? || (Owned(rules[k].0, tool) && rules[k].0 != Call(tool))
    {
      hide TailExpr, HeadExpr, WsExpr, StringExpr, IntegerExpr, StringArrayExpr, Shared;
      EnsureSpaces(tool);
      ghost var base := rules;
      var tailRef := DefineTails(tool, props, base);
      var head := DefineHeads(tool, props, tailRef, base);
      ghost var before := rules;
      OneRuleMore(base, rules, tool, Arguments(tool), Braced(Ref(head)));
      Define(Arguments(tool), Braced(Ref(head)));
      BodyKept(base, rules, Ws);
      BodyKept(base, rules, Empty);
    }

    /** An object schema as a rule, or the property that is out of scope. */
    method ObjectRule(tool: string, schema: Schema) returns (r: Result<RuleName>)
      requires SharedSound(rules) && Untouched(rules, tool)
      modifies this
      ensures SharedSound(rules) && old(rules) <= rules
      ensures forall k | |old(rules)| <= k < |rules| ::
                Shared(rules[k].0).Some? || (Owned(rules[k].0, tool) && rules[k].0 != Call(tool))
      ensures r.Ok? <==> InScope(schema)
      ensures r.Ok? ==> r.value == Arguments(tool) && HasObject(rules, tool, PropsOf(schema))
      ensures r.Ok? ==> forall p | p in PropsOf(schema) :: Body(rules, p.rule) == Shared(p.rule)
      ensures r.Err? ==> r.error.tool == tool && FirstOut(schema, r.error.outOfScope)
    {
      var props := ValueRules(tool, schema);
      if props.Err? {
        return Err(props.error);
      }
      ghost var before := rules;
      DefineObject(tool, props.value);
      forall p | p in props.value ensures Body(rules, p.rule) == Shared(p.rule) {
        var i :| 0 <= i < |props.value| && props.value[i] == p;
        SharedIsSome(p, schema.properties[i].1);
        BodyKept(before, rules, p.rule);
      }
      r := Ok(Arguments(tool));
    }

    /** One rule per character of the pattern, and the first of them to start from. */
    method AvoidUntilForced(prefix: string, pattern: string, tail: RuleName) returns (start: RuleName)
      requires pattern != "" && NoStates(rules, prefix)
      modifies this
      ensures old(rules) <= rules && start == State(prefix, 0)
      ensures Avoids(rules, pattern, prefix, tail)
      ensures forall k | |old(rules)| <= k < |rules| :: rules[k].0.State? && rules[k].0.prefix == prefix
    {
      var n := |pattern|;
      var pi := Failure(pattern);
      for i := 0 to n
        invariant old(rules) <= rules && |rules| == |old(rules)| + i
        invariant forall k | |old(rules)| <= k < |rules| :: rules[k].0 == State(prefix, k - |old(rules)|)
        invariant forall j: nat | j < i :: HasStateRule(rules, pattern, prefix, tail, j)
      {
        ghost var before := rules;
        var specials := SpecialsOf(pattern, pi, i);
        var branches, excluded := BranchesOf(prefix, tail, specials);
        branches := branches + [Cat(NoneOf(excluded), Ref(State(prefix, 0)))];
        NotThere(rules, State(prefix, i));
        Define(State(prefix, i), Choice(branches));
        assert StateRule(rules, pattern, prefix, tail, i, specials);
        forall j: nat | j < i ensures HasStateRule(rules, pattern, prefix, tail, j) {
          assert HasStateRule(before, pattern, prefix, tail, j);
          var those :| StateRule(before, pattern, prefix, tail, j, those);
          BodyKept(before, rules, State(prefix, j));
          assert StateRule(rules, pattern, prefix, tail, j, those);
        }
      }
      start := State(prefix, 0);
    }
  }

  lemma TailShape(tool: string, props: seq<Property>, i: nat)
    requires i < |props|
    ensures TailExpr(tool, props, i) ==
      if props[i].required then Cat(FollowExpr(props[i]), TailRef(tool, |props|, i + 1))
      else Cat(Opt(FollowExpr(props[i])), TailRef(tool, |props|, i + 1))
  {
  }

  lemma HeadShape(tool: string, props: seq<Property>, i: nat)
    requires i < |props|
    ensures var taken := Cat(MemberExpr(props[i]), TailRef(tool, |props|, i + 1));
            HeadExpr(tool, props, i) == if props[i].required then taken else Choice([taken, HeadRef(tool, |props|, i + 1)])
  {
  }

  lemma SharedIsSome(p: Property, t: ValueType)
    requires ValueRuleOf(t) == Some(p.rule)
    ensures Shared(p.rule).Some?
  {
  }

  /** Rules were only appended since `base`, and only this tool's. */
  ghost predicate Grown(base: Rules, g: Rules, tool: string) {
    && base <= g && SharedSound(g)
    && forall k | |base| <= k < |g| :: Owned(g[k].0, tool) && g[k].0 != Call(tool)
  }

  lemma OneRuleMore(base: Rules, g: Rules, tool: string, name: RuleName, body: Expr)
    requires Grown(base, g, tool) && Owned(name, tool) && name != Call(tool) && Body(g, name).None?
    ensures Grown(base, g + [(name, body)], tool)
    ensures forall other: RuleName :: Body(g + [(name, body)], other) == if other == name then Some(body) else Body(g, other)
  {
    forall other: RuleName ensures Body(g + [(name, body)], other) == if other == name then Some(body) else Body(g, other) {
      Appended(g, name, body, other);
    }
  }

  // ----------------------------------------------------------------------- the failure function

  ghost predicate FailureUpTo(p: string, pi: seq<nat>, upto: nat) {
    && |pi| == |p| + 1 && upto <= |p|
    && forall i | 1 <= i <= upto :: LongestBorder(p, i, pi[i])
  }

  lemma NoBorderYet(p: string)
    requires p != ""
    ensures LongestBorder(p, 1, 0)
  {
    assert p[..0] == p[1..1];
  }

  /** For each prefix, the length of its longest border: the table is filled left to right,
      each entry found by falling back through the ones before it. */
  method Failure(p: string) returns (pi: seq<nat>)
    requires p != ""
    ensures FailureUpTo(p, pi, |p|)
  {
    var n := |p|;
    pi := seq(n + 1, _ => 0);
    NoBorderYet(p);
    for i := 1 to n
      invariant FailureUpTo(p, pi, i)
    {
      var k := FallBack(p, pi, i);
      NextLongest(p, i, k);
      if p[k] == p[i] {
        k := k + 1;
      }
      pi := pi[i + 1 := k];
    }
  }

  /** The longest border of the first `i` characters that the next one extends, or none. */
  method FallBack(p: string, pi: seq<nat>, i: nat) returns (k: nat)
    requires 0 < i < |p| && FailureUpTo(p, pi, i)
    ensures k < i && Border(p, i, k) && (k == 0 || p[k] == p[i])
    ensures forall j: nat | k < j < i && Border(p, i, j) :: p[j] != p[i]
  {
    k := pi[i];
    while k > 0 && p[k] != p[i]
      invariant k < i && Border(p, i, k)
      invariant forall j: nat | k < j < i && Border(p, i, j) :: p[j] != p[i]
    {
      FallsBack(p, i, k, pi[k]);
      k := pi[k];
    }
  }

  /** One branch for each character a state singles out, and the characters singled out. */
  method BranchesOf(prefix: string, tail: RuleName, specials: seq<Special>) returns (branches: seq<Expr>, excluded: set<char>)
    ensures branches == Branches(prefix, tail, specials) && excluded == {NUL} + CharsOf(specials)
  {
    branches, excluded := [Lit("")], {NUL};
    for s := 0 to |specials|
      invariant branches == Branches(prefix, tail, specials[..s])
      invariant excluded == {NUL} + CharsOf(specials[..s])
    {
      assert specials[..s + 1][..s] == specials[..s];
      assert CharsOf(specials[..s + 1]) == CharsOf(specials[..s]) + {specials[s].c} by {
        assert forall k | 0 <= k < s :: specials[..s + 1][k] == specials[..s][k];
        assert specials[..s + 1][s] == specials[s];
      }
      excluded := excluded + {specials[s].c};
      branches := branches + [Branch(prefix, tail, specials[s])];
    }
    assert specials[..|specials|] == specials;
  }

  lemma FallsBack(p: string, i: nat, k: nat, next: nat)
    requires i < |p| && 0 < k && Border(p, i, k) && LongestBorder(p, k, next)
    ensures Border(p, i, next) && forall j: nat | next < j < k :: !Border(p, i, j)
  {
    BorderOfBorder(p, i, k, next);
    forall j: nat | next < j < k ensures !Border(p, i, j) {
      BorderOfBorder(p, i, k, j);
    }
  }

  lemma NextLongest(p: string, i: nat, k: nat)
    requires 0 < i < |p| && Border(p, i, k) && (k == 0 || p[k] == p[i])
    requires forall j: nat | k < j < i && Border(p, i, j) :: p[j] != p[i]
    ensures LongestBorder(p, i + 1, if p[k] == p[i] then k + 1 else k)
  {
    var next := if p[k] == p[i] then k + 1 else k;
    BorderExtends(p, i, k);
    if next == 0 {
      assert p[..0] == p[i + 1..i + 1];
    }
    var m := i + 1;
    forall j: nat | next < j < m ensures !Border(p, m, j) {
      BorderExtends(p, i, j - 1);
    }
  }

  /** The characters state `i` singles out, down the chain of its borders to zero. */
  method SpecialsOf(p: string, pi: seq<nat>, i: nat) returns (specials: seq<Special>)
    requires i < |p| && FailureUpTo(p, pi, |p|)
    ensures Governs(p, i, specials, -1)
  {
    specials := [];
    var k: nat := i;
    var more := true;
    while more
      invariant k <= i && Fallback(p, i, k)
      invariant Governs(p, i, specials, if more then k else -1)
      decreases if more then k + 1 else 0
    {
      GovernsNext(p, i, specials, k);
      if !Listed(specials, p[k]) {
        specials := specials + [Special(p[k], Target(p, k))];
      }
      if k == 0 {
        more := false;
      } else {
        GovernsSkip(p, i, specials, k, pi[k]);
        k := pi[k];
      }
    }
  }

  // -------------------------------------------------------------------------- compiling the tools

  /** `{"name": <tool>, "arguments": <object>}`, without its braces. */
  function CallExpr(tool: string): Expr {
    Cat(Lit("\"name\""), Cat(Lit(":"), Cat(Ref(Ws), Cat(Lit(Quoted(tool)), Cat(Lit(","), Cat(Ref(Ws),
      Cat(Lit("\"arguments\""), Cat(Lit(":"), Cat(Ref(Ws), Ref(Arguments(tool)))))))))))
  }

  function CallRefs(tools: seq<Tool>): seq<Expr> {
    if tools == [] then [] else CallRefs(tools[..|tools| - 1]) + [Ref(Call(tools[|tools| - 1].name))]
  }

  /** The newline, the call, and the closing fence: what must follow the trigger. */
  function CallTailExpr(): Expr {
    Cat(Lit("\n"), Cat(Ref(ToolCallRule), Cat(Lit("\n"), Lit("```"))))
  }

  predicate DistinctTools(tools: seq<Tool>) {
    forall i, j | 0 <= i < j < |tools| :: tools[i].name != tools[j].name
  }

  predicate ToolCompiled(g: Rules, tool: Tool) {
    && InScope(tool.schema) && HasObject(g, tool.name, PropsOf(tool.schema))
    && Body(g, Call(tool.name)) == Some(CallExpr(tool.name))
    && forall p | p in PropsOf(tool.schema) :: Body(g, p.rule) == Shared(p.rule)
  }

  ghost predicate Compiled(g: Rules, tools: seq<Tool>) {
    && SharedSound(g) && Body(g, Ws) == Some(WsExpr())
    && (forall i | 0 <= i < |tools| :: ToolCompiled(g, tools[i]))
    && Body(g, ToolCallRule) == Some(Braced(Choice(CallRefs(tools))))
    && Body(g, CallTail) == Some(CallTailExpr())
    && Avoids(g, TRIGGER, "safe", CallTail)
    && Body(g, Root) == Some(Ref(State("safe", 0)))
  }

  lemma ToolKept(g: Rules, more: Rules, tool: Tool)
    requires g <= more && ToolCompiled(g, tool)
    ensures ToolCompiled(more, tool)
  {
    ObjectKept(g, more, tool.name, PropsOf(tool.schema));
    BodyKept(g, more, Call(tool.name));
    forall p | p in PropsOf(tool.schema) ensures Body(more, p.rule) == Shared(p.rule) {
      var i :| 0 <= i < |PropsOf(tool.schema)| && PropsOf(tool.schema)[i] == p;
      SharedIsSome(p, tool.schema.properties[i].1);
      BodyKept(g, more, p.rule);
    }
  }

  /** The rules a compiler writes before the trigger's: shared ones, and the tools'. */
  predicate OnlyTools(g: Rules, tools: seq<Tool>) {
    forall k | 0 <= k < |g| :: Shared(g[k].0).Some? || OfSomeTool(g[k].0, tools)
  }

  predicate OfSomeTool(name: RuleName, tools: seq<Tool>) {
    exists i | 0 <= i < |tools| :: Owned(name, tools[i].name)
  }

  lemma OnlyToolsMeans(g: Rules, tools: seq<Tool>, name: RuleName)
    requires OnlyTools(g, tools) && Shared(name).None?
    requires forall i | 0 <= i < |tools| :: !Owned(name, tools[i].name)
    ensures Body(g, name).None?
  {
    NotThere(g, name);
  }

  lemma NextIsUntouched(g: Rules, tools: seq<Tool>, i: nat)
    requires DistinctTools(tools) && i < |tools| && OnlyTools(g, tools[..i])
    ensures Untouched(g, tools[i].name)
  {
    forall k | 0 <= k < |g| ensures !Owned(g[k].0, tools[i].name) {
      if Shared(g[k].0).None? {
        var j :| 0 <= j < i && Owned(g[k].0, tools[..i][j].name);
        assert tools[j].name != tools[i].name;
      }
    }
  }

  lemma OnlyToolsGrows(g: Rules, more: Rules, tools: seq<Tool>, i: nat)
    requires i < |tools| && OnlyTools(g, tools[..i]) && g <= more
    requires forall k | |g| <= k < |more| :: Shared(more[k].0).Some? || Owned(more[k].0, tools[i].name)
    ensures OnlyTools(more, tools[..i + 1])
  {
    var those := tools[..i + 1];
    forall k | 0 <= k < |more| && Shared(more[k].0).None? ensures OfSomeTool(more[k].0, those) {
      if k < |g| {
        assert more[k] == g[k] && OfSomeTool(g[k].0, tools[..i]);
        var j :| 0 <= j < i && Owned(g[k].0, tools[..i][j].name);
        assert those[j] == tools[..i][j];
      } else {
        assert those[i] == tools[i];
      }
    }
  }

  /** The first `i` tools are compiled, and nothing else is there but what they share. */
  ghost predicate ToolsSoFar(g: Rules, tools: seq<Tool>, i: nat)
    requires i <= |tools|
  {
    && SharedSound(g) && Body(g, Ws) == Some(WsExpr()) && OnlyTools(g, tools[..i])
    && forall j | 0 <= j < i :: ToolCompiled(g, tools[j])
  }

  /** Compiles the tools' grammar, or names the first tool whose schema is out of scope. */
  method Compile(tools: seq<Tool>) returns (r: Result<Rules>)
    requires DistinctTools(tools)
    ensures r.Ok? <==> forall i | 0 <= i < |tools| :: InScope(tools[i].schema)
    ensures r.Ok? ==> Compiled(r.value, tools)
    ensures r.Err? ==> FirstRefused(tools, r.error)
  {
    hide HasObject, WsExpr, StringExpr, IntegerExpr, StringArrayExpr, CallExpr, InScope, PropsOf, Body, Owned, SharedSound,
      FirstOut;
    var compiler := new Compiler();
    StartSound();
    compiler.Ensure(Ws);
    var calls: seq<Expr> := [];
    StartTools(compiler.rules, tools);
    for i := 0 to |tools|
      invariant ToolsSoFar(compiler.rules, tools, i) && calls == CallRefs(tools[..i])
      invariant forall j | 0 <= j < i :: InScope(tools[j].schema)
    {
      ghost var before := compiler.rules;
      NextIsUntouched(before, tools, i);
      var arguments := compiler.ObjectRule(tools[i].name, tools[i].schema);
      if arguments.Err? {
        return Err(arguments.error);
      }
      ghost var withObject := compiler.rules;
      CallIsNew(before, withObject, tools[i].name);
      compiler.Define(Call(tools[i].name), CallExpr(tools[i].name));
      ToolDone(before, withObject, compiler.rules, tools, i);
      calls := calls + [Ref(Call(tools[i].name))];
      assert tools[..i + 1][..i] == tools[..i];
    }
    assert tools[..|tools|] == tools;
    Finish(compiler, tools, calls);
    r := Ok(compiler.rules);
  }

  /** The first tool with a property out of scope, and the first such property of it. */
  ghost predicate FirstRefused(tools: seq<Tool>, error: GrammarError) {
    exists i | 0 <= i < |tools| ::
      && tools[i].name == error.tool && FirstOut(tools[i].schema, error.outOfScope)
      && forall j | 0 <= j < i :: InScope(tools[j].schema)
  }

  lemma StartSound()
    ensures SharedSound([])
  {
  }

  lemma StartTools(g: Rules, tools: seq<Tool>)
    requires SharedSound(g) && Body(g, Ws) == Shared(Ws) && (g == [] || g == [(Ws, Shared(Ws).value)])
    ensures ToolsSoFar(g, tools, 0)
  {
  }

  /** The rule over every tool's call, the forced tail, the trigger's states and the root. */
  method Finish(compiler: Compiler, tools: seq<Tool>, calls: seq<Expr>)
    requires ToolsSoFar(compiler.rules, tools, |tools|) && calls == CallRefs(tools)
    modifies compiler
    ensures Compiled(compiler.rules, tools)
  {
    hide HasObject, WsExpr, StringExpr, IntegerExpr, StringArrayExpr, CallExpr, InScope, PropsOf, Body, SharedSound,
      Avoids, ToolCompiled, CallTailExpr, Braced;
    assert tools[..|tools|] == tools;
    ghost var g0 := compiler.rules;
    OnlyToolsMeans(g0, tools, ToolCallRule);
    compiler.Define(ToolCallRule, Braced(Choice(calls)));
    ghost var g1 := compiler.rules;
    OnlyToolsMeans(g0, tools, CallTail);
    Gbnf.BodyStays(g0, [(ToolCallRule, Braced(Choice(calls)))], CallTail);
    NotThere([(ToolCallRule, Braced(Choice(calls)))], CallTail);
    compiler.Define(CallTail, CallTailExpr());
    ghost var g2 := compiler.rules;
    NoStatesYet(g0, g2, tools);
    var start := compiler.AvoidUntilForced("safe", TRIGGER, CallTail);
    ghost var g3 := compiler.rules;
    RootIsNew(g0, g3, tools);
    compiler.Define(Root, Ref(start));
    BodyKept(g1, compiler.rules, ToolCallRule);
    BodyKept(g2, compiler.rules, CallTail);
    BodyKept(g0, compiler.rules, Ws);
    AvoidsKept(g3, compiler.rules, TRIGGER, "safe", CallTail);
    SoundAfter(g0, compiler.rules);
    forall i | 0 <= i < |tools| ensures ToolCompiled(compiler.rules, tools[i]) {
      ToolKept(g0, compiler.rules, tools[i]);
    }
  }

  lemma NoStatesYet(g0: Rules, g: Rules, tools: seq<Tool>)
    requires OnlyTools(g0, tools) && g0 <= g
    requires forall k | |g0| <= k < |g| :: g[k].0 in {ToolCallRule, CallTail}
    ensures NoStates(g, "safe")
  {
    forall k | 0 <= k < |g| ensures !g[k].0.State? {
      if k < |g0| { assert g[k] == g0[k]; }
    }
  }

  lemma CallIsNew(before: Rules, g: Rules, tool: string)
    requires Untouched(before, tool) && before <= g
    requires forall k | |before| <= k < |g| :: Shared(g[k].0).Some? || (Owned(g[k].0, tool) && g[k].0 != Call(tool))
    ensures Body(g, Call(tool)).None?
  {
    NotThere(g, Call(tool));
    forall k | 0 <= k < |g| ensures g[k].0 != Call(tool) {
      if k < |before| { assert g[k] == before[k]; }
    }
  }

  lemma ToolDone(before: Rules, withObject: Rules, g: Rules, tools: seq<Tool>, i: nat)
    requires i < |tools| && ToolsSoFar(before, tools, i) && SharedSound(withObject) && before <= withObject
    requires forall k | |before| <= k < |withObject| :: Shared(withObject[k].0).Some? || Owned(withObject[k].0, tools[i].name)
    requires InScope(tools[i].schema) && HasObject(withObject, tools[i].name, PropsOf(tools[i].schema))
    requires forall p | p in PropsOf(tools[i].schema) :: Body(withObject, p.rule) == Shared(p.rule)
    requires Body(withObject, Call(tools[i].name)).None?
    requires g == withObject + [(Call(tools[i].name), CallExpr(tools[i].name))]
    ensures ToolsSoFar(g, tools, i + 1)
  {
    hide WsExpr, StringExpr, IntegerExpr, StringArrayExpr, CallExpr, HasObject, InScope, PropsOf, Body, OnlyTools, SharedSound;
    var name, body := Call(tools[i].name), CallExpr(tools[i].name);
    Appended(withObject, name, body, name);
    BodyKept(before, g, Ws);
    SoundAfter(withObject, g);
    OnlyToolsGrows(before, g, tools, i);
    ObjectKept(withObject, g, tools[i].name, PropsOf(tools[i].schema));
    forall p | p in PropsOf(tools[i].schema) ensures Body(g, p.rule) == Shared(p.rule) {
      PropsAreShared(tools[i].schema, p);
      BodyKept(withObject, g, p.rule);
    }
    forall j | 0 <= j < i ensures ToolCompiled(g, tools[j]) {
      ToolKept(before, g, tools[j]);
    }
  }

  lemma PropsAreShared(schema: Schema, p: Property)
    requires InScope(schema) && p in PropsOf(schema)
    ensures Shared(p.rule).Some?
  {
    var i :| 0 <= i < |PropsOf(schema)| && PropsOf(schema)[i] == p;
    SharedIsSome(p, schema.properties[i].1);
  }

  lemma RootIsNew(g0: Rules, g: Rules, tools: seq<Tool>)
    requires OnlyTools(g0, tools) && g0 <= g
    requires forall k | |g0| <= k < |g| :: g[k].0 in {ToolCallRule, CallTail} || g[k].0.State?
    ensures Body(g, Root).None?
  {
    NotThere(g, Root);
    forall k | 0 <= k < |g| ensures g[k].0 != Root {
      if k < |g0| { assert g[k] == g0[k]; }
    }
  }

  lemma SoundAfter(g0: Rules, g: Rules)
    requires SharedSound(g0) && g0 <= g
    requires forall k | |g0| <= k < |g| :: Shared(g[k].0).None?
    ensures SharedSound(g)
  {
    forall name: RuleName | Shared(name).Some? && Body(g, name).Some? ensures Body(g, name) == Body(g0, name) {
      NotThere(g0, name);
      NotThere(g, name);
      if Body(g0, name).Some? {
        BodyKept(g0, g, name);
      } else {
        forall k | 0 <= k < |g| ensures g[k].0 != name {
          if k < |g0| { assert g[k] == g0[k]; }
        }
      }
    }
    if Body(g, StringArray).Some? {
      assert Shared(StringArray).Some?;
      BodyKept(g0, g, Ws);
      BodyKept(g0, g, StringRule);
    }
  }
}
