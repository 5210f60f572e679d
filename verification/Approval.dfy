/** The bytes an approval is signed over: a line a field, and what two approvals with the
    same bytes have in common. */
module Approval {
  import opened Conversation

  datatype Enforcement = Kernel | BestEffort
  {
    function AsText(): string {
      if Kernel? then "kernel" else "best-effort"
    }
  }

  datatype Grant = Grant(session: string, job: nat, files: seq<string>, writes: seq<string>, commands: seq<string>,
                         closesOn: Option<string>, network: Option<bool>, egress: Option<seq<string>>,
                         enforcement: Option<Enforcement>)

  datatype Field = Session | Files | Writes | Commands | ClosesOn | Egress

  datatype Canonical = Signed(text: string) | Newline(field: Field)

  const CANONICAL := "luu-approval v1"

  function Key(field: Field): string {
    match field
    case Session => "session"
    case Files => "files"
    case Writes => "writes"
    case Commands => "commands"
    case ClosesOn => "closes_on"
    case Egress => "egress"
  }

  predicate OneLine(s: string) {
    '\n' !in s
  }

  // ------------------------------------------------------------------------------------ its lines

  datatype Line = Line(key: string, value: string)

  function Tagged(key: string, values: seq<string>): seq<Line> {
    if values == [] then [] else Tagged(key, values[..|values| - 1]) + [Line(key, values[|values| - 1])]
  }

  function Listed(value: Option<string>): seq<string> {
    match value case Some(v) => [v] case None => []
  }

  function Flag(value: Option<bool>): seq<string> {
    match value case Some(v) => [if v then "true" else "false"] case None => []
  }

  function Strictness(value: Option<Enforcement>): seq<string> {
    match value case Some(v) => [v.AsText()] case None => []
  }

  /** Every key, once, with what is written under it. */
  function Groups(g: Grant): (r: seq<(string, seq<string>)>)
    ensures |r| == 9
  {
    [("session", [g.session]), ("job", [Decimal(g.job)]), ("files", g.files), ("writes", g.writes),
     ("commands", g.commands), ("closes_on", Listed(g.closesOn)), ("network", Flag(g.network)),
     ("egress", g.egress.GetOr([])), ("enforcement", Strictness(g.enforcement))]
  }

  function Together(groups: seq<(string, seq<string>)>): seq<Line> {
    if groups == [] then []
    else
      var last := groups[|groups| - 1];
      Together(groups[..|groups| - 1]) + Tagged(last.0, last.1)
  }

  function Lines(g: Grant): seq<Line> {
    Together(Groups(g))
  }

  function Rendered(lines: seq<Line>): string {
    if lines == [] then ""
    else
      var last := lines[|lines| - 1];
      Rendered(lines[..|lines| - 1]) + last.key + " " + last.value + "\n"
  }

  function AllOneLine(values: seq<string>): (r: bool)
    ensures r <==> forall i | 0 <= i < |values| :: OneLine(values[i])
  {
    forall i | 0 <= i < |values| :: OneLine(values[i])
  }

  /** The fields whose values are free text, in the order they are written. */
  function FreeText(g: Grant): seq<(Field, seq<string>)> {
    [(Session, [g.session]), (Files, g.files), (Writes, g.writes), (Commands, g.commands),
     (ClosesOn, Listed(g.closesOn)), (Egress, g.egress.GetOr([]))]
  }

  predicate Signable(g: Grant) {
    forall i | 0 <= i < |FreeText(g)| :: AllOneLine(FreeText(g)[i].1)
  }

  /** The first field, as they are written, with a value that cannot be. */
  predicate FirstBroken(g: Grant, field: Field) {
    exists i | 0 <= i < |FreeText(g)| ::
      && FreeText(g)[i].0 == field && !AllOneLine(FreeText(g)[i].1)
      && forall j | 0 <= j < i :: AllOneLine(FreeText(g)[j].1)
  }

  // ------------------------------------------------------------------------------- as it is written

  /** What has been written so far: the first line, and these. */
  predicate Wrote(text: string, lines: seq<Line>) {
    text == CANONICAL + "\n" + Rendered(lines)
  }

  lemma WroteOne(text: string, lines: seq<Line>, key: string, value: string)
    requires Wrote(text, lines)
    ensures Wrote(text + key + " " + value + "\n", lines + [Line(key, value)])
  {
    assert (lines + [Line(key, value)])[..|lines|] == lines;
  }

  method WriteLine(before: string, field: Field, value: string, ghost done: seq<Line>) returns (r: Canonical)
    requires Wrote(before, done)
    ensures if OneLine(value) then r.Signed? && Wrote(r.text, done + [Line(Key(field), value)]) else r == Newline(field)
  {
    if '\n' in value {
      return Newline(field);
    }
    WroteOne(before, done, Key(field), value);
    var out := before + Key(field);
    out := out + " ";
    out := out + value;
    out := out + "\n";
    return Signed(out);
  }

  method WriteLines(before: string, field: Field, values: seq<string>, ghost done: seq<Line>) returns (r: Canonical)
    requires Wrote(before, done)
    ensures if AllOneLine(values) then r.Signed? && Wrote(r.text, done + Tagged(Key(field), values)) else r == Newline(field)
  {
    hide OneLine, Wrote;
    r := Signed(before);
    assert done + Tagged(Key(field), []) == done;
    for i := 0 to |values|
      invariant r.Signed? && Wrote(r.text, done + Tagged(Key(field), values[..i]))
      invariant forall k | 0 <= k < i :: OneLine(values[k])
    {
      ghost var so := done + Tagged(Key(field), values[..i]);
      assert values[..i + 1][..i] == values[..i];
      assert done + Tagged(Key(field), values[..i + 1]) == so + [Line(Key(field), values[i])];
      r := WriteLine(r.text, field, values[i], so);
      if r.Newline? {
        return;
      }
    }
    assert values[..|values|] == values;
  }

  /** A line whose value is never free text. */
  method WriteFixed(before: string, key: string, value: string, ghost done: seq<Line>) returns (text: string)
    requires Wrote(before, done)
    ensures Wrote(text, done + Tagged(key, [value]))
  {
    WroteOne(before, done, key, value);
    assert [value][..0] == [] && Tagged(key, [value]) == [Line(key, value)];
    text := before + key + " " + value + "\n";
  }

  lemma OneMoreGroup(g: Grant, i: nat)
    requires i < 9
    ensures Together(Groups(g)[..i + 1]) == Together(Groups(g)[..i]) + Tagged(Groups(g)[i].0, Groups(g)[i].1)
  {
    assert Groups(g)[..i + 1][..i] == Groups(g)[..i];
  }

  ghost function Upto(g: Grant, i: nat): seq<Line>
    requires i <= 9
  {
    Together(Groups(g)[..i])
  }

  method WriteGroup(before: string, g: Grant, field: Field, values: seq<string>, ghost i: nat) returns (r: Canonical)
    requires i < 9 && Groups(g)[i] == (Key(field), values) && Wrote(before, Upto(g, i))
    ensures if AllOneLine(values) then r.Signed? && Wrote(r.text, Upto(g, i + 1)) else r == Newline(field)
  {
    OneMoreGroup(g, i);
    r := WriteLines(before, field, values, Upto(g, i));
  }

  method WriteKnown(before: string, g: Grant, key: string, value: Option<string>, ghost i: nat) returns (text: string)
    requires i < 9 && Groups(g)[i] == (key, Listed(value)) && Wrote(before, Upto(g, i))
    ensures Wrote(text, Upto(g, i + 1))
  {
    OneMoreGroup(g, i);
    if value.Some? {
      text := WriteFixed(before, key, value.value, Upto(g, i));
    } else {
      text := before;
      assert Upto(g, i) + Tagged(key, []) == Upto(g, i);
    }
  }

  /** Which session, which job, and what it may read, write and run. */
  method WriteWork(g: Grant) returns (r: Canonical)
    ensures r.Signed? ==> Wrote(r.text, Upto(g, 5)) && forall i | 0 <= i < 4 :: AllOneLine(FreeText(g)[i].1)
    ensures r.Newline? ==> !Signable(g) && FirstBroken(g, r.field)
  {
    hide Wrote, Together, AllOneLine, Decimal, Upto;
    ghost var free := FreeText(g);
    NoneYet(g);
    r := WriteGroup(CANONICAL + "\n", g, Session, [g.session], 0);
    if r.Newline? { assert !AllOneLine(free[0].1); return; }
    var text := WriteKnown(r.text, g, "job", Some(Decimal(g.job)), 1);
    r := WriteGroup(text, g, Files, g.files, 2);
    if r.Newline? { assert !AllOneLine(free[1].1); return; }
    r := WriteGroup(r.text, g, Writes, g.writes, 3);
    if r.Newline? { assert !AllOneLine(free[2].1); return; }
    r := WriteGroup(r.text, g, Commands, g.commands, 4);
    if r.Newline? { assert !AllOneLine(free[3].1); return; }
  }

  lemma WhatIsWritten(g: Grant)
    ensures Groups(g)[5] == ("closes_on", Listed(g.closesOn)) && Groups(g)[6] == ("network", Listed(Printed(g.network)))
    ensures Groups(g)[7] == ("egress", g.egress.GetOr([]))
    ensures Groups(g)[8] == ("enforcement",
              Listed(if g.enforcement.Some? then Some(g.enforcement.value.AsText()) else None))
    ensures Upto(g, 9) == Lines(g)
  {
    NoneYet(g);
  }

  /** What is signed, or the first field that cannot be written. */
  method Canonicalize(g: Grant) returns (r: Canonical)
    ensures r.Signed? <==> Signable(g)
    ensures r.Signed? ==> Wrote(r.text, Lines(g)) && r.text == "luu-approval v1\n" + Body(g)
    ensures r.Newline? ==> FirstBroken(g, r.field)
  {
    hide Wrote, Together, AllOneLine, Decimal, Upto, Groups, Body;
    ghost var free := FreeText(g);
    r := WriteWork(g);
    if r.Newline? { return; }
    WhatIsWritten(g);
    r := WriteGroup(r.text, g, ClosesOn, Listed(g.closesOn), 5);
    if r.Newline? { assert !AllOneLine(free[4].1); return; }
    var text := WriteKnown(r.text, g, "network", Printed(g.network), 6);
    r := WriteGroup(text, g, Egress, g.egress.GetOr([]), 7);
    if r.Newline? { assert !AllOneLine(free[5].1); return; }
    text := WriteKnown(r.text, g, "enforcement", if g.enforcement.Some? then Some(g.enforcement.value.AsText()) else None, 8);
    r := Signed(text);
    TheBytesSigned(g, text);
  }

  function Printed(flag: Option<bool>): Option<string> {
    match flag case Some(v) => Some(if v then "true" else "false") case None => None
  }

  lemma NoneYet(g: Grant)
    ensures Wrote(CANONICAL + "\n", Upto(g, 0)) && Upto(g, 9) == Lines(g)
  {
    assert Groups(g)[..9] == Groups(g);
  }

  // ------------------------------------------------------------------------------ reading it back

  /** A line the format can hold: one word, a space, and text without a newline. */
  predicate Plain(line: Line) {
    ' ' !in line.key && OneLine(line.key) && OneLine(line.value)
  }

  predicate AllPlain(lines: seq<Line>) {
    forall i | 0 <= i < |lines| :: Plain(lines[i])
  }

  function Spelled(line: Line): string {
    line.key + " " + line.value + "\n"
  }

  lemma OneNewline(l: Line)
    requires Plain(l)
    ensures !HasNewlineInside(Spelled(l))
  {
    var s := Spelled(l);
    forall i | 0 <= i < |s| - 1 ensures s[i] != '\n' {
      assert s[i] == if i < |l.key| then l.key[i] else if i == |l.key| then ' ' else l.value[i - |l.key| - 1];
    }
  }

  lemma FirstSpace(l: Line)
    requires Plain(l)
    ensures |l.key| < |Spelled(l)| && Spelled(l)[|l.key|] == ' '
    ensures forall i | 0 <= i < |l.key| :: Spelled(l)[i] != ' '
  {
    forall i | 0 <= i < |l.key| ensures Spelled(l)[i] != ' ' {
      assert Spelled(l)[i] == l.key[i];
    }
  }

  predicate HasNewlineInside(s: string) {
    exists i | 0 <= i < |s| - 1 :: s[i] == '\n'
  }

  /** What stands before the last line of a text reaches into another reading's last line
      only with its newline. */
  lemma ReachesWithNewline(s: string, t: string, x: string, y: string)
    requires x + s == y + t && t != "" && |x| < |y|
    requires y[|y| - 1] == '\n'
    ensures HasNewlineInside(s)
  {
    var whole := x + s;
    assert whole[|y| - 1] == (y + t)[|y| - 1] == y[|y| - 1];
    assert whole[|y| - 1] == s[|y| - 1 - |x|];
  }

  lemma SameLine(a: Line, b: Line)
    requires Plain(a) && Plain(b) && Spelled(a) == Spelled(b)
    ensures a == b
  {
    hide Plain, Spelled;
    FirstSpace(a);
    FirstSpace(b);
    var s := Spelled(a);
    assert |a.key| == |b.key|;
    Parts(a);
    Parts(b);
  }

  lemma Parts(l: Line)
    ensures |Spelled(l)| >= |l.key| + 2
    ensures l.key == Spelled(l)[..|l.key|] && l.value == Spelled(l)[|l.key| + 1..|Spelled(l)| - 1]
  {
    var s := Spelled(l);
    assert s == (l.key + " ") + (l.value + "\n");
    assert s[|l.key| + 1..] == l.value + "\n";
  }

  /** Where a line ends and its key ends can both be seen in the text. */
  lemma SpelledOnce(a: Line, b: Line, x: string, y: string)
    requires Plain(a) && Plain(b) && x + Spelled(a) == y + Spelled(b)
    requires (x == "" || x[|x| - 1] == '\n') && (y == "" || y[|y| - 1] == '\n')
    ensures a == b && x == y
  {
    hide Plain, Spelled;
    var s, t := Spelled(a), Spelled(b);
    Parts(a);
    Parts(b);
    if |x| < |y| {
      ReachesWithNewline(s, t, x, y);
    }
    if |y| < |x| {
      ReachesWithNewline(t, s, y, x);
    }
    OneNewline(a);
    OneNewline(b);
    assert x == (x + s)[..|x|] == (y + t)[..|y|] == y;
    assert s == (x + s)[|x|..] == (y + t)[|y|..] == t;
    SameLine(a, b);
  }

  lemma EndsInNewline(lines: seq<Line>)
    ensures Rendered(lines) == "" || Rendered(lines)[|Rendered(lines)| - 1] == '\n'
    ensures Rendered(lines) == "" <==> lines == []
    ensures lines != [] ==> Rendered(lines) == Rendered(lines[..|lines| - 1]) + Spelled(lines[|lines| - 1])
  {
    if lines != [] {
      var last := lines[|lines| - 1];
      var rest := Rendered(lines[..|lines| - 1]);
      assert rest + last.key + " " + last.value + "\n" == rest + (last.key + " " + last.value + "\n");
    }
  }

  /** The text gives back its lines. */
  lemma {:induction false} RenderedOnce(a: seq<Line>, b: seq<Line>)
    requires AllPlain(a) && AllPlain(b) && Rendered(a) == Rendered(b)
    ensures a == b
  {
    hide Plain, Rendered, Spelled;
    EndsInNewline(a);
    EndsInNewline(b);
    if a != [] && b != [] {
      var x, y := a[..|a| - 1], b[..|b| - 1];
      EndsInNewline(x);
      EndsInNewline(y);
      SpelledOnce(a[|a| - 1], b[|b| - 1], Rendered(x), Rendered(y));
      RenderedOnce(x, y);
      assert a == x + [a[|a| - 1]] && b == y + [b[|b| - 1]];
    }
  }

  function Under(lines: seq<Line>, key: string): seq<string> {
    if lines == [] then []
    else
      var last := lines[|lines| - 1];
      Under(lines[..|lines| - 1], key) + if last.key == key then [last.value] else []
  }

  lemma {:induction false} UnderAppend(a: seq<Line>, b: seq<Line>, key: string)
    ensures Under(a + b, key) == Under(a, key) + Under(b, key)
  {
    if b == [] {
      assert a + b == a;
    } else {
      var front, last := b[..|b| - 1], b[|b| - 1];
      UnderAppend(a, front, key);
      assert (a + b)[..|a + b| - 1] == a + front;
      var more := if last.key == key then [last.value] else [];
      assert (Under(a, key) + Under(front, key)) + more == Under(a, key) + (Under(front, key) + more);
    }
  }

  lemma {:induction false} UnderTagged(tag: string, values: seq<string>, key: string)
    ensures Under(Tagged(tag, values), key) == if tag == key then values else []
  {
    if values != [] {
      var front := values[..|values| - 1];
      UnderTagged(tag, front, key);
      var lines := Tagged(tag, values);
      assert lines[..|lines| - 1] == Tagged(tag, front);
    }
  }

  /** The lines give back what was written under each key, where no key is used twice. */
  lemma {:induction false} UnderGroups(groups: seq<(string, seq<string>)>, key: string)
    ensures (forall i | 0 <= i < |groups| :: groups[i].0 != key) ==> Under(Together(groups), key) == []
    ensures forall i | 0 <= i < |groups| && groups[i].0 == key && (forall j | 0 <= j < |groups| && j != i :: groups[j].0 != key) ::
      Under(Together(groups), key) == groups[i].1
  {
    hide Under, Tagged;
    if groups == [] {
      NothingUnder(key);
    } else {
      var front, last := groups[..|groups| - 1], groups[|groups| - 1];
      UnderGroups(front, key);
      UnderAppend(Together(front), Tagged(last.0, last.1), key);
      UnderTagged(last.0, last.1, key);
      forall i | 0 <= i < |groups| && groups[i].0 == key && (forall j | 0 <= j < |groups| && j != i :: groups[j].0 != key)
        ensures Under(Together(groups), key) == groups[i].1
      {
        if i < |front| {
          assert front[i].0 == key;
          assert Under(Together(groups), key) == Under(Together(front), key) + [] == front[i].1;
        } else {
          assert Under(Together(groups), key) == [] + last.1 == last.1;
        }
      }
    }
  }

  lemma NothingUnder(key: string)
    ensures Under([], key) == []
  {
  }

  lemma FieldFromLines(g: Grant, i: nat)
    requires i < 9
    ensures Under(Lines(g), Groups(g)[i].0) == Groups(g)[i].1
  {
    UnderGroups(Groups(g), Groups(g)[i].0);
  }

  lemma {:induction false} DecimalOnce(m: nat, n: nat)
    requires Decimal(m) == Decimal(n)
    ensures m == n
  {
    DecimalLength(m);
    DecimalLength(n);
    if m >= 10 {
      assert Decimal(m)[..|Decimal(m)| - 1] == Decimal(m / 10);
      assert Decimal(n)[..|Decimal(n)| - 1] == Decimal(n / 10);
      DecimalOnce(m / 10, n / 10);
      assert Decimal(m)[|Decimal(m)| - 1] == Digit(m % 10) && Decimal(n)[|Decimal(n)| - 1] == Digit(n % 10);
    }
  }

  lemma DecimalLength(n: nat)
    ensures |Decimal(n)| == 1 <==> n < 10
  {
  }

  lemma {:induction false} DecimalIsOneLine(n: nat)
    ensures OneLine(Decimal(n))
  {
    if n >= 10 {
      DecimalIsOneLine(n / 10);
    }
  }

  lemma {:induction false} TaggedPlain(key: string, values: seq<string>)
    requires ' ' !in key && OneLine(key) && AllOneLine(values)
    ensures AllPlain(Tagged(key, values))
  {
    if values != [] {
      TaggedPlain(key, values[..|values| - 1]);
    }
  }

  lemma {:induction false} GroupsArePlain(groups: seq<(string, seq<string>)>)
    requires forall i | 0 <= i < |groups| :: ' ' !in groups[i].0 && OneLine(groups[i].0) && AllOneLine(groups[i].1)
    ensures AllPlain(Together(groups))
  {
    hide Tagged, Plain;
    if groups != [] {
      var last := groups[|groups| - 1];
      GroupsArePlain(groups[..|groups| - 1]);
      TaggedPlain(last.0, last.1);
    }
  }

  lemma LinesArePlain(g: Grant)
    requires Signable(g)
    ensures AllPlain(Lines(g))
  {
    hide Decimal, AllPlain, Together;
    var free := FreeText(g);
    assert AllOneLine(free[0].1) && AllOneLine(free[1].1) && AllOneLine(free[2].1) && AllOneLine(free[3].1)
        && AllOneLine(free[4].1) && AllOneLine(free[5].1);
    DecimalIsOneLine(g.job);
    GroupsArePlain(Groups(g));
  }

  /** The same grant, but for an egress list that is absent in one and empty in the other. */
  predicate SameButForEgress(a: Grant, b: Grant) {
    a.(egress := None) == b.(egress := None) && a.egress.GetOr([]) == b.egress.GetOr([])
  }

  /** Whatever is signed, is signed for one grant: two grants have the same bytes exactly
      where they are equal field by field, up to an absent and an empty egress. */
  lemma SameBytesSameGrant(a: Grant, b: Grant, text: string)
    requires Signable(a) && Signable(b) && Wrote(text, Lines(a))
    ensures Wrote(text, Lines(b)) <==> SameButForEgress(a, b)
  {
    hide Rendered, Together, Decimal, AllPlain, Signable;
    if Wrote(text, Lines(b)) {
      LinesArePlain(a);
      LinesArePlain(b);
      assert Rendered(Lines(a)) == text[|CANONICAL| + 1..] && Rendered(Lines(b)) == text[|CANONICAL| + 1..];
      RenderedOnce(Lines(a), Lines(b));
      SameFields(a, b);
    }
    if SameButForEgress(a, b) {
      assert Groups(a) == Groups(b);
    }
  }

  lemma SameFields(a: Grant, b: Grant)
    requires Lines(a) == Lines(b)
    ensures SameButForEgress(a, b)
  {
    hide Lines, Decimal, Under, Flag, Strictness, Listed;
    forall i | 0 <= i < 9 ensures Groups(a)[i].1 == Groups(b)[i].1 {
      FieldFromLines(a, i);
      FieldFromLines(b, i);
    }
    assert Groups(a)[0].1 == Groups(b)[0].1 && Groups(a)[1].1 == Groups(b)[1].1 && Groups(a)[2].1 == Groups(b)[2].1;
    assert Groups(a)[3].1 == Groups(b)[3].1 && Groups(a)[4].1 == Groups(b)[4].1 && Groups(a)[5].1 == Groups(b)[5].1;
    assert Groups(a)[6].1 == Groups(b)[6].1 && Groups(a)[7].1 == Groups(b)[7].1 && Groups(a)[8].1 == Groups(b)[8].1;
    assert [a.session][0] == [b.session][0] && [Decimal(a.job)][0] == [Decimal(b.job)][0];
    DecimalOnce(a.job, b.job);
    OptionsOnce(a, b);
  }

  lemma OptionsOnce(a: Grant, b: Grant)
    requires Listed(a.closesOn) == Listed(b.closesOn) && Flag(a.network) == Flag(b.network)
    requires Strictness(a.enforcement) == Strictness(b.enforcement)
    ensures a.closesOn == b.closesOn && a.network == b.network && a.enforcement == b.enforcement
  {
    if a.closesOn.Some? && b.closesOn.Some? {
      assert Listed(a.closesOn)[0] == Listed(b.closesOn)[0];
    }
    if a.network.Some? && b.network.Some? {
      assert Flag(a.network)[0] == Flag(b.network)[0];
    }
    if a.enforcement.Some? && b.enforcement.Some? {
      assert Strictness(a.enforcement)[0] == Strictness(b.enforcement)[0];
    }
  }

  /** The two that cannot be told apart: no word about egress, and a grant of none. */
  lemma AbsentAndEmptyEgressCollide()
    ensures var absent := Grant("s", 1, [], [], [], None, None, None, None);
            absent != absent.(egress := Some([])) && Lines(absent) == Lines(absent.(egress := Some([])))
  {
  }

  // ------------------------------------------------------------------------------ the very bytes

  /** A field and each of its values, a line a value. */
  function Each(key: string, values: seq<string>): string {
    if values == [] then "" else Each(key, values[..|values| - 1]) + key + " " + values[|values| - 1] + "\n"
  }

  lemma {:induction false} RenderedAppend(a: seq<Line>, b: seq<Line>)
    ensures Rendered(a + b) == Rendered(a) + Rendered(b)
  {
    if b == [] {
      assert a + b == a;
    } else {
      var front, last := b[..|b| - 1], b[|b| - 1];
      assert (a + b)[..|a + b| - 1] == a + front;
      RenderedAppend(a, front);
      assert Rendered(a) + Rendered(front) + last.key + " " + last.value + "\n"
          == Rendered(a) + (Rendered(front) + last.key + " " + last.value + "\n");
    }
  }

  lemma {:induction false} RenderedTagged(key: string, values: seq<string>)
    ensures Rendered(Tagged(key, values)) == Each(key, values)
  {
    if values != [] {
      RenderedTagged(key, values[..|values| - 1]);
    }
  }

  lemma RenderedMore(groups: seq<(string, seq<string>)>, k: nat)
    requires k < |groups|
    ensures Rendered(Together(groups[..k + 1])) == Rendered(Together(groups[..k])) + Each(groups[k].0, groups[k].1)
  {
    hide Rendered, Each, Tagged;
    assert groups[..k + 1][..k] == groups[..k];
    RenderedAppend(Together(groups[..k]), Tagged(groups[k].0, groups[k].1));
    RenderedTagged(groups[k].0, groups[k].1);
  }

  lemma OneEach(key: string, value: string)
    ensures Each(key, [value]) == key + " " + value + "\n" && Each(key, []) == ""
  {
    var one := [value];
    assert one[..|one| - 1] == [] && one[|one| - 1] == value;
  }

  /** What follows the version: the session, the job, what may be read, written and run, and
      what else was asked for, in that order and nothing where nothing was asked. */
  function Body(g: Grant): string {
    Each("session", [g.session]) + Each("job", [Decimal(g.job)]) + Each("files", g.files) + Each("writes", g.writes)
    + Each("commands", g.commands)
    + (if g.closesOn.Some? then Each("closes_on", [g.closesOn.value]) else "")
    + (if g.network.Some? then Each("network", [if g.network.value then "true" else "false"]) else "")
    + (if g.egress.Some? then Each("egress", g.egress.value) else "")
    + (if g.enforcement.Some? then Each("enforcement", [if g.enforcement.value == Kernel then "kernel" else "best-effort"])
       else "")
  }

  lemma RenderedNine(groups: seq<(string, seq<string>)>)
    requires |groups| == 9
    ensures Rendered(Together(groups))
         == Each(groups[0].0, groups[0].1) + Each(groups[1].0, groups[1].1) + Each(groups[2].0, groups[2].1)
            + Each(groups[3].0, groups[3].1) + Each(groups[4].0, groups[4].1) + Each(groups[5].0, groups[5].1)
            + Each(groups[6].0, groups[6].1) + Each(groups[7].0, groups[7].1) + Each(groups[8].0, groups[8].1)
  {
    hide Each, Together, Rendered;
    assert groups[..0] == [] && groups[..9] == groups;
    NothingRendered();
    RenderedMore(groups, 0);
    RenderedMore(groups, 1);
    RenderedMore(groups, 2);
    RenderedMore(groups, 3);
    RenderedMore(groups, 4);
    RenderedMore(groups, 5);
    RenderedMore(groups, 6);
    RenderedMore(groups, 7);
    RenderedMore(groups, 8);
    assert "" + Each(groups[0].0, groups[0].1) == Each(groups[0].0, groups[0].1);
  }

  lemma BodyIsRendered(g: Grant)
    ensures Rendered(Lines(g)) == Body(g)
  {
    hide Each, Together, Rendered, Decimal;
    RenderedNine(Groups(g));
    OneEach("closes_on", "");
    OneEach("network", "");
    OneEach("egress", "");
    OneEach("enforcement", "");
  }

  lemma NothingRendered()
    ensures Rendered(Together([])) == ""
  {
  }

  /** The bytes that are signed. */
  lemma TheBytesSigned(g: Grant, text: string)
    ensures Wrote(text, Lines(g)) <==> text == "luu-approval v1\n" + Body(g)
  {
    hide Body, Rendered;
    BodyIsRendered(g);
    assert CANONICAL + "\n" == "luu-approval v1\n";
  }

  /** A grant that says nothing of enforcement, and the same one wanting the kernel's. */
  lemma TwoApprovals()
    ensures var g := Grant("s1", 3, [], ["src/main.rs"], [], None, None, None, None);
      var text := "luu-approval v1\n" + ("session s1\n" + "job 3\n" + "writes src/main.rs\n");
      && Wrote(text, Lines(g)) && Wrote(text + "enforcement kernel\n", Lines(g.(enforcement := Some(Kernel))))
  {
    hide Each, Wrote;
    var g := Grant("s1", 3, [], ["src/main.rs"], [], None, None, None, None);
    var asked := g.(enforcement := Some(Kernel));
    SpelledOut();
    var body := "session s1\n" + "job 3\n" + "writes src/main.rs\n";
    assert Body(g) == body && Body(asked) == body + "enforcement kernel\n";
    TheBytesSigned(g, "luu-approval v1\n" + body);
    TheBytesSigned(asked, "luu-approval v1\n" + (body + "enforcement kernel\n"));
    assert "luu-approval v1\n" + (body + "enforcement kernel\n") == "luu-approval v1\n" + body + "enforcement kernel\n";
  }

  lemma SpelledOut()
    ensures Each("session", ["s1"]) == "session s1\n" && Each("job", [Decimal(3)]) == "job 3\n"
    ensures Each("writes", ["src/main.rs"]) == "writes src/main.rs\n" && Each("enforcement", ["kernel"]) == "enforcement kernel\n"
    ensures Each("files", []) == Each("commands", []) == ""
  {
    hide Each;
    OneEach("session", "s1");
    OneEach("job", "3");
    OneEach("files", "");
    OneEach("commands", "");
    OneEach("writes", "src/main.rs");
    OneEach("enforcement", "kernel");
    assert Decimal(3) == "3";
  }
}
