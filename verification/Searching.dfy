/** Searching text from a position, and where a bare call may open. */
module Searching {
  import opened Conversation
  import opened Avoidance

  /** The first place at or after `from` where `pattern` stands. */
  function IndexOf(text: string, pattern: string, from: nat): (r: Option<nat>)
    ensures r.Some? ==> from <= r.value && At(pattern, text, r.value)
    ensures r.Some? ==> forall k | from <= k < r.value :: !At(pattern, text, k)
    ensures r.None? ==> forall k: nat | from <= k :: !At(pattern, text, k)
    decreases |text| - from
  {
    if from > |text| then None
    else if At(pattern, text, from) then Some(from)
    else IndexOf(text, pattern, from + 1)
  }

  /** The white space of a regular expression's `\s`. */
  predicate Space(c: char) {
    c in {' ', '\t', '\n', '\r', '\U{0B}', '\U{0C}', '\U{A0}', '\U{1680}', '\U{2028}', '\U{2029}', '\U{202F}',
          '\U{205F}', '\U{3000}', '\U{FEFF}'} || '\U{2000}' <= c <= '\U{200A}'
  }

  function SkipSpaces(text: string, from: nat): (k: nat)
    requires from <= |text|
    ensures from <= k <= |text|
    ensures forall i | from <= i < k :: Space(text[i])
    ensures k < |text| ==> !Space(text[k])
    decreases |text| - from
  {
    if from < |text| && Space(text[from]) then SkipSpaces(text, from + 1) else from
  }

  function SkipBlanks(text: string, from: nat): (k: nat)
    requires from <= |text|
    ensures from <= k <= |text|
    ensures forall i | from <= i < k :: text[i] in {' ', '\t'}
    ensures k < |text| ==> text[k] !in {' ', '\t'}
    decreases |text| - from
  {
    if from < |text| && text[from] in {' ', '\t'} then SkipBlanks(text, from + 1) else from
  }

  const NAME := "\"name\""

  /** `{"name":`, with white space wherever it may be. */
  predicate OpensCall(text: string, k: nat) {
    && k < |text| && text[k] == '{'
    && var name := SkipSpaces(text, k + 1);
       At(NAME, text, name)
       && var colon := SkipSpaces(text, name + |NAME|);
          colon < |text| && text[colon] == ':'
  }

  /** From here on there is white space at most, and the colon. */
  predicate MayBeColon(s: string, from: nat)
    requires from <= |s|
  {
    var colon := SkipSpaces(s, from);
    colon == |s| || (s[colon] == ':' && colon + 1 == |s|)
  }

  predicate MayBeName(s: string, from: nat)
    requires from <= |s|
  {
    var name := SkipSpaces(s, from);
    s[name..] <= NAME || (At(NAME, s, name) && MayBeColon(s, name + |NAME|))
  }

  /** What could still become `{"name":`, all of it. */
  predicate MayOpenCall(s: string) {
    var k := SkipSpaces(s, 0);
    k == |s| || (s[k] == '{' && MayBeName(s, k + 1))
  }

  function BareOn(text: string, line: nat): (r: Option<nat>)
    requires line <= |text|
    ensures r.Some? ==> line <= r.value < |text| && OpensCall(text, r.value)
  {
    var k := SkipBlanks(text, line);
    if OpensCall(text, k) then Some(k) else None
  }

  /** Where a bare call may begin, from a position on: a brace, first on its line, that opens
      a name. */
  function BareStart(text: string, from: nat): (r: Option<nat>)
    requires from <= |text|
    ensures r.Some? ==> from <= r.value < |text| && OpensCall(text, r.value)
    decreases |text| - from
  {
    if from == 0 && BareOn(text, 0).Some? then BareOn(text, 0)
    else if from == |text| then None
    else if text[from] == '\n' && BareOn(text, from + 1).Some? then BareOn(text, from + 1)
    else BareStart(text, from + 1)
  }

  // ------------------------------------------------------------------- what the scans look for

  predicate Spaced(w: string) {
    forall i | 0 <= i < |w| :: Space(w[i])
  }

  /** A brace, a name and a colon, with white space wherever it may be. */
  function CallHead(inner: string, after: string): string {
    "{" + inner + NAME + after + ":"
  }

  lemma {:induction false} SkipsAll(text: string, from: nat, k: nat)
    requires from <= k <= |text| && forall i | from <= i < k :: Space(text[i])
    requires k < |text| ==> !Space(text[k])
    ensures SkipSpaces(text, from) == k
    decreases k - from
  {
    if from < k {
      SkipsAll(text, from + 1, k);
    }
  }

  lemma {:induction false} BlanksStop(text: string, from: nat, k: nat)
    requires from <= k < |text| && forall i | from <= i < k :: text[i] in {' ', '\t'}
    requires text[k] !in {' ', '\t'}
    ensures SkipBlanks(text, from) == k
    decreases k - from
  {
    if from < k {
      BlanksStop(text, from + 1, k);
    }
  }

  /** A call opens exactly where its head is written. */
  lemma OpensCallMeaning(text: string, k: nat)
    requires k <= |text|
    ensures OpensCall(text, k)
       <==> exists inner, after :: Spaced(inner) && Spaced(after) && CallHead(inner, after) <= text[k..]
  {
    hide OpensCall, Spaced, CallHead;
    if OpensCall(text, k) {
      var inner, after := HeadOf(text, k);
    }
    forall inner, after | Spaced(inner) && Spaced(after) && CallHead(inner, after) <= text[k..]
      ensures OpensCall(text, k)
    {
      HeadOpens(text, k, inner, after);
    }
  }

  lemma FiveSlices(text: string, a: nat, b: nat, c: nat, d: nat, e: nat, f: nat)
    requires a <= b <= c <= d <= e <= f <= |text|
    ensures text[a..f] == text[a..b] + text[b..c] + text[c..d] + text[d..e] + text[e..f]
  {
    TwoSlices(text, a, e, f);
    TwoSlices(text, a, d, e);
    TwoSlices(text, a, c, d);
    TwoSlices(text, a, b, c);
  }

  lemma TwoSlices(text: string, a: nat, b: nat, c: nat)
    requires a <= b <= c <= |text|
    ensures text[a..c] == text[a..b] + text[b..c]
  {
  }

  lemma WhereItOpens(text: string, k: nat) returns (name: nat, colon: nat)
    requires OpensCall(text, k)
    ensures k < name && name + |NAME| <= colon < |text|
    ensures text[k] == '{' && text[name..name + |NAME|] == NAME && text[colon] == ':'
    ensures Spaced(text[k + 1..name]) && Spaced(text[name + |NAME|..colon])
  {
    hide Space;
    name := SkipSpaces(text, k + 1);
    colon := SkipSpaces(text, name + |NAME|);
  }

  lemma HeadOf(text: string, k: nat) returns (inner: string, after: string)
    requires OpensCall(text, k)
    ensures k <= |text| && Spaced(inner) && Spaced(after) && CallHead(inner, after) <= text[k..]
  {
    hide OpensCall, Spaced, CallHead;
    var name, colon := WhereItOpens(text, k);
    inner, after := text[k + 1..name], text[name + |NAME|..colon];
    HeadWritten(text, k, name, colon);
  }

  lemma HeadWritten(text: string, k: nat, name: nat, colon: nat)
    requires k < name && name + |NAME| <= colon < |text|
    requires text[k] == '{' && text[name..name + |NAME|] == NAME && text[colon] == ':'
    ensures CallHead(text[k + 1..name], text[name + |NAME|..colon]) <= text[k..]
  {
    FiveSlices(text, k, k + 1, name, name + |NAME|, colon, colon + 1);
    assert text[k..k + 1] == "{" && text[colon..colon + 1] == ":";
    TwoSlices(text, k, colon + 1, |text|);
    assert text[k..|text|] == text[k..];
  }

  lemma MarksAreNoSpaces()
    ensures !Space(NAME[0]) && !Space(':') && !Space('{')
  {
  }

  lemma StripPrefix(text: string, k: nat, a: string, b: string)
    requires k <= |text| && a + b <= text[k..]
    ensures k + |a| + |b| <= |text| && text[k..k + |a|] == a && b <= text[k + |a|..]
  {
    assert text[k..][..|a|] == a && text[k..][|a|..] == text[k + |a|..];
    assert (a + b)[|a|..] == b;
  }

  /** The white space that stands there is skipped, up to what stands after it. */
  lemma SkipsSlice(text: string, from: nat, w: string)
    requires from + |w| < |text| && text[from..from + |w|] == w && Spaced(w) && !Space(text[from + |w|])
    ensures SkipSpaces(text, from) == from + |w|
  {
    hide Space;
    assert forall i | from <= i < from + |w| :: text[i] == text[from..from + |w|][i - from];
    SkipsAll(text, from, from + |w|);
  }

  lemma HeadOpens(text: string, k: nat, inner: string, after: string)
    requires k <= |text| && Spaced(inner) && Spaced(after) && CallHead(inner, after) <= text[k..]
    ensures OpensCall(text, k)
  {
    hide Space, Spaced, SkipSpaces, CallHead;
    MarksAreNoSpaces();
    HeadIs(inner, after);
    var name := k + 1 + |inner|;
    var colon := name + |NAME| + |after|;
    StripPrefix(text, k, "{", inner + (NAME + (after + ":")));
    StripPrefix(text, k + 1, inner, NAME + (after + ":"));
    StripPrefix(text, name, NAME, after + ":");
    StripPrefix(text, name + |NAME|, after, ":");
    assert text[k] == text[k..k + 1][0] == '{' && text[name] == text[name..name + |NAME|][0];
    assert text[colon] == text[colon..][0] == ':';
    SkipsSlice(text, k + 1, inner);
    SkipsSlice(text, name + |NAME|, after);
  }

  /** Skipping white space that starts a text skips all of it. */
  lemma PrefixSkips(s: string, from: nat, w: string, rest: string)
    requires from <= |s| && Spaced(w) && rest != "" && !Space(rest[0]) && s[from..] <= w + rest
    ensures SkipSpaces(s, from) == if |s| <= from + |w| then |s| else from + |w|
    ensures s[SkipSpaces(s, from)..] <= rest
  {
    hide Space;
    var t, end := s[from..], if |s| <= from + |w| then |s| else from + |w|;
    assert forall i | 0 <= i < |t| :: s[from + i] == t[i] == (w + rest)[i];
    assert forall i | from <= i < end :: s[i] == w[i - from];
    if end < |s| { assert s[end] == rest[0]; }
    SkipsAll(s, from, end);
    assert s[end..] == t[end - from..];
  }

  lemma SkippedIsSpaced(s: string, from: nat)
    requires from <= |s|
    ensures Spaced(s[from..SkipSpaces(s, from)]) && s[from..] == s[from..SkipSpaces(s, from)] + s[SkipSpaces(s, from)..]
  {
    hide Space;
  }

  /** A prefix of two parts either stops within the first or has all of it. */
  lemma PrefixOfTwo(t: string, head: string, tail: string)
    requires t <= head + tail
    ensures t <= head || (|head| <= |t| && t[..|head|] == head && t[|head|..] <= tail)
  {
    if |t| <= |head| {
      assert (head + tail)[..|t|] == head[..|t|];
    } else {
      assert t[..|head|] == (head + tail)[..|head|] == head;
      assert t[|head|..] == (head + tail)[|head|..|t|] == tail[..|t| - |head|];
    }
  }

  lemma PrefixPlus(a: string, b: string, c: string)
    requires b <= c
    ensures a + b <= a + c
  {
  }

  lemma ColonMeaning(s: string, from: nat)
    requires from <= |s|
    ensures MayBeColon(s, from) <==> exists after :: Spaced(after) && s[from..] <= after + ":"
  {
    hide Spaced;
    SkippedIsSpaced(s, from);
    var colon := SkipSpaces(s, from);
    if MayBeColon(s, from) {
      assert s[colon..] <= ":";
      PrefixPlus(s[from..colon], s[colon..], ":");
    }
    forall after | Spaced(after) && s[from..] <= after + ":" ensures MayBeColon(s, from) {
      PrefixSkips(s, from, after, ":");
      assert s[colon..] <= ":";
      if colon < |s| { assert s[colon..][0] == s[colon] && |s[colon..]| <= 1; }
    }
  }

  lemma NameMeaning(s: string, from: nat)
    requires from <= |s|
    ensures MayBeName(s, from)
       <==> exists inner, after :: Spaced(inner) && Spaced(after) && s[from..] <= inner + (NAME + (after + ":"))
  {
    hide Spaced, MayBeColon, SkipSpaces, Space;
    var name := SkipSpaces(s, from);
    SkippedIsSpaced(s, from);
    if MayBeName(s, from) {
      var after := "";
      NoSpaces();
      if s[name..] <= NAME {
        PrefixPlus(NAME, "", "" + ":");
        assert NAME + "" == NAME && s[name..] <= NAME + ("" + ":");
      } else {
        ColonMeaning(s, name + |NAME|);
        after :| Spaced(after) && s[name + |NAME|..] <= after + ":";
        PrefixPlus(NAME, s[name + |NAME|..], after + ":");
        NameThere(s, name);
      }
      PrefixPlus(s[from..name], s[name..], NAME + (after + ":"));
    }
    forall inner, after | Spaced(inner) && Spaced(after) && s[from..] <= inner + (NAME + (after + ":"))
      ensures MayBeName(s, from)
    {
      NameStarts(after);
      PrefixSkips(s, from, inner, NAME + (after + ":"));
      PrefixOfTwo(s[name..], NAME, after + ":");
      if !(s[name..] <= NAME) {
        assert s[name..][|NAME|..] == s[name + |NAME|..];
        assert s[name..name + |NAME|] == s[name..][..|NAME|];
        ColonMeaning(s, name + |NAME|);
      }
    }
  }

  lemma NoSpaces()
    ensures Spaced("")
  {
  }

  lemma NameStarts(after: string)
    ensures NAME + (after + ":") != "" && !Space((NAME + (after + ":"))[0])
  {
  }

  lemma NameThere(s: string, name: nat)
    requires At(NAME, s, name)
    ensures name + |NAME| <= |s| && s[name..] == NAME + s[name + |NAME|..]
  {
    assert s[name..] == s[name..name + |NAME|] + s[name + |NAME|..];
  }

  /** What could still become a call is exactly what starts one, white space ahead of it
      included. */
  lemma MayOpenCallMeaning(s: string)
    ensures MayOpenCall(s)
       <==> exists ahead, inner, after ::
              Spaced(ahead) && Spaced(inner) && Spaced(after) && s <= ahead + CallHead(inner, after)
  {
    hide Spaced, MayOpenCall, CallHead;
    if MayOpenCall(s) {
      var ahead, inner, after := CouldBecome(s);
    }
    forall ahead, inner, after
      | Spaced(ahead) && Spaced(inner) && Spaced(after) && s <= ahead + CallHead(inner, after)
      ensures MayOpenCall(s)
    {
      StartsACall(s, ahead, inner, after);
    }
  }

  lemma CouldBecome(s: string) returns (ahead: string, inner: string, after: string)
    requires MayOpenCall(s)
    ensures Spaced(ahead) && Spaced(inner) && Spaced(after) && s <= ahead + CallHead(inner, after)
  {
    hide Spaced, MayBeName, SkipSpaces, CallHead, Space;
    var k := SkipSpaces(s, 0);
    SkippedIsSpaced(s, 0);
    assert s[0..] == s && s[0..k] == s[..k];
    ahead, inner, after := s[..k], "", "";
    NoSpaces();
    if k < |s| {
      NameMeaning(s, k + 1);
      inner, after :| Spaced(inner) && Spaced(after) && s[k + 1..] <= inner + (NAME + (after + ":"));
      PrefixPlus("{", s[k + 1..], inner + (NAME + (after + ":")));
      assert s[k..] == "{" + s[k + 1..];
    } else {
      assert s[k..] == "";
    }
    HeadIs(inner, after);
    PrefixPlus(s[..k], s[k..], CallHead(inner, after));
  }

  lemma StartsACall(s: string, ahead: string, inner: string, after: string)
    requires Spaced(ahead) && Spaced(inner) && Spaced(after) && s <= ahead + CallHead(inner, after)
    ensures MayOpenCall(s)
  {
    hide Spaced, MayBeName, SkipSpaces, CallHead, Space;
    var k := SkipSpaces(s, 0);
    assert s[0..] == s;
    HeadIs(inner, after);
    PrefixSkips(s, 0, ahead, CallHead(inner, after));
    if k < |s| {
      PrefixOfTwo(s[k..], "{", inner + (NAME + (after + ":")));
      BraceAhead(s, k);
      NameMeaning(s, k + 1);
    }
  }

  lemma HeadIs(inner: string, after: string)
    ensures CallHead(inner, after) == "{" + (inner + (NAME + (after + ":")))
    ensures CallHead(inner, after) != "" && !Space(CallHead(inner, after)[0])
  {
  }

  lemma BraceAhead(s: string, k: nat)
    requires k < |s| && (s[k..] <= "{" || s[k..][..1] == "{")
    ensures s[k] == '{' && s[k..][1..] == s[k + 1..] && (s[k..] <= "{" ==> s[k + 1..] == "")
  {
    assert s[k..][0] == s[k];
  }

  /** A line of the text, or what `from` leaves of it: the first where nothing was skipped. */
  predicate LineStart(text: string, from: nat, line: nat) {
    (from == 0 && line == 0) || (from < line <= |text| && text[line - 1] == '\n')
  }

  /** A bare call, read from `from`: a brace, first on its line, that opens a name. */
  predicate BareCallOn(text: string, line: nat, k: nat) {
    line <= k && OpensCall(text, k) && forall i | line <= i < k :: text[i] in {' ', '\t'}
  }

  ghost predicate BareCallAt(text: string, from: nat, k: nat) {
    exists line: nat | line <= k :: LineStart(text, from, line) && BareCallOn(text, line, k)
  }

  lemma BareOnMeaning(text: string, line: nat, k: nat)
    requires line <= |text|
    ensures BareOn(text, line) == Some(k) <==> BareCallOn(text, line, k)
  {
    if BareCallOn(text, line, k) {
      BlanksStop(text, line, k);
    }
  }

  /** A line further on opens its call further on. */
  lemma LaterLinesOpenLater(text: string, from: nat, line: nat, k: nat, later: nat)
    requires line <= from <= |text| && from > 0 && BareCallOn(text, line, k) && BareCallAt(text, from, later)
    ensures k <= later
  {
    hide OpensCall;
    var next: nat :| next <= later && LineStart(text, from, next) && BareCallOn(text, next, later);
    assert !(line <= next - 1 < k);
  }

  lemma BareCallStep(text: string, from: nat, k: nat)
    requires from <= |text|
    ensures BareCallAt(text, from, k)
       <==> || (from == 0 && BareCallOn(text, 0, k))
            || (from < |text| && text[from] == '\n' && BareCallOn(text, from + 1, k))
            || (from < |text| && BareCallAt(text, from + 1, k))
  {
    hide OpensCall, BareCallOn;
    if from < |text| && BareCallAt(text, from + 1, k) {
      var line: nat :| line <= k && LineStart(text, from + 1, line) && BareCallOn(text, line, k);
      assert LineStart(text, from, line);
    }
    if from < |text| && text[from] == '\n' && BareCallOn(text, from + 1, k) {
      OnItsLine(text, from + 1, k);
      assert LineStart(text, from, from + 1);
    }
    if from == 0 && BareCallOn(text, 0, k) {
      assert LineStart(text, from, 0);
    }
    if BareCallAt(text, from, k) {
      var line: nat :| line <= k && LineStart(text, from, line) && BareCallOn(text, line, k);
      assert line == from + 1 || line == 0 || LineStart(text, from + 1, line);
    }
  }

  lemma NoCallOnABreak(text: string, k: nat)
    requires BareCallOn(text, 0, k)
    ensures text[0] != '\n'
  {
  }

  lemma OnItsLine(text: string, line: nat, k: nat)
    requires BareCallOn(text, line, k)
    ensures line <= k
  {
  }

  /** The scan for a bare call finds the first there is, and nothing only where there is none. */
  lemma {:induction false} BareStartIsFirst(text: string, from: nat)
    requires from <= |text|
    ensures BareStart(text, from).Some? ==>
      && BareCallAt(text, from, BareStart(text, from).value)
      && forall k: nat | BareCallAt(text, from, k) :: BareStart(text, from).value <= k
    ensures BareStart(text, from).None? ==> forall k: nat :: !BareCallAt(text, from, k)
    decreases |text| - from
  {
    hide BareOn, BareCallOn, BareCallAt, OpensCall;
    var here := if from == 0 then BareOn(text, 0) else None;
    var below := if from < |text| && text[from] == '\n' then BareOn(text, from + 1) else None;
    if from < |text| {
      var next := from + 1;
      BareStartIsFirst(text, next);
      if here.Some? {
        BareOnMeaning(text, 0, here.value);
        NoCallOnABreak(text, here.value);
      }
      if below.Some? {
        BareOnMeaning(text, from + 1, below.value);
      }
      forall k: nat | BareCallAt(text, next, k)
        ensures (here.Some? ==> here.value <= k) && (below.Some? ==> below.value <= k)
      {
        if here.Some? { LaterLinesOpenLater(text, from + 1, 0, here.value, k); }
        if below.Some? { LaterLinesOpenLater(text, from + 1, from + 1, below.value, k); }
      }
    }
    forall k: nat ensures BareCallAt(text, from, k)
       <==> here == Some(k) || below == Some(k) || (from < |text| && BareCallAt(text, from + 1, k))
    {
      BareCallStep(text, from, k);
      BareOnMeaning(text, 0, k);
      if from < |text| { BareOnMeaning(text, from + 1, k); }
    }
  }

  // -------------------------------------------------------------------------------- trimming

  function DropSpaces(s: string): (r: string)
    ensures exists k | 0 <= k <= |s| :: r == s[k..] && forall i | 0 <= i < k :: Space(s[i])
  {
    s[SkipSpaces(s, 0)..]
  }

  function DropNewlines(s: string): string {
    if s != "" && s[0] == '\n' then DropNewlines(s[1..]) else s
  }

  function DropTrailing(s: string): string {
    if s != "" && Space(s[|s| - 1]) then DropTrailing(s[..|s| - 1]) else s
  }
}
