/** Substring avoidance: borders of a pattern, the state a text leaves the matcher in, and
    the rules that follow from it. */
module Avoidance {
  import opened Conversation
  import opened Gbnf

  const NUL: char := '\0'

  predicate NulFree(s: string) {
    NUL !in s
  }

  /** The first `k` characters of the pattern are what `text` ends in. */
  predicate Matched(p: string, text: string, k: nat) {
    k <= |p| && k <= |text| && p[..k] == text[|text| - k..]
  }

  /** A proper prefix of `p[..i]` that is also its suffix. */
  predicate Border(p: string, i: nat, k: nat)
    requires i <= |p|
  {
    k < i && p[..k] == p[i - k..i]
  }

  ghost predicate LongestBorder(p: string, i: nat, k: nat)
    requires i <= |p|
  {
    Border(p, i, k) && forall j: nat | k < j < i :: !Border(p, i, j)
  }

  /** Every prefix length a mismatch at `i` may fall back to, `i` itself included. */
  predicate Fallback(p: string, i: nat, k: nat)
    requires i <= |p|
  {
    k == i || Border(p, i, k)
  }

  lemma BorderOfBorder(p: string, i: nat, k: nat, j: nat)
    requires i <= |p| && Border(p, i, k) && j < k
    ensures Border(p, i, j) <==> Border(p, k, j)
  {
    assert p[i - j..i] == p[i - k..i][k - j..];
    assert p[k - j..k] == p[..k][k - j..];
  }

  lemma BorderExtends(p: string, i: nat, k: nat)
    requires i < |p| && k < i
    ensures Border(p, i + 1, k + 1) <==> Border(p, i, k) && p[k] == p[i]
  {
    assert p[..k + 1] == p[..k] + [p[k]];
    assert p[i - k..i + 1] == p[i - k..i] + [p[i]];
  }

  /** Matching a text that is in state `i` is matching the pattern's own prefix. */
  lemma MatchedIsFallback(p: string, text: string, i: nat, k: nat)
    requires Matched(p, text, i) && k <= i
    ensures Matched(p, text, k) <==> Fallback(p, i, k)
  {
    if k < i {
      assert text[|text| - k..] == text[|text| - i..][i - k..];
      assert p[i - k..i] == p[..i][i - k..];
    }
  }

  lemma MatchedExtends(p: string, text: string, c: char, k: nat)
    requires k < |p|
    ensures Matched(p, text + [c], k + 1) <==> Matched(p, text, k) && p[k] == c
  {
    if k <= |text| {
      assert p[..k + 1] == p[..k] + [p[k]];
      assert (text + [c])[|text| + 1 - (k + 1)..] == text[|text| - k..] + [c];
    }
  }

  /** The state of the matcher: the longest pattern prefix the text ends in. */
  ghost predicate InState(p: string, text: string, i: nat) {
    Matched(p, text, i) && forall k | i < k <= |p| :: !Matched(p, text, k)
  }

  predicate At(p: string, text: string, a: int) {
    0 <= a <= |text| - |p| && text[a..a + |p|] == p
  }

  ghost predicate Occurs(p: string, text: string) {
    exists a :: At(p, text, a)
  }

  lemma MatchedIsAtTheEnd(p: string, text: string)
    ensures Matched(p, text, |p|) <==> At(p, text, |text| - |p|)
  {
    assert p[..|p|] == p;
    if |p| <= |text| {
      assert text[|text| - |p|..|text| - |p| + |p|] == text[|text| - |p|..];
    }
  }

  lemma OccursAtTheEnd(p: string, text: string, c: char)
    requires p != ""
    ensures Occurs(p, text + [c]) <==> Occurs(p, text) || Matched(p, text + [c], |p|)
  {
    var longer := text + [c];
    MatchedIsAtTheEnd(p, longer);
    if a :| At(p, longer, a) && a + |p| <= |text| {
      assert text[a..a + |p|] == longer[a..a + |p|];
      assert At(p, text, a);
    }
    if a :| At(p, text, a) {
      assert text[a..a + |p|] == longer[a..a + |p|];
      assert At(p, longer, a);
    }
  }

  /** What a character does in state `i`: it extends the longest fallback that expects it,
      and otherwise starts over. */
  ghost predicate StepsTo(p: string, i: nat, c: char, next: nat)
    requires i < |p|
  {
    if next == 0 then forall k: nat | k <= i && Fallback(p, i, k) :: p[k] != c
    else && next <= i + 1 && Fallback(p, i, next - 1) && p[next - 1] == c
         && forall k: nat | next <= k <= i && Fallback(p, i, k) :: p[k] != c
  }

  lemma StateAfter(p: string, text: string, i: nat, c: char, next: nat)
    requires i < |p| && InState(p, text, i) && StepsTo(p, i, c, next)
    ensures InState(p, text + [c], next)
  {
    forall k | next < k <= |p| ensures !Matched(p, text + [c], k) {
      MatchedExtends(p, text, c, k - 1);
      if Matched(p, text, k - 1) {
        assert k - 1 <= i;
        MatchedIsFallback(p, text, i, k - 1);
      }
    }
    if next > 0 {
      MatchedIsFallback(p, text, i, next - 1);
      MatchedExtends(p, text, c, next - 1);
    }
  }

  // ----------------------------------------------------------------------- the specials of a state

  /** One character a state singles out, and where it leads: past the pattern's end there
      is no state, only the tail. */
  datatype Special = Special(c: char, target: Option<nat>)

  predicate Listed(specials: seq<Special>, c: char) {
    exists k | 0 <= k < |specials| :: specials[k].c == c
  }

  function Target(p: string, k: nat): Option<nat> {
    if k + 1 == |p| then None else Some(k + 1)
  }

  /** The specials list, read so far down to (not including) fallback `below`, names each
      expected character once, with the longest fallback that expects it. */
  ghost predicate Governs(p: string, i: nat, specials: seq<Special>, below: int)
    requires i < |p|
  {
    && (forall k: nat | below < k <= i && Fallback(p, i, k) :: Listed(specials, p[k]))
    && (forall s | 0 <= s < |specials| :: Explained(p, i, specials[s], below))
  }

  ghost predicate Explained(p: string, i: nat, s: Special, below: int)
    requires i < |p|
  {
    exists k :: below < k && Chosen(p, i, s, k)
  }

  /** `k` is the longest fallback that expects this special's character. */
  ghost predicate Chosen(p: string, i: nat, s: Special, k: int)
    requires i < |p|
  {
    && 0 <= k <= i && Fallback(p, i, k) && p[k] == s.c && s.target == Target(p, k)
    && forall j: nat | k < j <= i && Fallback(p, i, j) :: p[j] != p[k]
  }

  /** One link of the chain: the next shorter fallback is considered. */
  lemma GovernsNext(p: string, i: nat, specials: seq<Special>, k: nat)
    requires i < |p| && k <= i && Fallback(p, i, k) && Governs(p, i, specials, k)
    ensures Governs(p, i, if Listed(specials, p[k]) then specials else specials + [Special(p[k], Target(p, k))], k - 1)
  {
    var after := if Listed(specials, p[k]) then specials else specials + [Special(p[k], Target(p, k))];
    forall j: nat | k - 1 < j <= i && Fallback(p, i, j) ensures Listed(after, p[j]) {
      if j == k && !Listed(specials, p[k]) {
        assert after[|specials|].c == p[j];
      } else {
        var s :| 0 <= s < |specials| && specials[s].c == p[j];
        assert after[s].c == p[j];
      }
    }
    forall s | 0 <= s < |after|
      ensures Explained(p, i, after[s], k - 1)
    {
      if s < |specials| {
        assert after[s] == specials[s] && Explained(p, i, specials[s], k);
        var j :| k < j && Chosen(p, i, specials[s], j);
        assert k - 1 < j && Chosen(p, i, after[s], j);
      } else {
        forall l: nat | k < l <= i && Fallback(p, i, l) ensures p[l] != p[k] {
          assert Listed(specials, p[l]);
        }
        assert k - 1 < k && Chosen(p, i, after[s], k);
      }
    }
  }

  /** Nothing lies between a fallback and its longest border. */
  lemma GovernsSkip(p: string, i: nat, specials: seq<Special>, k: nat, next: nat)
    requires i < |p| && k <= i && Fallback(p, i, k) && k > 0 && LongestBorder(p, k, next)
    requires Governs(p, i, specials, k - 1)
    ensures Governs(p, i, specials, next) && Fallback(p, i, next)
  {
    forall s | 0 <= s < |specials| ensures Explained(p, i, specials[s], next) {
      assert Explained(p, i, specials[s], k - 1);
      var j :| k - 1 < j && Chosen(p, i, specials[s], j);
      assert next < j;
    }
    forall j: nat | next < j < k ensures !Fallback(p, i, j) {
      if k < i { BorderOfBorder(p, i, k, j); }
    }
    if k < i { BorderOfBorder(p, i, k, next); }
  }

  /** A finished list decides every character. */
  lemma SpecialsDecide(p: string, i: nat, specials: seq<Special>, c: char)
    requires i < |p| && Governs(p, i, specials, -1)
    ensures !Listed(specials, c) ==> StepsTo(p, i, c, 0)
    ensures forall s | 0 <= s < |specials| && specials[s].c == c ::
              && (specials[s].target == None ==> StepsTo(p, i, c, |p|))
              && (specials[s].target.Some? ==>
                    0 < specials[s].target.value < |p| && StepsTo(p, i, c, specials[s].target.value))
  {
    forall s | 0 <= s < |specials| && specials[s].c == c
      ensures specials[s].target == None ==> StepsTo(p, i, c, |p|)
      ensures specials[s].target.Some? ==>
        0 < specials[s].target.value < |p| && StepsTo(p, i, c, specials[s].target.value)
    {
      assert Explained(p, i, specials[s], -1);
      var k :| -1 < k && Chosen(p, i, specials[s], k);
      assert StepsTo(p, i, c, k + 1);
    }
  }

  // --------------------------------------------------------------------------- the language

  function Dest(prefix: string, tail: RuleName, target: Option<nat>): Expr {
    match target
    case None => Ref(tail)
    case Some(next) => Ref(State(prefix, next))
  }

  function Branch(prefix: string, tail: RuleName, s: Special): Expr {
    Cat(Lit([s.c]), Dest(prefix, tail, s.target))
  }

  function Branches(prefix: string, tail: RuleName, specials: seq<Special>): seq<Expr> {
    if specials == [] then [Lit("")]
    else Branches(prefix, tail, specials[..|specials| - 1]) + [Branch(prefix, tail, specials[|specials| - 1])]
  }

  function CharsOf(specials: seq<Special>): set<char> {
    set k | 0 <= k < |specials| :: specials[k].c
  }

  /** Anything no special expects starts over. */
  function Otherwise(prefix: string, specials: seq<Special>): Expr {
    Cat(NoneOf({NUL} + CharsOf(specials)), Ref(State(prefix, 0)))
  }

  function StateExpr(prefix: string, tail: RuleName, specials: seq<Special>): Expr {
    Choice(Branches(prefix, tail, specials) + [Otherwise(prefix, specials)])
  }

  /** The grammar holds the rules of every state of `p`. */
  ghost predicate Avoids(g: Rules, p: string, prefix: string, tail: RuleName) {
    forall i: nat | i < |p| :: HasStateRule(g, p, prefix, tail, i)
  }

  ghost predicate HasStateRule(g: Rules, p: string, prefix: string, tail: RuleName, i: nat)
    requires i < |p|
  {
    exists specials :: StateRule(g, p, prefix, tail, i, specials)
  }

  ghost predicate StateRule(g: Rules, p: string, prefix: string, tail: RuleName, i: nat, specials: seq<Special>)
    requires i < |p|
  {
    Governs(p, i, specials, -1) && Body(g, State(prefix, i)) == Some(StateExpr(prefix, tail, specials))
  }

  /** The promise, after `read`: text without the pattern; or text that ends in the first
      and only occurrence of it, and then the tail and nothing else. */
  ghost predicate Allowed(g: Rules, p: string, tail: RuleName, read: string, s: string) {
    (NulFree(s) && !Occurs(p, read + s)) || exists k :: Hands(g, p, tail, read, s, k)
  }

  ghost predicate Hands(g: Rules, p: string, tail: RuleName, read: string, s: string, k: int) {
    && 0 < k <= |s| && NulFree(s[..k])
    && Matched(p, read + s[..k], |p|) && !Occurs(p, read + s[..k - 1])
    && Generates(g, Ref(tail), s[k..])
  }

  lemma AllowedStep(g: Rules, p: string, tail: RuleName, read: string, c: char, rest: string)
    requires p != "" && !Occurs(p, read)
    ensures Allowed(g, p, tail, read, [c] + rest)
      <==> c != NUL && if Matched(p, read + [c], |p|) then Generates(g, Ref(tail), rest)
                       else Allowed(g, p, tail, read + [c], rest)
  {
    var s := [c] + rest;
    OccursAtTheEnd(p, read, c);
    assert read + s == read + [c] + rest;
    assert s[..1] == [c] && s[1..] == rest && s[..0] == "";
    assert read + s[..0] == read;
    if Matched(p, read + [c], |p|) {
      OccursStays(p, read + [c], rest);
      if c != NUL && Generates(g, Ref(tail), rest) {
        assert Hands(g, p, tail, read, s, 1);
      }
      if k :| Hands(g, p, tail, read, s, k) {
        assert s[..k][0] == c;
        if k > 1 {
          assert read + s[..k - 1] == read + [c] + s[1..k - 1];
          OccursStays(p, read + [c], s[1..k - 1]);
        }
      }
    } else {
      AllowedShift(g, p, tail, read, c, rest);
    }
  }

  lemma AllowedShift(g: Rules, p: string, tail: RuleName, read: string, c: char, rest: string)
    requires p != "" && !Occurs(p, read) && !Matched(p, read + [c], |p|)
    ensures Allowed(g, p, tail, read, [c] + rest) <==> c != NUL && Allowed(g, p, tail, read + [c], rest)
  {
    var s := [c] + rest;
    assert read + s == read + [c] + rest;
    forall k | 0 < k <= |rest|
      ensures c != NUL && Hands(g, p, tail, read + [c], rest, k) <==> Hands(g, p, tail, read, s, k + 1)
    {
      assert s[..k + 1] == [c] + rest[..k] && s[k + 1..] == rest[k..];
      assert read + s[..k + 1] == read + [c] + rest[..k];
      assert s[..k] == [c] + rest[..k - 1];
      assert read + s[..k] == read + [c] + rest[..k - 1];
    }
    if k :| Hands(g, p, tail, read + [c], rest, k) && c != NUL {
      assert Hands(g, p, tail, read, s, k + 1);
    }
    if k :| Hands(g, p, tail, read, s, k) {
      assert s[..1] == [c];
      if k > 1 {
        assert Hands(g, p, tail, read + [c], rest, k - 1);
      }
    }
  }

  lemma OccursStays(p: string, text: string, more: string)
    ensures Occurs(p, text) ==> Occurs(p, text + more)
    ensures Matched(p, text, |p|) ==> Occurs(p, text)
  {
    if a :| At(p, text, a) {
      assert (text + more)[a..a + |p|] == text[a..a + |p|];
      assert At(p, text + more, a);
    }
    MatchedIsAtTheEnd(p, text);
  }

  lemma {:induction false} BranchMembers(prefix: string, tail: RuleName, specials: seq<Special>, e: Expr)
    ensures e in Branches(prefix, tail, specials)
      <==> e == Lit("") || exists k | 0 <= k < |specials| :: e == Branch(prefix, tail, specials[k])
  {
    if specials != [] {
      BranchMembers(prefix, tail, specials[..|specials| - 1], e);
      if k :| 0 <= k < |specials| && e == Branch(prefix, tail, specials[k]) {
        if k < |specials| - 1 { assert specials[..|specials| - 1][k] == specials[k]; }
      }
    }
  }

  /** A branch consumes its character and hands the rest on. */
  lemma OfBranch(g: Rules, first: Expr, second: Expr, s: string)
    requires forall t: string :: Generates(g, first, t) ==> |t| == 1
    ensures Generates(g, Cat(first, second), s)
      <==> s != "" && Generates(g, first, s[..1]) && Generates(g, second, s[1..])
  {
    OfCat(g, first, second, s);
    if k :| Splits(g, first, second, s, k) {
      assert k == 1;
    }
    if s != "" && Generates(g, first, s[..1]) && Generates(g, second, s[1..]) {
      assert Splits(g, first, second, s, 1);
    }
  }

  /** What a state's rule generates: nothing, or a character and what its branch leads to. */
  lemma OfState(g: Rules, prefix: string, tail: RuleName, specials: seq<Special>, s: string)
    ensures Generates(g, StateExpr(prefix, tail, specials), s)
      <==> || s == ""
           || (exists k | 0 <= k < |specials| ::
                 s[0] == specials[k].c && Generates(g, Dest(prefix, tail, specials[k].target), s[1..]))
           || (s[0] != NUL && !Listed(specials, s[0]) && Generates(g, Ref(State(prefix, 0)), s[1..]))
  {
    hide Generates, Dest;
    var options := Branches(prefix, tail, specials) + [Otherwise(prefix, specials)];
    OfChoice(g, options, s);
    OfLit(g, "", s);
    BranchMembers(prefix, tail, specials, Lit(""));
    assert Lit("") in options;
    forall k | 0 <= k < |specials|
      ensures Branch(prefix, tail, specials[k]) in options
      ensures Generates(g, Branch(prefix, tail, specials[k]), s)
        <==> s != "" && s[0] == specials[k].c && Generates(g, Dest(prefix, tail, specials[k].target), s[1..])
    {
      BranchMembers(prefix, tail, specials, Branch(prefix, tail, specials[k]));
      forall t: string ensures Generates(g, Lit([specials[k].c]), t) <==> t == [specials[k].c] {
        OfLit(g, [specials[k].c], t);
      }
      OfBranch(g, Lit([specials[k].c]), Dest(prefix, tail, specials[k].target), s);
    }
    var chars := {NUL} + CharsOf(specials);
    forall t: string ensures Generates(g, NoneOf(chars), t) <==> |t| == 1 && t[0] !in chars {
      OfNoneOf(g, chars, t);
    }
    OfBranch(g, NoneOf(chars), Ref(State(prefix, 0)), s);
    assert options[|options| - 1] == Otherwise(prefix, specials);
    forall e | e in options && Generates(g, e, s)
      ensures e == Lit("") || e == Otherwise(prefix, specials)
        || exists k | 0 <= k < |specials| :: e == Branch(prefix, tail, specials[k])
    {
      BranchMembers(prefix, tail, specials, e);
    }
  }

  /** From any state: the rules generate exactly what the promise allows. */
  lemma {:induction false} StatesGenerate(g: Rules, p: string, prefix: string, tail: RuleName,
                                          read: string, i: nat, s: string)
    requires NulFree(p) && Avoids(g, p, prefix, tail)
    requires i < |p| && InState(p, read, i) && !Occurs(p, read)
    ensures Generates(g, Ref(State(prefix, i)), s) <==> Allowed(g, p, tail, read, s)
    decreases |s|, 0
  {
    assert HasStateRule(g, p, prefix, tail, i);
    var specials: seq<Special> :| StateRule(g, p, prefix, tail, i, specials);
    OfRef(g, State(prefix, i), s);
    OfState(g, prefix, tail, specials, s);
    if s == "" {
      assert read + s == read;
    } else {
      var c, rest := s[0], s[1..];
      assert s == [c] + rest;
      SpecialsDecide(p, i, specials, c);
      AllowedStep(g, p, tail, read, c, rest);
      OccursAtTheEnd(p, read, c);
      if Listed(specials, c) {
        forall k | 0 <= k < |specials| && specials[k].c == c
          ensures Generates(g, Dest(prefix, tail, specials[k].target), rest) <==> Allowed(g, p, tail, read, s)
        {
          ExpectedIsNotNul(p, i, specials, k);
          StateGoesOn(g, p, prefix, tail, read, i, c, rest, specials[k].target);
        }
      } else if c != NUL {
        StateGoesOn(g, p, prefix, tail, read, i, c, rest, Some(0));
      }
    }
  }

  lemma ExpectedIsNotNul(p: string, i: nat, specials: seq<Special>, s: nat)
    requires NulFree(p) && i < |p| && Governs(p, i, specials, -1) && s < |specials|
    ensures specials[s].c != NUL
  {
    assert Explained(p, i, specials[s], -1);
    var k :| -1 < k && Chosen(p, i, specials[s], k);
  }

  lemma {:induction false} StateGoesOn(g: Rules, p: string, prefix: string, tail: RuleName,
                                       read: string, i: nat, c: char, rest: string, target: Option<nat>)
    requires NulFree(p) && Avoids(g, p, prefix, tail)
    requires i < |p| && InState(p, read, i) && !Occurs(p, read) && c != NUL
    requires target == None ==> StepsTo(p, i, c, |p|)
    requires target.Some? ==> target.value < |p| && StepsTo(p, i, c, target.value)
    ensures Generates(g, Dest(prefix, tail, target), rest) <==> Allowed(g, p, tail, read, [c] + rest)
    decreases |rest|, 1
  {
    AllowedStep(g, p, tail, read, c, rest);
    OccursAtTheEnd(p, read, c);
    match target
    case None =>
      StateAfter(p, read, i, c, |p|);
    case Some(next) =>
      StateAfter(p, read, i, c, next);
      StatesGenerate(g, p, prefix, tail, read + [c], next, rest);
  }

  /** The whole language, for every nonempty pattern without NUL, self-overlapping or not:
      NUL-free text that does not contain it; or text up to and including its first
      occurrence, followed by a text of the tail. */
  lemma AvoidsUntilForced(g: Rules, p: string, prefix: string, tail: RuleName, s: string)
    requires p != "" && NulFree(p) && Avoids(g, p, prefix, tail)
    ensures Generates(g, Ref(State(prefix, 0)), s)
      <==> || (NulFree(s) && !Occurs(p, s))
           || exists k :: Hands(g, p, tail, "", s, k)
  {
    assert "" + s == s;
    StatesGenerate(g, p, prefix, tail, "", 0, s);
  }
}
