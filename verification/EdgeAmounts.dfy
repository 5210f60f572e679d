/** How much an edge is worth: what one name used one way amounts to, that different uses
    add up, and that nothing else in the files has a say. */
module EdgeAmounts {
  import opened References

  /** The same files, with other references in one of them. */
  function With(files: seq<FileTags>, from: nat, references: seq<Reference>): seq<FileTags>
    requires from < |files|
  {
    files[from := FileTags(files[from].defines, references)]
  }

  function Times(r: Reference, n: nat): seq<Reference> {
    seq(n, i => r)
  }

  function DefiningFiles(files: seq<FileTags>, name: string): set<nat> {
    set f: nat | f < |files| && name in files[f].defines
  }

  // --------------------------------------------------------------------- sums over references

  lemma {:induction false} SameDefiners(a: seq<FileTags>, b: seq<FileTags>, name: string)
    requires |a| == |b| && forall f | 0 <= f < |a| :: a[f].defines == b[f].defines
    ensures DefinersOf(a, name) == DefinersOf(b, name)
  {
    if a != [] {
      SameDefiners(a[..|a| - 1], b[..|b| - 1], name);
    }
  }

  lemma SameDrawn(a: seq<FileTags>, b: seq<FileTags>, root: Root, from: nat, r: Reference, to: nat)
    requires |a| == |b| && forall f | 0 <= f < |a| :: a[f].defines == b[f].defines
    requires from < |a| && Occurrences(a[from].references, r) == Occurrences(b[from].references, r)
    ensures Drawn(a, root, from, r, to) == Drawn(b, root, from, r, to)
  {
    hide Amount, DefinersOf, Targets, Evidence, Occurrences;
    SameDefiners(a, b, r.name);
  }

  function Uses(files: seq<FileTags>, from: nat): set<Reference>
    requires from < |files|
  {
    set r | r in files[from].references
  }

  lemma {:induction false} SameWorth(a: seq<FileTags>, b: seq<FileTags>, root: Root, from: nat, to: nat, keys: set<Reference>)
    requires from < |a| && from < |b| && keys <= Uses(a, from) && keys <= Uses(b, from)
    requires forall r | r in keys :: Drawn(a, root, from, r, to) == Drawn(b, root, from, r, to)
    ensures Worth(a, root, from, to, keys, |a[from].references|) == Worth(b, root, from, to, keys, |b[from].references|)
    decreases keys
  {
    hide Worth, Drawn;
    if keys == {} {
      NoKeys(a, root, from, to, |a[from].references|);
      NoKeys(b, root, from, to, |b[from].references|);
    } else {
      var r :| r in keys;
      SameWorth(a, b, root, from, to, keys - {r});
      OneMoreUse(a, root, from, to, keys - {r}, r);
      OneMoreUse(b, root, from, to, keys - {r}, r);
      assert keys - {r} + {r} == keys;
    }
  }

  lemma OneMoreUse(files: seq<FileTags>, root: Root, from: nat, to: nat, keys: set<Reference>, r: Reference)
    requires from < |files| && r !in keys && r in files[from].references
    ensures Worth(files, root, from, to, keys + {r}, |files[from].references|)
         == Worth(files, root, from, to, keys, |files[from].references|) + Drawn(files, root, from, r, to)
  {
    var refs := files[from].references;
    assert refs[..|refs|] == refs;
    OneMoreKey(files, root, from, to, keys, r, |refs|);
  }

  lemma {:induction false} WorthOfBoth(files: seq<FileTags>, root: Root, from: nat, to: nat, a: set<Reference>, b: set<Reference>)
    requires from < |files| && a !! b && a + b <= Uses(files, from)
    ensures var n := |files[from].references|;
            Worth(files, root, from, to, a + b, n) == Worth(files, root, from, to, a, n) + Worth(files, root, from, to, b, n)
    decreases b
  {
    hide Worth, Drawn;
    if b == {} {
      NoKeys(files, root, from, to, |files[from].references|);
      assert a + b == a;
    } else {
      var r :| r in b;
      WorthOfBoth(files, root, from, to, a, b - {r});
      OneMoreUse(files, root, from, to, a + (b - {r}), r);
      OneMoreUse(files, root, from, to, b - {r}, r);
      assert a + (b - {r}) + {r} == a + b && b - {r} + {r} == b;
    }
  }

  lemma {:induction false} OccurrencesAppend(a: seq<Reference>, b: seq<Reference>, r: Reference)
    ensures Occurrences(a + b, r) == Occurrences(a, r) + Occurrences(b, r)
  {
    if b == [] {
      assert a + b == a;
    } else {
      assert (a + b)[..|a + b| - 1] == a + b[..|b| - 1];
      OccurrencesAppend(a, b[..|b| - 1], r);
    }
  }

  lemma {:induction false} OccurrencesCount(references: seq<Reference>, r: Reference)
    ensures Occurrences(references, r) == multiset(references)[r]
  {
    if references != [] {
      var front := references[..|references| - 1];
      OccurrencesCount(front, r);
      assert references == front + [references[|references| - 1]];
    }
  }

  // ------------------------------------------------------------------------- what makes an edge

  /** An edge is made of the references of the one file and the definitions of all: what
      other files refer to has no say in it, nor has the order of anything. */
  lemma NothingElseCounts(a: seq<FileTags>, b: seq<FileTags>, root: Root, from: nat, to: nat)
    requires |a| == |b| && from < |a| && forall f | 0 <= f < |a| :: a[f].defines == b[f].defines
    requires multiset(a[from].references) == multiset(b[from].references)
    ensures EdgeWeight(a, root, from, to) == EdgeWeight(b, root, from, to)
  {
    hide Worth, Drawn;
    forall r ensures r in a[from].references <==> r in b[from].references {
      assert r in multiset(a[from].references) <==> r in multiset(b[from].references);
    }
    assert Uses(a, from) == Uses(b, from);
    forall r | r in Uses(a, from) ensures Drawn(a, root, from, r, to) == Drawn(b, root, from, r, to) {
      OccurrencesCount(a[from].references, r);
      OccurrencesCount(b[from].references, r);
      SameDrawn(a, b, root, from, r, to);
    }
    SameWorth(a, b, root, from, to, Uses(a, from));
  }

  /** References that share no name and kind are added up. */
  lemma EdgesAddUp(files: seq<FileTags>, root: Root, from: nat, to: nat, a: seq<Reference>, b: seq<Reference>)
    requires from < |files| && forall r | r in a :: r !in b
    ensures EdgeWeight(With(files, from, a + b), root, from, to)
         == EdgeWeight(With(files, from, a), root, from, to) + EdgeWeight(With(files, from, b), root, from, to)
  {
    hide Worth, Drawn;
    var both, one, other := With(files, from, a + b), With(files, from, a), With(files, from, b);
    var ofA, ofB := Uses(one, from), Uses(other, from);
    assert Uses(both, from) == ofA + ofB;
    WorthOfBoth(both, root, from, to, ofA, ofB);
    forall r | r in ofA ensures Drawn(both, root, from, r, to) == Drawn(one, root, from, r, to) {
      OccurrencesAppend(a, b, r);
      SameDrawn(both, one, root, from, r, to);
    }
    SameWorth(both, one, root, from, to, ofA);
    forall r | r in ofB ensures Drawn(both, root, from, r, to) == Drawn(other, root, from, r, to) {
      OccurrencesAppend(a, b, r);
      SameDrawn(both, other, root, from, r, to);
    }
    SameWorth(both, other, root, from, to, ofB);
  }

  lemma NothingReferenced(files: seq<FileTags>, root: Root, from: nat, to: nat)
    requires from < |files|
    ensures EdgeWeight(With(files, from, []), root, from, to) == 0.0
  {
  }

  lemma {:induction false} OccurrencesOfOne(r: Reference, n: nat)
    ensures Occurrences(Times(r, n), r) == n
  {
    if n > 0 {
      OccurrencesOfOne(r, n - 1);
      assert Times(r, n)[..n - 1] == Times(r, n - 1);
    }
  }

  function Members(s: seq<nat>): set<nat> {
    set x | x in s
  }

  lemma {:induction false} AscendingIsASet(s: seq<nat>)
    requires Ascending(s)
    ensures |Members(s)| == |s|
  {
    if s != [] {
      var front, last := s[..|s| - 1], s[|s| - 1];
      AscendingIsASet(front);
      assert forall x | x in front :: x < last;
      assert Members(s) == Members(front) + {last} by { assert s == front + [last]; }
    }
  }

  lemma HowMany(files: seq<FileTags>, from: nat, name: string)
    ensures |DefinersOf(files, name)| == |DefiningFiles(files, name)|
    ensures |Targets(DefinersOf(files, name), from)| == |DefiningFiles(files, name) - {from}|
  {
    var definers, targets := DefinersOf(files, name), Targets(DefinersOf(files, name), from);
    AscendingIsASet(definers);
    AscendingIsASet(targets);
    assert Members(definers) == DefiningFiles(files, name);
    assert Members(targets) == DefiningFiles(files, name) - {from};
  }

  /** What one name, used one way any number of times, amounts to for each other file that
      defines it: the root of how often, a quarter where it is reached through a method, a
      tenth where more than five files define it, a quarter again where it is short, and the
      whole divided among the files it may mean. A short method is nothing. */
  lemma AmountOfOne(files: seq<FileTags>, root: Root, from: nat, to: nat, r: Reference, n: nat)
    requires from < |files| && n > 0 && to != from && to in DefiningFiles(files, r.name)
    ensures |DefiningFiles(files, r.name) - {from}| > 0
    ensures EdgeWeight(With(files, from, Times(r, n)), root, from, to)
         == if r.kind == Method && |r.name| < 8 then 0.0
            else
              Divided(root(n), if r.kind == Method then 0.25 else 1.0,
                      if |DefiningFiles(files, r.name)| > 5 then 0.1 else 1.0,
                      if |r.name| < 8 then 0.25 else 1.0, |DefiningFiles(files, r.name) - {from}| as real)
  {
    hide Worth, Amount, DefinersOf, Targets, Occurrences;
    var one := With(files, from, Times(r, n));
    assert Times(r, n)[0] == r;
    assert Uses(one, from) == {} + {r};
    NoKeys(one, root, from, to, n);
    OneMoreUse(one, root, from, to, {}, r);
    OccurrencesOfOne(r, n);
    SameDefiners(files, one, r.name);
    HowMany(files, from, r.name);
    var definers, others := DefinersOf(files, r.name), DefiningFiles(files, r.name) - {from};
    assert to in definers && to in Targets(definers, from) && to in others;
    assert Drawn(one, root, from, r, to) == Share(one, root, from, r);
    hide Drawn;
    AmountIs(root, n, r, |DefiningFiles(files, r.name)|, |DefiningFiles(files, r.name) - {from}|);
  }

  lemma AmountIs(root: Root, n: nat, r: Reference, definers: nat, targets: nat)
    requires targets > 0
    ensures Amount(root, n, r, definers, targets)
         == Divided(root(n), if r.kind == Method then 0.25 else 1.0, if definers > 5 then 0.1 else 1.0,
                    if |r.name| < 8 then 0.25 else 1.0, targets as real)
  {
    hide Divided;
  }

  /** And for a file that does not define it, or for itself, it amounts to nothing. */
  lemma NothingForOthers(files: seq<FileTags>, root: Root, from: nat, to: nat, r: Reference, n: nat)
    requires from < |files| && (to == from || to !in DefiningFiles(files, r.name))
    ensures EdgeWeight(With(files, from, Times(r, n)), root, from, to) == 0.0
  {
    hide Worth, Share;
    var one := With(files, from, Times(r, n));
    EdgesAreEvidence(one, root, from, to);
    if to < |files| {
      assert one[to].defines == files[to].defines;
    }
  }

  // ------------------------------------------------------------------------ what follows of it

  lemma Factor(x: real, y: real, z: real)
    requires z != 0.0
    ensures (x * y) / z == x * (y / z)
  {
  }

  lemma DividedFactors(a: real, b: real, c: real, d: real, among: real)
    requires among != 0.0
    ensures Divided(a, b, c, d, among) == b * Divided(a, 1.0, c, d, among)
    ensures Divided(a, b, c, d, among) == c * Divided(a, b, 1.0, d, among)
    ensures Divided(a, b, c, d, among) == d * Divided(a, b, c, 1.0, among)
    ensures among * Divided(a, b, c, d, among) == Divided(a, b, c, d, 1.0)
  {
    assert a * b * c * d == b * (a * 1.0 * c * d) == c * (a * b * 1.0 * d) == d * (a * b * c * 1.0);
    Factor(b, a * 1.0 * c * d, among);
    Factor(c, a * b * 1.0 * d, among);
    Factor(d, a * b * c * 1.0, among);
    Factor(among, a * b * c * d, among);
  }

  /** Beside whatever else the file refers to, a long name reached through a method counts a
      quarter of what it counts when it is called. */
  lemma MethodsCountAQuarter(files: seq<FileTags>, root: Root, from: nat, to: nat, others: seq<Reference>, name: string, n: nat)
    requires from < |files| && n > 0 && to != from && to in DefiningFiles(files, name) && |name| >= 8
    requires Reference(name, Call) !in others && Reference(name, Method) !in others
    ensures var without := EdgeWeight(With(files, from, others), root, from, to);
      EdgeWeight(With(files, from, others + Times(Reference(name, Method), n)), root, from, to) - without
      == 0.25 * (EdgeWeight(With(files, from, others + Times(Reference(name, Call), n)), root, from, to) - without)
  {
    hide EdgeWeight, With, DefiningFiles, Divided;
    var called, reached := Reference(name, Call), Reference(name, Method);
    EdgesAddUp(files, root, from, to, others, Times(called, n));
    EdgesAddUp(files, root, from, to, others, Times(reached, n));
    AmountOfOne(files, root, from, to, called, n);
    AmountOfOne(files, root, from, to, reached, n);
    DividedFactors(root(n), 0.25, if |DefiningFiles(files, name)| > 5 then 0.1 else 1.0, 1.0,
                   |DefiningFiles(files, name) - {from}| as real);
  }

  /** What a name is worth to all the files it may mean together. */
  function Altogether(files: seq<FileTags>, root: Root, from: nat, to: nat, r: Reference, n: nat): real
    requires from < |files|
  {
    |DefiningFiles(files, r.name) - {from}| as real * EdgeWeight(With(files, from, Times(r, n)), root, from, to)
  }

  lemma AltogetherIs(files: seq<FileTags>, root: Root, from: nat, to: nat, r: Reference, n: nat)
    requires from < |files| && n > 0 && to != from && to in DefiningFiles(files, r.name)
    ensures Altogether(files, root, from, to, r, n)
         == if r.kind == Method && |r.name| < 8 then 0.0
            else
              Divided(root(n), if r.kind == Method then 0.25 else 1.0,
                      if |DefiningFiles(files, r.name)| > 5 then 0.1 else 1.0, if |r.name| < 8 then 0.25 else 1.0, 1.0)
  {
    hide EdgeWeight, With, DefiningFiles, Divided;
    AmountOfOne(files, root, from, to, r, n);
    DividedFactors(root(n), if r.kind == Method then 0.25 else 1.0, if |DefiningFiles(files, r.name)| > 5 then 0.1 else 1.0,
                   if |r.name| < 8 then 0.25 else 1.0, |DefiningFiles(files, r.name) - {from}| as real);
  }

  /** A name is worth the same to every file it may mean. */
  lemma SharedOutEqually(files: seq<FileTags>, root: Root, from: nat, to: nat, other: nat, r: Reference, n: nat)
    requires from < |files| && n > 0 && to != from && other != from
    requires to in DefiningFiles(files, r.name) && other in DefiningFiles(files, r.name)
    ensures EdgeWeight(With(files, from, Times(r, n)), root, from, to)
         == EdgeWeight(With(files, from, Times(r, n)), root, from, other)
  {
    hide EdgeWeight, With, DefiningFiles, Divided;
    AmountOfOne(files, root, from, to, r, n);
    AmountOfOne(files, root, from, other, r, n);
  }

  /** And to all of them together it is worth the same however many they are: only past five
      definitions does their number tell, and then the whole of it is a tenth. */
  lemma HoweverManyDefine(a: seq<FileTags>, b: seq<FileTags>, root: Root, from: nat, to: nat, other: nat, r: Reference, n: nat)
    requires from < |a| && from < |b| && n > 0 && to != from && other != from
    requires to in DefiningFiles(a, r.name) && other in DefiningFiles(b, r.name)
    ensures (|DefiningFiles(a, r.name)| > 5 <==> |DefiningFiles(b, r.name)| > 5) ==>
              Altogether(a, root, from, to, r, n) == Altogether(b, root, from, other, r, n)
    ensures |DefiningFiles(a, r.name)| > 5 >= |DefiningFiles(b, r.name)| ==>
              Altogether(a, root, from, to, r, n) == 0.1 * Altogether(b, root, from, other, r, n)
  {
    hide Altogether, DefiningFiles, Divided;
    AltogetherIs(a, root, from, to, r, n);
    AltogetherIs(b, root, from, other, r, n);
    DividedFactors(root(n), if r.kind == Method then 0.25 else 1.0, 0.1, if |r.name| < 8 then 0.25 else 1.0, 1.0);
  }

  /** A short name called, implemented or not, counts a quarter of a long one that as many
      files define. */
  lemma ShortNamesCountAQuarter(files: seq<FileTags>, root: Root, from: nat, to: nat, short: string, long: string,
                                kind: RefKind, n: nat)
    requires from < |files| && n > 0 && to != from && !kind.Method? && |short| < 8 <= |long|
    requires to in DefiningFiles(files, short) && DefiningFiles(files, short) == DefiningFiles(files, long)
    ensures EdgeWeight(With(files, from, Times(Reference(short, kind), n)), root, from, to)
         == 0.25 * EdgeWeight(With(files, from, Times(Reference(long, kind), n)), root, from, to)
  {
    hide EdgeWeight, With, DefiningFiles, Divided;
    AmountOfOne(files, root, from, to, Reference(short, kind), n);
    AmountOfOne(files, root, from, to, Reference(long, kind), n);
    DividedFactors(root(n), 1.0, if |DefiningFiles(files, short)| > 5 then 0.1 else 1.0, 0.25,
                   |DefiningFiles(files, short) - {from}| as real);
  }
}
