/** The graph the ranking walks: which file references a name which other file defines, and
    how much that is worth believing. */
module References {

  datatype RefKind = Call | Method | Implementation
  {
    function Weight(): (r: real)
      ensures r > 0.0
    {
      if Method? then 0.25 else 1.0
    }
  }

  datatype Reference = Reference(name: string, kind: RefKind)

  datatype FileTags = FileTags(defines: seq<string>, references: seq<Reference>)

  const OVERUSED: nat := 5
  const OVERUSED_WEIGHT := 0.1
  const SHORT_NAME: nat := 8
  const SHORT_NAME_WEIGHT := 0.25

  /** The square root, of which only its sign matters here. */
  type Root = f: nat -> real | forall n: nat :: n > 0 ==> f(n) > 0.0 witness ((n: nat) => 1.0)

  predicate Ascending(s: seq<nat>) {
    forall i, j | 0 <= i < j < |s| :: s[i] < s[j]
  }

  /** The files that define a name, in order, each once. */
  function DefinersOf(files: seq<FileTags>, name: string): (r: seq<nat>)
    ensures forall f: nat :: f in r <==> f < |files| && name in files[f].defines
    ensures Ascending(r)
  {
    if files == [] then []
    else
      var last := |files| - 1;
      var rest := DefinersOf(files[..last], name);
      assert forall i | 0 <= i < |rest| :: rest[i] in rest && rest[i] < last;
      rest + if name in files[last].defines then [last] else []
  }

  function Targets(definers: seq<nat>, from: nat): (r: seq<nat>)
    ensures forall f: nat :: f in r <==> f in definers && f != from
    ensures Ascending(definers) ==> Ascending(r)
  {
    if definers == [] then []
    else
      var front, last := definers[..|definers| - 1], definers[|definers| - 1];
      var rest := Targets(front, from);
      assert forall i | 0 <= i < |rest| :: rest[i] in rest && rest[i] in front;
      rest + if last != from then [last] else []
  }

  function Occurrences(references: seq<Reference>, r: Reference): (n: nat)
    ensures n > 0 <==> r in references
  {
    if references == [] then 0
    else
      var last := |references| - 1;
      Occurrences(references[..last], r) + if references[last] == r then 1 else 0
  }

  /** Methods with short names are taken for the standard library's, and count for nothing. */
  predicate Evidence(r: Reference) {
    |r.name| >= SHORT_NAME || !r.kind.Method?
  }

  /** What a name used so often is worth to each of the files it may mean. */
  function Amount(root: Root, times: nat, r: Reference, definers: nat, targets: nat): real
    requires targets > 0
  {
    Divided(root(times), r.kind.Weight(), if definers > OVERUSED then OVERUSED_WEIGHT else 1.0,
             if |r.name| < SHORT_NAME then SHORT_NAME_WEIGHT else 1.0, targets as real)
  }

  /** A product of four, divided. */
  function Divided(a: real, b: real, c: real, d: real, among: real): real
    requires among != 0.0
  {
    a * b * c * d / among
  }

  /** What one reference, however often repeated, is worth to each file it may mean. */
  function Share(files: seq<FileTags>, root: Root, from: nat, r: Reference): (share: real)
    requires from < |files|
  {
    var definers := DefinersOf(files, r.name);
    var targets := Targets(definers, from);
    if targets == [] || !Evidence(r) then 0.0
    else Amount(root, Occurrences(files[from].references, r), r, |definers|, |targets|)
  }

  predicate Means(files: seq<FileTags>, from: nat, r: Reference, to: nat) {
    to < |files| && to != from && r.name in files[to].defines
  }

  /** What `from`'s first `k` references, of those in `keys` and each name and kind once, are
      worth to `to`. */
  function Worth(files: seq<FileTags>, root: Root, from: nat, to: nat, keys: set<Reference>, k: nat): real
    requires from < |files| && k <= |files[from].references|
  {
    if k == 0 then 0.0
    else
      var refs := files[from].references;
      var r := refs[k - 1];
      Worth(files, root, from, to, keys, k - 1)
      + if r in keys && r !in refs[..k - 1] && Means(files, from, r, to) then Share(files, root, from, r) else 0.0
  }

  function EdgeWeight(files: seq<FileTags>, root: Root, from: nat, to: nat): real {
    if from >= |files| then 0.0
    else
      var refs := files[from].references;
      Worth(files, root, from, to, set r | r in refs, |refs|)
  }

  lemma ShareSign(files: seq<FileTags>, root: Root, from: nat, r: Reference, to: nat)
    requires from < |files| && r in files[from].references && Means(files, from, r, to)
    ensures Share(files, root, from, r) >= 0.0
    ensures Share(files, root, from, r) > 0.0 <==> Evidence(r)
  {
    var definers := DefinersOf(files, r.name);
    var targets := Targets(definers, from);
    assert to in definers && to in targets;
    var a, b := root(Occurrences(files[from].references, r)), r.kind.Weight();
    var c, d := (if |definers| > OVERUSED then OVERUSED_WEIGHT else 1.0), (if |r.name| < SHORT_NAME then SHORT_NAME_WEIGHT else 1.0);
    assert a > 0.0;
    ProductSign(a, b);
    ProductSign(a * b, c);
    ProductSign(a * b * c, d);
    QuotientSign(a * b * c * d, |targets| as real);
  }

  lemma ProductSign(x: real, y: real)
    requires x > 0.0 && y > 0.0
    ensures x * y > 0.0
  {
  }

  lemma QuotientSign(x: real, y: real)
    requires x > 0.0 && y > 0.0
    ensures x / y > 0.0
  {
  }

  predicate Refers(files: seq<FileTags>, from: nat, to: nat, keys: set<Reference>, k: nat)
    requires from < |files| && k <= |files[from].references|
  {
    exists j | 0 <= j < k :: Counts(files, from, to, keys, j)
  }

  predicate Counts(files: seq<FileTags>, from: nat, to: nat, keys: set<Reference>, j: nat)
    requires from < |files| && j < |files[from].references|
  {
    var r := files[from].references[j];
    r in keys && Means(files, from, r, to) && Evidence(r)
  }

  lemma {:induction false} WorthSign(files: seq<FileTags>, root: Root, from: nat, to: nat, keys: set<Reference>, k: nat)
    requires from < |files| && k <= |files[from].references|
    ensures Worth(files, root, from, to, keys, k) >= 0.0
    ensures Worth(files, root, from, to, keys, k) > 0.0 <==> Refers(files, from, to, keys, k)
  {
    hide Share, Evidence, Means;
    if k > 0 {
      var refs := files[from].references;
      var r := refs[k - 1];
      WorthSign(files, root, from, to, keys, k - 1);
      if Means(files, from, r, to) {
        ShareSign(files, root, from, r, to);
      }
      assert Refers(files, from, to, keys, k) <==> Refers(files, from, to, keys, k - 1) || Counts(files, from, to, keys, k - 1);
      if r in refs[..k - 1] {
        var j :| 0 <= j < k - 1 && refs[j] == r;
        assert Counts(files, from, to, keys, k - 1) ==> Counts(files, from, to, keys, j);
      }
    }
  }

  /** An edge is exactly a reference that counts as evidence, to another file that defines
      the name; its weight is positive and no file has an edge to itself. */
  lemma EdgesAreEvidence(files: seq<FileTags>, root: Root, from: nat, to: nat)
    ensures EdgeWeight(files, root, from, to) >= 0.0
    ensures EdgeWeight(files, root, from, to) > 0.0 <==>
      && from < |files| && to < |files| && from != to
      && exists r | r in files[from].references :: r.name in files[to].defines && Evidence(r)
  {
    hide Evidence, Share, Worth;
    if from < |files| {
      var refs := files[from].references;
      var keys := set r | r in refs;
      WorthSign(files, root, from, to, keys, |refs|);
      if Refers(files, from, to, keys, |refs|) {
        var j :| 0 <= j < |refs| && Counts(files, from, to, keys, j);
        assert refs[j] in refs;
      }
      if to < |files| && from != to {
        forall r | r in refs && r.name in files[to].defines && Evidence(r) ensures Refers(files, from, to, keys, |refs|) {
          var j :| 0 <= j < |refs| && refs[j] == r;
          assert Counts(files, from, to, keys, j);
        }
      }
    }
  }

  /** One more name and kind adds its share once, however often it is repeated. */
  lemma {:induction false} OneMoreKey(files: seq<FileTags>, root: Root, from: nat, to: nat,
                                      keys: set<Reference>, r: Reference, k: nat)
    requires from < |files| && k <= |files[from].references| && r !in keys
    ensures Worth(files, root, from, to, keys + {r}, k)
         == Worth(files, root, from, to, keys, k)
            + if r in files[from].references[..k] && Means(files, from, r, to) then Share(files, root, from, r) else 0.0
  {
    hide Share, Means;
    if k > 0 {
      var refs := files[from].references;
      OneMoreKey(files, root, from, to, keys, r, k - 1);
      assert refs[..k] == refs[..k - 1] + [refs[k - 1]];
    }
  }

  lemma {:induction false} NoKeys(files: seq<FileTags>, root: Root, from: nat, to: nat, k: nat)
    requires from < |files| && k <= |files[from].references|
    ensures Worth(files, root, from, to, {}, k) == 0.0
  {
    if k > 0 {
      NoKeys(files, root, from, to, k - 1);
    }
  }

  // -------------------------------------------------------------------------------- accumulated

  type Edges = map<(nat, nat), real>

  function At(edges: Edges, from: nat, to: nat): real {
    if (from, to) in edges then edges[(from, to)] else 0.0
  }

  predicate Positive(edges: Edges) {
    forall e | e in edges :: edges[e] > 0.0
  }

  function EntryOf(definers: map<string, seq<nat>>, name: string): seq<nat> {
    if name in definers then definers[name] else []
  }

  predicate NoneEmpty(definers: map<string, seq<nat>>) {
    forall name | name in definers :: definers[name] != []
  }

  /** Every name some file defines, beside the files that do. */
  ghost predicate Indexed(definers: map<string, seq<nat>>, files: seq<FileTags>) {
    NoneEmpty(definers) && forall name :: EntryOf(definers, name) == DefinersOf(files, name)
  }

  lemma Unindexed()
    ensures Indexed(map[], [])
  {
  }

  lemma OldFiles(definers: map<string, seq<nat>>, files: seq<FileTags>)
    requires Indexed(definers, files)
    ensures forall name :: |files| !in EntryOf(definers, name)
  {
  }

  ghost predicate Entered(before: map<string, seq<nat>>, after: map<string, seq<nat>>, defines: seq<string>, file: nat) {
    NoneEmpty(after)
    && forall name :: EntryOf(after, name) == EntryOf(before, name) + if name in defines then [file] else []
  }

  lemma OneMoreFile(before: map<string, seq<nat>>, after: map<string, seq<nat>>, files: seq<FileTags>, file: nat)
    requires file < |files| && Indexed(before, files[..file]) && Entered(before, after, files[file].defines, file)
    ensures Indexed(after, files[..file + 1])
  {
    hide EntryOf, NoneEmpty;
    assert files[..file + 1][..file] == files[..file];
    forall name ensures EntryOf(after, name) == DefinersOf(files[..file + 1], name) {
      assert EntryOf(before, name) == DefinersOf(files[..file], name);
    }
  }

  method Index(files: seq<FileTags>) returns (definers: map<string, seq<nat>>)
    ensures Indexed(definers, files)
  {
    hide DefinersOf;
    definers := map[];
    Unindexed();
    for file := 0 to |files|
      invariant Indexed(definers, files[..file])
    {
      ghost var before := definers;
      OldFiles(before, files[..file]);
      definers := Define(definers, files[file].defines, file);
      OneMoreFile(before, definers, files, file);
    }
    assert files[..|files|] == files;
  }

  lemma NoNames(before: map<string, seq<nat>>, file: nat)
    requires NoneEmpty(before)
    ensures Entered(before, before, [], file)
  {
  }

  /** A name a file defines twice is entered once. */
  lemma OneMoreName(before: map<string, seq<nat>>, definers: map<string, seq<nat>>, defines: seq<string>, k: nat, file: nat)
    requires k < |defines| && Entered(before, definers, defines[..k], file)
    requires file !in EntryOf(before, defines[k])
    ensures var entry := EntryOf(definers, defines[k]);
            var after := if file !in entry then definers[defines[k] := entry + [file]] else definers;
            Entered(before, after, defines[..k + 1], file)
  {
    hide EntryOf;
    var name := defines[k];
    var entry := EntryOf(definers, name);
    assert defines[..k + 1] == defines[..k] + [name];
    assert entry == EntryOf(before, name) + if name in defines[..k] then [file] else [];
    var after := if file !in entry then definers[name := entry + [file]] else definers;
    forall other ensures EntryOf(after, other) == EntryOf(before, other) + if other in defines[..k + 1] then [file] else [] {
      assert EntryOf(definers, other) == EntryOf(before, other) + if other in defines[..k] then [file] else [];
      EntryAfter(definers, name, entry + [file], other);
    }
  }

  lemma EntryAfter(definers: map<string, seq<nat>>, name: string, entry: seq<nat>, other: string)
    ensures EntryOf(definers[name := entry], other) == if other == name then entry else EntryOf(definers, other)
  {
  }

  /** Enters `file` under every name it defines, once. */
  method Define(before: map<string, seq<nat>>, defines: seq<string>, file: nat) returns (definers: map<string, seq<nat>>)
    requires NoneEmpty(before) && forall name :: file !in EntryOf(before, name)
    ensures Entered(before, definers, defines, file)
  {
    hide Entered, EntryOf, NoneEmpty;
    definers := before;
    NoNames(before, file);
    assert defines[..0] == [];
    for k := 0 to |defines|
      invariant Entered(before, definers, defines[..k], file)
    {
      OneMoreName(before, definers, defines, k, file);
      var entry := EntryOf(definers, defines[k]);
      if file !in entry {
        definers := definers[defines[k] := entry + [file]];
      }
    }
    assert defines[..|defines|] == defines;
  }

  method Tally(references: seq<Reference>) returns (counts: map<Reference, nat>)
    ensures counts.Keys == set r | r in references
    ensures forall r | r in counts :: counts[r] == Occurrences(references, r)
  {
    counts := map[];
    for k := 0 to |references|
      invariant counts.Keys == set r | r in references[..k]
      invariant forall r | r in counts :: counts[r] == Occurrences(references[..k], r)
    {
      var r := references[k];
      assert references[..k + 1][..k] == references[..k];
      assert references[..k + 1] == references[..k] + [r];
      counts := counts[r := (if r in counts then counts[r] else 0) + 1];
    }
    assert references[..|references|] == references;
  }

  /** The graph, whatever order the hash maps are walked in. */
  method Graph(files: seq<FileTags>, root: Root) returns (edges: Edges)
    ensures Positive(edges)
    ensures forall from, to :: At(edges, from, to) == EdgeWeight(files, root, from, to)
  {
    hide Worth, Share, DefinersOf;
    var definers := Index(files);
    edges := map[];
    for from := 0 to |files|
      invariant Positive(edges)
      invariant forall f: nat, t: nat :: At(edges, f, t) == if f < from then EdgeWeight(files, root, f, t) else 0.0
    {
      ghost var before := edges;
      var counts := Tally(files[from].references);
      ghost var refs, done := files[from].references, {};
      var left := counts.Keys;
      forall t: nat ensures Worth(files, root, from, t, {}, |refs|) == 0.0 { NoKeys(files, root, from, t, |refs|); }
      while left != {}
        invariant done !! left && done + left == counts.Keys
        invariant Positive(edges)
        invariant forall f: nat, t: nat | f != from :: At(edges, f, t) == At(before, f, t)
        invariant forall t: nat :: At(edges, from, t) == Worth(files, root, from, t, done, |refs|)
      {
        var r :| r in left;
        ghost var was := edges;
        edges := Draw(files, root, definers, from, r, counts[r], edges);
        forall t: nat ensures At(edges, from, t) == Worth(files, root, from, t, done + {r}, |refs|) {
          assert refs[..|refs|] == refs;
          OneMoreKey(files, root, from, t, done, r, |refs|);
          assert At(edges, from, t) == At(was, from, t) + Drawn(files, root, from, r, t);
        }
        done, left := done + {r}, left - {r};
      }
      assert done == set r | r in refs;
    }
    forall f: nat, t: nat ensures At(edges, f, t) == EdgeWeight(files, root, f, t) {}
  }

  function Drawn(files: seq<FileTags>, root: Root, from: nat, r: Reference, to: nat): real
    requires from < |files|
  {
    if Means(files, from, r, to) then Share(files, root, from, r) else 0.0
  }

  lemma TargetsAreMeant(files: seq<FileTags>, from: nat, r: Reference)
    ensures forall t: nat :: t in Targets(DefinersOf(files, r.name), from) <==> Means(files, from, r, t)
  {
  }

  lemma NothingDrawn(files: seq<FileTags>, root: Root, from: nat, r: Reference)
    requires from < |files| && (!Evidence(r) || Targets(DefinersOf(files, r.name), from) == [])
    ensures forall t: nat :: Drawn(files, root, from, r, t) == 0.0
  {
  }

  lemma NameIsEntered(definers: map<string, seq<nat>>, files: seq<FileTags>, name: string)
    requires Indexed(definers, files)
    ensures EntryOf(definers, name) == DefinersOf(files, name)
    ensures name !in definers ==> DefinersOf(files, name) == []
    ensures name in definers ==> definers[name] == DefinersOf(files, name)
  {
    assert EntryOf(definers, name) == DefinersOf(files, name);
  }

  /** What one name and kind adds: its share, to every other file that defines the name. */
  method Draw(files: seq<FileTags>, root: Root, definers: map<string, seq<nat>>, from: nat, r: Reference,
              times: nat, edges: Edges) returns (drawn: Edges)
    requires from < |files| && r in files[from].references && times == Occurrences(files[from].references, r)
    requires Indexed(definers, files)
    requires Positive(edges)
    ensures Positive(drawn)
    ensures forall f: nat, t: nat ::
      At(drawn, f, t) == At(edges, f, t) + if f == from then Drawn(files, root, from, r, t) else 0.0
  {
    hide Occurrences, Indexed, Targets, Means, Positive, DefinersOf;
    NameIsEntered(definers, files, r.name);
    drawn := edges;
    if r.name !in definers {
      NoDefiners(files, from, r);
      NothingDrawn(files, root, from, r);
      return;
    }
    var targets := Targets(definers[r.name], from);
    if targets == [] {
      NothingDrawn(files, root, from, r);
      return;
    }
    var overused := |definers[r.name]| > OVERUSED;
    var short := |r.name| < SHORT_NAME;
    if short && r.kind.Method? {
      NothingDrawn(files, root, from, r);
      return;
    }
    var weight := root(times) * r.kind.Weight()
      * (if overused then OVERUSED_WEIGHT else 1.0)
      * (if short then SHORT_NAME_WEIGHT else 1.0)
      / |targets| as real;
    assert weight == Share(files, root, from, r);
    TargetsAreMeant(files, from, r);
    assert targets[0] in targets;
    ShareSign(files, root, from, r, targets[0]);
    hide Share;
    drawn := Spread(edges, from, targets, weight);
  }

  lemma NoDefiners(files: seq<FileTags>, from: nat, r: Reference)
    requires DefinersOf(files, r.name) == []
    ensures Targets(DefinersOf(files, r.name), from) == []
  {
  }

  method Spread(edges: Edges, from: nat, targets: seq<nat>, weight: real) returns (drawn: Edges)
    requires Positive(edges) && weight > 0.0 && Ascending(targets)
    ensures Positive(drawn)
    ensures forall f: nat, t: nat :: At(drawn, f, t) == At(edges, f, t) + if f == from && t in targets then weight else 0.0
  {
    drawn := edges;
    for k := 0 to |targets|
      invariant Positive(drawn)
      invariant forall f: nat, t: nat ::
        At(drawn, f, t) == At(edges, f, t) + if f == from && t in targets[..k] then weight else 0.0
    {
      assert targets[..k + 1] == targets[..k] + [targets[k]];
      assert Positive(edges);
      drawn := drawn[(from, targets[k]) := At(drawn, from, targets[k]) + weight];
    }
    assert targets[..|targets|] == targets;
  }
}
