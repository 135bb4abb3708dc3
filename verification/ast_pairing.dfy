/** What the definition check of a move accepts: `definitions`, `bindings`,
    `pair_imports` and the definition part of `compare` in
    scripts/refactor/ast_identity.py. */
module AstPairing {
  import opened AstBlank
  import opened AstImports
  import opened Wrappers

  datatype Target = Target(source: Dotted, attr: Option<Dotted>)

  datatype Binding = Binding(name: string, target: Target)

  // --- bindings ----------------------------------------------------------------------

  // Python's parts[:n].
  function UpTo(parts: Dotted, n: int): Dotted {
    if n >= |parts| then parts
    else if n >= 0 then parts[..n]
    else if |parts| + n >= 0 then parts[..|parts| + n]
    else []
  }

  function Named(source: Option<Dotted>): Dotted { if source.None? then [] else source.value }

  function SourceOf(package: Dotted, level: nat, source: Option<Dotted>): Dotted {
    if level > 1 then UpTo(package, |package| - (level - 1)) + Named(source)
    else if level == 1 then package + Named(source)
    else Named(source)
  }

  // The import system's own resolution: it refuses to climb above the top package.
  function Resolved(package: Dotted, level: nat, source: Option<Dotted>): Option<Dotted> {
    if level == 0 then Some(Named(source))
    else if package == [] || |package| < level then None
    else Some(package[..|package| - (level - 1)] + Named(source))
  }

  /** The module computed for an import is the one the interpreter resolves exactly
      when the dots do not climb above the top package; beyond it the interpreter
      refuses, and the computation still names a module. */
  lemma SourceIsTheInterpretersExactly(package: Dotted, level: nat, source: Option<Dotted>)
    ensures Resolved(package, level, source) == Some(SourceOf(package, level, source)) <==> level <= |package|
    ensures level > |package| ==> Resolved(package, level, source) == None
  {
    assert package[..|package|] == package;
  }

  function Bound(a: Alias): string
    requires a.name != []
  {
    if a.asname.Some? then a.asname.value else a.name[0]
  }

  function BindingOf(i: Import, k: nat, package: Dotted): Binding
    requires Spelled(i) && k < |i.names|
  {
    var a := i.names[k];
    match i
    case Plain(_) => Binding(Bound(a), Target(if a.asname.Some? then a.name else [a.name[0]], None))
    case From(level, source, _) => Binding(Bound(a), Target(SourceOf(package, level, source), Some(a.name)))
  }

  function Bindings(i: Import, package: Dotted): (r: seq<Binding>)
    requires Spelled(i)
    ensures |r| == |i.names|
  {
    seq(|i.names|, k requires 0 <= k < |i.names| => BindingOf(i, k, package))
  }

  // --- pair_imports ------------------------------------------------------------------

  datatype Problem =
    | OtherCount(olds: nat, news: nat)
    | OtherNames(k: nat)
    | TwoHomes(name: string)
    | Missing(name: string)
    | Differs(name: string)

  // What is bound at HEAD, by identity.
  type Object = int

  // What the check reads off an import: the names it binds, each to an object.
  function Reading(i: Import, package: Dotted, at: Target -> Object): seq<(string, Object)>
    requires Spelled(i)
  {
    var b := Bindings(i, package);
    seq(|b|, k requires 0 <= k < |b| => (b[k].name, at(b[k].target)))
  }

  predicate AllSpelled(list: seq<Import>) { forall k :: 0 <= k < |list| ==> Spelled(list[k]) }

  ghost predicate Identical(pairs: seq<(Target, Target)>, at: Target -> Object) {
    forall k :: 0 <= k < |pairs| ==> at(pairs[k].0) == at(pairs[k].1)
  }

  predicate SameNames(a: seq<Binding>, b: seq<Binding>) {
    |a| == |b| && forall k :: 0 <= k < |a| ==> a[k].name == b[k].name
  }

  predicate SameObjects(a: seq<Binding>, b: seq<Binding>, at: Target -> Object) {
    |a| == |b| && forall k :: 0 <= k < |a| ==> at(a[k].target) == at(b[k].target)
  }

  lemma SameReading(a: Import, b: Import, p: Dotted, q: Dotted, at: Target -> Object)
    requires Spelled(a) && Spelled(b)
    ensures Reading(a, p, at) == Reading(b, q, at) <==>
            SameNames(Bindings(a, p), Bindings(b, q)) && SameObjects(Bindings(a, p), Bindings(b, q), at)
  {
    var x, y := Bindings(a, p), Bindings(b, q);
    var e, f := Reading(a, p, at), Reading(b, q, at);
    if e == f {
      forall k | 0 <= k < |x|
        ensures x[k].name == y[k].name && at(x[k].target) == at(y[k].target)
      {
        assert e[k] == f[k];
      }
    }
  }

  // The targets that changed between two imports with the same names.
  method ChangedTargets(a: seq<Binding>, b: seq<Binding>, sofar: seq<(Target, Target)>, ghost at: Target -> Object)
    returns (pairs: seq<(Target, Target)>)
    requires |a| == |b|
    ensures Identical(pairs, at) <==> Identical(sofar, at) && SameObjects(a, b, at)
  {
    pairs := sofar;
    for k := 0 to |a|
      invariant Identical(pairs, at) <==> Identical(sofar, at) && SameObjects(a[..k], b[..k], at)
    {
      assert SameObjects(a[..k + 1], b[..k + 1], at) <==>
             SameObjects(a[..k], b[..k], at) && at(a[k].target) == at(b[k].target) by {
        assert a[..k + 1] == a[..k] + [a[k]] && b[..k + 1] == b[..k] + [b[k]];
      }
      if a[k].target != b[k].target {
        ghost var before := pairs;
        pairs := pairs + [(a[k].target, b[k].target)];
        assert Identical(pairs, at) <==> Identical(before, at) && at(a[k].target) == at(b[k].target) by {
          assert pairs[|before|] == (a[k].target, b[k].target);
          assert forall i :: 0 <= i < |before| ==> pairs[i] == before[i];
        }
      }
    }
    assert a[..|a|] == a && b[..|b|] == b;
  }

  ghost predicate SameReadings(olds: seq<Import>, news: seq<Import>, p: Dotted, q: Dotted, at: Target -> Object)
    requires AllSpelled(olds) && AllSpelled(news)
  {
    |olds| == |news| && forall k :: 0 <= k < |olds| ==> Reading(olds[k], p, at) == Reading(news[k], q, at)
  }

  // The imports the definitions have, in their order, read the same.
  ghost predicate SameImports(before: Tree, after: Tree, p: Dotted, q: Dotted, at: Target -> Object) {
    SameReadings(ImportsOf(before), ImportsOf(after), p, q, at)
  }

  /** Accounting for the imports of one definition: with every reported pair the
      same object, no problem means exactly that each import reads as it did. */
  method PairImports(before: Tree, after: Tree, p: Dotted, q: Dotted, ghost at: Target -> Object)
    returns (problems: seq<Problem>, pairs: seq<(Target, Target)>)
    ensures problems == [] && Identical(pairs, at) <==> SameImports(before, after, p, q, at)
  {
    hide *;
    var olds := ImportsIn(before, []);
    var news := ImportsIn(after, []);
    assert olds == Imports(before) && news == Imports(after);
    AllAreSame(before, after, p, q, at);
    if |olds| != |news| {
      return [OtherCount(|olds|, |news|)], [];
    }
    problems, pairs := [], [];
    NoneDiffer(olds, news, p, q, at);
    for k := 0 to |olds|
      invariant problems == [] && Identical(pairs, at) <==> SameUpTo(olds, news, k, p, q, at)
    {
      var i, j := ImportOf(olds[k]), ImportOf(news[k]);
      var a, b := Bindings(i, p), Bindings(j, q);
      OneMoreSame(olds, news, k, p, q, at);
      if !SameNames(a, b) {
        problems := problems + [OtherNames(k + 1)];
      } else {
        NamesAreAsMany(a, b);
        pairs := ChangedTargets(a, b, pairs, at);
      }
    }
  }

  ghost predicate SameUpTo(olds: seq<Tree>, news: seq<Tree>, n: nat, p: Dotted, q: Dotted, at: Target -> Object)
    requires n <= |olds| == |news|
  {
    forall k :: 0 <= k < n ==> Reading(ImportOf(olds[k]), p, at) == Reading(ImportOf(news[k]), q, at)
  }

  lemma NoneDiffer(olds: seq<Tree>, news: seq<Tree>, p: Dotted, q: Dotted, at: Target -> Object)
    requires |olds| == |news|
    ensures Identical([], at) && SameUpTo(olds, news, 0, p, q, at)
  {
  }

  lemma NamesAreAsMany(a: seq<Binding>, b: seq<Binding>)
    requires SameNames(a, b)
    ensures |a| == |b|
  {
  }

  lemma OneMoreSame(olds: seq<Tree>, news: seq<Tree>, k: nat, p: Dotted, q: Dotted, at: Target -> Object)
    requires k < |olds| == |news|
    ensures var a, b := Bindings(ImportOf(olds[k]), p), Bindings(ImportOf(news[k]), q);
            SameUpTo(olds, news, k + 1, p, q, at) <==>
            SameUpTo(olds, news, k, p, q, at) && SameNames(a, b) && SameObjects(a, b, at)
  {
    SameReading(ImportOf(olds[k]), ImportOf(news[k]), p, q, at);
    hide Reading, Bindings, ImportOf, SameNames, SameObjects;
  }

  lemma AllAreSame(before: Tree, after: Tree, p: Dotted, q: Dotted, at: Target -> Object)
    ensures SameImports(before, after, p, q, at) <==>
            |Imports(before)| == |Imports(after)|
            && SameUpTo(Imports(before), Imports(after), |Imports(before)|, p, q, at)
  {
    hide Reading, ImportOf, Imports;
  }

  // Alike but for the imports, and these read the same.
  ghost predicate Same(a: Tree, p: Dotted, b: Tree, q: Dotted, at: Target -> Object) {
    Alike(a, b) && SameImports(a, b, p, q, at)
  }

  predicate Alike(a: Tree, b: Tree) { Dump(Blanked(a)) == Dump(Blanked(b)) }

  ghost predicate SameAt(a: Tree, b: Tree, p: Dotted, q: Dotted, at: Target -> Object, place: seq<nat>) {
    Reading(ImportOf(At(a, place)), p, at) == Reading(ImportOf(At(b, place)), q, at)
  }

  /** A definition passes both checks exactly when only its imports were replaced,
      each where it stood, by one that binds the same names to the same objects, as far
      as the check reads them. */
  lemma PassingKeepsEachImport(a: Tree, p: Dotted, b: Tree, q: Dotted, at: Target -> Object)
    requires Source(a) && Source(b)
    ensures Same(a, p, b, q, at) <==>
            OnlyImportsDiffer(a, b) && forall k :: 0 <= k < |Places(a)| ==> SameAt(a, b, p, q, at, Places(a)[k])
  {
    PassingMeansOnlyImportsDiffer(a, b);
    if Alike(a, b) {
      EqualDumpsExactly(a, b);
      ImportsStandThere(a);
      ImportsStandThere(b);
      var places, olds, news := Places(a), ImportsOf(a), ImportsOf(b);
      hide Reading, ImportOf, Places, Imports, Refilled, Source, OnlyImportsDiffer, Alike;
      forall k | 0 <= k < |places|
        ensures SameAt(a, b, p, q, at, places[k]) <==> Reading(olds[k], p, at) == Reading(news[k], q, at)
      {
        assert At(a, places[k]) == Imports(a)[k] && At(b, places[k]) == Imports(b)[k];
      }
    }
  }

  // --- definitions, and who has them ---------------------------------------------------

  datatype Definition = Definition(name: string, tree: Tree)

  // A file's package and its definitions.
  datatype File = File(package: Dotted, defs: map<string, Tree>)

  // A dict filled in statement order: the last of a name stays.
  function Definitions(body: seq<Definition>): map<string, Tree> {
    if body == [] then map[]
    else Definitions(body[..|body| - 1])[body[|body| - 1].name := body[|body| - 1].tree]
  }

  predicate HasIt(files: seq<File>, f: int, name: string) { 0 <= f < |files| && name in files[f].defs }

  ghost predicate SameIn(tree: Tree, package: Dotted, files: seq<File>, f: int, name: string, at: Target -> Object)
    requires HasIt(files, f, name)
  {
    Same(tree, package, files[f].defs[name], files[f].package, at)
  }

  // Exactly one new file has the name, with the same definition, its imports reading the same.
  ghost predicate OneHome(name: string, tree: Tree, package: Dotted, files: seq<File>, at: Target -> Object) {
    exists f :: HasIt(files, f, name) && SameIn(tree, package, files, f, name, at)
                && forall g :: HasIt(files, g, name) ==> g == f
  }

  ghost predicate Moved(base: File, files: seq<File>, at: Target -> Object) {
    forall name :: name in base.defs ==> OneHome(name, base.defs[name], base.package, files, at)
  }

  // The first file that has each name.
  ghost predicate FirstHomes(files: seq<File>, upTo: nat, homes: map<string, (nat, Tree)>) {
    && upTo <= |files|
    && (forall name :: name in homes ==>
         && homes[name].0 < upTo && HasIt(files, homes[name].0, name)
         && files[homes[name].0].defs[name] == homes[name].1
         && forall g :: HasIt(files, g, name) && g < upTo ==> homes[name].0 <= g)
    && (forall g, name :: HasIt(files, g, name) && g < upTo ==> name in homes)
  }

  ghost predicate Twice(base: File, files: seq<File>, upTo: nat) {
    exists f, g, name :: name in base.defs && HasIt(files, f, name) && HasIt(files, g, name) && f < g < upTo
  }

  // One file's names, in whatever order its dict gives them.
  method AddHomes(base: File, files: seq<File>, f: nat, sofar: map<string, (nat, Tree)>)
    returns (problems: seq<Problem>, homes: map<string, (nat, Tree)>)
    requires f < |files| && FirstHomes(files, f, sofar)
    ensures FirstHomes(files, f + 1, homes)
    ensures problems != [] <==> exists name :: name in base.defs && name in files[f].defs && name in sofar
  {
    problems, homes := [], sofar;
    var defs := files[f].defs;
    var left := defs.Keys;
    while left != {}
      invariant left <= defs.Keys
      invariant forall name :: name in homes <==> name in sofar || (name in defs && name !in left)
      invariant forall name :: name in homes ==>
                  homes[name] == if name in sofar then sofar[name] else (f, defs[name])
      invariant problems != [] <==> exists name :: name in base.defs && name in defs && name !in left && name in sofar
      decreases left
    {
      var name :| name in left;
      if name in base.defs && name in homes {
        problems := problems + [TwoHomes(name)];
      }
      homes := if name in homes then homes else homes[name := (f, defs[name])];
      left := left - {name};
    }
  }

  lemma TwiceGrows(base: File, files: seq<File>, f: nat, homes: map<string, (nat, Tree)>)
    requires f < |files| && FirstHomes(files, f, homes)
    ensures Twice(base, files, f + 1) <==>
            Twice(base, files, f) || exists name :: name in base.defs && name in files[f].defs && name in homes
  {
    forall name | name in base.defs && name in files[f].defs && name in homes
      ensures Twice(base, files, f + 1)
    {
      assert HasIt(files, homes[name].0, name) && HasIt(files, f, name);
    }
    if Twice(base, files, f + 1) && !Twice(base, files, f) {
      var e, g, name :| name in base.defs && HasIt(files, e, name) && HasIt(files, g, name) && e < g < f + 1;
      assert g == f && name in homes;
    }
  }

  // The first home of a name has the same definition.
  ghost predicate Fine(base: File, files: seq<File>, homes: map<string, (nat, Tree)>, name: string, at: Target -> Object)
    requires name in base.defs
  {
    name in homes && homes[name].0 < |files|
    && Same(base.defs[name], base.package, homes[name].1, files[homes[name].0].package, at)
  }

  lemma IdenticalBoth(a: seq<(Target, Target)>, b: seq<(Target, Target)>, at: Target -> Object)
    ensures Identical(a + b, at) <==> Identical(a, at) && Identical(b, at)
  {
    if Identical(a + b, at) {
      assert forall k :: 0 <= k < |a| ==> (a + b)[k] == a[k];
      forall k | 0 <= k < |b|
        ensures b[k] == (a + b)[|a| + k]
      {
      }
    }
  }

  /** The definition check of a move: with every reported pair the same object, no
      problem means exactly that every name the old file defines is defined in one
      new file, the same but for its imports, each of which reads as it did. */
  method Compare(base: File, files: seq<File>, ghost at: Target -> Object)
    returns (problems: seq<Problem>, pairs: seq<(Target, Target)>)
    ensures problems == [] && Identical(pairs, at) <==> Moved(base, files, at)
  {
    var homes: map<string, (nat, Tree)> := map[];
    problems, pairs := [], [];
    for f := 0 to |files|
      invariant FirstHomes(files, f, homes)
      invariant problems != [] <==> Twice(base, files, f)
    {
      var more, next := AddHomes(base, files, f, homes);
      TwiceGrows(base, files, f, homes);
      problems, homes := problems + more, next;
    }
    HomesTell(base, files, homes, at);
    hide HasIt, FirstHomes, Moved, Twice, Identical, SameImports;
    var left := base.defs.Keys;
    ghost var twice := problems;
    while left != {}
      invariant left <= base.defs.Keys
      invariant problems == [] && Identical(pairs, at) <==>
                twice == [] && forall name :: name in base.defs && name !in left ==> Fine(base, files, homes, name, at)
      decreases left
    {
      var name :| name in left;
      if name !in homes {
        problems := problems + [Missing(name)];
      } else if Dump(Blanked(base.defs[name])) != Dump(Blanked(homes[name].1)) {
        problems := problems + [Differs(name)];
      } else {
        var found, more := PairImports(base.defs[name], homes[name].1, base.package, files[homes[name].0].package, at);
        IdenticalBoth(pairs, more, at);
        problems, pairs := problems + found, pairs + more;
      }
      left := left - {name};
    }
  }

  lemma HomesTell(base: File, files: seq<File>, homes: map<string, (nat, Tree)>, at: Target -> Object)
    requires FirstHomes(files, |files|, homes)
    ensures forall name :: name in homes ==> homes[name].0 < |files|
    ensures Moved(base, files, at) <==>
            !Twice(base, files, |files|) && forall name :: name in base.defs ==> Fine(base, files, homes, name, at)
  {
    hide Same;
    if Moved(base, files, at) {
      forall name | name in base.defs
        ensures Fine(base, files, homes, name, at)
      {
        assert OneHome(name, base.defs[name], base.package, files, at);
      }
      forall f, g, name | name in base.defs && HasIt(files, f, name) && HasIt(files, g, name)
        ensures f == g
      {
        assert OneHome(name, base.defs[name], base.package, files, at);
      }
    }
    if !Twice(base, files, |files|) && forall name :: name in base.defs ==> Fine(base, files, homes, name, at) {
      forall name | name in base.defs
        ensures OneHome(name, base.defs[name], base.package, files, at)
      {
        var f := homes[name].0;
        assert HasIt(files, f, name) && SameIn(base.defs[name], base.package, files, f, name, at);
      }
    }
  }

  // --- what the check covers ------------------------------------------------------------

  ghost predicate Reappears(d: Definition, package: Dotted, files: seq<File>, at: Target -> Object) {
    exists f :: HasIt(files, f, d.name) && SameIn(d.tree, package, files, f, d.name, at)
  }

  ghost predicate AllReappear(body: seq<Definition>, package: Dotted, files: seq<File>, at: Target -> Object) {
    forall i :: 0 <= i < |body| ==> Reappears(body[i], package, files, at)
  }

  ghost predicate NamesTell(body: seq<Definition>, package: Dotted, at: Target -> Object) {
    forall i, j :: 0 <= i < j < |body| && body[i].name == body[j].name ==>
      Same(body[i].tree, package, body[j].tree, package, at)
  }

  // The dict holds the last definition of each name.
  lemma {:induction false} LastStays(body: seq<Definition>, i: nat) returns (j: nat)
    requires i < |body|
    ensures i <= j < |body| && body[j].name == body[i].name
    ensures body[i].name in Definitions(body) && Definitions(body)[body[i].name] == body[j].tree
  {
    var n := |body| - 1;
    if body[n].name == body[i].name {
      j := n;
    } else {
      j := LastStays(body[..n], i);
    }
  }

  lemma SameIsSymmetric(a: Tree, p: Dotted, b: Tree, q: Dotted, at: Target -> Object)
    requires Same(a, p, b, q, at)
    ensures Same(b, q, a, p, at)
  {
    hide Reading, ImportOf, ImportsOf;
  }

  lemma SameIsTransitive(a: Tree, p: Dotted, b: Tree, q: Dotted, c: Tree, r: Dotted, at: Target -> Object)
    requires Same(a, p, b, q, at) && Same(b, q, c, r, at)
    ensures Same(a, p, c, r, at)
  {
    hide Reading, ImportOf, ImportsOf;
  }

  // A split: a move to several new files, whose statement order is not compared.
  ghost predicate KeepsAll(body: seq<Definition>, package: Dotted, files: seq<File>, at: Target -> Object) {
    |files| > 1 && Moved(File(package, Definitions(body)), files, at) ==> AllReappear(body, package, files, at)
  }

  /** A split with no problem and identical pairs keeps every definition statement of
      the old file exactly for old files in which statements under one name are the
      same: of several different ones, the check looks only at the last, and a split
      that drops the others passes. */
  lemma AcceptedSplitsKeepEverythingExactly(body: seq<Definition>, package: Dotted, at: Target -> Object)
    ensures (forall files :: KeepsAll(body, package, files, at)) <==> NamesTell(body, package, at)
  {
    hide Same;
    if NamesTell(body, package, at) {
      forall files
        ensures KeepsAll(body, package, files, at)
      {
        if |files| > 1 && Moved(File(package, Definitions(body)), files, at) {
          NamesTellThem(body, package, files, at);
        }
      }
    }
    if forall files :: KeepsAll(body, package, files, at) {
      TheLastAlone(body, package, at);
    }
  }

  lemma NamesTellThem(body: seq<Definition>, package: Dotted, files: seq<File>, at: Target -> Object)
    requires NamesTell(body, package, at) && Moved(File(package, Definitions(body)), files, at)
    ensures AllReappear(body, package, files, at)
  {
    hide Same;
    forall i | 0 <= i < |body|
      ensures Reappears(body[i], package, files, at)
    {
      var name := body[i].name;
      var j := LastStays(body, i);
      assert OneHome(name, Definitions(body)[name], package, files, at);
      var f :| HasIt(files, f, name) && SameIn(body[j].tree, package, files, f, name, at);
      if i < j {
        SameIsTransitive(body[i].tree, package, body[j].tree, package, files[f].defs[name], files[f].package, at);
      }
      assert SameIn(body[i].tree, package, files, f, name, at);
    }
  }

  // The last statement of each name in one file, and a file with none.
  lemma TheLastAlone(body: seq<Definition>, package: Dotted, at: Target -> Object)
    requires forall files :: KeepsAll(body, package, files, at)
    ensures NamesTell(body, package, at)
  {
    var defs := Definitions(body);
    var files := [File(package, defs), File(package, map[])];
    forall name | name in defs
      ensures OneHome(name, defs[name], package, files, at)
    {
      assert HasIt(files, 0, name) && SameIn(defs[name], package, files, 0, name, at);
    }
    assert KeepsAll(body, package, files, at);
    assert AllReappear(body, package, files, at);
    hide Same;
    forall i, j | 0 <= i < j < |body| && body[i].name == body[j].name
      ensures Same(body[i].tree, package, body[j].tree, package, at)
    {
      var name := body[i].name;
      assert Reappears(body[i], package, files, at) && Reappears(body[j], package, files, at);
      assert SameIn(body[i].tree, package, files, 0, name, at) && SameIn(body[j].tree, package, files, 0, name, at);
      SameIsSymmetric(body[j].tree, package, defs[name], package, at);
      SameIsTransitive(body[i].tree, package, defs[name], package, body[j].tree, package, at);
    }
  }
}
