/** What the import system does with the imports that `pair_imports` in
    scripts/refactor/ast_identity.py accepts. */
module AstEffects {
  import opened AstBlank
  import opened AstImports
  import opened AstPairing
  import opened Wrappers

  // A name an import binds, and what it has loaded below it: `import a.b.c` binds a,
  // and a.b.c can be reached from there.
  datatype Done = Done(name: string, object: Object, below: Dotted)

  function DoneBy(a: Alias, at: Target -> Object): Done
    requires a.name != []
  {
    if a.asname.Some? then Done(a.asname.value, at(Target(a.name, None)), [])
    else Done(a.name[0], at(Target([a.name[0]], None)), a.name[1..])
  }

  // What an import does when it runs; or it raises, its dots climbing above the top package.
  function Does(i: Import, package: Dotted, at: Target -> Object): Option<seq<Done>>
    requires Spelled(i)
  {
    match i
    case Plain(names) => Some(seq(|names|, k requires 0 <= k < |names| => DoneBy(names[k], at)))
    case From(level, source, names) =>
      var base := Resolved(package, level, source);
      if base.None? then None
      else Some(seq(|names|, k requires 0 <= k < |names| =>
                      Done(Bound(names[k]), at(Target(base.value, Some(names[k].name))), [])))
  }

  // What can be checked before: where it climbs to, and what its text names below.
  predicate Climbs(i: Import, package: Dotted) { i.From? && i.level > |package| }

  function Below(i: Import, k: nat): Dotted
    requires Spelled(i) && k < |i.names|
  {
    if i.Plain? && i.names[k].asname.None? then i.names[k].name[1..] else []
  }

  predicate SameBelow(a: Import, b: Import)
    requires Spelled(a) && Spelled(b)
  {
    |a.names| == |b.names| && forall k :: 0 <= k < |a.names| ==> Below(a, k) == Below(b, k)
  }

  predicate ReachesTheSame(a: Import, p: Dotted, b: Import, q: Dotted)
    requires Spelled(a) && Spelled(b)
  {
    Climbs(a, p) == Climbs(b, q) && (Climbs(a, p) || SameBelow(a, b))
  }

  // Without climbing, what is done is what is read, and what is below.
  lemma DoneIsRead(i: Import, p: Dotted, at: Target -> Object)
    requires Spelled(i)
    ensures Does(i, p, at).None? <==> Climbs(i, p)
    ensures !Climbs(i, p) ==>
              var done, read := Does(i, p, at).value, Reading(i, p, at);
              |done| == |read| == |i.names|
              && forall k :: 0 <= k < |done| ==> done[k] == Done(read[k].0, read[k].1, Below(i, k))
  {
    if i.From? {
      SourceIsTheInterpretersExactly(p, i.level, i.source);
    }
  }

  /** An import that reads the same does the same exactly when neither or both climb
      above the top package and, where they do not, each un-aliased dotted name has the
      same rest; and what does the same without climbing reads the same. */
  lemma ImportsDoTheSameExactly(a: Import, p: Dotted, b: Import, q: Dotted, at: Target -> Object)
    requires Spelled(a) && Spelled(b)
    ensures Reading(a, p, at) == Reading(b, q, at) ==>
              (Does(a, p, at) == Does(b, q, at) <==> ReachesTheSame(a, p, b, q))
    ensures !Climbs(a, p) && Does(a, p, at) == Does(b, q, at) ==> Reading(a, p, at) == Reading(b, q, at)
  {
    DoneIsRead(a, p, at);
    DoneIsRead(b, q, at);
    hide Reading, Does, Below;
    if !Climbs(a, p) && !Climbs(b, q) {
      var x, y := Does(a, p, at).value, Does(b, q, at).value;
      var r, s := Reading(a, p, at), Reading(b, q, at);
      if x == y {
        forall k | 0 <= k < |x|
          ensures r[k] == s[k] && Below(a, k) == Below(b, k)
        {
          assert x[k] == y[k];
          assert x[k] == Done(r[k].0, r[k].1, Below(a, k)) && y[k] == Done(s[k].0, s[k].1, Below(b, k));
        }
        assert r == s;
      }
      if r == s && SameBelow(a, b) {
        forall k | 0 <= k < |x|
          ensures x[k] == y[k]
        {
          assert x[k] == Done(r[k].0, r[k].1, Below(a, k)) && y[k] == Done(s[k].0, s[k].1, Below(b, k));
        }
      }
    }
  }

  // The modules an import names; each is loaded with all above it.
  function Loads(i: Import, package: Dotted): Option<seq<Dotted>> {
    match i
    case Plain(names) => Some(seq(|names|, k requires 0 <= k < |names| => names[k].name))
    case From(level, source, names) =>
      var base := Resolved(package, level, source);
      if base.None? then None else Some([base.value])
  }

  lemma OneLoadsTheSame(a: Import, p: Dotted, b: Import, q: Dotted, k: nat)
    requires Spelled(a) && Spelled(b) && a.Plain? && b.Plain? && k < |a.names| == |b.names|
    requires BindingOf(a, k, p) == BindingOf(b, k, q)
    ensures a.names[k].name == b.names[k].name <==> Below(a, k) == Below(b, k)
  {
    var x, y := a.names[k].name, b.names[k].name;
    assert x == [x[0]] + x[1..] && y == [y[0]] + y[1..];
  }

  /** Where no pair is reported, an import also loads the same modules exactly then. */
  lemma UnreportedImportsLoadTheSameExactly(a: Import, p: Dotted, b: Import, q: Dotted)
    requires Spelled(a) && Spelled(b) && a.names != [] && Bindings(a, p) == Bindings(b, q)
    ensures Loads(a, p) == Loads(b, q) <==> ReachesTheSame(a, p, b, q)
  {
    var x, y := Bindings(a, p), Bindings(b, q);
    assert |a.names| == |b.names| && x[0] == y[0];
    if a.From? {
      SourceIsTheInterpretersExactly(p, a.level, a.source);
      SourceIsTheInterpretersExactly(q, b.level, b.source);
    } else {
      forall k | 0 <= k < |a.names|
        ensures BindingOf(a, k, p) == BindingOf(b, k, q)
      {
        assert x[k] == y[k];
      }
      PlainLoadTheSame(a, p, b, q);
    }
  }

  lemma PlainLoadTheSame(a: Import, p: Dotted, b: Import, q: Dotted)
    requires Spelled(a) && Spelled(b) && a.Plain? && b.Plain? && |a.names| == |b.names|
    requires forall k :: 0 <= k < |a.names| ==> BindingOf(a, k, p) == BindingOf(b, k, q)
    ensures Loads(a, p) == Loads(b, q) <==> SameBelow(a, b)
  {
    forall k | 0 <= k < |a.names|
      ensures a.names[k].name == b.names[k].name <==> Below(a, k) == Below(b, k)
    {
      OneLoadsTheSame(a, p, b, q, k);
    }
    hide Below, BindingOf;
    var m, n := Loads(a, p).value, Loads(b, q).value;
    if m == n {
      forall k | 0 <= k < |m|
        ensures Below(a, k) == Below(b, k)
      {
        assert m[k] == n[k];
      }
    }
  }

  // --- of a definition -------------------------------------------------------------------

  ghost predicate DoesTheSameAt(a: Tree, b: Tree, p: Dotted, q: Dotted, at: Target -> Object, place: seq<nat>) {
    Does(ImportOf(At(a, place)), p, at) == Does(ImportOf(At(b, place)), q, at)
  }

  predicate ReachesTheSameAt(a: Tree, b: Tree, p: Dotted, q: Dotted, place: seq<nat>) {
    ReachesTheSame(ImportOf(At(a, place)), p, ImportOf(At(b, place)), q)
  }

  /** A definition that passes has each import do what it did, where it stood, exactly
      under that condition. */
  lemma PassingPreservesImportsExactly(a: Tree, p: Dotted, b: Tree, q: Dotted, at: Target -> Object)
    requires Source(a) && Source(b) && Same(a, p, b, q, at)
    ensures Places(a) == Places(b)
    ensures (forall k :: 0 <= k < |Places(a)| ==> DoesTheSameAt(a, b, p, q, at, Places(a)[k])) <==>
            forall k :: 0 <= k < |Places(a)| ==> ReachesTheSameAt(a, b, p, q, Places(a)[k])
  {
    PassingKeepsEachImport(a, p, b, q, at);
    EqualDumpsExactly(a, b);
    var places := Places(a);
    hide Places, Same, Does, Reading, ReachesTheSame, OnlyImportsDiffer, Source;
    forall k | 0 <= k < |places|
      ensures DoesTheSameAt(a, b, p, q, at, places[k]) <==> ReachesTheSameAt(a, b, p, q, places[k])
    {
      assert SameAt(a, b, p, q, at, places[k]);
      ImportsDoTheSameExactly(ImportOf(At(a, places[k])), p, ImportOf(At(b, places[k])), q, at);
    }
  }

  // A function whose body is one import.
  function Importing(i: Import): Tree
    requires Grammar(i)
  {
    Group(Node("FunctionDef"), [Group(Field("body"), [Group(Items, [Parsed(i)])])])
  }

  lemma Wrapped(tag: Tag, t: Tree)
    requires tag != Node("Import") && tag != Node("ImportFrom") && tag != Field("id") && Source(t)
    ensures var g := Group(tag, [t]);
            Source(g) && Imports(g) == Imports(t) && Blanked(g) == Group(tag, [Blanked(t)])
  {
    assert [t][1..] == [];
    assert ImportsAll([t]) == Imports(t) + [];
    assert BlankedAll([t]) == [Blanked(t)];
  }

  lemma ImportingIsSource(i: Import)
    requires Grammar(i)
    ensures Source(Importing(i)) && Imports(Importing(i)) == [Parsed(i)]
    ensures Blanked(Importing(i)) == Group(Node("FunctionDef"), [Group(Field("body"), [Group(Items, [SLOT])])])
  {
    ParsedIsSource(i);
    ImportsAreRead(i);
    var t := Parsed(i);
    assert Imports(t) == [t] && Blanked(t) == SLOT;
    hide Source, Imports, Blanked, Parsed;
    Wrapped(Items, t);
    Wrapped(Field("body"), Group(Items, [t]));
    Wrapped(Node("FunctionDef"), Group(Field("body"), [Group(Items, [t])]));
  }

  // `import top.sub`
  function Submodule(top: string, sub: string): (i: Import)
    requires Identifier(top) && Identifier(sub)
    ensures Grammar(i)
  {
    Plain([Alias([top, sub], None)])
  }

  lemma ImportsOfImporting(i: Import)
    requires Grammar(i)
    ensures ImportsOf(Importing(i)) == [i]
  {
    ImportingIsSource(i);
    ImportsAreRead(i);
    hide Importing, Parsed, ImportOf, Imports;
    assert ImportsOf(Importing(i))[0] == i;
  }

  lemma ReadingPasses(a: Import, p: Dotted, b: Import, q: Dotted, at: Target -> Object)
    requires Grammar(a) && Grammar(b) && Spelled(a) && Spelled(b) && Reading(a, p, at) == Reading(b, q, at)
    ensures Same(Importing(a), p, Importing(b), q, at)
  {
    ImportingIsSource(a);
    ImportingIsSource(b);
    ImportsOfImporting(a);
    ImportsOfImporting(b);
    hide Importing, Reading, Parsed, Blanked, ImportOf, ImportsOf, Source, Imports, Dump;
  }

  /** Where it fails: `import xml.dom` turned into `import xml.sax` binds the same name
      to the same module, and so passes; what was loaded below it no longer is. */
  lemma ASubmoduleIsLost(top: string, x: string, y: string, p: Dotted, q: Dotted, at: Target -> Object)
    requires Identifier(top) && Identifier(x) && Identifier(y) && x != y
    ensures var a, b := Submodule(top, x), Submodule(top, y);
            && Same(Importing(a), p, Importing(b), q, at) && Bindings(a, p) == Bindings(b, q)
            && Does(a, p, at) != Does(b, q, at) && Loads(a, p) != Loads(b, q)
  {
    var a, b := Submodule(top, x), Submodule(top, y);
    OneReading(a, p, b, q, at);
    assert Below(a, 0) != Below(b, 0) by {
      assert [top, x][1..][0] == x && [top, y][1..][0] == y;
    }
    hide Reading, Does, Bindings, Below, Loads, Importing, Submodule;
    ReadingPasses(a, p, b, q, at);
    ImportsDoTheSameExactly(a, p, b, q, at);
    UnreportedImportsLoadTheSameExactly(a, p, b, q);
  }

  lemma OneReading(a: Import, p: Dotted, b: Import, q: Dotted, at: Target -> Object)
    requires Spelled(a) && Spelled(b) && |a.names| == |b.names| == 1 && BindingOf(a, 0, p) == BindingOf(b, 0, q)
    ensures Bindings(a, p) == Bindings(b, q) && Reading(a, p, at) == Reading(b, q, at)
  {
  }
}
