/** Attribute lookup on the class before and after a move of members into mixins that
    `compare_methods` in scripts/refactor/ast_identity.py accepts. */
module AstLookup {
  import opened AstBlank
  import AstImports
  import opened AstPairing
  import opened AstMethods
  import opened Wrappers

  // The objects imports in the class body bind n to, in order.
  function Picked(read: seq<(string, Object)>, n: string): seq<Object> {
    if read == [] then [] else (if read[0].0 == n then [read[0].1] else []) + Picked(read[1..], n)
  }

  function ImportedTo(tree: Tree, ks: seq<nat>, n: string, p: Dotted, at: Target -> Object): seq<Object> {
    if ks == [] then []
    else (if ks[0] < |Imports(tree)| then Picked(Reading(ImportAt(tree, ks[0]), p, at), n) else [])
         + ImportedTo(tree, ks[1..], n, p, at)
  }

  function BoundTo(s: Stmt, n: string, p: Dotted, at: Target -> Object): seq<Object> {
    if s.Other? then ImportedTo(s.tree, s.imports, n, p, at) else []
  }

  // Looked up in the class as it was, n is found where it was: in the statement that
  // stood there, its imports binding n to the same objects, or in the member that moved;
  // or both times only in the bases.
  ghost predicate Preserved(base: Class, head: Class, mixins: seq<Class>, n: string, p: Dotted, at: Target -> Object) {
    var i, f := LastBinder(base, n), Find(head, mixins, n);
    if i == -1 then f.InBases?
    else if Stays(base[i], mixins) then
      f == InClass(|Remaining(base[..i], mixins)|) && SameStmt(base[i], head[f.i])
      && BoundTo(base[i], n, p, at) == BoundTo(head[f.i], n, p, at)
    else f.InMixin? && Key(mixins[f.m][f.i]) == Key(base[i]) && SameStmt(base[i], mixins[f.m][f.i])
  }

  // The lookup ends on a mixin's statement that is no member of it.
  predicate FindsAStray(head: Class, mixins: seq<Class>, n: string) {
    var f := Find(head, mixins, n);
    f.InMixin? && mixins[f.m][f.i].Other?
  }

  // Where, in what stays of the class, n was found, or -1.
  function StayedAt(base: Class, mixins: seq<Class>, n: string): int {
    var i := LastBinder(base, n);
    if i >= 0 && Stays(base[i], mixins) then LastBinder(Remaining(base, mixins), n) else -1
  }

  // The class at HEAD binds n in the statement it was found in, if that stays, and
  // nowhere else, and to the same objects.
  ghost predicate StillBound(base: Class, head: Class, mixins: seq<Class>, n: string, p: Dotted, at: Target -> Object) {
    var r, j := Remaining(base, mixins), StayedAt(base, mixins, n);
    && LastBinder(head, n) == j
    && (0 <= j < |r| && j < |head| ==> BoundTo(r[j], n, p, at) == BoundTo(head[j], n, p, at))
  }

  lemma SeveralNamesHaveAComma(names: seq<string>)
    ensures |names| > 1 ==> ',' in Joined(names)
  {
    assert |names| > 1 ==> Joined(names)[|names[0]|] == ',';
  }

  lemma JoinedIsAnIdentifier(names: seq<string>, k: string)
    requires Joined(names) == k && Identifier(k)
    ensures names == [k]
  {
    SeveralNamesHaveAComma(names);
  }

  // A statement filed under an identifier binds at most that.
  lemma KeyedBindsItsName(s: Stmt, k: string, n: string)
    requires Written(s) && Identifier(k) && Key(s) == Some(k) && Binds(s, n)
    ensures n == k
  {
    if s.Assign? {
      JoinedIsAnIdentifier(s.names, k);
    }
  }

  lemma MovedNamesAreIdentifiers(head: Class, mixins: seq<Class>, m: nat, k: string)
    requires m < |mixins| && Filed(mixins[m], k) && Resolves(head, mixins, m) && WrittenClass(mixins[m])
    ensures Identifier(k)
  {
    var s := mixins[m][LastBinder(mixins[m], k)];
    assert Written(s) && Binds(s, k);
  }

  // What is left of a class finds n where the whole class finds it, unless the
  // whole class finds it in a statement that moved.
  lemma {:induction false} RemainingFinds(c: Class, mixins: seq<Class>, n: string)
    ensures var r := Remaining(c, mixins);
            var i, j := LastBinder(c, n), LastBinder(r, n);
            && (i >= 0 && Stays(c[i], mixins) ==> 0 <= j < |r| && r[j] == c[i] && j == |Remaining(c[..i], mixins)|)
            && (i == -1 ==> j == -1)
  {
    if c != [] {
      var last, rest := c[|c| - 1], Remaining(c[..|c| - 1], mixins);
      RemainingFinds(c[..|c| - 1], mixins, n);
      var i := LastBinder(c, n);
      assert 0 <= i < |c| - 1 ==> c[..|c| - 1][..i] == c[..i];
      if Stays(last, mixins) {
        assert (rest + [last])[..|rest|] == rest;
      } else {
        assert rest + [] == rest;
      }
    }
  }

  lemma MembersBindTheirNames(head: Class, mixins: seq<Class>, m: nat, i: nat, n: string)
    requires m < |mixins| && i < |mixins[m]| && WrittenClass(mixins[m]) && Resolves(head, mixins, m)
    requires Binds(mixins[m][i], n)
    ensures mixins[m][i].Other? || (Key(mixins[m][i]) == Some(n) && Filed(mixins[m], n))
  {
    var s := mixins[m][i];
    if !s.Other? {
      var k := Key(s).value;
      assert Filed(mixins[m], k);
      MovedNamesAreIdentifiers(head, mixins, m, k);
      KeyedBindsItsName(s, k, n);
    }
  }

  // A member found in a mixin is the one filed there, from the class's member of that name.
  lemma MovedMember(base: Class, head: Class, mixins: seq<Class>, n: string)
    requires WrittenClass(base) && (forall m :: 0 <= m < |mixins| ==> WrittenClass(mixins[m]))
    requires Accepted(base, head, mixins)
    requires Find(head, mixins, n).InMixin? && !FindsAStray(head, mixins, n)
    ensures var f := Find(head, mixins, n);
            && Filed(mixins[f.m], n) && f.i == LastKeyed(mixins[f.m], n) && Key(mixins[f.m][f.i]) == Some(n)
            && Filed(base, n) && SameStmt(base[LastKeyed(base, n)], mixins[f.m][f.i]) && Binds(base[LastKeyed(base, n)], n)
  {
    var f := Find(head, mixins, n);
    MembersBindTheirNames(head, mixins, f.m, f.i, n);
    assert NoneTwice(mixins[f.m]) && Verbatim(base, mixins[f.m]);
  }

  // What moved is found in its mixin, and the class has nothing of that name left.
  lemma MovedNameResolves(base: Class, head: Class, mixins: seq<Class>, n: string)
    requires WrittenClass(base) && (forall m :: 0 <= m < |mixins| ==> WrittenClass(mixins[m]))
    requires Accepted(base, head, mixins)
    requires LastBinder(base, n) >= 0 && !Stays(base[LastBinder(base, n)], mixins)
    ensures Key(base[LastBinder(base, n)]) == Some(n) && Find(head, mixins, n).InMixin? && LastBinder(head, n) == -1
  {
    var i := LastBinder(base, n);
    var k := Key(base[i]).value;
    var m :| 0 <= m < |mixins| && Filed(mixins[m], k);
    MovedNamesAreIdentifiers(head, mixins, m, k);
    KeyedBindsItsName(base[i], k, n);
    assert Resolves(head, mixins, m);
  }

  /** With no problem reported, a lookup finds what it found exactly when it does not end
      on something in a mixin that is no member and the class at HEAD binds the name just
      where it was found in what stays: the gate compares members only, and the rest with
      its imports blanked, so an import in a mixin's body can slip an attribute in, and a
      changed import in the class's own body can lose, move or replace one. */
  lemma LookupIsPreservedExactly(base: Class, head: Class, mixins: seq<Class>, n: string, p: Dotted, at: Target -> Object)
    requires WrittenClass(base) && (forall m :: 0 <= m < |mixins| ==> WrittenClass(mixins[m]))
    requires Accepted(base, head, mixins)
    ensures Preserved(base, head, mixins, n, p, at) <==>
            !FindsAStray(head, mixins, n) && StillBound(base, head, mixins, n, p, at)
  {
    var i, f := LastBinder(base, n), Find(head, mixins, n);
    RemainingFinds(base, mixins, n);
    if f.InMixin? && !FindsAStray(head, mixins, n) {
      MovedMember(base, head, mixins, n);
    }
    if i >= 0 && !Stays(base[i], mixins) {
      MovedNameResolves(base, head, mixins, n);
    }
    hide Accepted, Names, ImportedTo, Key;
    assert AllSame(Remaining(base, mixins), head) by { StaysTheSame(base, head, mixins); }
  }

  lemma StaysTheSame(base: Class, head: Class, mixins: seq<Class>)
    requires Accepted(base, head, mixins)
    ensures AllSame(Remaining(base, mixins), head)
  {
  }

  /** A member found in a mixin passes the comparison of definitions with the class's own:
      its imports read there as they did. */
  lemma MovedMembersImportTheSame(base: Class, head: Class, mixins: seq<Class>, n: string,
                                  p: Dotted, packages: seq<Dotted>, at: Target -> Object)
    requires WrittenClass(base) && (forall m :: 0 <= m < |mixins| ==> WrittenClass(mixins[m]))
    requires |mixins| == |packages| && Accepted(base, head, mixins)
    requires AllImportsMoved(base, mixins, p, packages, |mixins|, at)
    requires Find(head, mixins, n).InMixin? && !FindsAStray(head, mixins, n)
    ensures var f := Find(head, mixins, n);
            && Filed(base, n)
            && AstPairing.Same(base[LastKeyed(base, n)].tree, p, mixins[f.m][f.i].tree, packages[f.m], at)
  {
    hide SameImports;
    MovedMember(base, head, mixins, n);
    var f := Find(head, mixins, n);
    assert ImportsMoved(base, mixins[f.m], p, packages[f.m], at);
  }

  // --- over all moves ------------------------------------------------------------------

  ghost predicate SourceClass(c: Class) { forall i :: 0 <= i < |c| ==> Source(c[i].tree) }

  function AllNames(c: Class): set<string> {
    if c == [] then {} else AllNames(c[..|c| - 1]) + Names(c[|c| - 1])
  }

  lemma {:induction false} BoundIsNamed(c: Class, n: string)
    requires n !in AllNames(c)
    ensures LastBinder(c, n) == -1
  {
    hide Names;
    if c != [] {
      BoundIsNamed(c[..|c| - 1], n);
    }
  }

  function AllKeys(mixins: seq<Class>): (r: set<string>)
    ensures forall m, k :: 0 <= m < |mixins| && Filed(mixins[m], k) ==> k in r
  {
    if mixins == [] then {} else AllKeys(mixins[..|mixins| - 1]) + KeysOf(mixins[|mixins| - 1])
  }

  lemma {:induction false} AllShorter(names: set<string>) returns (length: nat)
    ensures forall n :: n in names ==> |n| <= length
  {
    if names == {} {
      length := 0;
    } else {
      var n :| n in names;
      length := AllShorter(names - {n});
      length := if |n| > length then |n| else length;
    }
  }

  lemma NewName(names: set<string>) returns (name: string)
    ensures name !in names && AstImports.Identifier(name)
  {
    var length := AllShorter(names);
    name := seq(length + 1, _ => 'a');
  }

  // `import name, name, ...`, one time more than another import has names.
  function OneMore(i: AstImports.Import, name: string): (j: AstImports.Import)
    requires AstImports.Identifier(name)
    ensures AstImports.Grammar(j) && |j.names| == |i.names| + 1
    ensures forall k :: 0 <= k < |j.names| ==> Bound(j.names[k]) == name
  {
    AstImports.Plain(seq(|i.names| + 1, k requires 0 <= k < |i.names| + 1 => AstImports.Alias([name], None)))
  }

  // A tree with one of its imports replaced.
  lemma AnotherImport(tree: Tree, k: nat, name: string) returns (other: Tree, next: AstImports.Import)
    requires Source(tree) && k < |Imports(tree)| && AstImports.Identifier(name)
    ensures Source(other) && Alike(tree, other) && next == OneMore(ImportAt(tree, k), name)
    ensures |Imports(other)| == |Imports(tree)| && ImportAt(other, k) == next
    ensures forall l :: 0 <= l < |Imports(tree)| && l != k ==> ImportAt(other, l) == ImportAt(tree, l)
  {
    next := OneMore(ImportAt(tree, k), name);
    var imports := OtherList(tree, k, next);
    hide Source, OneMore, AstImports.ImportOf;
    other := WithImports(tree, imports);
  }

  lemma OtherList(tree: Tree, k: nat, next: AstImports.Import) returns (imports: seq<Tree>)
    requires Source(tree) && k < |Imports(tree)| && AstImports.Grammar(next)
    ensures |imports| == |Imports(tree)| && ImportList(imports) && AllSource(imports)
    ensures AstImports.ImportOf(imports[k]) == next
    ensures forall l :: 0 <= l < |imports| && l != k ==> imports[l] == Imports(tree)[l]
  {
    AstImports.ImportsAreRead(next);
    AstImports.ParsedIsSource(next);
    ImportsAreSource(tree);
    ImportsAreImports(tree);
    hide AstImports.Parsed, AstImports.ImportOf, Imports, IsImport, SlotFree, Grammatical;
    imports := Imports(tree)[k := AstImports.Parsed(next)];
  }

  lemma WithImports(tree: Tree, imports: seq<Tree>) returns (other: Tree)
    requires Source(tree) && |imports| == |Imports(tree)| && ImportList(imports) && AllSource(imports)
    ensures Source(other) && Alike(tree, other) && Imports(other) == imports
  {
    other := Refilled(tree, imports);
    RefillingKeepsTheBlank(tree, imports);
    RefilledHasThem(tree, imports);
    RefilledIsSource(tree, imports);
  }

  function WithTree(s: Stmt, tree: Tree): Stmt {
    match s
    case Def(name, _) => Def(name, tree)
    case Assign(names, binds, _) => Assign(names, binds, tree)
    case Other(stores, imports, _) => Other(stores, imports, tree)
  }

  lemma {:induction false} RemainingIsSource(c: Class, mixins: seq<Class>)
    requires SourceClass(c)
    ensures SourceClass(Remaining(c, mixins))
    ensures forall s :: s in Remaining(c, mixins) ==> s in c
  {
    if c != [] {
      RemainingIsSource(c[..|c| - 1], mixins);
    }
  }

  // The same class, but for a statement that may bind a new name and lose some.
  ghost predicate AllBut(r: Class, head: Class, name: string) {
    && AllSame(r, head)
    && forall i, n :: 0 <= i < |r| && Binds(head[i], n) ==> n == name || Binds(r[i], n)
  }

  lemma AcceptedToo(base: Class, head: Class, mixins: seq<Class>, name: string)
    requires Accepted(base, Remaining(base, mixins), mixins) && AllBut(Remaining(base, mixins), head, name)
    requires forall m :: 0 <= m < |mixins| ==> !Filed(mixins[m], name)
    ensures Accepted(base, head, mixins)
  {
    var r := Remaining(base, mixins);
    assert NoneTwice(head) by {
      assert forall i :: 0 <= i < |r| ==> SameStmt(r[i], head[i]) && Key(r[i]) == Key(head[i]);
    }
    forall m | 0 <= m < |mixins|
      ensures Resolves(head, mixins, m)
    {
      assert Resolves(r, mixins, m);
      forall k | Filed(mixins[m], k)
        ensures Find(head, mixins, k) == Find(r, mixins, k)
      {
        assert LastBinder(r, k) == -1;
      }
    }
  }

  // A statement with another import is the same to the gate, and binds no more than it
  // did and the new name.
  lemma AnotherStatement(s: Stmt, k: nat, name: string) returns (t: Stmt)
    requires Source(s.tree) && k < |Imports(s.tree)| && AstImports.Identifier(name)
    ensures Source(t.tree) && SameStmt(s, t) && |Imports(t.tree)| == |Imports(s.tree)|
    ensures |ImportAt(t.tree, k).names| != |ImportAt(s.tree, k).names|
    ensures forall n :: Binds(t, n) ==> n == name || Binds(s, n)
    ensures s.Other? && k in s.imports ==> Binds(t, name)
  {
    var other, next := AnotherImport(s.tree, k, name);
    t := WithTree(s, other);
    hide Source, Alike, ImportAt, OneMore;
    if s.Other? && k in s.imports {
      assert Bound(ImportAt(other, k).names[0]) == name;
    }
  }

  lemma OneReplaced(r: Class, i: nat, t: Stmt, name: string) returns (head: Class)
    requires i < |r| && SourceClass(r) && Source(t.tree) && SameStmt(r[i], t)
    requires forall n :: Binds(t, n) ==> n == name || Binds(r[i], n)
    ensures head == r[i := t] && AllBut(r, head, name) && SourceClass(head)
  {
    head := r[i := t];
    hide Source, Names, Alike;
    assert forall j :: 0 <= j < |r| ==> Alike(r[j].tree, r[j].tree) by { AlikeItself(); }
  }

  lemma AlikeItself()
    ensures forall t :: Alike(t, t)
  {
  }

  // A class the gate accepts with another import in a statement that stays.
  lemma AnotherClass(base: Class, mixins: seq<Class>, i: nat, k: nat) returns (head: Class, name: string)
    requires SourceClass(base) && Accepted(base, Remaining(base, mixins), mixins)
    requires i < |Remaining(base, mixins)| && k < |Imports(Remaining(base, mixins)[i].tree)|
    ensures SourceClass(head) && Accepted(base, head, mixins) && |head| == |Remaining(base, mixins)|
    ensures |Imports(head[i].tree)| == |Imports(Remaining(base, mixins)[i].tree)|
    ensures |ImportAt(head[i].tree, k).names| != |ImportAt(Remaining(base, mixins)[i].tree, k).names|
    ensures LastBinder(base, name) == -1
    ensures var s := Remaining(base, mixins)[i]; s.Other? && k in s.imports ==> Binds(head[i], name)
  {
    var r := Remaining(base, mixins);
    RemainingIsSource(base, mixins);
    name := NewName(AllNames(base) + AllKeys(mixins));
    BoundIsNamed(base, name);
    hide Remaining, Accepted, Names, Source, Imports, ImportAt, SameStmt, AllNames, AllKeys;
    var t := AnotherStatement(r[i], k, name);
    head := OneReplaced(r, i, t, name);
    AcceptedToo(base, head, mixins, name);
  }

  // --- what stays in the class ------------------------------------------------------------

  // Each statement's imports read as they did; it is in the same file still.
  ghost predicate SameClassImports(a: Class, b: Class, p: Dotted, at: Target -> Object)
    requires |a| == |b|
  {
    forall i :: 0 <= i < |a| ==> SameImports(a[i].tree, b[i].tree, p, p, at)
  }

  ghost predicate KeepsImports(base: Class, head: Class, mixins: seq<Class>, p: Dotted, at: Target -> Object) {
    SourceClass(head) && Accepted(base, head, mixins) ==> SameClassImports(Remaining(base, mixins), head, p, at)
  }

  lemma OtherImportsDiffer(a: Tree, b: Tree, p: Dotted, at: Target -> Object, k: nat)
    requires k < |Imports(a)| == |Imports(b)| && |ImportAt(a, k).names| != |ImportAt(b, k).names|
    ensures !SameImports(a, b, p, p, at)
  {
    var x, y := AstImports.ImportsOf(a)[k], AstImports.ImportsOf(b)[k];
    assert |Reading(x, p, at)| != |Reading(y, p, at)|;
  }

  /** What stays in the class is compared with its imports blanked and not accounted
      for: a move the gate accepts is sure to leave the imports there as they were
      exactly when there are none. */
  lemma TheClassKeepsItsImportsExactly(base: Class, mixins: seq<Class>, p: Dotted, at: Target -> Object)
    requires SourceClass(base) && Accepted(base, Remaining(base, mixins), mixins)
    ensures (forall head :: KeepsImports(base, head, mixins, p, at)) <==>
            forall i :: 0 <= i < |Remaining(base, mixins)| ==> Imports(Remaining(base, mixins)[i].tree) == []
  {
    var r := Remaining(base, mixins);
    RemainingIsSource(base, mixins);
    hide Remaining, Source, SameImports, Imports;
    if i :| 0 <= i < |r| && Imports(r[i].tree) != [] {
      var head, name := AnotherClass(base, mixins, i, 0);
      OtherImportsDiffer(r[i].tree, head[i].tree, p, at, 0);
      assert !KeepsImports(base, head, mixins, p, at);
    } else {
      forall head
        ensures KeepsImports(base, head, mixins, p, at)
      {
        if SourceClass(head) && Accepted(base, head, mixins) {
          StaysTheSame(base, head, mixins);
          NoImportsAreTheSame(r, head, p, at);
        }
      }
    }
  }

  lemma NoImportsAreTheSame(a: Class, b: Class, p: Dotted, at: Target -> Object)
    requires SourceClass(a) && SourceClass(b) && AllSame(a, b)
    requires forall i :: 0 <= i < |a| ==> Imports(a[i].tree) == []
    ensures SameClassImports(a, b, p, at)
  {
    forall i | 0 <= i < |a|
      ensures SameImports(a[i].tree, b[i].tree, p, p, at)
    {
      assert SameStmt(a[i], b[i]);
      EqualDumpsExactly(a[i].tree, b[i].tree);
    }
  }

  ghost predicate KeepsLookups(base: Class, head: Class, mixins: seq<Class>, p: Dotted, at: Target -> Object) {
    SourceClass(head) && Accepted(base, head, mixins) ==> forall n :: Preserved(base, head, mixins, n, p, at)
  }

  // Nothing in a mixin but members binds a name.
  predicate OfMembers(mixins: seq<Class>) {
    forall m, i :: 0 <= m < |mixins| && 0 <= i < |mixins[m]| && mixins[m][i].Other? ==> Names(mixins[m][i]) == {}
  }

  // No import runs in the class body itself.
  predicate ImportsNothing(c: Class) { forall i :: 0 <= i < |c| && c[i].Other? ==> c[i].imports == [] }

  // An import in the class body that stays can be changed into one of a new name.
  lemma AChangedImportIsFound(base: Class, mixins: seq<Class>, i: nat, p: Dotted, at: Target -> Object)
    requires SourceClass(base) && WrittenClass(base) && Accepted(base, Remaining(base, mixins), mixins)
    requires i < |Remaining(base, mixins)|
    requires Remaining(base, mixins)[i].Other? && Remaining(base, mixins)[i].imports != []
    ensures exists head :: !KeepsLookups(base, head, mixins, p, at)
  {
    var s := Remaining(base, mixins)[i];
    RemainingIsSource(base, mixins);
    assert Written(s) by { assert s in base; }
    assert s.imports[0] in s.imports && s.imports[0] < |Imports(s.tree)|;
    hide Remaining, Source, Imports, Accepted, Names;
    var head, name := AnotherClass(base, mixins, i, s.imports[0]);
    assert LastBinder(head, name) >= 0;
    assert !Preserved(base, head, mixins, name, p, at);
    assert !KeepsLookups(base, head, mixins, p, at);
  }

  /** Moves into mixins of members, docstrings and the like are sure to preserve every
      lookup exactly when no import that stays runs in the class body. */
  lemma MixinsOfMembersPreserveEveryLookupExactly(base: Class, mixins: seq<Class>, p: Dotted, at: Target -> Object)
    requires SourceClass(base) && WrittenClass(base) && (forall m :: 0 <= m < |mixins| ==> WrittenClass(mixins[m]))
    requires OfMembers(mixins) && Accepted(base, Remaining(base, mixins), mixins)
    ensures (forall head :: KeepsLookups(base, head, mixins, p, at)) <==> ImportsNothing(Remaining(base, mixins))
  {
    hide Source, Imports, Remaining, Preserved, Accepted;
    if !ImportsNothing(Remaining(base, mixins)) {
      var i :| 0 <= i < |Remaining(base, mixins)| && Remaining(base, mixins)[i].Other? && Remaining(base, mixins)[i].imports != [];
      AChangedImportIsFound(base, mixins, i, p, at);
    } else {
      forall head
        ensures KeepsLookups(base, head, mixins, p, at)
      {
        if SourceClass(head) && Accepted(base, head, mixins) {
          forall n
            ensures Preserved(base, head, mixins, n, p, at)
          {
            NothingChanges(base, head, mixins, n, p, at);
          }
        }
      }
    }
  }

  lemma {:induction false} SameClassesFindTheSame(a: Class, b: Class, n: string)
    requires AllSame(a, b) && ImportsNothing(a)
    ensures LastBinder(a, n) == LastBinder(b, n)
  {
    if a != [] {
      assert SameStmt(a[|a| - 1], b[|b| - 1]);
      SameClassesFindTheSame(a[..|a| - 1], b[..|b| - 1], n);
    }
  }

  lemma NothingChanges(base: Class, head: Class, mixins: seq<Class>, n: string, p: Dotted, at: Target -> Object)
    requires WrittenClass(base) && (forall m :: 0 <= m < |mixins| ==> WrittenClass(mixins[m]))
    requires OfMembers(mixins) && Accepted(base, head, mixins) && ImportsNothing(Remaining(base, mixins))
    ensures Preserved(base, head, mixins, n, p, at)
  {
    var r, j := Remaining(base, mixins), StayedAt(base, mixins, n);
    LookupIsPreservedExactly(base, head, mixins, n, p, at);
    StaysTheSame(base, head, mixins);
    SameClassesFindTheSame(r, head, n);
    RemainingFinds(base, mixins, n);
    if LastBinder(base, n) >= 0 && !Stays(base[LastBinder(base, n)], mixins) {
      MovedNameResolves(base, head, mixins, n);
    }
    hide Accepted, Remaining, Preserved, Names;
    if 0 <= j < |r| && j < |head| {
      assert SameStmt(r[j], head[j]);
    }
  }

  // --- where it fails -------------------------------------------------------------------

  // `import name` in a class body.
  function ImportStmt(name: string): Stmt
    requires AstImports.Identifier(name)
  {
    Other([], [0], AstImports.Parsed(AstImports.Plain([AstImports.Alias([name], None)])))
  }

  lemma OneImportBinds(tree: Tree, i: AstImports.Import, name: string)
    requires |Imports(tree)| == 1 && ImportAt(tree, 0) == i && |i.names| == 1 && Bound(i.names[0]) == name
    ensures Names(Other([], [0], tree)) == {name}
  {
    hide ImportAt, Imports, Bound;
  }

  lemma ImportStmtBinds(name: string)
    requires AstImports.Identifier(name)
    ensures Names(ImportStmt(name)) == {name} && Blanked(ImportStmt(name).tree) == SLOT && Source(ImportStmt(name).tree)
  {
    var i := AstImports.Plain([AstImports.Alias([name], None)]);
    AstImports.ImportsAreRead(i);
    AstImports.ParsedIsSource(i);
    var t := AstImports.Parsed(i);
    assert Imports(t) == [t];
    hide AstImports.Parsed, Names;
    assert ImportAt(t, 0) == i;
    OneImportBinds(t, i, name);
  }

  // A mixin with one member.
  lemma OneMember(tree: Tree, member: string, mixin: Class)
    requires mixin != [] && mixin[|mixin| - 1] == Def(member, tree)
    requires forall j :: 0 <= j < |mixin| - 1 ==> mixin[j].Other? && !Binds(mixin[j], member)
    ensures NoneTwice(mixin) && LastKeyed(mixin, member) == LastBinder(mixin, member) == |mixin| - 1
    ensures forall k :: Filed(mixin, k) <==> k == member
    ensures forall k :: MovedName([mixin], k) <==> k == member
  {
    hide Names;
    assert Binds(mixin[|mixin| - 1], member) by { DefBinds(tree, member); }
    assert forall j :: 0 <= j < |mixin| - 1 ==> Key(mixin[j]) == None;
    forall k
      ensures Filed(mixin, k) <==> k == member
    {
      assert Key(mixin[|mixin| - 1]) == Some(member);
    }
    forall k
      ensures MovedName([mixin], k) <==> k == member
    {
      assert Filed([mixin][0], k) <==> k == member;
    }
  }

  lemma DefBinds(tree: Tree, member: string)
    ensures forall n :: Binds(Def(member, tree), n) <==> n == member
  {
  }

  lemma OneBinder(a: Stmt, n: string)
    ensures LastBinder([a], n) == if Binds(a, n) then 0 else -1
  {
    hide Binds;
    assert [a][..0] == [];
  }

  lemma TwoBinders(a: Stmt, b: Stmt, n: string)
    ensures LastBinder([a, b], n) == if Binds(b, n) then 1 else if Binds(a, n) then 0 else -1
  {
    hide Binds;
    OneBinder(a, n);
    assert [a, b][..1] == [a];
  }

  lemma OneRemains(a: Stmt, b: Stmt, mixins: seq<Class>)
    requires a.Other? && !Stays(b, mixins)
    ensures Remaining([b], mixins) == [] && Remaining([a, b], mixins) == [a]
  {
    assert [b][..0] == [] && [a][..0] == [] && [a, b][..1] == [a];
    assert Remaining([a], mixins) == [] + [a];
    assert Remaining([a, b], mixins) == [a] + [];
  }

  lemma ImportStmtIs(name: string)
    requires AstImports.Identifier(name)
    ensures ImportStmt(name).Other?
  {
  }

  lemma FoundInMixin(head: Class, mixin: Class, n: string)
    requires LastBinder(head, n) == -1
    ensures Find(head, [mixin], n) == if LastBinder(mixin, n) >= 0 then InMixin(0, LastBinder(mixin, n)) else InBases
  {
    hide LastBinder;
    assert FindInMixins([mixin], 1, n) == InBases;
  }

  lemma MovedAlone(base: Class, head: Class, mixin: Class, member: string)
    requires NoneTwice(mixin) && NoneTwice(head) && AllSame(Remaining(base, [mixin]), head)
    requires forall k :: Filed(mixin, k) <==> k == member
    requires Filed(mixin, member) && Filed(base, member)
    requires SameStmt(base[LastKeyed(base, member)], mixin[LastKeyed(mixin, member)])
    requires LastBinder(head, member) == -1 && LastBinder(mixin, member) >= 0
    ensures Accepted(base, head, [mixin])
  {
    hide NoneTwice, AllSame, Remaining, SameStmt, Filed, LastBinder, LastKeyed;
    assert Verbatim(base, mixin);
    assert Resolves(head, [mixin], 0);
  }

  // A statement that is no member comes with the member.
  lemma OneComes(s: Stmt, tree: Tree, member: string, x: string, p: Dotted, at: Target -> Object)
    requires s.Other? && Binds(s, x) && !Binds(s, member) && x != member
    ensures var base, head, mixins := [Def(member, tree)], [], [[s, Def(member, tree)]];
            Accepted(base, head, mixins) && !Preserved(base, head, mixins, x, p, at)
  {
    var d := Def(member, tree);
    var base: Class, mixin: Class := [d], [s, d];
    DefBinds(tree, member);
    OneMember(tree, member, mixin);
    OneMember(tree, member, base);
    OneBinder(d, x);
    TwoBinders(s, d, x);
    assert SameStmt(d, d);
    hide Binds, Names, SameStmt, Accepted;
    OneRemains(s, d, [mixin]);
    MovedAlone(base, [], mixin, member);
    hide LastBinder, Filed, MovedName, LastKeyed, Remaining;
    assert Find([], [mixin], x) == InMixin(0, 0) by { FoundInMixin([], mixin, x); }
  }

  /** An accepted move after which the class has an attribute it never had: an import in
      the mixin's body. */
  lemma AnImportInAMixinSlipsIn(tree: Tree, member: string, x: string, p: Dotted, at: Target -> Object)
    requires AstImports.Identifier(x) && x != member
    ensures var base, head, mixins := [Def(member, tree)], [], [[ImportStmt(x), Def(member, tree)]];
            Accepted(base, head, mixins) && !Preserved(base, head, mixins, x, p, at)
  {
    ImportStmtBinds(x);
    OneComes(ImportStmt(x), tree, member, x, p, at);
  }

  // The member moves; what it leaves behind may have other imports.
  lemma OneIsLeft(was: Stmt, now: Stmt, tree: Tree, member: string)
    requires was.Other? && SameStmt(was, now) && !Binds(was, member) && !Binds(now, member)
    ensures Accepted([was, Def(member, tree)], [now], [[Def(member, tree)]])
    ensures !Stays(Def(member, tree), [[Def(member, tree)]])
  {
    var d := Def(member, tree);
    var base, head: Class, mixin: Class := [was, d], [now], [d];
    assert SameStmt(d, d);
    OneMember(tree, member, mixin);
    OneMember(tree, member, base);
    OneBinder(now, member);
    assert NoneTwice(head);
    hide Names, Binds, SameStmt, Accepted;
    OneRemains(was, d, [mixin]);
    assert AllSame([was], head);
    hide LastBinder, MovedName, Remaining, NoneTwice, AllSame;
    MovedAlone(base, head, mixin, member);
  }

  lemma OneIsLost(was: Stmt, now: Stmt, tree: Tree, member: string, x: string, p: Dotted, at: Target -> Object)
    requires was.Other? && SameStmt(was, now) && !Binds(was, member) && !Binds(now, member)
    requires Binds(was, x) && !Binds(now, x) && x != member
    ensures var base, head, mixins := [was, Def(member, tree)], [now], [[Def(member, tree)]];
            && Accepted(base, head, mixins) && LastBinder(base, x) == 0 && Find(head, mixins, x) == InBases
            && !FindsAStray(head, mixins, x) && !Preserved(base, head, mixins, x, p, at)
  {
    var d := Def(member, tree);
    DefBinds(tree, member);
    OneIsLeft(was, now, tree, member);
    OneBinder(d, x);
    OneBinder(now, x);
    TwoBinders(was, d, x);
    hide Names, Binds, SameStmt, Accepted, Remaining, ImportedTo, LastBinder;
    assert Stays(was, [[d]]);
  }

  /** And one after which it lacks one it had: with the member moved, the import left in
      the class body was changed. */
  lemma AChangedImportLosesALookup(tree: Tree, member: string, x: string, y: string, p: Dotted, at: Target -> Object)
    requires AstImports.Identifier(x) && AstImports.Identifier(y) && x != member && y != member && x != y
    ensures var base, head, mixins := [ImportStmt(x), Def(member, tree)], [ImportStmt(y)], [[Def(member, tree)]];
            && Accepted(base, head, mixins) && LastBinder(base, x) == 0 && Find(head, mixins, x) == InBases
            && !FindsAStray(head, mixins, x) && !Preserved(base, head, mixins, x, p, at)
  {
    ImportStmtBinds(x);
    ImportStmtBinds(y);
    assert SameStmt(ImportStmt(x), ImportStmt(y));
    hide Names, SameStmt, ImportStmt;
    assert ImportStmt(x).Other? by { ImportStmtIs(x); }
    OneIsLost(ImportStmt(x), ImportStmt(y), tree, member, x, p, at);
  }
}
