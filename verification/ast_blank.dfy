/** Blanking the imports of a definition, and what equal blanked dumps mean
    (`_Blank`, `blanked`, `imports_in` in scripts/refactor/ast_identity.py). */
module AstBlank {

  // A syntax tree: nodes of a class, their present fields by name, lists, and
  // constants by their repr.
  datatype Tag = Node(cls: string) | Field(name: string) | Items

  datatype Tree = Leaf(repr: string) | Group(tag: Tag, parts: seq<Tree>)

  const SLOT_NAME := "'\\x00import slot'"

  const SLOT_ID := Group(Field("id"), [Leaf(SLOT_NAME)])

  const SLOT_EXPR := Group(Node("Name"), [SLOT_ID, Group(Field("ctx"), [Group(Node("Load"), [])])])

  // The statement an import becomes: a name, alone.
  const SLOT := Group(Node("Expr"), [Group(Field("value"), [SLOT_EXPR])])

  predicate IsImport(t: Tree) {
    t.Group? && (t.tag == Node("Import") || t.tag == Node("ImportFrom"))
  }

  function Blanked(t: Tree): Tree {
    if IsImport(t) then SLOT
    else match t
      case Leaf(_) => t
      case Group(tag, parts) => Group(tag, BlankedAll(parts))
  }

  function BlankedAll(ts: seq<Tree>): (r: seq<Tree>)
    ensures |r| == |ts| && forall i :: 0 <= i < |ts| ==> r[i] == Blanked(ts[i])
  {
    if ts == [] then [] else [Blanked(ts[0])] + BlankedAll(ts[1..])
  }

  // The imports of a tree in source order, depth first.
  function Imports(t: Tree): seq<Tree> {
    (if IsImport(t) then [t] else []) + (if t.Group? then ImportsAll(t.parts) else [])
  }

  function ImportsAll(ts: seq<Tree>): seq<Tree> {
    if ts == [] then [] else Imports(ts[0]) + ImportsAll(ts[1..])
  }

  lemma ImportsFrom(ts: seq<Tree>, i: nat)
    requires i < |ts|
    ensures ImportsAll(ts[i..]) == Imports(ts[i]) + ImportsAll(ts[i + 1..])
  {
    assert ts[i..][1..] == ts[i + 1..];
  }

  /** The visitor: it appends to one list as it goes. */
  method ImportsIn(t: Tree, sofar: seq<Tree>) returns (found: seq<Tree>)
    ensures found == sofar + Imports(t)
    decreases t
  {
    found := sofar;
    if IsImport(t) {
      found := found + [t];
    }
    if t.Group? {
      assert found + ImportsAll(t.parts) == sofar + Imports(t) && t.parts[0..] == t.parts;
      assert ImportsAll([]) == [];
      hide Imports, ImportsAll;
      for i := 0 to |t.parts|
        invariant found + ImportsAll(t.parts[i..]) == sofar + Imports(t)
      {
        var more := ImportsIn(t.parts[i], found);
        ImportsFrom(t.parts, i);
        assert found + (Imports(t.parts[i]) + ImportsAll(t.parts[i + 1..])) == more + ImportsAll(t.parts[i + 1..]);
        found := more;
      }
    }
  }

  // No identifier spells the slot: no source can put a NUL in one. (A string
  // constant can hold the same text; it is not an identifier.)
  predicate SlotFree(t: Tree) {
    && t != SLOT_ID
    && (t.Group? ==> forall i :: 0 <= i < |t.parts| ==> SlotFree(t.parts[i]))
  }

  // An import holds names and constants, never another import.
  predicate Grammatical(t: Tree) {
    match t
    case Leaf(_) => true
    case Group(_, parts) =>
      && (IsImport(t) ==> ImportsAll(parts) == [])
      && forall i :: 0 <= i < |parts| ==> Grammatical(parts[i])
  }

  predicate Source(t: Tree) { SlotFree(t) && Grammatical(t) }

  // --- putting other imports in the same places --------------------------------------

  // `t` with its k-th import replaced by the k-th of `imports`.
  function Refilled(t: Tree, imports: seq<Tree>): Tree
    requires Grammatical(t) && |imports| == |Imports(t)|
  {
    if IsImport(t) then imports[0]
    else match t
      case Leaf(_) => t
      case Group(tag, parts) => Group(tag, RefilledAll(parts, imports))
  }

  function RefilledAll(ts: seq<Tree>, imports: seq<Tree>): seq<Tree>
    requires (forall i :: 0 <= i < |ts| ==> Grammatical(ts[i])) && |imports| == |ImportsAll(ts)|
  {
    if ts == [] then []
    else [Refilled(ts[0], imports[..|Imports(ts[0])|])] + RefilledAll(ts[1..], imports[|Imports(ts[0])|..])
  }

  // Where the imports are: for each, the way down from the root.
  function Places(t: Tree): seq<seq<nat>> {
    if IsImport(t) then [[]]
    else match t
      case Leaf(_) => []
      case Group(_, parts) => PlacesAll(parts, 0)
  }

  function PlacesAll(ts: seq<Tree>, first: nat): seq<seq<nat>> {
    if ts == [] then [] else Under(first, Places(ts[0])) + PlacesAll(ts[1..], first + 1)
  }

  function Under(i: nat, places: seq<seq<nat>>): seq<seq<nat>> {
    seq(|places|, k requires 0 <= k < |places| => [i] + places[k])
  }

  // What stands there.
  function At(t: Tree, place: seq<nat>): Tree
    decreases place
  {
    if place != [] && t.Group? && place[0] < |t.parts| then At(t.parts[place[0]], place[1..]) else t
  }

  lemma {:induction false} ImportsStandThere(t: Tree)
    requires Grammatical(t)
    ensures |Places(t)| == |Imports(t)| && forall k :: 0 <= k < |Places(t)| ==> At(t, Places(t)[k]) == Imports(t)[k]
  {
    if IsImport(t) {
      assert Imports(t) == [t];
    } else if t.Group? {
      ImportsAllStandThere(t, 0);
      assert Imports(t) == ImportsAll(t.parts) && t.parts[0..] == t.parts;
    }
  }

  // A way down from a part.
  lemma DownFrom(t: Tree, i: nat, places: seq<seq<nat>>)
    requires t.Group? && i < |t.parts|
    ensures forall k :: 0 <= k < |places| ==> At(t, Under(i, places)[k]) == At(t.parts[i], places[k])
  {
    forall k | 0 <= k < |places|
      ensures At(t, Under(i, places)[k]) == At(t.parts[i], places[k])
    {
      assert ([i] + places[k])[1..] == places[k];
    }
  }

  ghost predicate Stands(t: Tree, places: seq<seq<nat>>, imports: seq<Tree>) {
    |places| == |imports| && forall k :: 0 <= k < |places| ==> At(t, places[k]) == imports[k]
  }

  lemma StandsBoth(t: Tree, p: seq<seq<nat>>, i: seq<Tree>, q: seq<seq<nat>>, j: seq<Tree>)
    requires Stands(t, p, i) && Stands(t, q, j)
    ensures Stands(t, p + q, i + j)
  {
    hide At;
  }

  lemma {:induction false} ImportsAllStandThere(t: Tree, first: nat)
    requires t.Group? && first <= |t.parts| && forall i :: 0 <= i < |t.parts| ==> Grammatical(t.parts[i])
    ensures Stands(t, PlacesAll(t.parts[first..], first), ImportsAll(t.parts[first..]))
    decreases t, |t.parts| - first
  {
    var ts := t.parts[first..];
    if ts != [] {
      assert ts[0] == t.parts[first] && ts[1..] == t.parts[first + 1..];
      ImportsStandThere(ts[0]);
      ImportsAllStandThere(t, first + 1);
      DownFrom(t, first, Places(ts[0]));
      StandsBoth(t, Under(first, Places(ts[0])), Imports(ts[0]), PlacesAll(ts[1..], first + 1), ImportsAll(ts[1..]));
    }
  }

  // In a source, nothing but an import blanks to the slot: level by level,
  // something else would have to spell the slot's name.
  lemma NoneBlanksToTheId(t: Tree)
    requires SlotFree(t)
    ensures Blanked(t) != SLOT_ID
  {
    if t.Group? && !IsImport(t) && |t.parts| == 1 {
      assert Blanked(t).parts[0] == Blanked(t.parts[0]);
      assert t == Group(t.tag, [t.parts[0]]);
    }
  }

  lemma NoneBlanksToTheName(t: Tree)
    requires SlotFree(t)
    ensures Blanked(t) != SLOT_EXPR
  {
    if t.Group? && !IsImport(t) && t.parts != [] {
      NoneBlanksToTheId(t.parts[0]);
      assert Blanked(t).parts[0] == Blanked(t.parts[0]);
    }
  }

  lemma NoneBlanksToTheValue(t: Tree)
    requires SlotFree(t)
    ensures Blanked(t) != Group(Field("value"), [SLOT_EXPR])
  {
    if t.Group? && !IsImport(t) && t.parts != [] {
      NoneBlanksToTheName(t.parts[0]);
      assert Blanked(t).parts[0] == Blanked(t.parts[0]);
    }
  }

  lemma OnlyImportsBlankToTheSlot(t: Tree)
    requires SlotFree(t)
    ensures Blanked(t) == SLOT <==> IsImport(t)
  {
    if t.Group? && !IsImport(t) && t.parts != [] {
      NoneBlanksToTheValue(t.parts[0]);
      assert Blanked(t).parts[0] == Blanked(t.parts[0]);
    }
  }

  lemma EqualBlanksRefill(a: Tree, b: Tree)
    requires Source(a) && Source(b) && Blanked(a) == Blanked(b)
    ensures |Imports(a)| == |Imports(b)| && Refilled(a, Imports(b)) == b && Places(a) == Places(b)
  {
    OnlyImportsBlankToTheSlot(a);
    OnlyImportsBlankToTheSlot(b);
    if IsImport(a) {
      assert Imports(a) == [a] && Imports(b) == [b];
    } else if a.Group? {
      EqualBlanksRefillAll(a.parts, b.parts, 0);
      assert Imports(a) == ImportsAll(a.parts) && Imports(b) == ImportsAll(b.parts);
    }
  }

  ghost predicate AllSource(ts: seq<Tree>) { forall i :: 0 <= i < |ts| ==> Source(ts[i]) }

  lemma EqualBlanksRefillAll(xs: seq<Tree>, ys: seq<Tree>, first: nat)
    requires AllSource(xs) && AllSource(ys) && BlankedAll(xs) == BlankedAll(ys)
    ensures |ImportsAll(xs)| == |ImportsAll(ys)| && RefilledAll(xs, ImportsAll(ys)) == ys
    ensures PlacesAll(xs, first) == PlacesAll(ys, first)
  {
    assert |xs| == |ys|;
    if xs != [] {
      assert BlankedAll(xs)[0] == BlankedAll(ys)[0];
      assert BlankedAll(xs)[1..] == BlankedAll(xs[1..]) && BlankedAll(ys)[1..] == BlankedAll(ys[1..]);
      EqualBlanksRefill(xs[0], ys[0]);
      EqualBlanksRefillAll(xs[1..], ys[1..], first + 1);
      var n := |Imports(ys[0])|;
      assert ImportsAll(ys)[..n] == Imports(ys[0]) && ImportsAll(ys)[n..] == ImportsAll(ys[1..]);
    }
  }

  lemma RefillingKeepsTheBlank(t: Tree, imports: seq<Tree>)
    requires Grammatical(t) && |imports| == |Imports(t)|
    requires forall i :: 0 <= i < |imports| ==> IsImport(imports[i])
    ensures Blanked(Refilled(t, imports)) == Blanked(t)
  {
    if !IsImport(t) && t.Group? {
      RefillingKeepsTheBlankAll(t.parts, imports);
    }
  }

  lemma RefillingKeepsTheBlankAll(ts: seq<Tree>, imports: seq<Tree>)
    requires (forall i :: 0 <= i < |ts| ==> Grammatical(ts[i])) && |imports| == |ImportsAll(ts)|
    requires forall i :: 0 <= i < |imports| ==> IsImport(imports[i])
    ensures BlankedAll(RefilledAll(ts, imports)) == BlankedAll(ts)
  {
    if ts != [] {
      var n := |Imports(ts[0])|;
      RefillingKeepsTheBlank(ts[0], imports[..n]);
      RefillingKeepsTheBlankAll(ts[1..], imports[n..]);
      var head, tail := Refilled(ts[0], imports[..n]), RefilledAll(ts[1..], imports[n..]);
      assert ([head] + tail)[1..] == tail;
    }
  }

  lemma ImportsAreImports(t: Tree)
    ensures forall i :: 0 <= i < |Imports(t)| ==> IsImport(Imports(t)[i])
  {
    if t.Group? {
      ImportsAllAreImports(t.parts);
    }
  }

  lemma ImportsAllAreImports(ts: seq<Tree>)
    ensures forall i :: 0 <= i < |ImportsAll(ts)| ==> IsImport(ImportsAll(ts)[i])
  {
    if ts != [] {
      ImportsAreImports(ts[0]);
      ImportsAllAreImports(ts[1..]);
    }
  }

  // --- what is compared is a dump ------------------------------------------------------

  datatype Token = Constant(repr: string) | Opened(tag: Tag) | Closed

  // ast.dump, token by token.
  function Dump(t: Tree): seq<Token> {
    match t
    case Leaf(repr) => [Constant(repr)]
    case Group(tag, parts) => [Opened(tag)] + DumpAll(parts) + [Closed]
  }

  function DumpAll(ts: seq<Tree>): seq<Token> {
    if ts == [] then [] else Dump(ts[0]) + DumpAll(ts[1..])
  }

  // No dump is the beginning of another.
  lemma DumpEnds(a: Tree, b: Tree, x: seq<Token>, y: seq<Token>)
    requires Dump(a) + x == Dump(b) + y
    ensures a == b && x == y
    decreases a
  {
    assert (Dump(a) + x)[0] == (Dump(b) + y)[0];
    match a
    case Leaf(_) =>
      assert (Dump(a) + x)[1..] == x && (Dump(b) + y)[1..] == y;
    case Group(tag, parts) =>
      var restA, restB := [Closed] + x, [Closed] + y;
      assert Dump(a) + x == [Opened(tag)] + (DumpAll(parts) + restA);
      assert Dump(b) + y == [Opened(tag)] + (DumpAll(b.parts) + restB);
      assert (Dump(a) + x)[1..] == DumpAll(parts) + restA;
      assert (Dump(b) + y)[1..] == DumpAll(b.parts) + restB;
      DumpAllEnds(parts, b.parts, restA, restB);
      assert restA[1..] == x && restB[1..] == y;
  }

  lemma DumpAllEnds(xs: seq<Tree>, ys: seq<Tree>, x: seq<Token>, y: seq<Token>)
    requires x != [] && y != [] && x[0] == Closed == y[0]
    requires DumpAll(xs) + x == DumpAll(ys) + y
    ensures xs == ys && x == y
    decreases xs
  {
    if xs == [] || ys == [] {
      NotClosedFirst(xs, x);
      NotClosedFirst(ys, y);
      assert DumpAll(xs) + x == x && DumpAll(ys) + y == y;
    } else {
      assert Dump(xs[0]) + (DumpAll(xs[1..]) + x) == DumpAll(xs) + x;
      assert Dump(ys[0]) + (DumpAll(ys[1..]) + y) == DumpAll(ys) + y;
      DumpEnds(xs[0], ys[0], DumpAll(xs[1..]) + x, DumpAll(ys[1..]) + y);
      DumpAllEnds(xs[1..], ys[1..], x, y);
    }
  }

  lemma NotClosedFirst(ts: seq<Tree>, x: seq<Token>)
    requires x != [] && x[0] == Closed
    ensures (DumpAll(ts) + x)[0] == Closed <==> ts == []
  {
  }

  /** Two definitions pass the comparison exactly when one is the other with its
      imports replaced, one for one and each where it stood. */
  lemma EqualDumpsExactly(a: Tree, b: Tree)
    requires Source(a) && Source(b)
    ensures Dump(Blanked(a)) == Dump(Blanked(b)) <==>
            |Imports(a)| == |Imports(b)| && Refilled(a, Imports(b)) == b
    ensures Dump(Blanked(a)) == Dump(Blanked(b)) ==> Places(a) == Places(b)
  {
    if Dump(Blanked(a)) == Dump(Blanked(b)) {
      DumpEnds(Blanked(a), Blanked(b), [], []);
      EqualBlanksRefill(a, b);
    } else if |Imports(a)| == |Imports(b)| && Refilled(a, Imports(b)) == b {
      ImportsAreImports(b);
      RefillingKeepsTheBlank(a, Imports(b));
    }
  }

  // --- the imports that replace them --------------------------------------------------------

  ghost predicate ImportList(imports: seq<Tree>) {
    forall i :: 0 <= i < |imports| ==> IsImport(imports[i]) && Grammatical(imports[i])
  }

  lemma RefilledHasThem(t: Tree, imports: seq<Tree>)
    requires Grammatical(t) && |imports| == |Imports(t)| && ImportList(imports)
    ensures Imports(Refilled(t, imports)) == imports
  {
    if IsImport(t) {
      assert Imports(t) == [t] && Imports(imports[0]) == [imports[0]];
    } else if t.Group? {
      RefilledAllHaveThem(t.parts, imports);
      assert Imports(t) == ImportsAll(t.parts);
      assert Imports(Refilled(t, imports)) == [] + ImportsAll(RefilledAll(t.parts, imports));
    }
  }

  lemma RefilledAllHaveThem(ts: seq<Tree>, imports: seq<Tree>)
    requires (forall i :: 0 <= i < |ts| ==> Grammatical(ts[i])) && |imports| == |ImportsAll(ts)| && ImportList(imports)
    ensures ImportsAll(RefilledAll(ts, imports)) == imports
  {
    if ts != [] {
      var n := |Imports(ts[0])|;
      RefilledHasThem(ts[0], imports[..n]);
      RefilledAllHaveThem(ts[1..], imports[n..]);
      var head, tail := Refilled(ts[0], imports[..n]), RefilledAll(ts[1..], imports[n..]);
      assert ([head] + tail)[1..] == tail;
      assert imports == imports[..n] + imports[n..];
    }
  }

  lemma {:induction false} ImportsAreGrammatical(t: Tree)
    requires Grammatical(t)
    ensures ImportList(Imports(t))
  {
    if t.Group? {
      ImportsAllAreGrammatical(t.parts);
    }
  }

  lemma {:induction false} ImportsAllAreGrammatical(ts: seq<Tree>)
    requires forall i :: 0 <= i < |ts| ==> Grammatical(ts[i])
    ensures ImportList(ImportsAll(ts))
  {
    if ts != [] {
      ImportsAreGrammatical(ts[0]);
      ImportsAllAreGrammatical(ts[1..]);
    }
  }

  lemma {:induction false} ImportsAreSource(t: Tree)
    requires Source(t)
    ensures AllSource(Imports(t))
  {
    if t.Group? {
      ImportsAllAreSource(t.parts);
    }
  }

  lemma {:induction false} ImportsAllAreSource(ts: seq<Tree>)
    requires AllSource(ts)
    ensures AllSource(ImportsAll(ts))
  {
    if ts != [] {
      ImportsAreSource(ts[0]);
      ImportsAllAreSource(ts[1..]);
    }
  }

  lemma {:induction false} RefilledIsSource(t: Tree, imports: seq<Tree>)
    requires Source(t) && |imports| == |Imports(t)| && AllSource(imports) && ImportList(imports)
    ensures Source(Refilled(t, imports)) && Refilled(t, imports).Leaf? == t.Leaf?
    ensures IsImport(Refilled(t, imports)) == IsImport(t)
    ensures t.Leaf? ==> Refilled(t, imports) == t
  {
    if !IsImport(t) && t.Group? {
      RefilledAllAreSource(t.parts, imports);
    }
  }

  lemma {:induction false} RefilledAllAreSource(ts: seq<Tree>, imports: seq<Tree>)
    requires AllSource(ts) && |imports| == |ImportsAll(ts)| && AllSource(imports) && ImportList(imports)
    ensures var r := RefilledAll(ts, imports);
            AllSource(r) && |r| == |ts| && (ts != [] && r[0].Leaf? ==> ts[0] == r[0])
  {
    if ts != [] {
      var n := |Imports(ts[0])|;
      RefilledIsSource(ts[0], imports[..n]);
      RefilledAllAreSource(ts[1..], imports[n..]);
    }
  }

  // `b` is `a` with other imports where its own were.
  ghost predicate OnlyImportsDiffer(a: Tree, b: Tree)
    requires Grammatical(a)
  {
    exists imports :: ImportList(imports) && |imports| == |Imports(a)| && b == Refilled(a, imports)
  }

  /** The comparison passes exactly for what can be made from a definition by putting
      other imports where its own were; and those are then the ones it finds there. */
  lemma PassingMeansOnlyImportsDiffer(a: Tree, b: Tree)
    requires Source(a) && Source(b)
    ensures Dump(Blanked(a)) == Dump(Blanked(b)) <==> OnlyImportsDiffer(a, b)
    ensures forall imports :: ImportList(imports) && |imports| == |Imports(a)| && b == Refilled(a, imports) ==>
              imports == Imports(b)
  {
    forall imports | ImportList(imports) && |imports| == |Imports(a)| && b == Refilled(a, imports)
      ensures imports == Imports(b) && Dump(Blanked(a)) == Dump(Blanked(b))
    {
      RefilledHasThem(a, imports);
      RefillingKeepsTheBlank(a, imports);
    }
    if Dump(Blanked(a)) == Dump(Blanked(b)) {
      EqualDumpsExactly(a, b);
      ImportsAreGrammatical(b);
      assert b == Refilled(a, Imports(b));
    }
  }
}
