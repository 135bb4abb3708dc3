/** Moving members of a class into mixins: what `compare_methods`, `members` and
    `_duplicates` in scripts/refactor/ast_identity.py accept. */
module AstMethods {
  import opened AstBlank
  import AstImports
  import opened AstPairing
  import opened Wrappers

  // One statement of a class body. `names` are the names its targets mention and
  // `binds` those they store; conditionals, imports and the like are no members, but
  // bind what they store and what those of their imports bind that run in the class body.
  datatype Stmt =
    | Def(name: string, tree: Tree)
    | Assign(names: seq<string>, binds: seq<string>, tree: Tree)
    | Other(stores: seq<string>, imports: seq<nat>, tree: Tree)

  type Class = seq<Stmt>

  type Dotted = AstImports.Dotted

  predicate Identifier(s: string) { s != "" && ',' !in s }

  function ImportAt(tree: Tree, k: nat): AstImports.Import
    requires k < |Imports(tree)|
  {
    AstImports.ImportOf(Imports(tree)[k])
  }

  // The names a statement binds in the class.
  function Names(s: Stmt): set<string> {
    match s
    case Def(name, _) => {name}
    case Assign(_, binds, _) => set n | n in binds
    case Other(stores, imports, tree) =>
      (set n | n in stores)
      + set k, j | k in imports && k < |Imports(tree)| && 0 <= j < |ImportAt(tree, k).names| :: Bound(ImportAt(tree, k).names[j])
  }

  predicate Binds(s: Stmt, n: string) { n in Names(s) }

  predicate Written(s: Stmt) {
    && (forall n :: n in Names(s) ==> Identifier(n))
    && match s
       case Def(_, _) => true
       case Assign(names, binds, _) => (forall n :: n in names ==> Identifier(n)) && (forall n :: n in binds ==> n in names)
       case Other(_, imports, tree) => forall k :: k in imports ==> k < |Imports(tree)|
  }

  predicate WrittenClass(c: Class) { forall i :: 0 <= i < |c| ==> Written(c[i]) }

  function Joined(names: seq<string>): string {
    if names == [] then "" else if |names| == 1 then names[0] else names[0] + "," + Joined(names[1..])
  }

  // The name `members` files a statement under.
  function Key(s: Stmt): Option<string> {
    match s
    case Def(name, _) => Some(name)
    case Assign(names, _, _) => Some(Joined(names))
    case Other(_, _, _) => None
  }

  // Equal dumps of what is left with the imports blanked: what a statement is, what it
  // mentions and where its imports stand is part of that; what they import is not.
  predicate SameStmt(a: Stmt, b: Stmt) {
    && Alike(a.tree, b.tree)
    && match a
       case Def(name, _) => b.Def? && b.name == name
       case Assign(names, binds, _) => b.Assign? && b.names == names && b.binds == binds
       case Other(stores, imports, _) => b.Other? && b.stores == stores && b.imports == imports
  }

  // --- lookup ------------------------------------------------------------------------

  // The statement that binds n last, or -1.
  function LastBinder(c: Class, n: string): (i: int)
    ensures -1 <= i < |c| && (i >= 0 ==> Binds(c[i], n)) && forall j :: i < j < |c| ==> !Binds(c[j], n)
  {
    if c == [] then -1
    else if Binds(c[|c| - 1], n) then |c| - 1
    else LastBinder(c[..|c| - 1], n)
  }

  // members(c)[k] is the last statement filed under k.
  function LastKeyed(c: Class, k: string): (i: int)
    ensures -1 <= i < |c| && (i >= 0 ==> Key(c[i]) == Some(k)) && forall j :: i < j < |c| ==> Key(c[j]) != Some(k)
  {
    if c == [] then -1
    else if Key(c[|c| - 1]) == Some(k) then |c| - 1
    else LastKeyed(c[..|c| - 1], k)
  }

  datatype Found = InClass(i: nat) | InMixin(m: nat, i: nat) | InBases

  function FindInMixins(mixins: seq<Class>, from: nat, n: string): (f: Found)
    requires from <= |mixins|
    ensures f.InMixin? ==> from <= f.m < |mixins| && f.i == LastBinder(mixins[f.m], n)
    ensures f.InMixin? ==> forall m :: from <= m < f.m ==> LastBinder(mixins[m], n) == -1
    ensures f.InBases? ==> forall m :: from <= m < |mixins| ==> LastBinder(mixins[m], n) == -1
    ensures !f.InClass?
    decreases |mixins| - from
  {
    if from == |mixins| then InBases
    else if LastBinder(mixins[from], n) >= 0 then InMixin(from, LastBinder(mixins[from], n))
    else FindInMixins(mixins, from + 1, n)
  }

  // The method resolution order of a class over base-less mixins.
  function Find(c: Class, mixins: seq<Class>, n: string): Found {
    if LastBinder(c, n) >= 0 then InClass(LastBinder(c, n)) else FindInMixins(mixins, 0, n)
  }

  // --- the gate ----------------------------------------------------------------------

  predicate Filed(c: Class, k: string) { LastKeyed(c, k) >= 0 }

  predicate NoneTwice(c: Class) {
    forall i, j :: 0 <= i < j < |c| && Key(c[i]).Some? ==> Key(c[i]) != Key(c[j])
  }

  predicate MovedName(mixins: seq<Class>, k: string) { exists m :: 0 <= m < |mixins| && Filed(mixins[m], k) }

  predicate Stays(s: Stmt, mixins: seq<Class>) { Key(s).None? || !MovedName(mixins, Key(s).value) }

  function Remaining(c: Class, mixins: seq<Class>): Class {
    if c == [] then []
    else Remaining(c[..|c| - 1], mixins) + (if Stays(c[|c| - 1], mixins) then [c[|c| - 1]] else [])
  }

  predicate AllSame(a: Class, b: Class) { |a| == |b| && forall i :: 0 <= i < |a| ==> SameStmt(a[i], b[i]) }

  // Each member of mixin m, verbatim from the class as it was.
  ghost predicate Verbatim(base: Class, mixin: Class) {
    forall k :: Filed(mixin, k) ==> Filed(base, k) && SameStmt(base[LastKeyed(base, k)], mixin[LastKeyed(mixin, k)])
  }

  // At HEAD the class attribute is the one on the mixin that has the member.
  ghost predicate Resolves(head: Class, mixins: seq<Class>, m: nat)
    requires m < |mixins|
  {
    forall k :: Filed(mixins[m], k) ==>
      LastBinder(mixins[m], k) >= 0 && Find(head, mixins, k) == InMixin(m, LastBinder(mixins[m], k))
  }

  // Each member of the first mixins, in one of them only.
  ghost predicate MovedOnce(base: Class, mixins: seq<Class>, upTo: nat)
    requires upTo <= |mixins|
  {
    && (forall m :: 0 <= m < upTo ==> NoneTwice(mixins[m]) && Verbatim(base, mixins[m]))
    && (forall l, m, k :: 0 <= l < m < upTo && Filed(mixins[l], k) ==> !Filed(mixins[m], k))
  }

  // The imports in each member of a mixin do what they did in the class.
  ghost predicate ImportsMoved(base: Class, mixin: Class, p: Dotted, q: Dotted, at: Target -> Object) {
    forall k :: Filed(mixin, k) && Filed(base, k) ==>
      SameImports(base[LastKeyed(base, k)].tree, mixin[LastKeyed(mixin, k)].tree, p, q, at)
  }

  ghost predicate AllImportsMoved(base: Class, mixins: seq<Class>, p: Dotted, packages: seq<Dotted>,
                                  upTo: nat, at: Target -> Object)
    requires upTo <= |mixins| == |packages|
  {
    forall m :: 0 <= m < upTo ==> ImportsMoved(base, mixins[m], p, packages[m], at)
  }

  // What is compared in the sources ...
  ghost predicate Matches(base: Class, head: Class, mixins: seq<Class>) {
    MovedOnce(base, mixins, |mixins|) && NoneTwice(head) && AllSame(Remaining(base, mixins), head)
  }

  // ... and what is then looked up on the imported class.
  ghost predicate Accepted(base: Class, head: Class, mixins: seq<Class>) {
    Matches(base, head, mixins) && forall m :: 0 <= m < |mixins| ==> Resolves(head, mixins, m)
  }

  datatype Complaint =
    | DefinedTwice
    | InTwoMixins(name: string)
    | NotInTheClass(name: string)
    | Changed(name: string)
    | Imported(problem: Problem)
    | ClassChanged

  function KeysOf(c: Class): (ks: set<string>)
    ensures forall k :: k in ks <==> Filed(c, k)
  {
    if c == [] then {}
    else KeysOf(c[..|c| - 1]) + (match Key(c[|c| - 1]) case Some(k) => {k} case None => {})
  }

  // A member of a mixin that the class had, the same but for imports, these doing the same.
  ghost predicate GoodMember(base: Class, mixin: Class, moved: set<string>, k: string, p: Dotted, q: Dotted, at: Target -> Object)
    requires Filed(mixin, k)
  {
    k !in moved && Filed(base, k)
    && SameStmt(base[LastKeyed(base, k)], mixin[LastKeyed(mixin, k)])
    && SameImports(base[LastKeyed(base, k)].tree, mixin[LastKeyed(mixin, k)].tree, p, q, at)
  }

  // One mixin's members, in whatever order its dict gives them.
  method AddMoved(base: Class, mixin: Class, moved: set<string>, p: Dotted, q: Dotted, ghost at: Target -> Object)
    returns (problems: seq<Complaint>, pairs: seq<(Target, Target)>, all: set<string>)
    ensures all == moved + KeysOf(mixin)
    ensures problems == [] && Identical(pairs, at) <==>
            NoneTwice(mixin) && Verbatim(base, mixin) && ImportsMoved(base, mixin, p, q, at)
            && forall k :: Filed(mixin, k) ==> k !in moved
  {
    problems, pairs, all := [], [], moved;
    if !NoneTwice(mixin) {
      problems := [DefinedTwice];
    }
    GoodMembers(base, mixin, moved, p, q, at);
    hide NoneTwice, SameStmt, Identical, SameImports, Verbatim, ImportsMoved;
    assert Identical([], at) by { IdenticalNone(at); }
    var left := KeysOf(mixin);
    while left != {}
      invariant left <= KeysOf(mixin) && all == moved + (KeysOf(mixin) - left)
      invariant problems == [] && Identical(pairs, at) <==>
                NoneTwice(mixin) && forall k :: k in KeysOf(mixin) && k !in left ==> GoodMember(base, mixin, moved, k, p, q, at)
      decreases left
    {
      var k :| k in left;
      left := left - {k};
      if k in moved {
        problems := problems + [InTwoMixins(k)];
      } else if !Filed(base, k) {
        problems := problems + [NotInTheClass(k)];
      } else if !SameStmt(base[LastKeyed(base, k)], mixin[LastKeyed(mixin, k)]) {
        problems := problems + [Changed(k)];
      } else {
        var found, more := PairImports(base[LastKeyed(base, k)].tree, mixin[LastKeyed(mixin, k)].tree, p, q, at);
        IdenticalBoth(pairs, more, at);
        problems, pairs := problems + OtherImports(found), pairs + more;
      }
      all := all + {k};
    }
  }

  function OtherImports(found: seq<Problem>): (r: seq<Complaint>)
    ensures r == [] <==> found == []
  {
    seq(|found|, i requires 0 <= i < |found| => Imported(found[i]))
  }

  lemma IdenticalNone(at: Target -> Object)
    ensures Identical([], at)
  {
  }

  lemma GoodMembers(base: Class, mixin: Class, moved: set<string>, p: Dotted, q: Dotted, at: Target -> Object)
    ensures (forall k :: k in KeysOf(mixin) ==> GoodMember(base, mixin, moved, k, p, q, at)) <==>
            Verbatim(base, mixin) && ImportsMoved(base, mixin, p, q, at) && forall k :: Filed(mixin, k) ==> k !in moved
  {
    hide SameStmt, SameImports;
    var keys := KeysOf(mixin);
    if forall k :: k in keys ==> GoodMember(base, mixin, moved, k, p, q, at) {
      forall k | Filed(mixin, k)
        ensures k !in moved && Filed(base, k)
        ensures SameStmt(base[LastKeyed(base, k)], mixin[LastKeyed(mixin, k)])
        ensures SameImports(base[LastKeyed(base, k)].tree, mixin[LastKeyed(mixin, k)].tree, p, q, at)
      {
        assert k in keys && GoodMember(base, mixin, moved, k, p, q, at);
      }
    }
  }

  // The names filed in the first mixins.
  ghost predicate IsMoved(mixins: seq<Class>, upTo: nat, moved: set<string>)
    requires upTo <= |mixins|
  {
    forall k :: k in moved <==> exists l :: 0 <= l < upTo && Filed(mixins[l], k)
  }

  lemma NoneMoved(base: Class, mixins: seq<Class>)
    ensures IsMoved(mixins, 0, {}) && MovedOnce(base, mixins, 0)
  {
  }

  lemma OneMoreMoved(base: Class, mixins: seq<Class>, m: nat, moved: set<string>)
    requires m < |mixins| && IsMoved(mixins, m, moved)
    ensures IsMoved(mixins, m + 1, moved + KeysOf(mixins[m]))
    ensures MovedOnce(base, mixins, m + 1) <==>
            && MovedOnce(base, mixins, m)
            && NoneTwice(mixins[m]) && Verbatim(base, mixins[m]) && forall k :: Filed(mixins[m], k) ==> k !in moved
  {
    hide NoneTwice, Verbatim, Filed;
  }

  lemma OneMoreImported(base: Class, mixins: seq<Class>, p: Dotted, packages: seq<Dotted>, m: nat, at: Target -> Object)
    requires m < |mixins| == |packages|
    ensures AllImportsMoved(base, mixins, p, packages, m + 1, at) <==>
            AllImportsMoved(base, mixins, p, packages, m, at) && ImportsMoved(base, mixins[m], p, packages[m], at)
  {
    hide ImportsMoved;
  }

  /** The comparison of the class: no problem and identical pairs mean exactly that the
      members moved, each verbatim and into one mixin with imports that do the same,
      and nothing else of the class changed but the imports in it. */
  method CompareMethods(base: Class, head: Class, mixins: seq<Class>, p: Dotted, packages: seq<Dotted>,
                        ghost at: Target -> Object)
    returns (problems: seq<Complaint>, pairs: seq<(Target, Target)>)
    requires |mixins| == |packages|
    ensures problems == [] && Identical(pairs, at) <==>
            Matches(base, head, mixins) && AllImportsMoved(base, mixins, p, packages, |mixins|, at)
  {
    problems, pairs := [], [];
    var moved: set<string> := {};
    IdenticalNone(at);
    hide MovedOnce, IsMoved, NoneTwice, Verbatim, AllSame, Filed, Identical, ImportsMoved, AllImportsMoved;
    NoneMoved(base, mixins);
    assert AllImportsMoved(base, mixins, p, packages, 0, at) by { NoneImported(base, mixins, p, packages, at); }
    for m := 0 to |mixins|
      invariant IsMoved(mixins, m, moved)
      invariant problems == [] && Identical(pairs, at) <==>
                MovedOnce(base, mixins, m) && AllImportsMoved(base, mixins, p, packages, m, at)
    {
      var more, found, all := AddMoved(base, mixins[m], moved, p, packages[m], at);
      OneMoreMoved(base, mixins, m, moved);
      OneMoreImported(base, mixins, p, packages, m, at);
      IdenticalBoth(pairs, found, at);
      problems, pairs, moved := problems + more, pairs + found, all;
    }
    if !NoneTwice(head) {
      problems := problems + [DefinedTwice];
    }
    var rest := StillThere(base, moved);
    StillThereIsRemaining(base, mixins, moved);
    if !AllSame(rest, head) {
      problems := problems + [ClassChanged];
    }
  }

  lemma NoneImported(base: Class, mixins: seq<Class>, p: Dotted, packages: seq<Dotted>, at: Target -> Object)
    requires |mixins| == |packages|
    ensures AllImportsMoved(base, mixins, p, packages, 0, at)
  {
  }

  // The statements not filed under a moved name.
  function StillThere(c: Class, moved: set<string>): Class {
    if c == [] then []
    else StillThere(c[..|c| - 1], moved)
         + (if Key(c[|c| - 1]).None? || Key(c[|c| - 1]).value !in moved then [c[|c| - 1]] else [])
  }

  lemma {:induction false} StillThereIsRemaining(c: Class, mixins: seq<Class>, moved: set<string>)
    requires IsMoved(mixins, |mixins|, moved)
    ensures StillThere(c, moved) == Remaining(c, mixins)
  {
    if c != [] {
      StillThereIsRemaining(c[..|c| - 1], mixins, moved);
    }
  }
}
