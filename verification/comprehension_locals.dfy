/** Names that only comprehensions read: `_comprehension_locals` in
    scripts/refactor/ast_identity.py, against evaluation under Python's scoping. */
module ComprehensionLocals {
  import opened Wrappers

  // `Op` is any expression evaluated part by part; a lambda's body is a scope of
  // its own, but its default values are evaluated where the lambda is.
  datatype Expr =
    | Var(name: string)
    | Op(op: string, args: seq<Expr>)
    | Lambda(id: string, defaults: seq<Expr>)
    | Comp(kind: string, gens: seq<Gen>, parts: seq<Expr>)

  datatype Gen = Gen(target: Target, iter: Expr, ifs: seq<Expr>)

  // `Into` is an attribute or subscript target: it loads what it stores into.
  datatype Target = Name(name: string) | Tuple(items: seq<Target>) | Into(op: string, loads: seq<Expr>)

  // --- the visitor ---------------------------------------------------------------------

  function Stored(t: Target): set<string> {
    match t
    case Name(name) => {name}
    case Tuple(items) => StoredAll(items)
    case Into(_, _) => {}
  }

  function StoredAll(ts: seq<Target>): (r: set<string>)
    ensures forall i :: 0 <= i < |ts| ==> Stored(ts[i]) <= r
  {
    if ts == [] then {} else Stored(ts[0]) + StoredAll(ts[1..])
  }

  // What walking a target finds stored: its own names, and those of any
  // comprehension written inside a subscript of it.
  function Walked(t: Target): set<string> {
    match t
    case Name(name) => {name}
    case Tuple(items) => WalkedTargets(items)
    case Into(_, loads) => WalkedAll(loads)
  }

  function WalkedTargets(ts: seq<Target>): set<string> {
    if ts == [] then {} else Walked(ts[0]) + WalkedTargets(ts[1..])
  }

  function WalkedIn(e: Expr): set<string> {
    match e
    case Var(_) => {}
    case Op(_, args) => WalkedAll(args)
    case Lambda(_, defaults) => WalkedAll(defaults)
    case Comp(_, gens, parts) => WalkedGens(gens) + WalkedAll(parts)
  }

  function WalkedAll(es: seq<Expr>): set<string> {
    if es == [] then {} else WalkedIn(es[0]) + WalkedAll(es[1..])
  }

  function WalkedGens(gens: seq<Gen>): set<string> {
    if gens == [] then {}
    else Walked(gens[0].target) + WalkedIn(gens[0].iter) + WalkedAll(gens[0].ifs) + WalkedGens(gens[1..])
  }

  // One load, and whether a comprehension around it binds the name.
  datatype Load = Load(name: string, inside: bool)

  function Loads(e: Expr, bound: set<string>): seq<Load> {
    match e
    case Var(name) => [Load(name, name in bound)]
    case Op(_, args) => LoadsAll(args, bound)
    case Lambda(_, _) => []
    case Comp(_, gens, parts) => LoadsGens(gens, bound) + LoadsAll(parts, Inner(gens, bound))
  }

  function LoadsAll(es: seq<Expr>, bound: set<string>): seq<Load> {
    if es == [] then [] else Loads(es[0], bound) + LoadsAll(es[1..], bound)
  }

  function LoadsGens(gens: seq<Gen>, bound: set<string>): seq<Load> {
    if gens == [] then []
    else LoadsGen(gens[0], bound) + LoadsGens(gens[1..], bound + Walked(gens[0].target))
  }

  // Only the iterable is looked at before the target is bound.
  function LoadsGen(g: Gen, bound: set<string>): seq<Load> {
    var inner := bound + Walked(g.target);
    Loads(g.iter, bound) + LoadsTarget(g.target, inner) + LoadsAll(g.ifs, inner)
  }

  function LoadsTarget(t: Target, bound: set<string>): seq<Load> {
    match t
    case Name(_) => []
    case Tuple(items) => LoadsTargets(items, bound)
    case Into(_, loads) => LoadsAll(loads, bound)
  }

  function LoadsTargets(ts: seq<Target>, bound: set<string>): seq<Load> {
    if ts == [] then [] else LoadsTarget(ts[0], bound) + LoadsTargets(ts[1..], bound)
  }

  // The names bound once all of the generators are.
  function Inner(gens: seq<Gen>, bound: set<string>): set<string> {
    if gens == [] then bound else Inner(gens[1..], bound + Walked(gens[0].target))
  }

  ghost predicate OnlyInside(name: string, loads: seq<Load>) {
    (exists i :: 0 <= i < |loads| && loads[i].name == name) && EachInside(name, loads)
  }

  /** The nested visitor and the dict it fills. */
  class Visitor {
    var loads: map<string, seq<bool>>

    // The dict holds, per name, its loads in the order they were met.
    ghost predicate Holds(seen: seq<Load>)
      reads this
    {
      && (forall name :: name in loads <==> Of(name, seen) != [])
      && (forall name :: name in loads ==> loads[name] == Of(name, seen))
    }

    constructor ()
      ensures Holds([])
    {
      loads := map[];
    }

    method Note(name: string, inside: bool, ghost seen: seq<Load>)
      requires Holds(seen)
      modifies this
      ensures Holds(seen + [Load(name, inside)])
    {
      ghost var all := seen + [Load(name, inside)];
      assert all[..|seen|] == seen && all[|seen|] == Load(name, inside);
      assert forall other :: Of(other, all) == Of(other, seen) + (if other == name then [inside] else []);
      loads := loads[name := (if name in loads then loads[name] else []) + [inside]];
    }

    method Visit(e: Expr, bound: set<string>, ghost seen: seq<Load>)
      requires Holds(seen)
      modifies this
      ensures Holds(seen + Loads(e, bound))
      decreases e, 0
    {
      hide Holds;
      match e
      case Var(name) =>
        Note(name, name in bound, seen);
      case Op(_, args) =>
        VisitAll(args, bound, seen);
      case Lambda(_, _) =>
        assert seen + [] == seen;
      case Comp(_, gens, parts) =>
        var inner := VisitGens(gens, bound, seen);
        VisitAll(parts, inner, seen + LoadsGens(gens, bound));
        assert seen + LoadsGens(gens, bound) + LoadsAll(parts, inner) == seen + Loads(e, bound);
    }

    method VisitGens(gens: seq<Gen>, bound: set<string>, ghost seen: seq<Load>) returns (inner: set<string>)
      requires Holds(seen)
      modifies this
      ensures Holds(seen + LoadsGens(gens, bound)) && inner == Inner(gens, bound)
      decreases gens
    {
      hide Holds;
      inner := bound;
      ghost var so := seen;
      for i := 0 to |gens|
        invariant Holds(so) && so + LoadsGens(gens[i..], inner) == seen + LoadsGens(gens, bound)
        invariant Inner(gens[i..], inner) == Inner(gens, bound)
      {
        assert gens[i..][0] == gens[i] && gens[i..][1..] == gens[i + 1..];
        assert so + LoadsGens(gens[i..], inner)
            == so + LoadsGen(gens[i], inner) + LoadsGens(gens[i + 1..], inner + Walked(gens[i].target));
        VisitGen(gens[i], inner, so);
        so := so + LoadsGen(gens[i], inner);
        inner := inner + Walked(gens[i].target);
      }
      assert gens[|gens|..] == [] && so + [] == so;
    }

    method VisitGen(g: Gen, bound: set<string>, ghost seen: seq<Load>)
      requires Holds(seen)
      modifies this
      ensures Holds(seen + LoadsGen(g, bound))
      decreases g
    {
      hide Holds;
      var inner := bound + Walked(g.target);
      ghost var a, b, c := Loads(g.iter, bound), LoadsTarget(g.target, inner), LoadsAll(g.ifs, inner);
      Visit(g.iter, bound, seen);
      VisitTarget(g.target, inner, seen + a);
      VisitAll(g.ifs, inner, seen + a + b);
      assert seen + a + b + c == seen + LoadsGen(g, bound);
    }

    method VisitAll(es: seq<Expr>, bound: set<string>, ghost seen: seq<Load>)
      requires Holds(seen)
      modifies this
      ensures Holds(seen + LoadsAll(es, bound))
      decreases es
    {
      ghost var so := seen;
      for i := 0 to |es|
        invariant Holds(so) && so + LoadsAll(es[i..], bound) == seen + LoadsAll(es, bound)
      {
        assert es[i..][0] == es[i] && es[i..][1..] == es[i + 1..];
        assert so + LoadsAll(es[i..], bound) == so + Loads(es[i], bound) + LoadsAll(es[i + 1..], bound);
        Visit(es[i], bound, so);
        so := so + Loads(es[i], bound);
      }
      assert es[|es|..] == [] && so + [] == so;
    }

    method VisitTarget(t: Target, bound: set<string>, ghost seen: seq<Load>)
      requires Holds(seen)
      modifies this
      ensures Holds(seen + LoadsTarget(t, bound))
      decreases t, 0
    {
      match t
      case Name(_) => assert seen + [] == seen;
      case Into(_, loads) => VisitAll(loads, bound, seen);
      case Tuple(items) =>
        ghost var so := seen;
        for i := 0 to |items|
          invariant Holds(so) && so + LoadsTargets(items[i..], bound) == seen + LoadsTargets(items, bound)
        {
          assert items[i..][0] == items[i] && items[i..][1..] == items[i + 1..];
          assert so + LoadsTargets(items[i..], bound)
              == so + LoadsTarget(items[i], bound) + LoadsTargets(items[i + 1..], bound);
          VisitTarget(items[i], bound, so);
          so := so + LoadsTarget(items[i], bound);
        }
        assert items[|items|..] == [] && so + [] == so;
    }
  }

  function Of(name: string, seen: seq<Load>): seq<bool> {
    if seen == [] then []
    else Of(name, seen[..|seen| - 1]) + (if seen[|seen| - 1].name == name then [seen[|seen| - 1].inside] else [])
  }

  predicate AllTrue(bs: seq<bool>) { forall k :: 0 <= k < |bs| ==> bs[k] }

  ghost predicate EachInside(name: string, seen: seq<Load>) {
    forall i :: 0 <= i < |seen| && seen[i].name == name ==> seen[i].inside
  }

  lemma {:induction false} NoneOf(name: string, seen: seq<Load>)
    ensures Of(name, seen) == [] <==> forall i :: 0 <= i < |seen| ==> seen[i].name != name
    ensures AllTrue(Of(name, seen)) <==> EachInside(name, seen)
  {
    if seen != [] {
      var last, rest := seen[|seen| - 1], seen[..|seen| - 1];
      NoneOf(name, rest);
      assert seen == rest + [last];
      assert EachInside(name, seen) <==> EachInside(name, rest) && (last.name == name ==> last.inside);
      var before := Of(name, rest);
      assert AllTrue(before + [last.inside]) <==> AllTrue(before) && last.inside by {
        assert (before + [last.inside])[|before|] == last.inside;
        assert forall k :: 0 <= k < |before| ==> (before + [last.inside])[k] == before[k];
      }
      assert before + [] == before;
    }
  }

  /** The names every load of which sits in a comprehension that binds them. */
  method Locals(e: Expr) returns (names: set<string>)
    ensures forall name :: name in names <==> OnlyInside(name, Loads(e, {}))
  {
    var v := new Visitor();
    v.Visit(e, {}, []);
    ghost var seen := Loads(e, {});
    assert [] + seen == seen;
    names := set name | name in v.loads && AllTrue(v.loads[name]);
    forall name
      ensures name in names <==> OnlyInside(name, seen)
    {
      NoneOf(name, seen);
    }
  }

  // --- what evaluation does --------------------------------------------------------------

  // Objects and states of the world by identity; a name may be unbound.
  type Value = int
  type World = int
  type Env = map<string, Value>

  // Everything an operation, an iteration, a test or an unpacking may do: any
  // result, any effect on the world, or an exception.
  datatype Meaning = Meaning(
    apply: (string, seq<Value>, World) -> (Option<Value>, World),
    iterate: (Value, World) -> (Option<seq<Value>>, World),
    truth: (Value, World) -> (Option<bool>, World),
    unpack: (Value, nat, World) -> (Option<seq<Value>>, World))

  function Eval(m: Meaning, e: Expr, env: Env, w: World): (Option<Value>, World)
    decreases e, 1, 0, 0
  {
    match e
    case Var(name) => if name in env then (Some(env[name]), w) else (None, w)
    case Op(op, args) => Applied(m, op, EvalAll(m, args, env, w))
    case Lambda(id, defaults) => Applied(m, id, EvalAll(m, defaults, env, w))
    case Comp(kind, gens, _) =>
      if gens == [] then (None, w)
      else
        // The first iterable is evaluated outside; then every target is a local.
        var (items, w1) := Iterated(m, Eval(m, gens[0].iter, env, w));
        if items.None? then (None, w1)
        else
          var ran := Loop(m, e, 0, items.value, env - Targets(gens), w1, []);
          if ran.rows.None? then (None, ran.w) else m.apply(kind, Flat(ran.rows.value), ran.w)
  }

  function EvalAll(m: Meaning, es: seq<Expr>, env: Env, w: World): (Option<seq<Value>>, World)
    decreases es, 1, 0, 0
  {
    if es == [] then (Some([]), w)
    else
      var (v, w1) := Eval(m, es[0], env, w);
      if v.None? then (None, w1)
      else
        var (vs, w2) := EvalAll(m, es[1..], env, w1);
        if vs.None? then (None, w2) else (Some([v.value] + vs.value), w2)
  }

  function Applied(m: Meaning, op: string, args: (Option<seq<Value>>, World)): (Option<Value>, World) {
    if args.0.None? then (None, args.1) else m.apply(op, args.0.value, args.1)
  }

  function Iterated(m: Meaning, v: (Option<Value>, World)): (Option<seq<Value>>, World) {
    if v.0.None? then (None, v.1) else m.iterate(v.0.value, v.1)
  }

  function Targets(gens: seq<Gen>): (r: set<string>)
    ensures forall i :: 0 <= i < |gens| ==> Stored(gens[i].target) <= r
  {
    if gens == [] then {} else Stored(gens[0].target) + Targets(gens[1..])
  }

  function Flat(rows: seq<seq<Value>>): seq<Value> {
    if rows == [] then [] else rows[0] + Flat(rows[1..])
  }

  // What a comprehension has collected, and its locals.
  datatype Ran = Ran(rows: Option<seq<seq<Value>>>, env: Env, w: World)

  // The i-th `for` over the items it has left.
  function Loop(m: Meaning, e: Expr, i: nat, items: seq<Value>, env: Env, w: World, rows: seq<seq<Value>>): Ran
    requires e.Comp? && i < |e.gens|
    decreases e, 0, |e.gens| - i, |items|
  {
    if items == [] then Ran(Some(rows), env, w)
    else
      var ran := Once(m, e, i, items[0], env, w, rows);
      if ran.rows.None? then ran else Loop(m, e, i, items[1..], ran.env, ran.w, ran.rows.value)
  }

  // One item: bind it, test it, and go on inside.
  function Once(m: Meaning, e: Expr, i: nat, item: Value, env: Env, w: World, rows: seq<seq<Value>>): Ran
    requires e.Comp? && i < |e.gens|
    decreases e, 0, |e.gens| - i, 0
  {
    var (inner, w1) := Bind(m, e.gens[i].target, item, env, w);
    if inner.None? then Ran(None, env, w1)
    else
      var (ok, w2) := Tests(m, e.gens[i].ifs, inner.value, w1);
      if ok.None? then Ran(None, env, w2)
      else if !ok.value then Ran(Some(rows), inner.value, w2)
      else if i + 1 == |e.gens| then
        var (row, w3) := EvalAll(m, e.parts, inner.value, w2);
        if row.None? then Ran(None, env, w3) else Ran(Some(rows + [row.value]), inner.value, w3)
      else
        var (more, w3) := Iterated(m, Eval(m, e.gens[i + 1].iter, inner.value, w2));
        if more.None? then Ran(None, env, w3) else Loop(m, e, i + 1, more.value, inner.value, w3, rows)
  }

  function Tests(m: Meaning, ifs: seq<Expr>, env: Env, w: World): (Option<bool>, World)
    decreases ifs, 1, 0, 0
  {
    if ifs == [] then (Some(true), w)
    else
      var (v, w1) := Eval(m, ifs[0], env, w);
      if v.None? then (None, w1)
      else
        var (ok, w2) := m.truth(v.value, w1);
        if ok.None? || !ok.value then (ok, w2) else Tests(m, ifs[1..], env, w2)
  }

  function Bind(m: Meaning, t: Target, item: Value, env: Env, w: World): (Option<Env>, World)
    decreases t, 1, 0, 0
  {
    match t
    case Name(name) => (Some(env[name := item]), w)
    case Into(op, loads) =>
      var (vs, w1) := EvalAll(m, loads, env, w);
      if vs.None? then (None, w1)
      else
        var (stored, w2) := m.apply(op, vs.value + [item], w1);
        if stored.None? then (None, w2) else (Some(env), w2)
    case Tuple(items) =>
      var (vs, w1) := m.unpack(item, |items|, w);
      if vs.None? || |vs.value| != |items| then (None, w1) else BindAll(m, items, vs.value, env, w1)
  }

  function BindAll(m: Meaning, ts: seq<Target>, vs: seq<Value>, env: Env, w: World): (Option<Env>, World)
    requires |ts| == |vs|
    decreases ts, 1, 0, 0
  {
    if ts == [] then (Some(env), w)
    else
      var (next, w1) := Bind(m, ts[0], vs[0], env, w);
      if next.None? then (None, w1) else BindAll(m, ts[1..], vs[1..], next.value, w1)
  }

  // --- non-interference ------------------------------------------------------------------

  // Every name of `names` that evaluation looks up here is bound by a comprehension.
  predicate Guarded(e: Expr, names: set<string>, bound: set<string>) {
    match e
    case Var(name) => name in names ==> name in bound
    case Op(_, args) => GuardedAll(args, names, bound)
    case Lambda(_, defaults) => GuardedAll(defaults, names, bound)
    case Comp(_, gens, parts) => GuardedGens(gens, names, bound) && GuardedAll(parts, names, Bound(gens, bound))
  }

  predicate GuardedAll(es: seq<Expr>, names: set<string>, bound: set<string>) {
    es == [] || (Guarded(es[0], names, bound) && GuardedAll(es[1..], names, bound))
  }

  predicate GuardedGens(gens: seq<Gen>, names: set<string>, bound: set<string>) {
    gens == [] ||
    var inner := bound + Stored(gens[0].target);
    Guarded(gens[0].iter, names, bound) && GuardedTarget(gens[0].target, names, inner)
    && GuardedAll(gens[0].ifs, names, inner) && GuardedGens(gens[1..], names, inner)
  }

  // What is bound once all of the generators are.
  function Bound(gens: seq<Gen>, bound: set<string>): set<string> {
    if gens == [] then bound else Bound(gens[1..], bound + Stored(gens[0].target))
  }

  predicate GuardedTarget(t: Target, names: set<string>, bound: set<string>) {
    match t
    case Name(_) => true
    case Tuple(items) => GuardedTargets(items, names, bound)
    case Into(_, loads) => GuardedAll(loads, names, bound)
  }

  predicate GuardedTargets(ts: seq<Target>, names: set<string>, bound: set<string>) {
    ts == [] || (GuardedTarget(ts[0], names, bound) && GuardedTargets(ts[1..], names, bound))
  }

  // The environments differ at most on `names`, and there only outside `bound`.
  ghost predicate Agree(a: Env, b: Env, names: set<string>, bound: set<string>) {
    forall n :: n !in names || n in bound ==> (n in a <==> n in b) && (n in a ==> a[n] == b[n])
  }

  lemma EvalAgrees(m: Meaning, e: Expr, a: Env, b: Env, w: World, names: set<string>, bound: set<string>)
    requires Guarded(e, names, bound) && Agree(a, b, names, bound)
    ensures Eval(m, e, a, w) == Eval(m, e, b, w)
    decreases e, 1, 0, 0
  {
    match e
    case Var(_) =>
    case Op(_, args) => EvalAllAgrees(m, args, a, b, w, names, bound);
    case Lambda(_, defaults) => EvalAllAgrees(m, defaults, a, b, w, names, bound);
    case Comp(_, gens, parts) =>
      if gens != [] {
        EvalAgrees(m, gens[0].iter, a, b, w, names, bound);
        var (items, w1) := Iterated(m, Eval(m, gens[0].iter, a, w));
        if items.Some? {
          var all := bound + Targets(gens);
          var x, y := a - Targets(gens), b - Targets(gens);
          assert Agree(x, y, names, all);
          assert gens[0..] == gens;
          LoopAgrees(m, e, 0, items.value, x, y, w1, [], names, bound, all);
        }
      }
  }

  lemma EvalAllAgrees(m: Meaning, es: seq<Expr>, a: Env, b: Env, w: World, names: set<string>, bound: set<string>)
    requires GuardedAll(es, names, bound) && Agree(a, b, names, bound)
    ensures EvalAll(m, es, a, w) == EvalAll(m, es, b, w)
    decreases es, 1, 0, 0
  {
    if es != [] {
      EvalAgrees(m, es[0], a, b, w, names, bound);
      var (v, w1) := Eval(m, es[0], a, w);
      if v.Some? {
        EvalAllAgrees(m, es[1..], a, b, w1, names, bound);
      }
    }
  }

  // What is still to be done from the i-th `for` on is guarded.
  ghost predicate RestGuarded(e: Expr, i: nat, names: set<string>, inner: set<string>, all: set<string>)
    requires e.Comp? && i < |e.gens|
  {
    && GuardedGens(e.gens[i..], names, inner)
    && GuardedAll(e.parts, names, Bound(e.gens[i..], inner))
    && inner <= all && Targets(e.gens) <= all
  }

  lemma RestOf(e: Expr, i: nat, names: set<string>, inner: set<string>, all: set<string>)
    requires e.Comp? && i < |e.gens| && RestGuarded(e, i, names, inner, all)
    ensures var next := inner + Stored(e.gens[i].target);
            && next <= all
            && GuardedTarget(e.gens[i].target, names, next) && GuardedAll(e.gens[i].ifs, names, next)
            && (i + 1 < |e.gens| ==> RestGuarded(e, i + 1, names, next, all)
                                     && Guarded(e.gens[i + 1].iter, names, next))
            && (i + 1 == |e.gens| ==> GuardedAll(e.parts, names, next))
  {
    assert e.gens[i..][0] == e.gens[i] && e.gens[i..][1..] == e.gens[i + 1..];
    if i + 1 < |e.gens| {
      assert e.gens[i + 1..][0] == e.gens[i + 1];
    } else {
      assert e.gens[i + 1..] == [];
      assert Bound(e.gens[i..], inner) == inner + Stored(e.gens[i].target);
    }
  }

  lemma LoopAgrees(m: Meaning, e: Expr, i: nat, items: seq<Value>, a: Env, b: Env, w: World, rows: seq<seq<Value>>,
                   names: set<string>, inner: set<string>, all: set<string>)
    requires e.Comp? && i < |e.gens| && RestGuarded(e, i, names, inner, all) && Agree(a, b, names, all)
    ensures var x, y := Loop(m, e, i, items, a, w, rows), Loop(m, e, i, items, b, w, rows);
            x.rows == y.rows && x.w == y.w && (x.rows.Some? ==> Agree(x.env, y.env, names, all))
    decreases e, 0, |e.gens| - i, |items|
  {
    if items != [] {
      OnceAgrees(m, e, i, items[0], a, b, w, rows, names, inner, all);
      var x, y := Once(m, e, i, items[0], a, w, rows), Once(m, e, i, items[0], b, w, rows);
      if x.rows.Some? {
        LoopAgrees(m, e, i, items[1..], x.env, y.env, x.w, x.rows.value, names, inner, all);
      }
    }
  }

  lemma OnceAgrees(m: Meaning, e: Expr, i: nat, item: Value, a: Env, b: Env, w: World, rows: seq<seq<Value>>,
                   names: set<string>, inner: set<string>, all: set<string>)
    requires e.Comp? && i < |e.gens| && RestGuarded(e, i, names, inner, all) && Agree(a, b, names, all)
    ensures var x, y := Once(m, e, i, item, a, w, rows), Once(m, e, i, item, b, w, rows);
            x.rows == y.rows && x.w == y.w && (x.rows.Some? ==> Agree(x.env, y.env, names, all))
    decreases e, 0, |e.gens| - i, 0
  {
    RestOf(e, i, names, inner, all);
    hide RestGuarded, Guarded, GuardedAll, GuardedTarget, GuardedGens;
    var next := inner + Stored(e.gens[i].target);
    BindAgrees(m, e.gens[i].target, item, a, b, w, names, next, all);
    var (x, w1) := Bind(m, e.gens[i].target, item, a, w);
    var y := Bind(m, e.gens[i].target, item, b, w).0;
    if x.Some? {
      TestsAgree(m, e.gens[i].ifs, x.value, y.value, w1, names, next);
      var (ok, w2) := Tests(m, e.gens[i].ifs, x.value, w1);
      if ok == Some(true) {
        if i + 1 == |e.gens| {
          EvalAllAgrees(m, e.parts, x.value, y.value, w2, names, next);
        } else {
          EvalAgrees(m, e.gens[i + 1].iter, x.value, y.value, w2, names, next);
          var (more, w3) := Iterated(m, Eval(m, e.gens[i + 1].iter, x.value, w2));
          if more.Some? {
            LoopAgrees(m, e, i + 1, more.value, x.value, y.value, w3, rows, names, next, all);
          }
        }
      }
    }
  }

  lemma TestsAgree(m: Meaning, ifs: seq<Expr>, a: Env, b: Env, w: World, names: set<string>, bound: set<string>)
    requires GuardedAll(ifs, names, bound) && Agree(a, b, names, bound)
    ensures Tests(m, ifs, a, w) == Tests(m, ifs, b, w)
    decreases ifs, 1, 0, 0
  {
    if ifs != [] {
      EvalAgrees(m, ifs[0], a, b, w, names, bound);
      var (v, w1) := Eval(m, ifs[0], a, w);
      if v.Some? {
        TestsAgree(m, ifs[1..], a, b, m.truth(v.value, w1).1, names, bound);
      }
    }
  }

  ghost predicate SameBound(x: (Option<Env>, World), y: (Option<Env>, World), names: set<string>, all: set<string>) {
    x.1 == y.1 && x.0.Some? == y.0.Some? && (x.0.Some? ==> Agree(x.0.value, y.0.value, names, all))
  }

  lemma BindAgrees(m: Meaning, t: Target, item: Value, a: Env, b: Env, w: World,
                   names: set<string>, bound: set<string>, all: set<string>)
    requires GuardedTarget(t, names, bound) && bound <= all && Agree(a, b, names, all)
    ensures SameBound(Bind(m, t, item, a, w), Bind(m, t, item, b, w), names, all)
    decreases t, 1, 0, 0
  {
    match t
    case Name(_) =>
    case Into(_, loads) => EvalAllAgrees(m, loads, a, b, w, names, bound);
    case Tuple(items) =>
      var (vs, w1) := m.unpack(item, |items|, w);
      if vs.Some? && |vs.value| == |items| {
        BindAllAgrees(m, items, vs.value, a, b, w1, names, bound, all);
      }
  }

  lemma BindAllAgrees(m: Meaning, ts: seq<Target>, vs: seq<Value>, a: Env, b: Env, w: World,
                      names: set<string>, bound: set<string>, all: set<string>)
    requires |ts| == |vs| && GuardedTargets(ts, names, bound) && bound <= all && Agree(a, b, names, all)
    ensures SameBound(BindAll(m, ts, vs, a, w), BindAll(m, ts, vs, b, w), names, all)
    decreases ts, 1, 0, 0
  {
    if ts != [] {
      BindAgrees(m, ts[0], vs[0], a, b, w, names, bound, all);
      var (x, w1) := Bind(m, ts[0], vs[0], a, w);
      var y := Bind(m, ts[0], vs[0], b, w).0;
      if x.Some? {
        BindAllAgrees(m, ts[1..], vs[1..], x.value, y.value, w1, names, bound, all);
      }
    }
  }

  // --- when nothing is looked up in vain ----------------------------------------------------

  // With one item per loop and every test true, each lookup finds its name among these.
  predicate Safe(e: Expr, avail: set<string>)
    decreases e, 1, 0
  {
    match e
    case Var(name) => name in avail
    case Op(_, args) => SafeAll(args, avail)
    case Lambda(_, defaults) => SafeAll(defaults, avail)
    case Comp(_, gens, _) => gens != [] && Safe(gens[0].iter, avail) && SafeFrom(e, 0, avail - Targets(gens))
  }

  predicate SafeAll(es: seq<Expr>, avail: set<string>)
    decreases es, 1, 0
  {
    es == [] || (Safe(es[0], avail) && SafeAll(es[1..], avail))
  }

  // From the i-th `for` on, its iterable being evaluated.
  predicate SafeFrom(e: Expr, i: nat, avail: set<string>)
    requires e.Comp? && i < |e.gens|
    decreases e, 0, |e.gens| - i
  {
    var next := avail + Stored(e.gens[i].target);
    && SafeTarget(e.gens[i].target, avail) && SafeAll(e.gens[i].ifs, next)
    && if i + 1 == |e.gens| then SafeAll(e.parts, next)
       else Safe(e.gens[i + 1].iter, next) && SafeFrom(e, i + 1, next)
  }

  predicate SafeTarget(t: Target, avail: set<string>)
    decreases t, 1, 0
  {
    match t
    case Name(_) => true
    case Tuple(items) => SafeTargets(items, avail)
    case Into(_, loads) => SafeAll(loads, avail)
  }

  predicate SafeTargets(ts: seq<Target>, avail: set<string>)
    decreases ts, 1, 0
  {
    ts == [] || (SafeTarget(ts[0], avail) && SafeTargets(ts[1..], avail + Stored(ts[0])))
  }

  // Nothing raises, every test is true, and every loop has one item.
  ghost predicate Total(m: Meaning) {
    && (forall op, vs, w :: m.apply(op, vs, w) == (Some(0), w))
    && (forall v, w :: m.iterate(v, w).0 == Some([0]) && m.iterate(v, w).1 == w)
    && (forall v, w :: m.truth(v, w).0 == Some(true) && m.truth(v, w).1 == w)
    && (forall v, k, w :: m.unpack(v, k, w).1 == w && m.unpack(v, k, w).0.Some? && |m.unpack(v, k, w).0.value| == k)
  }

  const TOTAL := Meaning((op, vs, w) => (Some(0), w), (v, w) => (Some([0]), w),
                         (v, w) => (Some(true), w), (v, k: nat, w) => (Some(seq(k, _ => 0)), w))

  lemma OneResultEach(m: Meaning, v: Value, w: World)
    requires Total(m)
    ensures m.iterate(v, w) == (Some([0]), w) && m.truth(v, w) == (Some(true), w)
  {
  }

  lemma OneItemEach(m: Meaning, v: (Option<Value>, World))
    requires Total(m)
    ensures Iterated(m, v) == (if v.0.Some? then Some([0]) else None, v.1)
  {
    if v.0.Some? {
      OneResultEach(m, v.0.value, v.1);
    }
  }

  lemma TotalEval(m: Meaning, e: Expr, env: Env, w: World)
    requires Total(m)
    ensures var (v, w1) := Eval(m, e, env, w); w1 == w && (v.Some? <==> Safe(e, env.Keys))
    decreases e, 1, 0
  {
    match e
    case Var(_) =>
    case Op(_, args) => TotalEvalAll(m, args, env, w);
    case Lambda(_, defaults) => TotalEvalAll(m, defaults, env, w);
    case Comp(_, gens, _) =>
      if gens != [] {
        TotalEval(m, gens[0].iter, env, w);
        OneItemEach(m, Eval(m, gens[0].iter, env, w));
        var inner := env - Targets(gens);
        assert inner.Keys == env.Keys - Targets(gens);
        TotalLoop(m, e, 0, inner, w, []);
      }
  }

  lemma TotalEvalAll(m: Meaning, es: seq<Expr>, env: Env, w: World)
    requires Total(m)
    ensures var (vs, w1) := EvalAll(m, es, env, w); w1 == w && (vs.Some? <==> SafeAll(es, env.Keys))
    decreases es, 1, 0
  {
    if es != [] {
      TotalEval(m, es[0], env, w);
      TotalEvalAll(m, es[1..], env, w);
    }
  }

  lemma OneItem(m: Meaning, e: Expr, i: nat, item: Value, env: Env, w: World, rows: seq<seq<Value>>)
    requires e.Comp? && i < |e.gens|
    ensures var ran, once := Loop(m, e, i, [item], env, w, rows), Once(m, e, i, item, env, w, rows);
            ran.rows == once.rows && ran.w == once.w
  {
    hide Once;
    assert [item][1..] == [];
  }

  lemma TotalLoop(m: Meaning, e: Expr, i: nat, env: Env, w: World, rows: seq<seq<Value>>)
    requires Total(m)
    requires e.Comp? && i < |e.gens|
    ensures var ran := Loop(m, e, i, [0], env, w, rows); ran.w == w && (ran.rows.Some? <==> SafeFrom(e, i, env.Keys))
    decreases e, 0, |e.gens| - i
  {
    var g := e.gens[i];
    OneItem(m, e, i, 0, env, w, rows);
    hide Loop, Bind, Tests, Eval, EvalAll, Safe, SafeAll, SafeTarget;
    TotalBind(m, g.target, 0, env, w);
    var inner := Bind(m, g.target, 0, env, w).0;
    if inner.Some? {
      TotalTests(m, g.ifs, inner.value, w);
      if i + 1 == |e.gens| {
        TotalEvalAll(m, e.parts, inner.value, w);
      } else {
        TotalEval(m, e.gens[i + 1].iter, inner.value, w);
        OneItemEach(m, Eval(m, e.gens[i + 1].iter, inner.value, w));
        TotalLoop(m, e, i + 1, inner.value, w, rows);
      }
    }
  }

  lemma TotalTests(m: Meaning, ifs: seq<Expr>, env: Env, w: World)
    requires Total(m)
    ensures Tests(m, ifs, env, w) == (if SafeAll(ifs, env.Keys) then Some(true) else None, w)
    decreases ifs, 1, 0
  {
    if ifs != [] {
      TotalEval(m, ifs[0], env, w);
      var v := Eval(m, ifs[0], env, w).0;
      if v.Some? {
        OneResultEach(m, v.value, w);
      }
      TotalTests(m, ifs[1..], env, w);
    }
  }

  lemma TotalBind(m: Meaning, t: Target, item: Value, env: Env, w: World)
    requires Total(m)
    ensures var (next, w1) := Bind(m, t, item, env, w);
            w1 == w && (next.Some? <==> SafeTarget(t, env.Keys))
            && (next.Some? ==> next.value.Keys == env.Keys + Stored(t))
    decreases t, 1, 0
  {
    match t
    case Name(_) =>
    case Into(_, loads) => TotalEvalAll(m, loads, env, w);
    case Tuple(items) => TotalBindAll(m, items, m.unpack(item, |items|, w).0.value, env, w);
  }

  lemma TotalBindAll(m: Meaning, ts: seq<Target>, vs: seq<Value>, env: Env, w: World)
    requires Total(m)
    requires |ts| == |vs|
    ensures var (next, w1) := BindAll(m, ts, vs, env, w);
            w1 == w && (next.Some? <==> SafeTargets(ts, env.Keys))
            && (next.Some? ==> next.value.Keys == env.Keys + StoredAll(ts))
    decreases ts, 1, 0
  {
    if ts != [] {
      TotalBind(m, ts[0], vs[0], env, w);
      var next := Bind(m, ts[0], vs[0], env, w).0;
      if next.Some? {
        TotalBindAll(m, ts[1..], vs[1..], next.value, w);
      }
    }
  }

  // Of the names there, the one environment lacks those of `names` not bound since.
  ghost predicate Lacks(all: set<string>, some: set<string>, names: set<string>, bound: set<string>) {
    some <= all && forall n :: n in all ==> (n in some <==> n !in names || n in bound)
  }

  lemma SafeIsGuarded(e: Expr, all: set<string>, some: set<string>, names: set<string>, bound: set<string>)
    requires Safe(e, all) && Lacks(all, some, names, bound)
    ensures Safe(e, some) <==> Guarded(e, names, bound)
    decreases e, 1, 0
  {
    match e
    case Var(_) =>
    case Op(_, args) => SafeAllIsGuarded(args, all, some, names, bound);
    case Lambda(_, defaults) => SafeAllIsGuarded(defaults, all, some, names, bound);
    case Comp(_, gens, _) =>
      SafeIsGuarded(gens[0].iter, all, some, names, bound);
      SafeFromIsGuarded(e, 0, all - Targets(gens), some - Targets(gens), names, bound);
      assert gens[0..] == gens;
  }

  lemma SafeAllIsGuarded(es: seq<Expr>, all: set<string>, some: set<string>, names: set<string>, bound: set<string>)
    requires SafeAll(es, all) && Lacks(all, some, names, bound)
    ensures SafeAll(es, some) <==> GuardedAll(es, names, bound)
    decreases es, 1, 0
  {
    if es != [] {
      SafeIsGuarded(es[0], all, some, names, bound);
      SafeAllIsGuarded(es[1..], all, some, names, bound);
    }
  }

  // What is guarded from the i-th `for` on, its iterable aside.
  predicate GuardedFrom(e: Expr, i: nat, names: set<string>, bound: set<string>)
    requires e.Comp? && i < |e.gens|
  {
    var next := bound + Stored(e.gens[i].target);
    && GuardedTarget(e.gens[i].target, names, next) && GuardedAll(e.gens[i].ifs, names, next)
    && GuardedGens(e.gens[i + 1..], names, next) && GuardedAll(e.parts, names, Bound(e.gens[i + 1..], next))
  }

  lemma SafeFromIsGuarded(e: Expr, i: nat, all: set<string>, some: set<string>, names: set<string>, bound: set<string>)
    requires e.Comp? && i < |e.gens| && SafeFrom(e, i, all) && Lacks(all, some, names, bound)
    requires forall n :: n in all && n in Targets(e.gens) ==> n in bound
    ensures SafeFrom(e, i, some) <==> GuardedFrom(e, i, names, bound)
    decreases e, 0, |e.gens| - i
  {
    var t := e.gens[i].target;
    var all1, some1, next := all + Stored(t), some + Stored(t), bound + Stored(t);
    assert Lacks(all, some, names, next) && Lacks(all1, some1, names, next);
    SafeTargetIsGuarded(t, all, some, names, next);
    SafeAllIsGuarded(e.gens[i].ifs, all1, some1, names, next);
    if i + 1 == |e.gens| {
      SafeAllIsGuarded(e.parts, all1, some1, names, next);
      assert e.gens[i + 1..] == [];
    } else {
      SafeIsGuarded(e.gens[i + 1].iter, all1, some1, names, next);
      SafeFromIsGuarded(e, i + 1, all1, some1, names, next);
      assert e.gens[i + 1..][0] == e.gens[i + 1] && e.gens[i + 1..][1..] == e.gens[i + 2..];
    }
  }

  lemma SafeTargetIsGuarded(t: Target, all: set<string>, some: set<string>, names: set<string>, bound: set<string>)
    requires SafeTarget(t, all) && Lacks(all, some, names, bound) && Stored(t) <= bound
    ensures SafeTarget(t, some) <==> GuardedTarget(t, names, bound)
    decreases t, 1, 0
  {
    match t
    case Name(_) =>
    case Tuple(items) => SafeTargetsIsGuarded(items, all, some, names, bound);
    case Into(_, loads) => SafeAllIsGuarded(loads, all, some, names, bound);
  }

  lemma SafeTargetsIsGuarded(ts: seq<Target>, all: set<string>, some: set<string>, names: set<string>, bound: set<string>)
    requires SafeTargets(ts, all) && Lacks(all, some, names, bound) && StoredAll(ts) <= bound
    ensures SafeTargets(ts, some) <==> GuardedTargets(ts, names, bound)
    decreases ts, 1, 0
  {
    if ts != [] {
      SafeTargetIsGuarded(ts[0], all, some, names, bound);
      assert Lacks(all + Stored(ts[0]), some + Stored(ts[0]), names, bound);
      SafeTargetsIsGuarded(ts[1..], all + Stored(ts[0]), some + Stored(ts[0]), names, bound);
    }
  }

  // Whatever its operations do, it does not matter what the names are bound to, if at all.
  ghost predicate NonInterfering(e: Expr, names: set<string>) {
    forall m: Meaning, a: Env, b: Env, w: World :: Agree(a, b, names, {}) ==> Eval(m, e, a, w) == Eval(m, e, b, w)
  }

  // It reads no local of a comprehension before that is bound: some names are enough.
  ghost predicate WellBound(e: Expr) { exists avail :: Safe(e, avail) }

  function Zeros(names: set<string>): Env { map n | n in names :: 0 }

  lemma NonInterferenceExactly(e: Expr, names: set<string>)
    requires WellBound(e)
    ensures NonInterfering(e, names) <==> Guarded(e, names, {})
  {
    if Guarded(e, names, {}) {
      forall m: Meaning, a: Env, b: Env, w: World | Agree(a, b, names, {})
        ensures Eval(m, e, a, w) == Eval(m, e, b, w)
      {
        EvalAgrees(m, e, a, b, w, names, {});
      }
    }
    if NonInterfering(e, names) {
      var all :| Safe(e, all);
      var a, b := Zeros(all), Zeros(all - names);
      TotalEval(TOTAL, e, a, 0);
      TotalEval(TOTAL, e, b, 0);
      assert a.Keys == all && b.Keys == all - names && Agree(a, b, names, {});
      hide Eval, Safe, Guarded;
      assert Eval(TOTAL, e, a, 0) == Eval(TOTAL, e, b, 0);
      SafeIsGuarded(e, all, all - names, names, {});
    }
  }

  // --- what the visitor's answer guarantees --------------------------------------------------

  // Walking the target finds what it binds: there is no comprehension in it.
  predicate Plain(t: Target) { Walked(t) == Stored(t) }

  // What the visitor does not look at: the default values of lambdas look up none
  // of `names` unguarded, and no target has a comprehension in it.
  predicate Clear(e: Expr, names: set<string>, bound: set<string>) {
    match e
    case Var(_) => true
    case Op(_, args) => ClearAll(args, names, bound)
    case Lambda(_, defaults) => GuardedAll(defaults, names, bound)
    case Comp(_, gens, parts) => ClearGens(gens, names, bound) && ClearAll(parts, names, Bound(gens, bound))
  }

  predicate ClearAll(es: seq<Expr>, names: set<string>, bound: set<string>) {
    es == [] || (Clear(es[0], names, bound) && ClearAll(es[1..], names, bound))
  }

  predicate ClearGens(gens: seq<Gen>, names: set<string>, bound: set<string>) {
    gens == [] ||
    var inner := bound + Stored(gens[0].target);
    Plain(gens[0].target) && Clear(gens[0].iter, names, bound)
    && ClearTarget(gens[0].target, names, inner)
    && ClearAll(gens[0].ifs, names, inner) && ClearGens(gens[1..], names, inner)
  }

  predicate ClearTarget(t: Target, names: set<string>, bound: set<string>) {
    match t
    case Name(_) => true
    case Tuple(items) => ClearTargets(items, names, bound)
    case Into(_, loads) => ClearAll(loads, names, bound)
  }

  predicate ClearTargets(ts: seq<Target>, names: set<string>, bound: set<string>) {
    ts == [] || (ClearTarget(ts[0], names, bound) && ClearTargets(ts[1..], names, bound))
  }

  ghost predicate Inside(names: set<string>, loads: seq<Load>) {
    forall i :: 0 <= i < |loads| && loads[i].name in names ==> loads[i].inside
  }

  lemma InsideBoth(names: set<string>, a: seq<Load>, b: seq<Load>)
    ensures Inside(names, a + b) <==> Inside(names, a) && Inside(names, b)
  {
    if Inside(names, a + b) {
      assert forall i :: 0 <= i < |a| ==> (a + b)[i] == a[i];
      forall i | 0 <= i < |b|
        ensures b[i] == (a + b)[|a| + i]
      {
      }
    }
  }

  lemma {:induction false} StoredIsWalked(t: Target)
    ensures Stored(t) <= Walked(t)
  {
    if t.Tuple? {
      StoredAllIsWalked(t.items);
    }
  }

  lemma {:induction false} StoredAllIsWalked(ts: seq<Target>)
    ensures StoredAll(ts) <= WalkedTargets(ts)
  {
    if ts != [] {
      StoredIsWalked(ts[0]);
      StoredAllIsWalked(ts[1..]);
    }
  }

  // What is guarded the visitor sees inside; what it sees inside is guarded, if it has
  // looked at everything.
  lemma {:induction false} GuardedAndSeen(e: Expr, names: set<string>, bound: set<string>, seen: set<string>)
    requires bound <= seen
    ensures Guarded(e, names, bound) ==> Inside(names, Loads(e, seen))
    ensures bound == seen && Clear(e, names, bound) && Inside(names, Loads(e, seen)) ==> Guarded(e, names, bound)
  {
    match e
    case Var(name) =>
      assert Loads(e, seen)[0] == Load(name, name in seen);
    case Op(_, args) => GuardedAndSeenAll(args, names, bound, seen);
    case Lambda(_, _) =>
    case Comp(_, gens, parts) =>
      GuardedAndSeenGens(gens, names, bound, seen);
      GuardedAndSeenAll(parts, names, Bound(gens, bound), Inner(gens, seen));
      InsideBoth(names, LoadsGens(gens, seen), LoadsAll(parts, Inner(gens, seen)));
  }

  lemma {:induction false} GuardedAndSeenAll(es: seq<Expr>, names: set<string>, bound: set<string>, seen: set<string>)
    requires bound <= seen
    ensures GuardedAll(es, names, bound) ==> Inside(names, LoadsAll(es, seen))
    ensures bound == seen && ClearAll(es, names, bound) && Inside(names, LoadsAll(es, seen)) ==> GuardedAll(es, names, bound)
  {
    if es != [] {
      GuardedAndSeen(es[0], names, bound, seen);
      GuardedAndSeenAll(es[1..], names, bound, seen);
      InsideBoth(names, Loads(es[0], seen), LoadsAll(es[1..], seen));
    }
  }

  lemma {:induction false} GuardedAndSeenGens(gens: seq<Gen>, names: set<string>, bound: set<string>, seen: set<string>)
    requires bound <= seen
    ensures GuardedGens(gens, names, bound) ==> Inside(names, LoadsGens(gens, seen))
    ensures bound == seen && ClearGens(gens, names, bound) && Inside(names, LoadsGens(gens, seen)) ==> GuardedGens(gens, names, bound)
    ensures Bound(gens, bound) <= Inner(gens, seen)
    ensures bound == seen && ClearGens(gens, names, bound) ==> Bound(gens, bound) == Inner(gens, seen)
  {
    if gens != [] {
      var g, inner, walked := gens[0], bound + Stored(gens[0].target), seen + Walked(gens[0].target);
      StoredIsWalked(g.target);
      GuardedAndSeen(g.iter, names, bound, seen);
      GuardedAndSeenTarget(g.target, names, inner, walked);
      GuardedAndSeenAll(g.ifs, names, inner, walked);
      GuardedAndSeenGens(gens[1..], names, inner, walked);
      hide Inside;
      var a, b, c, d := Loads(g.iter, seen), LoadsTarget(g.target, walked), LoadsAll(g.ifs, walked), LoadsGens(gens[1..], walked);
      InsideBoth(names, a, b);
      InsideBoth(names, a + b, c);
      InsideBoth(names, a + b + c, d);
      assert LoadsGens(gens, seen) == a + b + c + d;
      assert bound == seen && Plain(g.target) ==> inner == walked;
    }
  }

  lemma {:induction false} GuardedAndSeenTarget(t: Target, names: set<string>, bound: set<string>, seen: set<string>)
    requires bound <= seen
    ensures GuardedTarget(t, names, bound) ==> Inside(names, LoadsTarget(t, seen))
    ensures bound == seen && ClearTarget(t, names, bound) && Inside(names, LoadsTarget(t, seen)) ==> GuardedTarget(t, names, bound)
  {
    match t
    case Name(_) =>
    case Tuple(items) => GuardedAndSeenTargets(items, names, bound, seen);
    case Into(_, loads) => GuardedAndSeenAll(loads, names, bound, seen);
  }

  lemma {:induction false} GuardedAndSeenTargets(ts: seq<Target>, names: set<string>, bound: set<string>, seen: set<string>)
    requires bound <= seen
    ensures GuardedTargets(ts, names, bound) ==> Inside(names, LoadsTargets(ts, seen))
    ensures bound == seen && ClearTargets(ts, names, bound) && Inside(names, LoadsTargets(ts, seen)) ==> GuardedTargets(ts, names, bound)
  {
    if ts != [] {
      GuardedAndSeenTarget(ts[0], names, bound, seen);
      GuardedAndSeenTargets(ts[1..], names, bound, seen);
      InsideBoth(names, LoadsTarget(ts[0], seen), LoadsTargets(ts[1..], seen));
    }
  }

  // The answer `Locals` gives.
  ghost predicate IsLocals(e: Expr, names: set<string>) {
    forall name :: name in names <==> OnlyInside(name, Loads(e, {}))
  }

  lemma AllInside(e: Expr, names: set<string>)
    requires IsLocals(e, names)
    ensures Inside(names, Loads(e, {}))
  {
    var loads := Loads(e, {});
    forall i | 0 <= i < |loads| && loads[i].name in names
      ensures loads[i].inside
    {
      assert OnlyInside(loads[i].name, loads);
    }
  }

  /** For an expression that reads no comprehension's local before it is bound: what the
      returned names are bound to does not matter, whatever its operations do, exactly
      when no lambda default and nothing else looks one up where no comprehension really
      binds it. That is so of every expression the visitor looks at in full; and each
      name it is so of, if the visitor meets it, is returned. */
  lemma LocalsDoNotInterfereExactly(e: Expr, names: set<string>)
    requires IsLocals(e, names) && WellBound(e)
    ensures NonInterfering(e, names) <==> Guarded(e, names, {})
    ensures Clear(e, names, {}) ==> Guarded(e, names, {})
    ensures forall n :: Guarded(e, {n}, {}) && (exists i :: 0 <= i < |Loads(e, {})| && Loads(e, {})[i].name == n) ==> n in names
  {
    NonInterferenceExactly(e, names);
    AllInside(e, names);
    GuardedAndSeen(e, names, {}, {});
    forall n | Guarded(e, {n}, {}) && (exists i :: 0 <= i < |Loads(e, {})| && Loads(e, {})[i].name == n)
      ensures n in names
    {
      GuardedAndSeen(e, {n}, {}, {});
      assert OnlyInside(n, Loads(e, {}));
    }
  }

  // f([n for n in it], key=lambda k=n: ...)
  function WithADefault(n: string, it: string): Expr {
    Op("call", [Comp("list", [Gen(Name(n), Var(it), [])], [Var(n)]), Lambda("key", [Var(n)])])
  }

  lemma LoadsWithADefault(n: string, it: string)
    ensures Loads(WithADefault(n, it), {}) == [Load(it, false), Load(n, true)]
    ensures !Guarded(WithADefault(n, it), {n}, {})
  {
    var e := WithADefault(n, it);
    var comp, lam := e.args[0], e.args[1];
    assert e.args[1..] == [lam] && [lam][1..] == [] && [Var(n)][1..] == [] && comp.gens[1..] == [];
    assert Inner(comp.gens, {}) == {n};
    assert LoadsAll([Var(n)], {n}) == [Load(n, true)];
    assert LoadsGen(comp.gens[0], {}) == [Load(it, false)];
    assert LoadsGens(comp.gens, {}) == [Load(it, false)];
    assert Loads(comp, {}) == [Load(it, false), Load(n, true)];
    assert LoadsAll([lam], {}) == [];
    assert !Guarded(lam, {n}, {}) by {
      assert !Guarded(Var(n), {n}, {});
    }
    assert !GuardedAll([lam], {n}, {});
  }

  // Iterating gives nothing; an operation gives its last argument, if any.
  const LAST_ARGUMENT := Meaning((op, vs, w) => (Some(if vs == [] then 0 else vs[|vs| - 1]), w),
                                 (v, w) => (Some([]), w), (v, w) => (Some(true), w), (v, k, w) => (None, w))

  lemma ValueWithADefault(n: string, it: string, env: Env)
    requires n in env && it in env
    ensures Eval(LAST_ARGUMENT, WithADefault(n, it), env, 0) == (Some(env[n]), 0)
  {
    var e, m, v := WithADefault(n, it), LAST_ARGUMENT, env[n];
    var comp, lam := e.args[0], e.args[1];
    assert Eval(m, comp, env, 0) == (Some(0), 0) by {
      assert Iterated(m, Eval(m, Var(it), env, 0)) == (Some([]), 0);
      assert Loop(m, comp, 0, [], env - Targets(comp.gens), 0, []) == Ran(Some([]), env - Targets(comp.gens), 0);
      assert Flat([]) == [];
    }
    assert Evaluated(m, env, Var(n), v);
    OneArgument(m, env, Var(n), v);
    assert Eval(m, lam, env, 0) == (Some(v), 0);
    OneArgument(m, env, lam, v);
    assert e.args[1..] == [lam];
    assert EvalAll(m, e.args, env, 0) == (Some([0] + [v]), 0);
  }

  predicate Evaluated(m: Meaning, env: Env, e: Expr, v: Value) { Eval(m, e, env, 0) == (Some(v), 0) }

  lemma OneArgument(m: Meaning, env: Env, e: Expr, v: Value)
    requires Evaluated(m, env, e, v)
    ensures EvalAll(m, [e], env, 0) == (Some([v]), 0)
  {
    var es := [e];
    assert Eval(m, es[0], env, 0) == (Some(v), 0);
    assert EvalAll(m, es[1..], env, 0) == (Some([]), 0);
    assert EvalAll(m, es, env, 0) == (Some([v] + []), 0);
    assert [v] + [] == [v];
  }

  /** Where one does, the name is returned all the same and its value matters: the
      visitor turns back at a lambda, whose defaults are evaluated outside it. */
  lemma ADefaultValueInterferes(n: string, it: string)
    requires n != it
    ensures OnlyInside(n, Loads(WithADefault(n, it), {})) && !Guarded(WithADefault(n, it), {n}, {})
    ensures exists m: Meaning, a: Env, b: Env, w: World ::
              Agree(a, b, {n}, {}) && Eval(m, WithADefault(n, it), a, w) != Eval(m, WithADefault(n, it), b, w)
  {
    LoadsWithADefault(n, it);
    assert Loads(WithADefault(n, it), {})[1] == Load(n, true);
    var a: Env := map[it := 0, n := 1];
    var b: Env := map[it := 0, n := 2];
    ValueWithADefault(n, it, a);
    ValueWithADefault(n, it, b);
    assert Agree(a, b, {n}, {});
  }

  // [n for it[[n for n in it]] in it]
  function WithANestedTarget(n: string, it: string): Expr {
    Comp("list", [Gen(Into("store", [Copied(n, it)]), Var(it), [])], [Var(n)])
  }

  function Copied(n: string, it: string): Expr { Comp("list", [Gen(Name(n), Var(it), [])], [Var(n)]) }

  // Iterating gives one item.
  const ONE_ITEM := LAST_ARGUMENT.(iterate := (v, w) => (Some([0]), w))

  // A comprehension over one item gives what the name is then bound to.
  lemma OneRound(t: Target, n: string, it: string, env: Env, inner: Env)
    requires it in env && n in inner && Bind(ONE_ITEM, t, 0, env - Stored(t), 0) == (Some(inner), 0)
    ensures Eval(ONE_ITEM, Comp("list", [Gen(t, Var(it), [])], [Var(n)]), env, 0) == (Some(inner[n]), 0)
  {
    var e, m, v := Comp("list", [Gen(t, Var(it), [])], [Var(n)]), ONE_ITEM, inner[n];
    assert Targets(e.gens) == Stored(t);
    assert Iterated(m, Eval(m, Var(it), env, 0)) == (Some([0]), 0);
    assert Evaluated(m, inner, Var(n), v);
    OneArgument(m, inner, Var(n), v);
    assert Tests(m, [], inner, 0) == (Some(true), 0);
    assert EvalAll(m, e.parts, inner, 0) == (Some([v]), 0);
    assert [] + [[v]] == [[v]];
    assert Once(m, e, 0, 0, env - Stored(t), 0, []) == Ran(Some([[v]]), inner, 0);
    assert Loop(m, e, 0, [], inner, 0, [[v]]) == Ran(Some([[v]]), inner, 0);
    assert [0][1..] == [];
    assert Loop(m, e, 0, [0], env - Stored(t), 0, []) == Ran(Some([[v]]), inner, 0);
    assert Flat([[v]]) == [v] + Flat([[v]][1..]);
  }

  lemma ValueWithANestedTarget(n: string, it: string, env: Env)
    requires n in env && it in env && n != it
    ensures Eval(ONE_ITEM, WithANestedTarget(n, it), env, 0) == (Some(env[n]), 0)
  {
    var copied := Copied(n, it);
    OneRound(Name(n), n, it, env, (env - {n})[n := 0]);
    assert Evaluated(ONE_ITEM, env, copied, 0);
    OneArgument(ONE_ITEM, env, copied, 0);
    assert env - {} == env;
    OneRound(Into("store", [copied]), n, it, env, env);
  }

  lemma LoadsWithANestedTarget(n: string, it: string)
    ensures var e := WithANestedTarget(n, it);
            Loads(e, {}) == [Load(it, false), Load(it, it == n), Load(n, true), Load(n, true)]
            && !Plain(e.gens[0].target)
  {
    var e, copied := WithANestedTarget(n, it), Copied(n, it);
    assert [Var(n)][1..] == [] && copied.gens[1..] == [] && [copied][1..] == [] && e.gens[1..] == [];
    assert WalkedGens(copied.gens) == {n} && WalkedAll([Var(n)]) == {};
    assert WalkedIn(copied) == {n} && WalkedAll([copied]) == {n};
    assert LoadsAll([Var(n)], {n}) == [Load(n, true)];
    assert LoadsGen(copied.gens[0], {n}) == [Load(it, it == n)];
    assert LoadsGens(copied.gens, {n}) == [Load(it, it == n)];
    var into := e.gens[0].target;
    assert Walked(into) == {n} && Stored(into) == {};
    assert Inner([], {n}) == {n} && {} + Walked(into) == {n};
    assert Inner(e.gens, {}) == Inner(e.gens[1..], {} + Walked(into));
    assert Inner(copied.gens, {n}) == {n};
    assert Loads(copied, {n}) == [Load(it, it == n), Load(n, true)];
    assert LoadsAll([copied], {n}) == Loads(copied, {n}) + [];
    assert LoadsTarget(into, {n}) == [Load(it, it == n), Load(n, true)];
    assert LoadsAll([], {n}) == [];
    assert LoadsGen(e.gens[0], {}) == Loads(Var(it), {}) + LoadsTarget(into, {n}) + LoadsAll([], {n});
    assert LoadsGen(e.gens[0], {}) == [Load(it, false)] + [Load(it, it == n), Load(n, true)];
    assert LoadsGens(e.gens, {}) == LoadsGen(e.gens[0], {});
  }

  /** Where a target has a comprehension in it, the names that one stores are taken
      for the outer one's: they are not, and their values matter. */
  lemma ANestedTargetInterferes(n: string, it: string)
    requires n != it
    ensures OnlyInside(n, Loads(WithANestedTarget(n, it), {})) && !Plain(WithANestedTarget(n, it).gens[0].target)
    ensures exists m: Meaning, a: Env, b: Env, w: World ::
              Agree(a, b, {n}, {}) && Eval(m, WithANestedTarget(n, it), a, w) != Eval(m, WithANestedTarget(n, it), b, w)
  {
    LoadsWithANestedTarget(n, it);
    assert Loads(WithANestedTarget(n, it), {})[2] == Load(n, true);
    var a: Env := map[it := 0, n := 1];
    var b: Env := map[it := 0, n := 2];
    ValueWithANestedTarget(n, it, a);
    ValueWithANestedTarget(n, it, b);
    assert Agree(a, b, {n}, {});
  }
}
