/** Import statements read off their nodes, as `bindings` in
    scripts/refactor/ast_identity.py reads them. */
module AstImports {
  import opened AstBlank
  import opened Numerals
  import opened Wrappers

  // a.b.c as its parts.
  type Dotted = seq<string>

  datatype Alias = Alias(name: Dotted, asname: Option<string>)

  datatype Import =
    | Plain(names: seq<Alias>)
    | From(level: nat, source: Option<Dotted>, names: seq<Alias>)

  // --- reading -----------------------------------------------------------------------

  // s.split('.')
  function Parts(s: string): (parts: Dotted)
    ensures parts != []
  {
    if s == "" then [""]
    else
      var rest := Parts(s[1..]);
      if s[0] == '.' then [""] + rest else [[s[0]] + rest[0]] + rest[1..]
  }

  // The value of a field that is present.
  function ValueOf(fields: seq<Tree>, name: string): Option<Tree> {
    if fields == [] then None
    else if fields[0].Group? && fields[0].tag == Field(name) && |fields[0].parts| == 1 then Some(fields[0].parts[0])
    else ValueOf(fields[1..], name)
  }

  function Fields(t: Tree): seq<Tree> { if t.Group? then t.parts else [] }

  // An identifier, or several with dots between, by its repr.
  function Text(t: Tree): string { if t.Leaf? && |t.repr| >= 2 then t.repr[1..|t.repr| - 1] else "" }

  function TextOf(t: Tree, name: string): Option<string> {
    var value := ValueOf(Fields(t), name);
    if value.None? then None else Some(Text(value.value))
  }

  function AliasOf(t: Tree): (a: Alias)
    ensures a.name != []
  {
    var name := TextOf(t, "name");
    Alias(if name.None? then [""] else Parts(name.value), TextOf(t, "asname"))
  }

  function AliasesOf(ts: seq<Tree>): (r: seq<Alias>)
    ensures |r| == |ts| && forall k :: 0 <= k < |r| ==> r[k] == AliasOf(ts[k])
  {
    seq(|ts|, k requires 0 <= k < |ts| => AliasOf(ts[k]))
  }

  function LevelOf(t: Tree): nat {
    var value := ValueOf(Fields(t), "level");
    if value.Some? && value.value.Leaf? && Digits(value.value.repr) then Value(value.value.repr) else 0
  }

  function ImportOf(t: Tree): (i: Import)
    ensures Spelled(i)
  {
    var list := ValueOf(Fields(t), "names");
    var names := AliasesOf(if list.None? then [] else Fields(list.value));
    if t.Group? && t.tag == Node("Import") then Plain(names)
    else
      var source := TextOf(t, "module");
      From(LevelOf(t), if source.None? then None else Some(Parts(source.value)), names)
  }

  // Each name has a first part.
  predicate Spelled(i: Import) { forall k :: 0 <= k < |i.names| ==> i.names[k].name != [] }

  // The imports of a definition in source order.
  function ImportsOf(t: Tree): (r: seq<Import>)
    ensures |r| == |Imports(t)|
    ensures forall k :: 0 <= k < |r| ==> r[k] == ImportOf(Imports(t)[k]) && Spelled(r[k])
  {
    seq(|Imports(t)|, k requires 0 <= k < |Imports(t)| => ImportOf(Imports(t)[k]))
  }

  // --- what is written -----------------------------------------------------------------

  predicate Identifier(s: string) { s != "" && '.' !in s }

  predicate Written(d: Dotted) { d != [] && forall k :: 0 <= k < |d| ==> Identifier(d[k]) }

  // An import as the grammar has it.
  predicate Grammar(i: Import) {
    && (forall k :: 0 <= k < |i.names| ==> Written(i.names[k].name))
    && (i.From? && i.source.Some? ==> Written(i.source.value))
  }

  function Joined(d: Dotted): string
    requires d != []
  {
    if |d| == 1 then d[0] else d[0] + "." + Joined(d[1..])
  }

  function Attribute(name: string, value: Tree): Tree { Group(Field(name), [value]) }

  function Quoted(s: string): Tree { Leaf("'" + s + "'") }

  function Optional(name: string, value: Option<string>): seq<Tree> {
    if value.None? then [] else [Attribute(name, Quoted(value.value))]
  }

  function AliasNode(a: Alias): Tree
    requires a.name != []
  {
    Group(Node("alias"), [Attribute("name", Quoted(Joined(a.name)))] + Optional("asname", a.asname))
  }

  function NamesField(names: seq<Alias>): Tree
    requires forall k :: 0 <= k < |names| ==> names[k].name != []
  {
    Attribute("names", Group(Items, seq(|names|, k requires 0 <= k < |names| => AliasNode(names[k]))))
  }

  // The node the parser makes of an import statement.
  function Parsed(i: Import): Tree
    requires Grammar(i)
  {
    match i
    case Plain(names) => Group(Node("Import"), [NamesField(names)])
    case From(level, source, names) =>
      Group(Node("ImportFrom"),
            Optional("module", if source.None? then None else Some(Joined(source.value)))
            + [NamesField(names), Attribute("level", Leaf(Decimal(level)))])
  }

  lemma {:induction false} PartsOfAnIdentifier(word: string, rest: string)
    requires '.' !in word && (rest == "" || rest[0] == '.')
    ensures Parts(word + rest) == (if rest == "" then [word] else [word] + Parts(rest[1..]))
  {
    if word == "" {
      assert word + rest == rest;
    } else {
      assert (word + rest)[1..] == word[1..] + rest;
      PartsOfAnIdentifier(word[1..], rest);
      assert [word[0]] + word[1..] == word;
    }
  }

  lemma {:induction false} PartsOfJoined(d: Dotted)
    requires Written(d)
    ensures Parts(Joined(d)) == d
  {
    if |d| == 1 {
      PartsOfAnIdentifier(d[0], "");
      assert d[0] + "" == d[0];
    } else {
      PartsOfJoined(d[1..]);
      PartsOfAnIdentifier(d[0], "." + Joined(d[1..]));
      assert ("." + Joined(d[1..]))[1..] == Joined(d[1..]);
      assert d[0] + ("." + Joined(d[1..])) == Joined(d);
      assert [d[0]] + d[1..] == d;
    }
  }

  lemma FoundField(name: string, value: Tree, rest: seq<Tree>, wanted: string)
    ensures ValueOf([Attribute(name, value)] + rest, wanted) == if name == wanted then Some(value) else ValueOf(rest, wanted)
  {
    assert ([Attribute(name, value)] + rest)[1..] == rest;
  }

  lemma TextIsRead(s: string)
    ensures Text(Quoted(s)) == s
  {
  }

  // A field that may be absent, with others after it.
  lemma FoundOptional(name: string, value: Option<string>, rest: seq<Tree>, wanted: string)
    ensures ValueOf(Optional(name, value) + rest, wanted) ==
            if name == wanted && value.Some? then Some(Quoted(value.value)) else ValueOf(rest, wanted)
  {
    if value.Some? {
      FoundField(name, Quoted(value.value), rest, wanted);
    } else {
      assert Optional(name, value) + rest == rest;
    }
  }

  lemma AliasIsRead(a: Alias)
    requires Written(a.name)
    ensures AliasOf(AliasNode(a)) == a
  {
    PartsOfJoined(a.name);
    TextIsRead(Joined(a.name));
    FoundField("name", Quoted(Joined(a.name)), Optional("asname", a.asname), "name");
    FoundField("name", Quoted(Joined(a.name)), Optional("asname", a.asname), "asname");
    FoundOptional("asname", a.asname, [], "asname");
    assert Optional("asname", a.asname) + [] == Optional("asname", a.asname);
    if a.asname.Some? {
      TextIsRead(a.asname.value);
    }
  }

  lemma NamesAreRead(names: seq<Alias>)
    requires forall k :: 0 <= k < |names| ==> Written(names[k].name)
    ensures (forall k :: 0 <= k < |names| ==> names[k].name != [])
            && AliasesOf(Fields(NamesField(names).parts[0])) == names
  {
    forall k | 0 <= k < |names|
      ensures names[k].name != [] && AliasOf(AliasNode(names[k])) == names[k]
    {
      AliasIsRead(names[k]);
    }
  }

  /** Every import statement of the grammar is read back off its node. */
  lemma ImportsAreRead(i: Import)
    requires Grammar(i)
    ensures IsImport(Parsed(i)) && ImportOf(Parsed(i)) == i
  {
    NamesAreRead(i.names);
    var list := NamesField(i.names).parts[0];
    hide ValueOf, AliasesOf, Parts, Text, NamesField;
    match i
    case Plain(names) =>
      FoundField("names", list, [], "names");
      assert Parsed(i).parts == [Attribute("names", list)] + [] by { NamesFieldIs(i.names); }
    case From(level, source, names) =>
      var text := if source.None? then None else Some(Joined(source.value));
      var leveled := [Attribute("level", Leaf(Decimal(level)))];
      var rest := [Attribute("names", list)] + leveled;
      assert Parsed(i).parts == Optional("module", text) + rest by { NamesFieldIs(i.names); }
      FoundOptional("module", text, rest, "module");
      FoundOptional("module", text, rest, "names");
      FoundOptional("module", text, rest, "level");
      AfterModule(list, level);
      if source.Some? {
        PartsOfJoined(source.value);
        TextIsRead(Joined(source.value));
      }
  }

  lemma NamesFieldIs(names: seq<Alias>)
    requires forall k :: 0 <= k < |names| ==> names[k].name != []
    ensures NamesField(names) == Attribute("names", NamesField(names).parts[0])
  {
  }

  lemma AfterModule(list: Tree, level: nat)
    ensures var rest := [Attribute("names", list)] + [Attribute("level", Leaf(Decimal(level)))];
            && ValueOf(rest, "names") == Some(list) && ValueOf(rest, "level") == Some(Leaf(Decimal(level)))
            && ValueOf(rest, "module") == None
  {
    var leveled := [Attribute("level", Leaf(Decimal(level)))];
    assert leveled == leveled + [];
    FoundField("names", list, leveled, "names");
    FoundField("names", list, leveled, "level");
    FoundField("names", list, leveled, "module");
    FoundField("level", Leaf(Decimal(level)), [], "level");
    FoundField("level", Leaf(Decimal(level)), [], "module");
  }

  // --- what is written is source ---------------------------------------------------------

  ghost predicate Importless(ts: seq<Tree>) {
    forall i :: 0 <= i < |ts| ==> Source(ts[i]) && Imports(ts[i]) == []
  }

  lemma {:induction false} NoImportsInAll(ts: seq<Tree>)
    requires Importless(ts)
    ensures ImportsAll(ts) == []
  {
    if ts != [] {
      NoImportsInAll(ts[1..]);
    }
  }

  // A field or node of such parts.
  lemma Around(tag: Tag, parts: seq<Tree>)
    requires Importless(parts) && tag != Field("id")
    ensures Source(Group(tag, parts)) && (tag != Node("Import") && tag != Node("ImportFrom") ==> Imports(Group(tag, parts)) == [])
  {
    NoImportsInAll(parts);
  }

  lemma AliasIsSource(a: Alias)
    requires a.name != []
    ensures Importless([AliasNode(a)])
  {
    Around(Field("name"), [Quoted(Joined(a.name))]);
    if a.asname.Some? {
      Around(Field("asname"), [Quoted(a.asname.value)]);
    }
    assert Importless(AliasNode(a).parts);
    Around(Node("alias"), AliasNode(a).parts);
  }

  lemma NamesAreSource(names: seq<Alias>)
    requires forall k :: 0 <= k < |names| ==> names[k].name != []
    ensures Importless([NamesField(names)])
  {
    var parts := seq(|names|, k requires 0 <= k < |names| => AliasNode(names[k]));
    forall k | 0 <= k < |parts|
      ensures Source(parts[k]) && Imports(parts[k]) == []
    {
      AliasIsSource(names[k]);
      assert Importless([AliasNode(names[k])]);
      assert [AliasNode(names[k])][0] == parts[k];
    }
    hide AliasNode, Source, Imports;
    Around(Items, parts);
    Around(Field("names"), [Group(Items, parts)]);
  }

  lemma OptionalIsSource(name: string, value: Option<string>)
    requires name != "id"
    ensures Importless(Optional(name, value))
  {
    if value.Some? {
      Around(Field(name), [Quoted(value.value)]);
    }
  }

  lemma Importlesses(a: seq<Tree>, b: seq<Tree>)
    requires Importless(a) && Importless(b)
    ensures Importless(a + b)
  {
  }

  lemma ParsedIsSource(i: Import)
    requires Grammar(i)
    ensures Source(Parsed(i))
  {
    NamesAreSource(i.names);
    hide Importless, Source, Imports, Optional, NamesField, Joined, Decimal;
    if i.From? {
      var level := Attribute("level", Leaf(Decimal(i.level)));
      var text := if i.source.None? then None else Some(Joined(i.source.value));
      LevelIsSource(i.level);
      OptionalIsSource("module", text);
      Importlesses([NamesField(i.names)], [level]);
      Importlesses(Optional("module", text), [NamesField(i.names)] + [level]);
      assert [NamesField(i.names)] + [level] == [NamesField(i.names), level];
    }
    Around(Parsed(i).tag, Parsed(i).parts);
  }

  lemma LevelIsSource(level: nat)
    ensures Importless([Attribute("level", Leaf(Decimal(level)))])
  {
    Around(Field("level"), [Leaf(Decimal(level))]);
  }
}
