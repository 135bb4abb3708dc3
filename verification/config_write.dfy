/** Writing the rewritten configuration, verifying it and putting the original back:
    `_write_new_file`, `_replace_atomically` and the write phase of
    `_resolve_google_builtin` (bin/clarp-admin.py), with a failure, a crash or a loss of
    power anywhere. */
module ConfigWrite {
  import opened ConfigRewrite

  type Bytes = seq<int>
  type Files = map<string, Bytes>

  // What a name can hold after a loss of power: nothing, something unfinished, or a
  // whole content.
  datatype Remains = Nothing | Torn | Whole(data: Bytes)

  // A moment: what processes see, what of it a loss of power may leave (nothing, for a
  // name not listed), and the names whose data has been flushed.
  datatype Moment = Moment(files: Files, remains: map<string, set<Remains>>, flushed: set<string>)

  function After(m: Moment, path: string): set<Remains> {
    if path in m.remains then m.remains[path] else {Nothing}
  }

  function MayBe(m: Moment, path: string, more: set<Remains>): map<string, set<Remains>> {
    m.remains[path := After(m, path) + more]
  }

  // What the data of a file leaves behind.
  function Left(m: Moment, path: string): set<Remains>
    requires path in m.files
  {
    if path in m.flushed then {Whole(m.files[path])} else {Torn}
  }

  // O_CREAT | O_EXCL: an existing file is left alone.
  function Created(m: Moment, path: string): Moment
    requires path !in m.files
  {
    Moment(m.files[path := []], MayBe(m, path, {Torn}), m.flushed - {path})
  }

  function Appended(m: Moment, path: string, data: Bytes): Moment
    requires path in m.files
  {
    Moment(m.files[path := m.files[path] + data], MayBe(m, path, {Torn}), m.flushed - {path})
  }

  // fsync of the file: its data is whole, if its name is there.
  function Flushed(m: Moment, path: string): Moment
    requires path in m.files
  {
    Moment(m.files, m.remains[path := {Nothing, Whole(m.files[path])}], m.flushed + {path})
  }

  function Renamed(m: Moment, from: string, to: string): Moment
    requires from in m.files && from != to
  {
    Moment(m.files[to := m.files[from]] - {from},
           m.remains[to := After(m, to) + Left(m, from)][from := After(m, from) + {Nothing}],
           if from in m.flushed then m.flushed + {to} - {from} else m.flushed - {to, from})
  }

  function Unlinked(m: Moment, path: string): Moment {
    Moment(m.files - {path}, MayBe(m, path, {Nothing}), m.flushed - {path})
  }

  // fsync of the directory: every name is as it is seen.
  function Named(m: Moment): Moment {
    m.(remains := map p | p in m.files :: Left(m, p))
  }

  // Data that was never flushed may be torn.
  ghost predicate Coherent(m: Moment) {
    forall p :: p in m.files && p !in m.flushed ==> Torn in After(m, p)
  }

  /** A directory. Every call may fail; `past` has each moment a crash could find. */
  class Disk {
    var now: Moment
    ghost var past: seq<Moment>

    ghost predicate Valid()
      reads this
    {
      past != [] && past[|past| - 1] == now && Coherent(now)
    }

    method Create(path: string) returns (ok: bool)
      requires Valid()
      modifies this
      ensures Valid() && past == old(past) + [now]
      ensures ok ==> path !in old(now).files && now == Created(old(now), path)
      ensures !ok ==> now == old(now)
    {
      ok := *;
      ok := ok && path !in now.files;
      if ok {
        now := Created(now, path);
      }
      past := past + [now];
    }

    // os.write: some of it, at least one byte.
    method Append(path: string, view: Bytes) returns (ok: bool, n: nat)
      requires Valid() && path in now.files && view != []
      modifies this
      ensures Valid() && past == old(past) + [now]
      ensures ok ==> 1 <= n <= |view| && now == Appended(old(now), path, view[..n])
      ensures !ok ==> now == old(now)
    {
      ok := *;
      n := 0;
      if ok {
        n :| 1 <= n <= |view|;
        now := Appended(now, path, view[..n]);
      }
      past := past + [now];
    }

    method Flush(path: string) returns (ok: bool)
      requires Valid() && path in now.files
      modifies this
      ensures Valid() && past == old(past) + [now]
      ensures now == if ok then Flushed(old(now), path) else old(now)
    {
      ok := *;
      if ok {
        now := Flushed(now, path);
      }
      past := past + [now];
    }

    method Rename(from: string, to: string) returns (ok: bool)
      requires Valid() && from in now.files && from != to
      modifies this
      ensures Valid() && past == old(past) + [now]
      ensures now == if ok then Renamed(old(now), from, to) else old(now)
    {
      ok := *;
      if ok {
        now := Renamed(now, from, to);
      }
      past := past + [now];
    }

    method Unlink(path: string)
      requires Valid()
      modifies this
      ensures Valid() && past == old(past) + [now]
      ensures now == old(now) || now == Unlinked(old(now), path)
    {
      var ok: bool := *;
      if ok {
        now := Unlinked(now, path);
      }
      past := past + [now];
    }

    method FlushDirectory() returns (ok: bool)
      requires Valid()
      modifies this
      ensures Valid() && past == old(past) + [now]
      ensures now == if ok then Named(old(now)) else old(now)
    {
      ok := *;
      if ok {
        now := Named(now);
      }
      past := past + [now];
    }

    method Read(path: string) returns (ok: bool, data: Bytes)
      ensures ok ==> path in now.files && data == now.files[path]
    {
      ok := *;
      ok := ok && path in now.files;
      data := if ok then now.files[path] else [];
    }
  }

  // Nothing but `path` is different, to processes or to a loss of power.
  ghost predicate OnlyAt(m: Moment, before: Moment, path: string) {
    && (forall p :: p != path ==> (p in m.files <==> p in before.files))
    && (forall p :: p != path && p in m.files ==> m.files[p] == before.files[p])
    && (forall p :: p != path ==> After(m, p) == After(before, p) && (p in m.flushed <==> p in before.flushed))
  }

  ghost predicate AllOnlyAt(past: seq<Moment>, since: nat, before: Moment, path: string) {
    forall i :: since <= i < |past| ==> OnlyAt(past[i], before, path)
  }

  lemma StillOnlyAt(m: Moment, before: Moment, path: string, data: Bytes)
    requires OnlyAt(m, before, path)
    ensures path !in m.files ==> OnlyAt(Created(m, path), before, path)
    ensures path in m.files ==> OnlyAt(Appended(m, path, data), before, path) && OnlyAt(Flushed(m, path), before, path)
  {
  }

  lemma OneMoreMoment(past: seq<Moment>, since: nat, before: Moment, path: string, m: Moment)
    requires AllOnlyAt(past, since, before, path) && OnlyAt(m, before, path)
    ensures AllOnlyAt(past + [m], since, before, path)
  {
    hide OnlyAt;
  }

  /** On success the file has the data, flushed; whatever happens, nothing else changes. */
  method WriteNewFile(disk: Disk, path: string, data: Bytes) returns (ok: bool)
    requires disk.Valid()
    modifies disk
    ensures disk.Valid() && old(disk.past) <= disk.past
    ensures AllOnlyAt(disk.past, |old(disk.past)|, old(disk.now), path) && OnlyAt(disk.now, old(disk.now), path)
    ensures ok ==> path !in old(disk.now).files && path in disk.now.files && disk.now.files[path] == data
                   && path in disk.now.flushed && After(disk.now, path) == {Nothing, Whole(data)}
    ensures !ok ==> disk.now == old(disk.now)
                    || (path !in old(disk.now).files && path in disk.now.files && disk.now.files[path] <= data)
  {
    ghost var since, before := |disk.past|, disk.now;
    StillOnlyAt(before, before, path, []);
    assert OnlyAt(before, before, path);
    ok := disk.Create(path);
    hide OnlyAt, AllOnlyAt, Coherent, MayBe, After, Left;
    NoneYet(old(disk.past), before, path);
    OneMoreMoment(old(disk.past), since, before, path, disk.now);
    if !ok {
      return;
    }
    var view := data;
    while view != []
      invariant disk.Valid() && old(disk.past) <= disk.past
      invariant AllOnlyAt(disk.past, since, before, path) && OnlyAt(disk.now, before, path)
      invariant path in disk.now.files && disk.now.files[path] + view == data
      decreases |view|
    {
      ghost var sofar, was := disk.past, disk.now;
      var wrote, n := disk.Append(path, view);
      StillOnlyAt(was, before, path, if wrote then view[..n] else []);
      OneMoreMoment(sofar, since, before, path, disk.now);
      if !wrote {
        return false;
      }
      assert view == view[..n] + view[n..];
      view := view[n..];
    }
    ghost var sofar, was := disk.past, disk.now;
    StillOnlyAt(was, before, path, []);
    ok := disk.Flush(path);
    OneMoreMoment(sofar, since, before, path, disk.now);
    FlushedIsWhole(was, path);
  }

  lemma FlushedIsWhole(m: Moment, path: string)
    requires path in m.files
    ensures var n := Flushed(m, path);
            path in n.flushed && n.files == m.files && After(n, path) == {Nothing, Whole(m.files[path])}
  {
  }

  lemma NoneYet(past: seq<Moment>, before: Moment, path: string)
    ensures AllOnlyAt(past, |past|, before, path)
  {
  }

  // A crash would have found the old contents or the new, whole, and so would a loss
  // of power, or what it would have left before.
  ghost predicate OneOf(m: Moment, before: Moment, path: string, data: Bytes)
    requires path in before.files
  {
    && path in m.files && (m.files[path] == before.files[path] || m.files[path] == data)
    && After(m, path) <= After(before, path) + {Whole(before.files[path]), Whole(data)}
  }

  ghost predicate AlwaysOneOf(past: seq<Moment>, since: nat, before: Moment, path: string, data: Bytes)
    requires path in before.files
  {
    forall i :: since <= i < |past| ==> OneOf(past[i], before, path, data)
  }

  // Nothing but two names is different, and what was safe stays safe.
  ghost predicate Elsewhere(m: Moment, before: Moment, path: string, other: string) {
    && (forall p :: p != path && p != other && p in before.files ==> p in m.files && m.files[p] == before.files[p])
    && (forall p :: p != path && p != other && p in m.files ==> p in before.files)
    && (forall p :: p != path && p != other && p in before.files && Safe(before, p) ==> Safe(m, p))
  }

  // A loss of power leaves the file as it is.
  ghost predicate Safe(m: Moment, path: string)
    requires path in m.files
  {
    path in m.flushed && After(m, path) == {Whole(m.files[path])}
  }

  lemma WriteElsewhere(m: Moment, before: Moment, path: string, other: string, data: Bytes)
    requires OnlyAt(m, before, other) && path in before.files && path != other
    ensures OneOf(m, before, path, data) && m.files[path] == before.files[path] && Elsewhere(m, before, path, other)
  {
  }

  // The rename puts flushed data in place at once.
  lemma RenameKeeps(m: Moment, before: Moment, path: string, temporary: string, data: Bytes)
    requires path in before.files && OneOf(m, before, path, data) && path != temporary
    requires Elsewhere(m, before, path, temporary)
    requires temporary in m.files && m.files[temporary] == data && temporary in m.flushed
    ensures var n := Renamed(m, temporary, path);
            && OneOf(n, before, path, data) && Elsewhere(n, before, path, temporary)
            && n.files[path] == data && path in n.flushed && temporary !in n.files
  {
  }

  lemma UnlinkKeeps(m: Moment, before: Moment, path: string, temporary: string, data: Bytes)
    requires path in before.files && OneOf(m, before, path, data) && path != temporary
    requires Elsewhere(m, before, path, temporary)
    ensures OneOf(Unlinked(m, temporary), before, path, data) && Elsewhere(Unlinked(m, temporary), before, path, temporary)
  {
  }

  lemma NamingKeeps(m: Moment, before: Moment, path: string, temporary: string, data: Bytes)
    requires path in before.files && OneOf(m, before, path, data) && path != temporary
    requires Elsewhere(m, before, path, temporary) && m.files[path] == data && path in m.flushed && temporary !in m.files
    ensures OneOf(Named(m), before, path, data) && Elsewhere(Named(m), before, path, temporary)
    ensures Safe(Named(m), path) && After(Named(m), temporary) == {Nothing}
  {
  }

  lemma OneMoreIsOneOf(past: seq<Moment>, since: nat, before: Moment, path: string, data: Bytes, m: Moment)
    requires path in before.files && AlwaysOneOf(past, since, before, path, data) && OneOf(m, before, path, data)
    ensures AlwaysOneOf(past + [m], since, before, path, data)
  {
    hide OneOf;
  }

  lemma AllWritesAreOneOf(past: seq<Moment>, since: nat, before: Moment, path: string, other: string, data: Bytes)
    requires AllOnlyAt(past, since, before, other) && path in before.files && path != other
    ensures AlwaysOneOf(past, since, before, path, data)
  {
    forall i | since <= i < |past|
      ensures OneOf(past[i], before, path, data)
    {
      WriteElsewhere(past[i], before, path, other, data);
    }
  }

  /** Whatever fails, and wherever a crash or a loss of power strikes, the file has its
      old contents or its new ones; without an error it has the new ones, for good. */
  method ReplaceAtomically(disk: Disk, path: string, temporary: string, data: Bytes) returns (ok: bool)
    requires disk.Valid() && path in disk.now.files && temporary != path
    modifies disk
    ensures disk.Valid() && old(disk.past) <= disk.past
    ensures AlwaysOneOf(disk.past, |old(disk.past)|, old(disk.now), path, data) && OneOf(disk.now, old(disk.now), path, data)
    ensures Elsewhere(disk.now, old(disk.now), path, temporary)
    ensures ok ==> disk.now.files[path] == data && Safe(disk.now, path)
    ensures ok ==> temporary !in disk.now.files && After(disk.now, temporary) == {Nothing}
  {
    ghost var since, before := |disk.past|, disk.now;
    var written := WriteNewFile(disk, temporary, data);
    WriteElsewhere(disk.now, before, path, temporary, data);
    AllWritesAreOneOf(disk.past, since, before, path, temporary, data);
    hide OnlyAt, AllOnlyAt, OneOf, AlwaysOneOf, Elsewhere, Coherent;
    var replaced := false;
    if written {
      ghost var past, m := disk.past, disk.now;
      RenameKeeps(m, before, path, temporary, data);
      replaced := disk.Rename(temporary, path);
      OneMoreIsOneOf(past, since, before, path, data, disk.now);
    }
    ghost var past, m := disk.past, disk.now;
    if !replaced {
      UnlinkKeeps(m, before, path, temporary, data);
      disk.Unlink(temporary);
      OneMoreIsOneOf(past, since, before, path, data, disk.now);
      FilesOf(disk.now, before, path, data);
      return false;
    }
    NamingKeeps(m, before, path, temporary, data);
    ok := disk.FlushDirectory();
    OneMoreIsOneOf(past, since, before, path, data, disk.now);
    FilesOf(disk.now, before, path, data);
  }

  lemma FilesOf(m: Moment, before: Moment, path: string, data: Bytes)
    requires path in before.files && OneOf(m, before, path, data)
    ensures path in m.files && m.files[path] in [before.files[path], data]
  {
  }

  // --- write, verify, restore --------------------------------------------------------------

  datatype Outcome =
    | Refused                // before anything is written
    | Stopped                // the backup could not be made
    | Done(durable: bool)
    | PutBack
    | NotPutBack             // restoring reported an error

  datatype Names = Names(config: string, backup: string, first: string, second: string)

  predicate Fresh(n: Names, files: Files) {
    && n.first !in files && n.second !in files && n.first != n.second
    && n.backup != n.config && n.backup != n.first && n.backup != n.second
    && n.config != n.first && n.config != n.second
  }

  // The original in a file of its own that survives a loss of power.
  ghost predicate BackedUp(m: Moment, n: Names, raw: Bytes) {
    n.backup in m.files && m.files[n.backup] == raw && Safe(m, n.backup)
  }

  method BackUp(disk: Disk, n: Names, raw: Bytes, text: Bytes) returns (ok: bool)
    requires disk.Valid() && Fresh(n, disk.now.files) && n.config in disk.now.files
    modifies disk
    ensures disk.Valid() && old(disk.past) <= disk.past
    ensures AlwaysOneOf(disk.past, |old(disk.past)|, old(disk.now), n.config, text)
    ensures OneOf(disk.now, old(disk.now), n.config, text)
    ensures disk.now.files[n.config] == old(disk.now).files[n.config]
    ensures ok ==> BackedUp(disk.now, n, raw)
  {
    ghost var since, before := |disk.past|, disk.now;
    ok := WriteNewFile(disk, n.backup, raw);
    WriteElsewhere(disk.now, before, n.config, n.backup, text);
    AllWritesAreOneOf(disk.past, since, before, n.config, n.backup, text);
    hide AllOnlyAt, AlwaysOneOf;
    if ok {
      ghost var past := disk.past;
      ok := disk.FlushDirectory();
      OneMoreIsOneOf(past, since, before, n.config, text, disk.now);
    }
  }

  lemma OneOfTwice(m: Moment, middle: Moment, before: Moment, path: string, a: Bytes, b: Bytes)
    requires path in before.files && OneOf(middle, before, path, a) && OneOf(m, middle, path, b)
    requires b == a || b == before.files[path]
    ensures OneOf(m, before, path, a)
  {
  }

  lemma AlwaysTwice(past: seq<Moment>, since: nat, middle: Moment, before: Moment, path: string, a: Bytes, b: Bytes)
    requires path in before.files && OneOf(middle, before, path, a) && AlwaysOneOf(past, since, middle, path, b)
    requires b == a || b == before.files[path]
    ensures AlwaysOneOf(past, since, before, path, a)
  {
    forall i | since <= i < |past|
      ensures OneOf(past[i], before, path, a)
    {
      OneOfTwice(past[i], middle, before, path, a, b);
    }
  }

  lemma AlwaysJoins(past: seq<Moment>, from: nat, to: seq<Moment>, before: Moment, path: string, data: Bytes)
    requires path in before.files && AlwaysOneOf(past, from, before, path, data) && past <= to
    requires AlwaysOneOf(to, |past|, before, path, data)
    ensures AlwaysOneOf(to, from, before, path, data)
  {
    hide OneOf;
    forall i | from <= i < |to|
      ensures OneOf(to[i], before, path, data)
    {
      assert i < |past| ==> to[i] == past[i];
    }
  }

  /** The write phase, whatever the text to write and however it is checked. */
  method WriteVerifyRestore(disk: Disk, n: Names, raw: Bytes, text: Bytes, good: Bytes -> bool)
    returns (outcome: Outcome)
    requires disk.Valid() && Fresh(n, disk.now.files) && n.config in disk.now.files && disk.now.files[n.config] == raw
    modifies disk
    ensures disk.Valid() && old(disk.past) <= disk.past && n.config in disk.now.files
    ensures AlwaysOneOf(disk.past, |old(disk.past)|, old(disk.now), n.config, text)
    ensures !outcome.Refused?
    ensures outcome.Stopped? || outcome.PutBack? ==> disk.now.files[n.config] == raw
    ensures outcome.Done? ==> good(disk.now.files[n.config]) && disk.now.files[n.config] in [raw, text]
    ensures outcome == Done(true) ==> disk.now.files[n.config] == text && Safe(disk.now, n.config)
    ensures outcome.PutBack? ==> Safe(disk.now, n.config)
    ensures outcome.NotPutBack? ==> disk.now.files[n.config] in [raw, text]
    ensures !outcome.Stopped? ==> BackedUp(disk.now, n, raw)
  {
    ghost var before, since := disk.now, |disk.past|;
    var ok := BackUp(disk, n, raw, text);
    hide OneOf, AlwaysOneOf, Elsewhere, BackedUp, Coherent;
    if !ok {
      return Stopped;
    }
    ghost var m1, past1 := disk.now, disk.past;
    var durable := ReplaceAtomically(disk, n.config, n.first, text);
    Continues(past1, m1, before, since, disk.past, disk.now, n, text, text);
    StaysBackedUp(disk.now, m1, n, raw, n.first);
    FilesOf(disk.now, before, n.config, text);
    var read, after := disk.Read(n.config);
    if read && good(after) {
      return Done(durable);
    }
    ghost var m2, past2 := disk.now, disk.past;
    var restored := ReplaceAtomically(disk, n.config, n.second, raw);
    Continues(past2, m2, before, since, disk.past, disk.now, n, text, raw);
    StaysBackedUp(disk.now, m2, n, raw, n.second);
    FilesOf(disk.now, before, n.config, text);
    outcome := if restored then PutBack else NotPutBack;
  }

  lemma StaysBackedUp(m: Moment, before: Moment, n: Names, raw: Bytes, temporary: string)
    requires BackedUp(before, n, raw) && Elsewhere(m, before, n.config, temporary)
    requires n.backup != n.config && n.backup != temporary
    ensures BackedUp(m, n, raw)
  {
  }

  lemma Continues(past1: seq<Moment>, m1: Moment, before: Moment, since: nat, past2: seq<Moment>, m2: Moment,
                  n: Names, text: Bytes, data: Bytes)
    requires n.config in before.files && AlwaysOneOf(past1, since, before, n.config, text)
    requires OneOf(m1, before, n.config, text) && past1 <= past2
    requires AlwaysOneOf(past2, |past1|, m1, n.config, data) && OneOf(m2, m1, n.config, data)
    requires data == text || data == before.files[n.config]
    ensures AlwaysOneOf(past2, since, before, n.config, text) && OneOf(m2, before, n.config, text)
  {
    OneOfTwice(m2, m1, before, n.config, text, data);
    AlwaysTwice(past2, |past1|, m1, before, n.config, text, data);
    AlwaysJoins(past1, since, past2, before, n.config, text);
  }

  // --- the command -----------------------------------------------------------------------------

  datatype Decoded = Undecodable | Text(lines: seq<Line>)

  predicate Readable(raw: Decoded) {
    raw.Text? && Parse(raw.lines).Parsed? && !ConfigRewrite.Refused(raw.lines, Parse(raw.lines).doc)
  }

  /** The whole of it: what the file then holds is verified to mean the same but for the
      new table, or it is the original again; only a reported failure to restore leaves
      that open, and never half a text. */
  method Resolve(disk: Disk, n: Names, packages: string, decode: Bytes -> Decoded, encode: seq<Line> -> Bytes)
    returns (outcome: Outcome)
    requires disk.Valid() && Fresh(n, disk.now.files)
    requires forall t :: decode(encode(t)) == Text(t)
    modifies disk
    ensures disk.Valid()
    ensures n.config !in old(disk.now).files ==> outcome.Refused?
    ensures outcome.Refused? ==> disk.now == old(disk.now)
    ensures n.config in old(disk.now).files ==>
              var raw := old(disk.now).files[n.config];
              && n.config in disk.now.files
              && (outcome.Stopped? || outcome.PutBack? ==> disk.now.files[n.config] == raw)
              && (!outcome.Refused? ==>
                   && Readable(decode(raw))
                   && var text := encode(Rewritten(decode(raw).lines, packages));
                      && AlwaysOneOf(disk.past, |old(disk.past)|, old(disk.now), n.config, text)
                      && (outcome.NotPutBack? ==> disk.now.files[n.config] in [raw, text])
                      && (outcome == Done(true) ==>
                           disk.now.files[n.config] == text && Safe(disk.now, n.config)
                           && !Leaks(decode(raw).lines, false, false) && HasTts(decode(raw).lines))
                      && (outcome.Done? ==>
                           decode(disk.now.files[n.config]).Text?
                           && Verified(Parse(decode(raw).lines).doc, Parse(decode(disk.now.files[n.config]).lines), packages)))
  {
    var read, raw := disk.Read(n.config);
    if !read || !Readable(decode(raw)) {
      return Refused;
    }
    var lines := decode(raw).lines;
    var before := Parse(lines).doc;
    var text := WithResolution(lines, packages);
    RewriteKeepsTheMeaningExactly(lines, packages);
    hide OneOf, BackedUp, Coherent;
    var good := (data: Bytes) => decode(data).Text? && Verified(before, Parse(decode(data).lines), packages);
    outcome := WriteVerifyRestore(disk, n, raw, encode(text), good);
  }
}
