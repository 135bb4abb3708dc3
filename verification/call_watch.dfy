/** The Oracle call watcher with a crash at any step: `bg`, `save_seen`,
    `send_review`, `scan` and `main` of scripts/oracle_call_watch.py, and the
    ownership answer of the job-active branch of scripts/agent_bg.py. */
module CallWatch {
  import opened Wrappers

  // --- who owns the job ------------------------------------------------------------------

  datatype Row = Row(active: bool, terminal: bool, generation: int, workerPid: int, workerToken: string)

  datatype Reply = Raised | Answer(row: Option<Row>)

  // What job-active exits with: 0 active, 1 fenced, 2 unknown. The heartbeat answers
  // nothing both for a fenced worker and for a missing row.
  function JobActive(beat: Reply, row: Reply, generation: int, pid: int, token: string): int {
    match beat
    case Raised => 2
    case Answer(Some(job)) =>
      if job.active then (if job.generation == generation then 0 else 1)
      else if job.terminal then 1
      else Confirmed(row, generation, pid, token)
    case Answer(None) => Confirmed(row, generation, pid, token)
  }

  function Confirmed(row: Reply, generation: int, pid: int, token: string): int {
    match row
    case Raised => 2
    case Answer(None) => 2
    case Answer(Some(job)) => if Fenced(job, generation, pid, token) then 1 else 2
  }

  // A row that says this worker is out.
  predicate Fenced(job: Row, generation: int, pid: int, token: string) {
    job.generation != generation || job.terminal
    || (job.workerPid != 0 && job.workerPid != pid) || (job.workerToken != "" && job.workerToken != token)
  }

  // The child's exit as `bg` reads it: what did not start or timed out, and a 1 that
  // comes with an error text, are all unknown.
  datatype Exit = NotRun | Exit(code: int, stderr: bool)

  function Read(exit: Exit): int {
    match exit
    case NotRun => 2
    case Exit(code, stderr) => if code == 1 && stderr then 2 else code
  }

  /** The watcher reads "stop" only off a row that names another generation or worker
      or an ended job, and "go on" only off an active row of its own generation; no
      failure in between turns into either. */
  lemma OwnershipNeedsEvidence(beat: Reply, row: Reply, generation: int, pid: int, token: string)
    ensures var status := JobActive(beat, row, generation, pid, token);
            && (status == 0 <==> beat.Answer? && beat.row.Some? && beat.row.value.active && beat.row.value.generation == generation)
            && (status == 1 ==> (beat.Answer? && beat.row.Some? && Fenced(beat.row.value, generation, pid, token))
                                || (row.Answer? && row.row.Some? && Fenced(row.row.value, generation, pid, token)))
            && (beat.Raised? ==> status == 2)
    ensures forall exit :: Read(exit) == 1 <==> exit == Exit(1, false)
    ensures forall exit :: Read(exit) == 0 <==> exit.Exit? && exit.code == 0
  {
  }

  // --- the seen file -----------------------------------------------------------------------

  // The characters str.split() splits at.
  predicate Space(c: char) {
    var n := c as int;
    0x9 <= n <= 0xD || 0x1C <= n <= 0x20 || n == 0x85 || n == 0xA0 || n == 0x1680
    || 0x2000 <= n <= 0x200A || n == 0x2028 || n == 0x2029 || n == 0x202F || n == 0x205F || n == 0x3000
  }

  // A name split() gives back whole.
  predicate Plain(stem: string) { stem != "" && forall i :: 0 <= i < |stem| ==> !Space(stem[i]) }

  // '\n'.join(names) + '\n'
  function Saved(names: seq<string>): string {
    if names == [] then "\n" else if |names| == 1 then names[0] + "\n" else names[0] + "\n" + Saved(names[1..])
  }

  // The words of a text; `word` is the one being read.
  function Words(text: string, word: string): set<string> {
    if text == "" then Ended(word)
    else if Space(text[0]) then Ended(word) + Words(text[1..], "")
    else Words(text[1..], word + [text[0]])
  }

  function Ended(word: string): set<string> { if word == "" then {} else {word} }

  function Split(text: string): set<string> { Words(text, "") }

  lemma {:induction false} WordsArePlain(text: string, word: string)
    requires word == "" || Plain(word)
    ensures forall w :: w in Words(text, word) ==> Plain(w)
  {
    if text != "" {
      if Space(text[0]) {
        WordsArePlain(text[1..], "");
      } else {
        WordsArePlain(text[1..], word + [text[0]]);
      }
    }
  }

  // A newline ends a word.
  lemma {:induction false} WordsOnTwoLines(line: string, rest: string, word: string)
    ensures Words(line + "\n" + rest, word) == Words(line, word) + Words(rest, "")
  {
    var text := line + "\n" + rest;
    if line == "" {
      assert text[1..] == rest;
    } else {
      assert text[1..] == line[1..] + "\n" + rest;
      WordsOnTwoLines(line[1..], rest, if Space(line[0]) then "" else word + [line[0]]);
    }
  }

  lemma {:induction false} OneWord(stem: string, word: string)
    requires forall i :: 0 <= i < |stem| ==> !Space(stem[i])
    ensures Words(stem, word) == Ended(word + stem)
  {
    if stem == "" {
      assert word + stem == word;
    } else {
      OneWord(stem[1..], word + [stem[0]]);
      assert (word + [stem[0]]) + stem[1..] == word + stem;
    }
  }

  lemma PlainIsOneWord(stem: string)
    requires Plain(stem)
    ensures Split(stem) == {stem}
  {
    OneWord(stem, "");
    assert "" + stem == stem;
  }

  function AsSet(names: seq<string>): set<string> { set i | 0 <= i < |names| :: names[i] }

  lemma OneName(names: seq<string>)
    requires names != []
    ensures AsSet(names) == {names[0]} + AsSet(names[1..])
  {
    forall i | 0 < i < |names|
      ensures names[i] in AsSet(names[1..])
    {
      assert names[1..][i - 1] == names[i];
    }
  }

  // The file holds the words of the names.
  lemma {:induction false} SavedWords(names: seq<string>, w: string)
    ensures w in Split(Saved(names)) <==> exists i :: 0 <= i < |names| && w in Split(names[i])
  {
    if names == [] {
      assert "\n"[1..] == "";
    } else {
      var rest := if |names| == 1 then "" else Saved(names[1..]);
      assert Saved(names) == names[0] + "\n" + rest;
      WordsOnTwoLines(names[0], rest, "");
      if |names| > 1 {
        SavedWords(names[1..], w);
        hide Words;
        if exists i :: 0 <= i < |names| && w in Split(names[i]) {
          var i :| 0 <= i < |names| && w in Split(names[i]);
          assert i > 0 ==> names[1..][i - 1] == names[i];
        }
        assert forall i :: 0 <= i < |names| - 1 ==> names[1..][i] == names[i + 1];
      }
    }
  }

  lemma PlainNamesComeBack(names: seq<string>)
    requires forall i :: 0 <= i < |names| ==> Plain(names[i])
    ensures Split(Saved(names)) == AsSet(names)
  {
    forall w: string
      ensures w in Split(Saved(names)) <==> w in AsSet(names)
    {
      SavedWords(names, w);
      forall i | 0 <= i < |names|
        ensures Split(names[i]) == {names[i]}
      {
        PlainIsOneWord(names[i]);
      }
    }
  }

  /** The seen file brings back exactly the names saved in it exactly when each is
      non-empty and has no whitespace in it. */
  lemma SeenFileRoundTripsExactly(names: seq<string>)
    ensures Split(Saved(names)) == AsSet(names) <==>
            forall i :: 0 <= i < |names| ==> Plain(names[i])
  {
    WordsArePlain(Saved(names), "");
    if forall i :: 0 <= i < |names| ==> Plain(names[i]) {
      PlainNamesComeBack(names);
    } else {
      var i :| 0 <= i < |names| && !Plain(names[i]);
      assert names[i] in AsSet(names);
    }
  }
}
