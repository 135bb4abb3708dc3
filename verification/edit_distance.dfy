/** The word error rate of a transcription: the rolling-row loop of
    `word_error_rate` in scripts/verify_raw_pcm_stream.py against edit scripts. */
module EditDistance {
  import opened Wrappers

  type Words = seq<string>

  // --- what a distance is: the cost of the cheapest edit script -------------------

  datatype Edit = Keep | Replace(word: string) | Insert(word: string) | Delete

  // The last edit of a script works on the last word.
  function Apply(script: seq<Edit>, words: Words): Option<Words> {
    if script == [] then (if words == [] then Some([]) else None)
    else
      var last := script[|script| - 1];
      var before := script[..|script| - 1];
      match last
      case Insert(w) => Then(Apply(before, words), [w])
      case Delete => if words == [] then None else Apply(before, Init(words))
      case Keep => if words == [] then None else Then(Apply(before, Init(words)), [Last(words)])
      case Replace(w) => if words == [] then None else Then(Apply(before, Init(words)), [w])
  }

  function Init(words: Words): Words
    requires words != []
  {
    words[..|words| - 1]
  }

  function Last(words: Words): string
    requires words != []
  {
    words[|words| - 1]
  }

  function Then(words: Option<Words>, more: Words): Option<Words> {
    if words.None? then None else Some(words.value + more)
  }

  function Price(e: Edit): nat { if e.Keep? then 0 else 1 }

  function Cost(script: seq<Edit>): nat {
    if script == [] then 0 else Cost(script[..|script| - 1]) + Price(script[|script| - 1])
  }

  ghost predicate Turns(script: seq<Edit>, left: Words, right: Words) { Apply(script, left) == Some(right) }

  ghost predicate IsDistance(d: int, left: Words, right: Words) {
    && (exists script :: Turns(script, left, right) && Cost(script) == d)
    && (forall script :: Turns(script, left, right) ==> d <= Cost(script))
  }

  // --- the recurrence the rows hold -----------------------------------------------

  function Least(a: int, b: int, c: int): int {
    if a <= b && a <= c then a else if b <= c then b else c
  }

  function Differ(a: string, b: string): int { if a != b then 1 else 0 }

  function Distance(left: Words, right: Words): int
    decreases |left| + |right|
  {
    if left == [] then |right|
    else if right == [] then |left|
    else Least(Distance(left, Init(right)) + 1, Distance(Init(left), right) + 1,
               Distance(Init(left), Init(right)) + Differ(Last(left), Last(right)))
  }

  lemma OneMore(script: seq<Edit>, e: Edit, left: Words)
    ensures Cost(script + [e]) == Cost(script) + Price(e)
    ensures e.Insert? ==> Apply(script + [e], left) == Then(Apply(script, left), [e.word])
    ensures left != [] && e.Delete? ==> Apply(script + [e], left) == Apply(script, Init(left))
    ensures left != [] && e.Keep? ==> Apply(script + [e], left) == Then(Apply(script, Init(left)), [Last(left)])
    ensures left != [] && e.Replace? ==> Apply(script + [e], left) == Then(Apply(script, Init(left)), [e.word])
  {
    assert (script + [e])[..|script|] == script;
  }

  // Some script costs exactly the recurrence's value.
  lemma {:induction false} Achieved(left: Words, right: Words) returns (script: seq<Edit>)
    ensures Turns(script, left, right) && Cost(script) == Distance(left, right)
    decreases |left| + |right|
  {
    var e, rest;
    if left == [] && right == [] {
      return [];
    } else if left == [] || (right != [] && Distance(left, right) == Distance(left, Init(right)) + 1) {
      e := Insert(Last(right));
      rest := Achieved(left, Init(right));
      assert right == Init(right) + [Last(right)];
    } else if right == [] || Distance(left, right) == Distance(Init(left), right) + 1 {
      e := Delete;
      rest := Achieved(Init(left), right);
    } else {
      e := if Last(left) == Last(right) then Keep else Replace(Last(right));
      rest := Achieved(Init(left), Init(right));
      assert right == Init(right) + [Last(right)];
    }
    OneMore(rest, e, left);
    script := rest + [e];
  }

  // One word more on either side changes the distance by at most one.
  lemma {:induction false} Neighbours(left: Words, right: Words)
    ensures left != [] ==> Distance(left, right) <= Distance(Init(left), right) + 1
    ensures right != [] ==> Distance(left, right) <= Distance(left, Init(right)) + 1
    ensures left != [] && right != [] ==>
              Distance(left, right) <= Distance(Init(left), Init(right)) + Differ(Last(left), Last(right))
  {
  }

  // No script costs less.
  lemma {:induction false} LowerBound(script: seq<Edit>, left: Words, right: Words)
    requires Turns(script, left, right)
    ensures Distance(left, right) <= Cost(script)
  {
    if script != [] {
      var e, before := script[|script| - 1], script[..|script| - 1];
      Neighbours(left, right);
      match e
      case Insert(w) =>
        assert right == Apply(before, left).value + [w];
        assert Init(right) == Apply(before, left).value;
        LowerBound(before, left, Init(right));
      case Delete =>
        LowerBound(before, Init(left), right);
      case Keep =>
        assert right == Apply(before, Init(left)).value + [Last(left)];
        assert Init(right) == Apply(before, Init(left)).value;
        LowerBound(before, Init(left), Init(right));
      case Replace(w) =>
        assert right == Apply(before, Init(left)).value + [w];
        assert Init(right) == Apply(before, Init(left)).value;
        LowerBound(before, Init(left), Init(right));
    }
  }

  /** The recurrence gives the cost of the cheapest script, and nothing else does. */
  lemma RecurrenceIsTheDistance(left: Words, right: Words, d: int)
    ensures IsDistance(d, left, right) <==> d == Distance(left, right)
  {
    var best := Achieved(left, right);
    forall script | Turns(script, left, right)
      ensures Distance(left, right) <= Cost(script)
    {
      LowerBound(script, left, right);
    }
  }

  // --- it is a metric ---------------------------------------------------------------

  lemma {:induction false} FreeScriptsKeepAll(script: seq<Edit>, left: Words)
    requires Cost(script) == 0 && Apply(script, left).Some?
    ensures Apply(script, left) == Some(left)
  {
    if script != [] {
      FreeScriptsKeepAll(script[..|script| - 1], Init(left));
      assert left == Init(left) + [Last(left)];
    }
  }

  lemma {:induction false} SelfIsZero(words: Words)
    ensures Distance(words, words) <= 0
  {
    if words != [] {
      SelfIsZero(Init(words));
      Neighbours(words, words);
    }
  }

  lemma ZeroExactlyWhenEqual(left: Words, right: Words)
    ensures Distance(left, right) == 0 <==> left == right
  {
    var best := Achieved(left, right);
    if left == right {
      SelfIsZero(left);
    } else if Distance(left, right) == 0 {
      FreeScriptsKeepAll(best, left);
    }
  }

  lemma {:induction false} Symmetric(left: Words, right: Words)
    ensures Distance(left, right) == Distance(right, left)
    decreases |left| + |right|
  {
    if left != [] && right != [] {
      Symmetric(left, Init(right));
      Symmetric(Init(left), right);
      Symmetric(Init(left), Init(right));
    }
  }

  // What two edits in a row do to one word, as at most one edit.
  function Joined(first: Edit, second: Edit): seq<Edit>
    requires !first.Delete? && !second.Insert?
  {
    if second.Delete? then (if first.Insert? then [] else [Delete])
    else if second.Keep? then [first]
    else if first.Insert? then [Insert(second.word)]
    else [second]
  }

  // One script that does what `first` and then `second` do.
  function Composed(first: seq<Edit>, second: seq<Edit>): seq<Edit>
    decreases |first| + |second|
  {
    if first != [] && first[|first| - 1].Delete? then Composed(first[..|first| - 1], second) + [Delete]
    else if second != [] && second[|second| - 1].Insert? then
      Composed(first, second[..|second| - 1]) + [second[|second| - 1]]
    else if first == [] || second == [] then []
    else Composed(first[..|first| - 1], second[..|second| - 1])
         + Joined(first[|first| - 1], second[|second| - 1])
  }

  lemma {:induction false} ComposedTurns(first: seq<Edit>, second: seq<Edit>, left: Words, middle: Words, right: Words)
    requires Turns(first, left, middle) && Turns(second, middle, right)
    ensures Turns(Composed(first, second), left, right)
    ensures Cost(Composed(first, second)) <= Cost(first) + Cost(second)
    decreases |first| + |second|
  {
    if first != [] && first[|first| - 1].Delete? {
      var before := first[..|first| - 1];
      ComposedTurns(before, second, Init(left), middle, right);
      OneMore(Composed(before, second), Delete, left);
    } else if second != [] && second[|second| - 1].Insert? {
      var before, e := second[..|second| - 1], second[|second| - 1];
      var most := Apply(before, middle).value;
      assert right == most + [e.word];
      ComposedTurns(first, before, left, middle, most);
      OneMore(Composed(first, before), e, left);
    } else if first != [] && second != [] {
      JoinedTurns(first, second, left, middle, right);
    }
  }

  lemma {:induction false} JoinedTurns(first: seq<Edit>, second: seq<Edit>, left: Words, middle: Words, right: Words)
    requires Turns(first, left, middle) && Turns(second, middle, right)
    requires first != [] && second != [] && !first[|first| - 1].Delete? && !second[|second| - 1].Insert?
    ensures Turns(Composed(first, second), left, right)
    ensures Cost(Composed(first, second)) <= Cost(first) + Cost(second)
    decreases |first| + |second|, 0
  {
    var f, g := first[|first| - 1], second[|second| - 1];
    var firsts, seconds := first[..|first| - 1], second[..|second| - 1];
    var rest := Composed(firsts, seconds);
    var l := if f.Insert? then left else Init(left);
    var m := Apply(firsts, l).value;
    assert middle == m + [Last(middle)] && Init(middle) == m;
    var r := Apply(seconds, m).value;
    ComposedTurns(firsts, seconds, l, m, r);
    if Joined(f, g) == [] {
      assert rest + [] == rest;
    } else {
      OneMore(rest, Joined(f, g)[0], left);
    }
  }

  lemma Triangle(left: Words, middle: Words, right: Words)
    ensures Distance(left, right) <= Distance(left, middle) + Distance(middle, right)
  {
    var first := Achieved(left, middle);
    var second := Achieved(middle, right);
    ComposedTurns(first, second, left, middle, right);
    LowerBound(Composed(first, second), left, right);
  }

  lemma {:induction false} Bounds(left: Words, right: Words)
    ensures |left| - |right| <= Distance(left, right) && |right| - |left| <= Distance(left, right)
    ensures Distance(left, right) <= |left| || Distance(left, right) <= |right|
    decreases |left| + |right|
  {
    if left != [] && right != [] {
      Bounds(left, Init(right));
      Bounds(Init(left), right);
      Bounds(Init(left), Init(right));
    }
  }

  // --- the loop ---------------------------------------------------------------------

  // Distance between the first i words of one and the first j of the other.
  function Cell(left: Words, right: Words, i: nat, j: nat): int
    requires i <= |left| && j <= |right|
  {
    Distance(left[..i], right[..j])
  }

  // The rows after k words of `left`: distances to the first j words of `right`.
  ghost predicate IsRow(row: seq<int>, left: Words, right: Words, k: nat, upTo: nat) {
    && |row| == upTo + 1 && k <= |left| && upTo <= |right|
    && forall j :: 0 <= j <= upTo ==> row[j] == Cell(left, right, k, j)
  }

  lemma FirstRow(left: Words, right: Words)
    ensures IsRow(seq(|right| + 1, j => j), left, right, 0, |right|)
  {
  }

  lemma FirstCell(left: Words, right: Words, i: nat)
    requires i <= |left|
    ensures IsRow([i as int], left, right, i, 0)
  {
  }

  lemma CellFromNeighbours(left: Words, right: Words, i: nat, j: nat)
    requires 0 < i <= |left| && 0 < j <= |right|
    ensures Cell(left, right, i, j) ==
            Least(Cell(left, right, i, j - 1) + 1, Cell(left, right, i - 1, j) + 1,
                  Cell(left, right, i - 1, j - 1) + Differ(left[i - 1], right[j - 1]))
  {
    assert Init(left[..i]) == left[..i - 1] && Init(right[..j]) == right[..j - 1];
    hide Least;
  }

  lemma NextCell(left: Words, right: Words, i: nat, j: nat, previous: seq<int>, current: seq<int>)
    requires 0 < i <= |left| && 0 < j <= |right|
    requires IsRow(previous, left, right, i - 1, |right|) && IsRow(current, left, right, i, j - 1)
    ensures IsRow(current + [Least(current[j - 1] + 1, previous[j] + 1,
                                   previous[j - 1] + Differ(left[i - 1], right[j - 1]))], left, right, i, j)
  {
    hide Cell, Least, Differ;
    CellFromNeighbours(left, right, i, j);
  }

  lemma LastCell(left: Words, right: Words, row: seq<int>)
    requires IsRow(row, left, right, |left|, |right|)
    ensures IsDistance(row[|right|], left, right)
  {
    assert left[..|left|] == left && right[..|right|] == right;
    RecurrenceIsTheDistance(left, right, row[|right|]);
  }

  /** The edits per expected word; with nothing expected, whether anything was heard. */
  method WordErrorRate(left: Words, right: Words) returns (rate: real)
    ensures left == [] ==> rate == if right == [] then 0.0 else 1.0
    ensures left != [] ==> exists d: int :: IsDistance(d, left, right) && rate == d as real / |left| as real
  {
    if |left| == 0 {
      return if |right| == 0 then 0.0 else 1.0;
    }
    var previous := seq(|right| + 1, j => j);
    FirstRow(left, right);
    hide IsRow, IsDistance, Least;
    for i := 1 to |left| + 1
      invariant |previous| == |right| + 1 && IsRow(previous, left, right, i - 1, |right|)
    {
      var current := [i];
      FirstCell(left, right, i);
      for j := 1 to |right| + 1
        invariant |current| == j && IsRow(current, left, right, i, j - 1)
      {
        NextCell(left, right, i, j, previous, current);
        current := current + [Least(current[|current| - 1] + 1, previous[j] + 1,
                                    previous[j - 1] + Differ(left[i - 1], right[j - 1]))];
      }
      previous := current;
    }
    LastCell(left, right, previous);
    rate := previous[|previous| - 1] as real / |left| as real;
  }

  /** The distance is a metric between the difference of the lengths and the longer one. */
  lemma DistanceIsAMetric(left: Words, middle: Words, right: Words, a: int, b: int, c: int)
    requires IsDistance(a, left, middle) && IsDistance(b, middle, right) && IsDistance(c, left, right)
    ensures c == 0 <==> left == right
    ensures IsDistance(c, right, left)
    ensures c <= a + b
    ensures |left| - |right| <= c && |right| - |left| <= c && (c <= |left| || c <= |right|)
  {
    RecurrenceIsTheDistance(left, middle, a);
    RecurrenceIsTheDistance(middle, right, b);
    RecurrenceIsTheDistance(left, right, c);
    hide IsDistance, Distance;
    ZeroExactlyWhenEqual(left, right);
    Symmetric(left, right);
    RecurrenceIsTheDistance(right, left, c);
    Triangle(left, middle, right);
    Bounds(left, right);
  }
}
