/** Byte ranges: `_byte_range` in server/server.py against what a Range header asks
    for (RFC 9110, sections 14.1.2, 14.2 and 15.5.17). */
module RangeHeader {
  import opened Numerals
  import opened Wrappers

  // --- the header ------------------------------------------------------------------------

  function IndexOf(s: string, c: char): (i: nat)
    ensures i <= |s| && (i < |s| ==> s[i] == c) && forall j :: 0 <= j < i ==> s[j] != c
  {
    if s == "" || s[0] == c then 0 else 1 + IndexOf(s[1..], c)
  }

  predicate Space(c: char) { c == ' ' || c == '\t' }

  function Lstrip(s: string): string { if s != "" && Space(s[0]) then Lstrip(s[1..]) else s }

  function Rstrip(s: string): string { if s != "" && Space(s[|s| - 1]) then Rstrip(s[..|s| - 1]) else s }

  // One side of the dash: at most 4000 digits, with blanks around them.
  function Side(s: string): (side: Option<string>)
    ensures side.Some? ==> Digits(side.value)
  {
    var inner := Rstrip(Lstrip(s));
    if Digits(inner) && |inner| <= 4000 then Some(inner) else None
  }

  // What a spec asks for.
  datatype Spec = Malformed | Between(lo: nat, hi: nat) | From(lo: nat) | Suffix(n: nat)

  const UNIT := "bytes="

  // A Range header read by its first range.
  function SpecOf(header: string): Spec {
    if UNIT <= header then SpecOfRange(First(header[|UNIT|..])) else Malformed
  }

  function First(ranges: string): string { ranges[..IndexOf(ranges, ',')] }

  function SpecOfRange(first: string): Spec {
    var dash := IndexOf(first, '-');
    if dash == |first| then Malformed else SpecOfSides(Side(first[..dash]), Side(first[dash + 1..]))
  }

  function SpecOfSides(lo: Option<string>, hi: Option<string>): Spec
    requires (lo.Some? ==> Digits(lo.value)) && (hi.Some? ==> Digits(hi.value))
  {
    if lo.None? || hi.None? || (lo.value == "" && hi.value == "") then Malformed
    else if lo.value == "" then Suffix(Value(hi.value))
    else if hi.value == "" then From(Value(lo.value))
    else Between(Value(lo.value), Value(hi.value))
  }

  // --- what is served -----------------------------------------------------------------------

  datatype Served = Full | Partial(start: int, end: int) | Unsatisfiable

  function ByteRange(header: string, total: nat): (served: Served)
    ensures served.Partial? ==> 0 <= served.start <= served.end < total
  {
    match SpecOf(header)
    case Malformed => Full
    case Suffix(n) =>
      if n == 0 || total == 0 then Unsatisfiable else Partial(if total < n then 0 else total - n, total - 1)
    case Between(lo, hi) =>
      if hi < lo then Full
      else if lo >= total then Unsatisfiable
      else Partial(lo, if hi < total - 1 then hi else total - 1)
    case From(lo) => if lo >= total then Unsatisfiable else Partial(lo, total - 1)
  }

  // The bytes a spec names in a representation of `total` bytes.
  predicate Asks(spec: Spec, total: nat, p: int) {
    0 <= p < total &&
    match spec
    case Malformed => false
    case Between(lo, hi) => lo <= p <= hi
    case From(lo) => lo <= p
    case Suffix(n) => p >= total - n
  }

  // To be ignored: not a range of bytes, or one that ends before it starts.
  predicate Usable(spec: Spec) { !spec.Malformed? && (spec.Between? ==> spec.lo <= spec.hi) }

  /** An unusable header serves the whole; otherwise exactly the bytes asked for are
      served, and the range is refused exactly when there are none. */
  lemma ServedIsWhatIsAsked(header: string, total: nat)
    ensures var spec, served := SpecOf(header), ByteRange(header, total);
            && (served.Full? <==> !Usable(spec))
            && (served.Partial? ==> 0 <= served.start <= served.end < total
                                    && forall p :: Asks(spec, total, p) <==> served.start <= p <= served.end)
            && (served.Unsatisfiable? ==> forall p :: !Asks(spec, total, p))
            && (Usable(spec) && (exists p :: Asks(spec, total, p)) ==> served.Partial?)
  {
    var spec, served := SpecOf(header), ByteRange(header, total);
    if served.Partial? {
      assert Asks(spec, total, served.start);
    }
  }

  // --- asking for a range ----------------------------------------------------------------------

  function Asking(lo: nat, hi: nat): string { UNIT + (Decimal(lo) + ("-" + Decimal(hi))) }

  lemma {:induction false} NotIn(s: string, c: char, rest: string)
    requires forall i :: 0 <= i < |s| ==> s[i] != c
    ensures IndexOf(s, c) == |s|
    ensures rest != "" && rest[0] == c ==> IndexOf(s + rest, c) == |s|
  {
    if s == "" {
      assert s + rest == rest;
    } else {
      assert (s + rest)[1..] == s[1..] + rest;
      NotIn(s[1..], c, rest);
    }
  }

  lemma PlainSide(s: string)
    requires Digits(s) && |s| <= 4000
    ensures Side(s) == Some(s)
  {
    if s != "" {
      assert !Space(s[0]) && !Space(s[|s| - 1]);
    }
  }

  lemma {:induction false} LongerIsMore(a: nat, b: nat)
    requires a <= b
    ensures |Decimal(a)| <= |Decimal(b)|
    decreases b
  {
    if b >= 10 {
      LongerIsMore(a / 10, b / 10);
    }
  }

  lemma OneRange(ranges: string)
    requires ',' !in ranges
    ensures First(ranges) == ranges
  {
    NotIn(ranges, ',', "");
  }

  lemma TwoSides(a: string, b: string)
    requires Digits(a) && Digits(b) && |a| <= 4000 && |b| <= 4000
    ensures SpecOfRange(a + ("-" + b)) == SpecOfSides(Some(a), Some(b))
  {
    NotIn(a, '-', "-" + b);
    PlainSide(a);
    PlainSide(b);
    hide Side, Digits;
    var first := a + ("-" + b);
    assert first[..|a|] == a && first[|a| + 1..] == b;
  }

  lemma AfterUnit(rest: string)
    ensures SpecOf(UNIT + rest) == SpecOfRange(First(rest))
  {
    assert (UNIT + rest)[|UNIT|..] == rest && UNIT <= UNIT + rest;
  }

  lemma NoComma(a: string, b: string)
    requires Digits(a) && Digits(b)
    ensures ',' !in a + ("-" + b)
  {
  }

  /** A range written out is read back as it was meant. */
  lemma AskedIsRead(lo: nat, hi: nat)
    requires |Decimal(lo)| <= 4000 && |Decimal(hi)| <= 4000
    ensures SpecOf(Asking(lo, hi)) == Between(lo, hi)
  {
    var a, b := Decimal(lo), Decimal(hi);
    TwoSides(a, b);
    NoComma(a, b);
    OneRange(a + ("-" + b));
    AfterUnit(a + ("-" + b));
    hide SpecOf, SpecOfRange, First, Digits;
  }
}
