/** Sending a file in bounded chunks: `_stream_file` and `_send_ranged_data` in
    server/server.py. */
module FileStream {
  import opened Numerals
  import opened RangeHeader

  type Bytes = seq<int>

  const FILE_CHUNK := 256 * 1024

  // A response as the client sees it; `close` when the connection ends with it.
  datatype Response = Response(status: int, length: nat, range: Served, body: Bytes, close: bool)

  // The in-memory form.
  function RangedData(header: string, data: Bytes): Response {
    match ByteRange(header, |data|)
    case Unsatisfiable => Response(416, 0, Unsatisfiable, [], false)
    case Partial(start, end) =>
      Response(206, end - start + 1, Partial(start, end), data[start..end + 1], false)
    case Full => Response(200, |data|, Full, data, false)
  }

  /** An open file that may be cut short while it is being read. */
  class Source {
    var data: Bytes
    var at: nat

    constructor (data: Bytes)
      ensures this.data == data && at == 0
    {
      this.data := data;
      at := 0;
    }

    method Seek(to: nat)
      modifies this`at
      ensures at == to
    {
      at := to;
    }

    // At most n bytes, none only at the end of what is left of the file.
    method Read(n: nat) returns (chunk: Bytes)
      requires n > 0
      modifies this
      ensures data <= old(data)
      ensures |chunk| <= n && old(at) + |chunk| == at
      ensures chunk != [] ==> at <= |data| && chunk == data[old(at)..at]
      ensures chunk == [] ==> |data| <= at
    {
      var left: int := *;
      if 0 <= left < |data| {
        data := data[..left];
      }
      if at >= |data| {
        return [];
      }
      var k: nat :| 1 <= k <= n && at + k <= |data|;
      chunk := data[at..at + k];
      at := at + k;
    }
  }

  // The loop: at most one chunk is read and written at a time.
  method SendBody(source: Source, start: nat, length: nat) returns (body: Bytes, close: bool)
    requires start + length <= |source.data|
    modifies source
    ensures body <= old(source.data)[start..start + length] && source.data <= old(source.data)
    ensures close <==> |body| < length
    ensures source.data == old(source.data) ==> |body| == length
  {
    ghost var was := source.data;
    body, close := [], false;
    source.Seek(start);
    while |body| < length
      invariant |body| <= length && source.at == start + |body| && source.data <= was
      invariant body == was[start..start + |body|]
      decreases length - |body|
    {
      var chunk := source.Read(if FILE_CHUNK < length - |body| then FILE_CHUNK else length - |body|);
      if chunk == [] {
        close := true;
        break;
      }
      assert chunk == was[start + |body|..start + |body| + |chunk|];
      body := body + chunk;
    }
    assert body == was[start..start + length][..|body|];
  }

  /** What goes out is the in-memory response; if the file was cut short meanwhile, it
      is a beginning of it, and then the connection is closed. */
  method StreamFile(source: Source, header: string) returns (r: Response)
    modifies source
    ensures var whole := RangedData(header, old(source.data));
            && r.status == whole.status && r.length == whole.length && r.range == whole.range
            && r.body <= whole.body
            && (r.close <==> |r.body| < r.length)
            && (source.data == old(source.data) ==> r == whole)
  {
    hide SpecOf;
    var total := |source.data|;
    var served := ByteRange(header, total);
    if served.Unsatisfiable? {
      return Response(416, 0, Unsatisfiable, [], false);
    }
    var start, end := if served.Partial? then served.start else 0, if served.Partial? then served.end else total - 1;
    ghost var whole := RangedData(header, source.data);
    hide ByteRange;
    assert source.data[start..start + (end - start + 1)] == whole.body;
    var body, close := SendBody(source, start, end - start + 1);
    r := Response(if served.Partial? then 206 else 200, end - start + 1, served, body, close);
  }

  // --- a file in pieces -----------------------------------------------------------------------

  // Cuts that rise from one position to another.
  predicate Rising(from: nat, cuts: seq<nat>, to: nat)
    decreases |cuts|
  {
    if cuts == [] then from == to else from < cuts[0] <= to && Rising(cuts[0], cuts[1..], to)
  }

  // From one cut to the next, what each request for the bytes between them brings.
  function Pieces(data: Bytes, from: nat, cuts: seq<nat>): Bytes
    requires Rising(from, cuts, |data|)
    decreases |cuts|
  {
    if cuts == [] then []
    else RangedData(Asking(from, cuts[0] - 1), data).body + Pieces(data, cuts[0], cuts[1..])
  }

  lemma InMemoryPiece(data: Bytes, header: string, from: nat, to: nat)
    requires from < to <= |data| && SpecOf(header) == Between(from, to - 1)
    ensures RangedData(header, data).body == data[from..to]
  {
    hide SpecOf;
    assert ByteRange(header, |data|) == Partial(from, to - 1);
    hide ByteRange;
  }

  lemma Piece(data: Bytes, from: nat, to: nat)
    requires from < to <= |data| && |Decimal(|data|)| <= 4000
    ensures RangedData(Asking(from, to - 1), data).body == data[from..to]
  {
    hide Decimal, Asking, SpecOf, RangedData;
    LongerIsMore(from, |data|);
    LongerIsMore(to - 1, |data|);
    AskedIsRead(from, to - 1);
    InMemoryPiece(data, Asking(from, to - 1), from, to);
  }

  /** Asking for a file range by range, wherever it is cut, brings the file. */
  lemma {:induction false} PiecesMakeTheWhole(data: Bytes, from: nat, cuts: seq<nat>)
    requires Rising(from, cuts, |data|) && from <= |data| && |Decimal(|data|)| <= 4000
    ensures Pieces(data, from, cuts) == data[from..]
    decreases |cuts|
  {
    hide Decimal, Asking, RangedData;
    if cuts != [] {
      Piece(data, from, cuts[0]);
      PiecesMakeTheWhole(data, cuts[0], cuts[1..]);
      assert data[from..] == data[from..cuts[0]] + data[cuts[0]..];
    } else {
      assert data[from..] == [];
    }
  }
}
