/** Keeping a connection in step with its requests: `parse_request`,
    `_drain_request_body`, `send_response` and `_read_json` in server/server.py
    (RFC 9112, sections 6 and 9.3). Bytes are counted; what they say does not matter. */
module KeepAlive {

  // How a request's body is framed on the wire.
  datatype Framing = NoBody | Length(n: nat) | Chunked(wire: nat)

  // A request as it arrives: the bytes up to the end of its header section, then its body.
  datatype Request = Request(head: nat, framing: Framing)

  predicate WellFormed(r: Request) { r.head > 0 && (r.framing.Chunked? ==> r.framing.wire >= 5) }

  function OnWire(r: Request): nat {
    match r.framing
    case NoBody => 0
    case Length(n) => n
    case Chunked(wire) => wire
  }

  // int(headers.get("Content-Length", "0")), the only framing looked at.
  function Declared(r: Request): nat { if r.framing.Length? then r.framing.n else 0 }

  // Where request k begins.
  function Boundary(requests: seq<Request>, k: nat): nat
    requires k <= |requests|
  {
    if k == 0 then 0 else Boundary(requests, k - 1) + requests[k - 1].head + OnWire(requests[k - 1])
  }

  lemma NextBoundary(requests: seq<Request>, k: nat)
    requires k < |requests|
    ensures Boundary(requests, k + 1) == Boundary(requests, k) + requests[k].head + OnWire(requests[k])
  {
  }

  lemma FirstBoundary(requests: seq<Request>)
    ensures Boundary(requests, 0) == 0
  {
  }

  const DRAIN_LIMIT := 1024 * 1024

  class Connection {
    const avail: nat             // what the client sends before it is done or gone
    var at: nat                  // how much of it has been read
    var closing: bool            // close_connection
    var consumed: bool           // _body_consumed

    constructor (avail: nat)
      ensures this.avail == avail && at == 0 && !closing
    {
      this.avail := avail;
      at, closing, consumed := 0, false, false;
    }

    ghost predicate Valid()
      reads this
    {
      at <= avail
    }

    // n bytes, or what there is before the end.
    method Read(n: nat) returns (got: nat)
      requires Valid()
      modifies this`at
      ensures Valid() && got == (if n <= avail - old(at) then n else avail - old(at)) && at == old(at) + got
    {
      got := if n <= avail - at then n else avail - at;
      at := at + got;
    }

    method ParseRequest(r: Request) returns (ok: bool)
      requires Valid() && WellFormed(r)
      modifies this
      ensures Valid() && !consumed
      ensures ok ==> at == old(at) + r.head && closing == old(closing)
      ensures !ok ==> at == avail && closing
      ensures ok <==> r.head <= avail - old(at)
    {
      consumed := false;
      var got := Read(r.head);
      ok := got == r.head;
      if !ok {
        closing := true;
      }
    }

    // A handler that wants the body.
    method ReadJson(r: Request)
      requires Valid() && !consumed
      modifies this
      ensures Valid() && consumed && closing == old(closing)
      ensures at == old(at) + Declared(r) || at == avail
      ensures old(at) <= at <= old(at) + Declared(r)
    {
      consumed := true;
      if Declared(r) > 0 {
        var got := Read(Declared(r));
      }
    }

    // The loop reads in pieces of 64 KiB.
    method DrainRequestBody(r: Request)
      requires Valid()
      modifies this
      ensures Valid() && consumed && (old(closing) ==> closing)
      ensures old(consumed) ==> at == old(at) && closing == old(closing)
      ensures old(at) <= at <= old(at) + Declared(r)
      ensures !old(consumed) ==> at == old(at) + Declared(r) || at == avail || closing
      ensures Declared(r) == 0 ==> at == old(at) && closing == old(closing)
    {
      if consumed {
        return;
      }
      consumed := true;
      var remaining: nat := Declared(r);
      if remaining == 0 {
        return;
      }
      if remaining > DRAIN_LIMIT {
        closing := true;
        return;
      }
      while remaining > 0
        invariant Valid() && consumed && (old(closing) ==> closing)
        invariant old(at) <= at && at + remaining == old(at) + Declared(r)
      {
        var failed: bool := *;
        if failed {
          closing := true;
          break;
        }
        var got := Read(if remaining < 65536 then remaining else 65536);
        if got == 0 {
          break;
        }
        remaining := remaining - got;
      }
    }

    // One request, by a handler that reads its body or does not, and the response.
    method Handle(r: Request, readsBody: bool) returns (ok: bool)
      requires Valid() && WellFormed(r)
      modifies this
      ensures Valid() && (old(closing) ==> closing)
      ensures !old(closing) && avail > old(at) + r.head ==>
                ((closing || at == avail || at == old(at) + r.head + OnWire(r)) <==> !r.framing.Chunked?)
      ensures avail <= old(at) + r.head ==> at == avail
    {
      ok := ParseRequest(r);
      if !ok {
        return;
      }
      if readsBody {
        ReadJson(r);
      }
      DrainRequestBody(r);
    }

    /** Requests one after another, while the connection lasts. With none of them
        chunked, each is read from where it begins, and each response leaves the
        connection at the start of the next, at the end of the input, or closing. */
    method Serve(requests: seq<Request>, wanted: seq<bool>) returns (starts: seq<nat>)
      requires Valid() && at == 0 && !closing && |wanted| == |requests|
      requires forall k :: 0 <= k < |requests| ==> WellFormed(requests[k]) && !requests[k].framing.Chunked?
      modifies this
      ensures Valid() && |starts| <= |requests|
      ensures forall k :: 0 <= k < |starts| ==> starts[k] == Boundary(requests, k)
      ensures closing || at == avail || (|starts| == |requests| && at == Boundary(requests, |requests|))
    {
      starts := [];
      FirstBoundary(requests);
      hide Boundary, WellFormed, OnWire;
      while |starts| < |requests| && !closing && at < avail
        invariant Valid() && |starts| <= |requests|
        invariant forall k :: 0 <= k < |starts| ==> starts[k] == Boundary(requests, k)
        invariant closing || at == avail || at == Boundary(requests, |starts|)
        decreases |requests| - |starts|
      {
        var k := |starts|;
        NextBoundary(requests, k);
        starts := starts + [at];
        var ok := Handle(requests[k], wanted[k]);
      }
    }
  }
}
