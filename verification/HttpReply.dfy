/** A reply as a sequence of buffers, and as the text they spell. */
module HttpReply {
  import opened Wrappers
  import opened RequestParser

  /** `burst` is the burst size of the token bucket the reply is sent through, if there is one. */
  datatype Reply = Reply(status: string, headers: seq<Header>, content: string, bytesSent: nat, burst: Option<nat>)

  const RESET := Reply("HTTP/1.1 200 OK\r\n", [], "", 0, None)
  const CLOSE := Header("Connection", "close")

  const BAD_REQUEST :=
    Reply("HTTP/1.1 400 Bad Request\r\n",
      [Header("Content-Length", "89"), Header("Content-Type", "text/html"), CLOSE],
      "<html><head><title>Bad Request</title></head><body><h1>400 Bad Request</h1></body></html>", 0, None)

  /** The stock reply states its length. */
  lemma BadRequestLength()
    ensures |BAD_REQUEST.content| == 89 && BAD_REQUEST.headers[0] == Header("Content-Length", "89")
  {
  }

  function HeaderText(r: Reply): string { r.status + Lines(r.headers) + "\r\n" }
  function Whole(r: Reply): string { HeaderText(r) + r.content }

  function Flat(buffers: seq<string>): string {
    if buffers == [] then "" else Flat(buffers[..|buffers| - 1]) + buffers[|buffers| - 1]
  }

  lemma FlatAppend(buffers: seq<string>, b: string)
    ensures Flat(buffers + [b]) == Flat(buffers) + b
  {
    assert (buffers + [b])[..|buffers|] == buffers;
  }

  lemma FlatLine(buffers: seq<string>, h: Header)
    ensures Flat(buffers + [h.name] + [": "] + [h.value] + ["\r\n"]) == Flat(buffers) + Line(h)
  {
    FlatAppend(buffers, h.name);
    FlatAppend(buffers + [h.name], ": ");
    FlatAppend(buffers + [h.name] + [": "], h.value);
    FlatAppend(buffers + [h.name] + [": "] + [h.value], "\r\n");
  }

  /** The buffers of the head of a reply, gathered into one write, spell out the head. */
  method HeaderBuffers(r: Reply) returns (buffers: seq<string>)
    ensures Flat(buffers) == HeaderText(r)
  {
    hide Flat;
    FlatAppend([], r.status);
    buffers := [] + [r.status];
    assert Flat([]) + r.status == r.status + Lines(r.headers[..0]) by { FlatEmpty(); }
    for i := 0 to |r.headers|
      invariant Flat(buffers) == r.status + Lines(r.headers[..i])
    {
      var h := r.headers[i];
      FlatLine(buffers, h);
      assert r.headers[..i + 1][..i] == r.headers[..i];
      buffers := buffers + [h.name] + [": "] + [h.value] + ["\r\n"];
    }
    assert r.headers[..|r.headers|] == r.headers;
    FlatAppend(buffers, "\r\n");
    buffers := buffers + ["\r\n"];
  }

  lemma FlatEmpty()
    ensures Flat([]) == ""
  {
  }

  method ToBuffers(r: Reply) returns (buffers: seq<string>)
    ensures Flat(buffers) == Whole(r)
  {
    buffers := HeaderBuffers(r);
    FlatAppend(buffers, r.content);
    buffers := buffers + [r.content];
  }
}
