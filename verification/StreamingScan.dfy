/** `scanSreaming`: the scan submission that streams the (base64-encoded) source
    archive between a literal envelope head and tail over one HTTP connection in
    fixed-length streaming mode. */
module StreamingScan {
  import opened Wrappers
  import opened Protocol
  import opened Envelope
  import opened Utf8

  /** The outbound side of the connection: the declared Content-Length and the
      bytes written so far. Output is append-only. */
  datatype Connection = Connection(declaredLength: int, sent: seq<byte>)

  /** Appends to the connection. In fixed-length mode the connection refuses to
      carry more bytes than were declared, so a write never overruns the length. */
  function Write(conn: Connection, bytes: seq<byte>): (next: Connection)
    requires |conn.sent| + |bytes| <= conn.declaredLength
    ensures next.declaredLength == conn.declaredLength
    ensures conn.sent <= next.sent && next.sent[|conn.sent|..] == bytes
    ensures |next.sent| <= next.declaredLength
  {
    conn.(sent := conn.sent + bytes)
  }

  /** The first `k` bytes of `s`, or all of them when `s` is shorter. */
  function Prefix(s: seq<byte>, k: int): (p: seq<byte>)
    ensures p <= s
    ensures |p| == if k <= 0 then 0 else if k <= |s| then k else |s|
  {
    if k <= 0 then [] else if k <= |s| then s[..k] else s
  }

  /** A prefix of a concatenation is a prefix of the first part followed by a prefix
      of the second: what a breaking connection carries does not depend on how the
      output was split into writes. */
  lemma PrefixAppend(a: seq<byte>, b: seq<byte>, k: int)
    ensures Prefix(a + b, k) == Prefix(a, k) + Prefix(b, k - |Prefix(a, k)|)
  {
    if k > |a| + |b| {
      assert Prefix(b, k - |a|) == b;
    } else if k > |a| {
      assert (a + b)[..k] == a + b[..k - |a|];
    } else if k > 0 {
      assert (a + b)[..k] == a[..k];
    }
  }

  /** Writes to a connection that breaks once `limit` bytes have gone through: only
      the part of `bytes` before the break reaches the server. */
  function Transmit(conn: Connection, bytes: seq<byte>, limit: int): (next: Connection)
    requires |conn.sent| + |bytes| <= conn.declaredLength
    ensures next.declaredLength == conn.declaredLength
    ensures conn.sent <= next.sent && |next.sent| <= |conn.sent| + |bytes|
    ensures |next.sent| <= limit || next == conn
  {
    Write(conn, Prefix(bytes, limit - |conn.sent|))
  }

  /** Sending the next buffer of the blob extends what went through by that buffer,
      up to the break. */
  lemma TransmitChunk(conn: Connection, head: seq<byte>, blob: seq<byte>, copied: nat, next: nat, limit: int)
    requires copied <= next <= |blob|
    requires conn.sent == Prefix(head + blob[..copied], limit)
    requires |conn.sent| + (next - copied) <= conn.declaredLength
    ensures Transmit(conn, blob[copied..next], limit).sent == Prefix(head + blob[..next], limit)
  {
    assert head + blob[..next] == (head + blob[..copied]) + blob[copied..next];
    TransmitExtends(conn, head + blob[..copied], blob[copied..next], limit);
  }

  /** The largest length that survives the `(int)` narrowing of the declared length. */
  const MaxInt32 := 0x7FFF_FFFF

  /** One write to a breaking connection that has so far carried the prefix of `x`
      before the break: afterwards it has carried that prefix of `x + bytes`. */
  lemma TransmitExtends(conn: Connection, x: seq<byte>, bytes: seq<byte>, limit: int)
    requires conn.sent == Prefix(x, limit)
    requires |conn.sent| + |bytes| <= conn.declaredLength
    ensures Transmit(conn, bytes, limit).sent == Prefix(x + bytes, limit)
  {
    PrefixAppend(x, bytes, limit);
  }

  /** The bytes a server receives for a streamed submission. */
  function Message(session: Option<string>, args: ScanArgs, blob: seq<byte>): seq<byte> {
    Encode(Head(session, args)) + blob + Encode(Tail(args))
  }

  /** Opens a connection declaring the exact length of `head`, `blob` and `tail`,
      then writes the head, the blob in buffers of `chunkSize` bytes, and the tail.
      The connection breaks after `limit` bytes; a limit at or past the total lets
      everything through. */
  method SendFramed(head: seq<byte>, blob: seq<byte>, tail: seq<byte>, chunkSize: nat, limit: int)
    returns (conn: Connection)
    requires chunkSize > 0
    ensures conn.declaredLength == |head| + |tail| + |blob|
    ensures conn.sent == Prefix(head + blob + tail, limit)
  {
    var length := |head| + |tail| + |blob|;
    TransmitExtends(Connection(length, []), [], head, limit);
    conn := Transmit(Connection(length, []), head, limit);
    assert [] + head == head;
    var copied := 0;
    while copied < |blob|
      invariant 0 <= copied <= |blob|
      invariant conn.declaredLength == length
      invariant conn.sent == Prefix(head + blob[..copied], limit)
      invariant |conn.sent| <= |head| + copied
      decreases |blob| - copied
    {
      var next := if |blob| - copied < chunkSize then |blob| else copied + chunkSize;
      TransmitChunk(conn, head, blob, copied, next, limit);
      conn := Transmit(conn, blob[copied..next], limit);
      copied := next;
    }
    assert head + blob[..copied] == head + blob;
    TransmitExtends(conn, head + blob, tail, limit);
    conn := Transmit(conn, tail, limit);
  }

  /** Where one of the exceptions the method catches (I/O, JAXB, SOAP or XML stream)
      breaks off a streamed submission; the method then returns `null`. */
  datatype Failure =
      /** Creating the JAXB context and the SOAP message, or opening and connecting
          the connection: nothing is sent. */
    | BeforeConnecting
      /** Opening the archive file, copying it, writing the tail or closing: the
          server received the first `sent` bytes of the message. */
    | WhileSending(sent: nat)
      /** Reading and unmarshalling the response: the whole message went out. */
    | WhileReading

  /** Sends `head`, `blob` and `tail` as one fixed-length request and reads the
      reply, unless `failure` breaks the exchange off first. */
  method Submit(head: seq<byte>, blob: seq<byte>, tail: seq<byte>, chunkSize: nat,
                failure: Option<Failure>, reply: Response<RunId>)
    returns (conn: Option<Connection>, result: Option<Response<RunId>>)
    requires chunkSize > 0
    ensures result.Some? <==> failure.None?
    ensures result.Some? ==> result.value == reply
    ensures conn.None? <==> failure == Some(BeforeConnecting)
    ensures conn.Some? ==> conn.value.declaredLength == |head + blob + tail|
    ensures conn.Some? ==> conn.value.sent <= head + blob + tail
    ensures conn.Some? && failure.Some? && failure.value.WhileSending? ==>
              |conn.value.sent| == if failure.value.sent < conn.value.declaredLength then failure.value.sent
                                   else conn.value.declaredLength
    ensures conn.Some? && !(failure.Some? && failure.value.WhileSending?) ==>
              conn.value.sent == head + blob + tail && |conn.value.sent| == conn.value.declaredLength
  {
    if failure == Some(BeforeConnecting) {
      return None, None;
    }
    var limit := if failure.Some? && failure.value.WhileSending? then failure.value.sent
                 else |head| + |blob| + |tail|;
    var c := SendFramed(head, blob, tail, chunkSize, limit);
    conn := Some(c);
    result := if failure.None? then Some(reply) else None;
  }

  /** The streamed submission. `failure` says whether and where an exception broke
      it off; `reply` is the decoded scan result the server returns otherwise, which
      is handed back without consulting its success flag. */
  method StreamScan(session: Option<string>, args: ScanArgs, blob: seq<byte>, chunkSize: nat,
                    failure: Option<Failure>, reply: Response<RunId>)
    returns (conn: Option<Connection>, result: Option<Response<RunId>>)
    requires chunkSize > 0
    requires |Message(session, args, blob)| <= MaxInt32
    ensures result.Some? <==> failure.None?
    ensures result.Some? ==> result.value == reply
    ensures conn.None? <==> failure == Some(BeforeConnecting)
    ensures conn.Some? ==> conn.value.declaredLength == |Message(session, args, blob)|
    ensures conn.Some? ==> conn.value.sent <= Message(session, args, blob)
    ensures conn.Some? && failure.Some? && failure.value.WhileSending? ==>
              |conn.value.sent| == if failure.value.sent < conn.value.declaredLength then failure.value.sent
                                   else conn.value.declaredLength
    ensures conn.Some? && !(failure.Some? && failure.value.WhileSending?) ==>
              conn.value.sent == Message(session, args, blob) && |conn.value.sent| == conn.value.declaredLength
  {
    conn, result := Submit(Encode(Head(session, args)), blob, Encode(Tail(args)), chunkSize, failure, reply);
  }

  /** Bytes that are ASCII and never '<', as a base64 encoding is. */
  predicate PlainAscii(blob: seq<byte>) {
    forall i :: 0 <= i < |blob| ==> blob[i] < 0x80 && blob[i] != '<' as int
  }

  function AsText(blob: seq<byte>): (t: string)
    requires PlainAscii(blob)
    ensures |t| == |blob|
    ensures forall i :: 0 <= i < |t| ==> t[i] as int == blob[i]
  {
    seq(|blob|, i requires 0 <= i < |blob| => blob[i] as char)
  }

  /** The receiving end can undo the framing: the bytes decode as UTF-8 to head,
      payload and tail, from which every field and the payload itself are read back. */
  lemma MessageRoundTrip(session: Option<string>, args: ScanArgs, blob: seq<byte>)
    requires PlainFields(session, args)
    requires PlainAscii(blob)
    ensures Decode(Message(session, args, blob)) == Some(Head(session, args) + AsText(blob) + Tail(args))
    ensures Extract(HeadLiterals + TailLiterals, Head(session, args) + AsText(blob) + Tail(args))
         == Some(HeadFields(session, args) + [AsText(blob)] + [args.sourceCodeSettings.sourcePullingAction])
  {
    var head := Head(session, args);
    var text := AsText(blob);
    var tail := Tail(args);
    EncodeAscii(text);
    assert Encode(text) == blob;
    EncodeConcat(head, text);
    EncodeConcat(head + text, tail);
    DecodeEncode(head + text + tail);
    assert MarkupFree(text);
    MessageCarriesEverything(session, args, text);
  }
}
