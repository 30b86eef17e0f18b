/** The relay of one HY2 TCP stream to its destination (src/server.rs), for any chunking of the stream. */
module TcpRelay {
  import opened Seqs
  import opened Varint
  import opened UdpCodec
  import opened TcpCodec

  const RELAY_BUFFER_SIZE: nat := 32 * 1024
  const U64: nat := U64_MAX + 1

  datatype RelayError =
    | FinishedEarly
    | StreamReset
    | BadFrame
    | BadAddressLength(length: nat)
    | BadPaddingLength(length: nat)
    | NotUtf8
    | WriteFailed
    | ResponseFailed
    | DownloadFailed
    | Cancelled

  /**
   * A QUIC receive stream: the data arrives in arbitrary non-empty chunks and ends with a clean
   * finish or, when `reset` is set, with an error.
   */
  class RecvStream {
    var chunks: seq<Bytes>
    const reset: bool

    ghost predicate Valid()
      reads this
    {
      forall i :: 0 <= i < |chunks| ==> chunks[i] != []
    }

    /** All bytes that are still to be read. */
    ghost function Pending(): Bytes
      reads this
    {
      Concat(chunks)
    }

    constructor (chunks: seq<Bytes>, reset: bool)
      requires forall i :: 0 <= i < |chunks| ==> chunks[i] != []
      ensures Valid() && Pending() == Concat(chunks) && this.reset == reset
    {
      this.chunks := chunks;
      this.reset := reset;
    }

    /** At most `limit` bytes of the first chunk; an empty result means the stream ended. */
    method ReadUpTo(limit: nat) returns (r: Result<Bytes, RelayError>)
      requires Valid() && limit > 0
      modifies this
      ensures Valid()
      ensures r.Err? ==> r.error == StreamReset && reset && old(Pending()) == [] && Pending() == []
      ensures r.Ok? ==> |r.value| <= limit && r.value + Pending() == old(Pending())
      ensures r.Ok? && r.value == [] ==> old(Pending()) == [] && !reset
    {
      if |chunks| == 0 {
        return if reset then Err(StreamReset) else Ok([]);
      }
      var first := chunks[0];
      assert chunks == [first] + chunks[1..];
      if |first| <= limit {
        chunks := chunks[1..];
        return Ok(first);
      }
      var rest := first[limit..];
      ghost var tail := chunks[1..];
      chunks := [rest] + chunks[1..];
      assert chunks[1..] == tail;
      assert first[..limit] + (rest + Concat(tail)) == (first[..limit] + rest) + Concat(tail);
      assert first[..limit] + rest == first;
      return Ok(first[..limit]);
    }

    /** `read_exact`. */
    method ReadExact(n: nat) returns (r: Result<Bytes, RelayError>)
      requires Valid()
      modifies this
      ensures Valid()
      ensures r.Ok? <==> n <= |old(Pending())|
      ensures r.Ok? ==> r.value == old(Pending())[..n] && Pending() == old(Pending())[n..]
    {
      ghost var all := Pending();
      var data := [];
      while |data| < n
        invariant Valid() && |data| <= n
        invariant data + Pending() == all
        decreases n - |data|
      {
        ghost var before := Pending();
        var more := ReadUpTo(n - |data|);
        if more.Err? {
          return Err(more.error);
        }
        if more.value == [] {
          return Err(FinishedEarly);
        }
        assert (data + more.value) + Pending() == data + (more.value + Pending());
        data := data + more.value;
      }
      assert all[..n] == data && all[n..] == Pending();
      return Ok(data);
    }

    /** `read_varint`: byte-at-a-time reading consumes and returns what the slice decoder does. */
    method ReadVarint() returns (r: Result<nat, RelayError>)
      requires Valid()
      modifies this
      ensures Valid()
      ensures r.Ok? <==> Parse(old(Pending())).Ok?
      ensures r.Ok? ==> Parse(old(Pending())) == Ok(Parsed(r.value, Pending()))
    {
      ghost var all := Pending();
      var first := ReadExact(1);
      if first.Err? {
        return Err(first.error);
      }
      var bytes := first.value;
      var length := Width(bytes[0]);
      if length > 1 {
        var more := ReadExact(length - 1);
        if more.Err? {
          return Err(more.error);
        }
        bytes := bytes + more.value;
      }
      assert bytes == all[..length];
      var parsed := DecodeVarint(bytes);
      assert all[1..length] == bytes[1..length];
      assert Pending() == all[length..];
      return Ok(parsed.value.value);
    }
  }

  /** The destination's write half; it fails once `budget` bytes have been accepted. */
  class Sink {
    var received: Bytes
    var budget: nat

    constructor (budget: nat)
      ensures received == [] && this.budget == budget
    {
      received := [];
      this.budget := budget;
    }

    method WriteAll(data: Bytes) returns (ok: bool)
      modifies this
      ensures ok <==> |data| <= old(budget)
      ensures ok ==> received == old(received) + data && budget == old(budget) - |data|
      ensures !ok ==> received == old(received) + data[..old(budget)] && budget == 0
    {
      ok := |data| <= budget;
      var n := if ok then |data| else budget;
      received := received + data[..n];
      budget := budget - n;
    }
  }

  /** An atomic u64 counter: `value` wraps around, `total` is the sum it stands for. */
  class Counter {
    var value: nat
    ghost var total: nat

    ghost predicate Valid()
      reads this
    {
      value == total % U64
    }

    constructor ()
      ensures Valid() && total == 0
    {
      value, total := 0, 0;
    }

    method Add(n: nat)
      requires Valid()
      modifies this
      ensures Valid() && total == old(total) + n
    {
      AddWrapped(total, n);
      value := (value + n) % U64;
      total := total + n;
    }
  }

  function SaturatingAdd(a: nat, b: nat): nat { if a + b < U64 then a + b else U64 - 1 }

  lemma AddWrapped(a: nat, b: nat)
    ensures (a % U64 + b) % U64 == (a + b) % U64
  {
  }

  /**
   * `copy_with_reused_buffer`: the stale contents of the pooled buffer never reach the writer.
   * `cancelAt` is the turn before which the future is dropped, if it is.
   */
  method CopyWithReusedBuffer(recv: RecvStream, writer: Sink, counter: Counter, buffer: array<Byte>, cancelAt: Option<nat>)
    returns (r: Result<nat, RelayError>)
    requires recv.Valid() && buffer.Length == RELAY_BUFFER_SIZE && counter.Valid()
    modifies recv, writer, counter, buffer
    ensures recv.Valid() && counter.Valid()
    ensures r.Ok? ==> |old(recv.Pending())| <= old(writer.budget) && !recv.reset
    ensures cancelAt.None? && |old(recv.Pending())| <= old(writer.budget) && !recv.reset ==> r.Ok?
    ensures r.Ok? ==> && writer.received == old(writer.received) + old(recv.Pending())
                      && counter.total == old(counter.total) + |old(recv.Pending())|
                      && recv.Pending() == [] && r.value == SaturatingAdd(0, |old(recv.Pending())|)
    ensures old(writer.received) <= writer.received <= old(writer.received) + old(recv.Pending())
    ensures counter.total - old(counter.total) <= |writer.received| - |old(writer.received)|
  {
    ghost var all, before, start := recv.Pending(), writer.received, counter.total;
    ghost var k := 0;
    var copied: nat := 0;
    var turn: nat := 0;
    assert all[..0] == [];
    while true
      invariant recv.Valid() && k <= |all|
      invariant recv.Pending() == all[k..]
      invariant writer.received == before + all[..k]
      invariant writer.budget == old(writer.budget) - k
      invariant counter.Valid() && counter.total == start + k
      invariant copied == SaturatingAdd(0, k)
      decreases |all| - k
    {
      if cancelAt == Some(turn) {
        TakeMore(before, all, k, 0);
        return Err(Cancelled);
      }
      turn := turn + 1;
      var step := CopyOnce(recv, writer, counter, buffer);
      if step.Err? {
        TakeMore(before, all, k, |writer.received| - |before| - k);
        return Err(step.error);
      }
      if step.value == 0 {
        assert all[..k] == all;
        return Ok(copied);
      }
      copied := SaturatingAdd(copied, step.value);
      TakeMore(before, all, k, step.value);
      k := k + step.value;
    }
  }

  lemma TakeMore(before: Bytes, all: Bytes, k: nat, n: nat)
    requires k + n <= |all|
    ensures (before + all[..k]) + all[k..][..n] == before + all[..k + n]
    ensures before <= before + all[..k + n] <= before + all
    ensures all[k..][n..] == all[k + n..]
  {
  }

  /** One turn of the copy loop; the result is the number of bytes moved, zero at the end of the stream. */
  method CopyOnce(recv: RecvStream, writer: Sink, counter: Counter, buffer: array<Byte>) returns (r: Result<nat, RelayError>)
    requires recv.Valid() && counter.Valid() && buffer.Length > 0
    modifies recv, writer, counter, buffer
    ensures recv.Valid() && counter.Valid()
    ensures r.Ok? ==> && r.value <= |old(recv.Pending())| && r.value <= old(writer.budget)
                      && recv.Pending() == old(recv.Pending())[r.value..]
                      && writer.received == old(writer.received) + old(recv.Pending())[..r.value]
                      && writer.budget == old(writer.budget) - r.value
                      && counter.total == old(counter.total) + r.value
    ensures r.Ok? && r.value == 0 ==> old(recv.Pending()) == [] && !recv.reset
    ensures r.Err? ==> && (recv.reset || old(writer.budget) < |old(recv.Pending())|)
                       && counter.total == old(counter.total)
                       && |old(writer.received)| <= |writer.received| <= |old(writer.received)| + |old(recv.Pending())|
                       && writer.received == old(writer.received) + old(recv.Pending())[..|writer.received| - |old(writer.received)|]
  {
    ghost var all := recv.Pending();
    var read := recv.ReadUpTo(buffer.Length);
    if read.Err? {
      return Err(read.error);
    }
    var n := |read.value|;
    assert all[..n] == read.value && all[n..] == recv.Pending();
    if n == 0 {
      return Ok(0);
    }
    var ok := WriteThrough(writer, counter, buffer, read.value);
    if !ok {
      assert read.value[..old(writer.budget)] == all[..old(writer.budget)];
      return Err(WriteFailed);
    }
    return Ok(n);
  }

  /** What `read` does to the buffer: the front is overwritten, the stale rest stays. */
  method Fill(buffer: array<Byte>, data: Bytes)
    requires |data| <= buffer.Length
    modifies buffer
    ensures buffer[..|data|] == data && buffer[|data|..] == old(buffer[|data|..])
  {
    forall i | 0 <= i < |data| {
      buffer[i] := data[i];
    }
  }

  /** Through the buffer into the writer, then onto the counter. */
  method WriteThrough(writer: Sink, counter: Counter, buffer: array<Byte>, data: Bytes) returns (ok: bool)
    requires |data| <= buffer.Length && counter.Valid()
    modifies writer, counter, buffer
    ensures counter.Valid()
    ensures ok <==> |data| <= old(writer.budget)
    ensures ok ==> && writer.received == old(writer.received) + data && writer.budget == old(writer.budget) - |data|
                   && counter.total == old(counter.total) + |data|
    ensures !ok ==> writer.received == old(writer.received) + data[..old(writer.budget)] && counter.total == old(counter.total)
  {
    Fill(buffer, data);
    ok := writer.WriteAll(buffer[..|data|]);
    if ok {
      counter.Add(|data|);
    }
  }

  /** `String::from_utf8` succeeds. */
  type IsUtf8 = Bytes -> bool

  /** `read_tcp_request`: the header, then whatever chunk comes next as early payload. */
  method ReadTcpRequest(recv: RecvStream, isUtf8: IsUtf8) returns (r: Result<Request, RelayError>)
    requires recv.Valid()
    modifies recv
    ensures recv.Valid()
    ensures r.Ok? ==> var h := Header(old(recv.Pending()));
                      h.Ok? && h.value.value == r.value.destination && r.value.payload + recv.Pending() == h.value.rest
                      && isUtf8(r.value.destination) && (recv.reset ==> h.value.rest != [])
    ensures r.Err? ==> var h := Header(old(recv.Pending()));
                       h.Err? || !isUtf8(h.value.value) || (recv.reset && h.value.rest == [])
  {
    ghost var all := recv.Pending();
    var addressLength := recv.ReadVarint();
    if addressLength.Err? {
      return Err(addressLength.error);
    }
    if addressLength.value == 0 || addressLength.value > MAX_ADDRESS_LENGTH {
      return Err(BadAddressLength(addressLength.value));
    }
    var address := recv.ReadExact(addressLength.value);
    if address.Err? {
      return Err(address.error);
    }
    var paddingLength := recv.ReadVarint();
    if paddingLength.Err? {
      return Err(paddingLength.error);
    }
    if paddingLength.value > MAX_PADDING_LENGTH {
      return Err(BadPaddingLength(paddingLength.value));
    }
    var padding := recv.ReadExact(paddingLength.value);
    if padding.Err? {
      return Err(padding.error);
    }
    assert Header(all) == Ok(Piece(address.value, recv.Pending()));
    var payload := ReadChunk(recv);
    if payload.Err? {
      return Err(payload.error);
    }
    if !isUtf8(address.value) {
      return Err(NotUtf8);
    }
    return Ok(Request(address.value, payload.value));
  }

  /** `read_chunk(usize::MAX, true)`, with the end of the stream as an empty payload. */
  method ReadChunk(recv: RecvStream) returns (r: Result<Bytes, RelayError>)
    requires recv.Valid()
    modifies recv
    ensures recv.Valid()
    ensures r.Err? <==> recv.reset && old(recv.Pending()) == []
    ensures r.Ok? ==> r.value + recv.Pending() == old(recv.Pending())
  {
    if |recv.chunks| == 0 {
      return if recv.reset then Err(StreamReset) else Ok([]);
    }
    var first := recv.chunks[0];
    assert recv.Pending() == first + Concat(recv.chunks[1..]);
    recv.chunks := recv.chunks[1..];
    return Ok(first);
  }

  /** Address and padding as the slice decoder reads them, after the frame type. */
  function Header(input: Bytes): Result<Piece, TcpError> {
    match ReadLimited(input, MAX_ADDRESS_LENGTH, Address)
    case Err(e) => Err(e)
    case Ok(Piece(address, afterAddress)) =>
      if address == [] then Err(InvalidLength(Address, 0)) else
      match ReadLimited(afterAddress, MAX_PADDING_LENGTH, Padding)
      case Err(e) => Err(e)
      case Ok(Piece(_, rest)) => Ok(Piece(address, rest))
  }

  /** The request the whole stream carries, payload included. */
  function WholeRequest(input: Bytes): Option<Request> {
    var frame := Parse(input);
    if frame.Err? || frame.value.value != FRAME_TYPE_TCP_REQUEST || Header(frame.value.rest).Err? then None
    else Some(Request(Header(frame.value.rest).value.value, Header(frame.value.rest).value.rest))
  }

  /** Streaming and slice parsing accept the same byte strings and find the same request. */
  lemma StreamAgreesWithSlice(input: Bytes, lossy: Lossy)
    ensures WholeRequest(input).Some? <==> DecodeRequest(input, lossy).Ok?
    ensures WholeRequest(input).Some? ==>
              var w := WholeRequest(input).value;
              DecodeRequest(input, lossy) == Ok(Request(lossy(w.destination), w.payload))
  {
  }

  /** In particular a relayed `TcpRequest::encode` output delivers exactly the encoded payload. */
  lemma WholeOfEncoded(destination: Bytes, padding: Bytes, payload: Bytes)
    requires EncodeRequest(destination, padding, payload).Ok?
    ensures WholeRequest(EncodeRequest(destination, padding, payload).value) == Some(Request(destination, payload))
  {
    DecodeEncodeRequest(destination, padding, payload, Unchanged);
    StreamAgreesWithSlice(EncodeRequest(destination, padding, payload).value, Unchanged);
  }

  function Unchanged(bytes: Bytes): Bytes { bytes }

  /** Refused: the destination could not be connected and the client was told so. */
  datatype Outcome = Relayed | Refused | Broken(error: RelayError)

  /**
   * What the rest of the world does: which destinations connect, whether the response can be
   * written, before which turn of the upload loop the download half fails, if it does (`try_join!`
   * then drops the upload), and whether the destination's write half can be shut down.
   */
  datatype World = World(connects: Bytes -> bool, responds: bool, downloadFails: Option<nat>, shutsDown: bool)

  /**
   * `relay_tcp_stream`, with the bytes of the download half left out. However the stream is cut, a
   * relay that ends without error has sent the destination exactly the payload `TcpRequest::decode`
   * finds in the whole stream, once and in order, and has raised the counter by exactly that many
   * bytes; in every other case it has sent a prefix.
   */
  method RelayTcpStream(recv: RecvStream, upstream: Sink, counter: Counter, buffer: array<Byte>, world: World, isUtf8: IsUtf8)
    returns (r: Outcome)
    requires recv.Valid() && buffer.Length == RELAY_BUFFER_SIZE && counter.Valid()
    modifies recv, upstream, counter, buffer
    ensures counter.Valid()
    ensures var whole := WholeRequest(old(recv.Pending()));
            r == Relayed <==> && whole.Some? && isUtf8(whole.value.destination) && world.connects(whole.value.destination)
                              && world.responds && world.downloadFails.None? && world.shutsDown
                              && !recv.reset && |whole.value.payload| <= old(upstream.budget)
    ensures var whole := WholeRequest(old(recv.Pending()));
            r == Relayed ==> && upstream.received == old(upstream.received) + whole.value.payload
                             && counter.total == old(counter.total) + |whole.value.payload|
    ensures var whole := WholeRequest(old(recv.Pending()));
            r == Refused <==> && whole.Some? && isUtf8(whole.value.destination)
                              && !world.connects(whole.value.destination) && world.responds
                              && !(recv.reset && whole.value.payload == [])
    ensures counter.total - old(counter.total) <= |upstream.received| - |old(upstream.received)|
    ensures var whole := WholeRequest(old(recv.Pending()));
            if whole.None? || !isUtf8(whole.value.destination) || !world.connects(whole.value.destination) || !world.responds
            then upstream.received == old(upstream.received) && counter.total == old(counter.total)
            else old(upstream.received) <= upstream.received <= old(upstream.received) + whole.value.payload
  {
    var request := ReadRequest(recv, isUtf8);
    if request.Err? {
      return Broken(request.error);
    }
    if !world.responds {
      return Broken(ResponseFailed);
    }
    if !world.connects(request.value.destination) {
      return Refused;
    }
    r := RelayBody(recv, upstream, counter, buffer, request.value.payload, world);
  }

  /** Frame type and request. */
  method ReadRequest(recv: RecvStream, isUtf8: IsUtf8) returns (r: Result<Request, RelayError>)
    requires recv.Valid()
    modifies recv
    ensures recv.Valid()
    ensures r.Ok? ==> && isUtf8(r.value.destination)
                      && WholeRequest(old(recv.Pending())) == Some(Request(r.value.destination, r.value.payload + recv.Pending()))
                      && !(recv.reset && r.value.payload + recv.Pending() == [])
    ensures r.Err? ==> var whole := WholeRequest(old(recv.Pending()));
                       whole.None? || !isUtf8(whole.value.destination) || (recv.reset && whole.value.payload == [])
  {
    var frameType := recv.ReadVarint();
    if frameType.Err? {
      return Err(frameType.error);
    }
    if frameType.value != FRAME_TYPE_TCP_REQUEST {
      return Err(BadFrame);
    }
    r := ReadTcpRequest(recv, isUtf8);
  }

  /** The early payload, then everything else the client sends. */
  method RelayBody(recv: RecvStream, upstream: Sink, counter: Counter, buffer: array<Byte>, early: Bytes, world: World)
    returns (r: Outcome)
    requires recv.Valid() && buffer.Length == RELAY_BUFFER_SIZE && counter.Valid()
    modifies recv, upstream, counter, buffer
    ensures counter.Valid()
    ensures var body := early + old(recv.Pending());
            && (r == Relayed <==>
                  world.downloadFails.None? && world.shutsDown && !recv.reset && |body| <= old(upstream.budget))
            && (r == Relayed ==> && upstream.received == old(upstream.received) + body
                                 && counter.total == old(counter.total) + |body|)
            && old(upstream.received) <= upstream.received <= old(upstream.received) + body
            && counter.total - old(counter.total) <= |upstream.received| - |old(upstream.received)|
            && r != Refused
  {
    ghost var before, rest := upstream.received, recv.Pending();
    var ok := upstream.WriteAll(early);
    assert before + (early + rest) == (before + early) + rest;
    if !ok {
      assert early[..old(upstream.budget)] <= early;
      return Broken(WriteFailed);
    }
    counter.Add(|early|);
    var copied := CopyWithReusedBuffer(recv, upstream, counter, buffer, world.downloadFails);
    if copied.Err? {
      return Broken(copied.error);
    }
    if !world.shutsDown {
      return Broken(WriteFailed);
    }
    if world.downloadFails.Some? {
      return Broken(DownloadFailed);
    }
    return Relayed;
  }
}
