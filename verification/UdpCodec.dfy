/** HY2 UDP datagrams: the byte format and the two ways to fragment (src/protocol/udp.rs). */
module UdpCodec {
  import opened Seqs
  import opened Varint

  const MAX_ADDRESS_LENGTH: nat := 2048
  const MAX_UDP_SIZE: nat := 4096

  type U16 = x: int | 0 <= x < 0x1_0000
  type U32 = x: int | 0 <= x < 0x1_0000_0000

  /** The library function `String::from_utf8_lossy`, seen as a function on the string's bytes. */
  type Lossy = Bytes -> Bytes

  datatype UdpError =
    | Truncated
    | InvalidDestination(length: nat)
    | PayloadTooLarge
    | InvalidFragment
    | DatagramLimitTooSmall
    | BadVarint(cause: VarintError)

  datatype Message = Message(
    sessionId: U32,
    packetId: U16,
    fragmentId: Byte,
    fragmentCount: Byte,
    destination: Bytes,
    payload: Bytes)

  function Validate(destination: Bytes, payload: Bytes): Option<UdpError> {
    if destination == [] || |destination| > MAX_ADDRESS_LENGTH then Some(InvalidDestination(|destination|))
    else if |payload| > MAX_UDP_SIZE then Some(PayloadTooLarge)
    else None
  }

  /** `UdpMessage::encode`, i.e. `encode_fragment` applied to the message's fields. */
  function Encode(m: Message): Result<Bytes, UdpError> {
    match Validate(m.destination, m.payload)
    case Some(e) => Err(e)
    case None =>
      Ok(BigEndian(m.sessionId, 4) + BigEndian(m.packetId, 2) + [m.fragmentId, m.fragmentCount]
         + Encoding(|m.destination|) + m.destination + m.payload)
  }

  function Decode(input: Bytes, lossy: Lossy): Result<Message, UdpError> {
    if |input| < 9 then Err(Truncated) else
    match Parse(input[8..])
    case Err(e) => Err(BadVarint(e))
    case Ok(Parsed(length, tail)) =>
      if length == 0 || length > MAX_ADDRESS_LENGTH then Err(InvalidDestination(length))
      else if |tail| < length then Err(Truncated)
      else if |tail| - length > MAX_UDP_SIZE then Err(PayloadTooLarge)
      else Ok(Message(Id32(input[0..4]), Id16(input[4..6]), input[6], input[7], lossy(tail[..length]), tail[length..]))
  }

  function Id32(bytes: Bytes): U32
    requires |bytes| == 4
  {
    BigEndianValueBound(bytes);
    Powers();
    BigEndianValue(bytes)
  }

  function Id16(bytes: Bytes): U16
    requires |bytes| == 2
  {
    BigEndianValueBound(bytes);
    Powers();
    BigEndianValue(bytes)
  }

  function HeaderSize(destination: Bytes): nat {
    8 + VarintSize(|destination|) + |destination|
  }

  /** `collect` on an iterator of results: the first error wins. */
  function Collect<T, E>(results: seq<Result<T, E>>): Result<seq<T>, E> {
    if results == [] then Ok([])
    else if results[0].Err? then Err(results[0].error)
    else
      match Collect(results[1..])
      case Err(e) => Err(e)
      case Ok(rest) => Ok([results[0].value] + rest)
  }

  /** The k-th of `count` fragments; ids and counts are cut to a byte as the casts do. */
  function Piece(sessionId: U32, packetId: U16, k: nat, count: nat, destination: Bytes, payload: Bytes): Message {
    Message(sessionId, packetId, k % 256, count % 256, destination, payload)
  }

  /** `UdpMessage::encode_fragments`. */
  function EncodeFragments(sessionId: U32, packetId: U16, destination: Bytes, payload: Bytes, limit: nat)
    : Result<seq<Bytes>, UdpError>
  {
    match Validate(destination, payload)
    case Some(e) => Err(e)
    case None =>
      if limit <= HeaderSize(destination) then Err(DatagramLimitTooSmall) else
      var perFragment := limit - HeaderSize(destination);
      var count := Max(DivCeil(|payload|, perFragment), 1);
      if count > 255 then Err(InvalidFragment)
      else if payload == [] then
        Collect([Encode(Message(sessionId, packetId, 0, 1, destination, payload))])
      else
        var chunks := Chunks(payload, perFragment);
        Collect(seq(|chunks|, k requires 0 <= k < |chunks| =>
          Encode(Piece(sessionId, packetId, k, count, destination, chunks[k]))))
  }

  /** `UdpMessage::fragment`. */
  function Fragment(m: Message, limit: nat): Result<seq<Message>, UdpError> {
    if limit <= HeaderSize(m.destination) then Err(DatagramLimitTooSmall) else
    var perFragment := limit - HeaderSize(m.destination);
    if |m.payload| <= perFragment then Ok([m]) else
    var count := DivCeil(|m.payload|, perFragment);
    if count > 255 then Err(InvalidFragment)
    else
      var chunks := Chunks(m.payload, perFragment);
      Ok(seq(|chunks|, k requires 0 <= k < |chunks| =>
        Piece(m.sessionId, m.packetId, k, count, m.destination, chunks[k])))
  }

  /** Fragmenting first and encoding each piece afterwards. */
  function FragmentThenEncode(m: Message, limit: nat): Result<seq<Bytes>, UdpError> {
    match Fragment(m, limit)
    case Err(e) => Err(e)
    case Ok(pieces) => Collect(seq(|pieces|, k requires 0 <= k < |pieces| => Encode(pieces[k])))
  }

  // ----- the byte format -----

  /** An encoded message split where the decoder looks. */
  lemma EncodedLayout(m: Message)
    requires Validate(m.destination, m.payload).None?
    ensures Encode(m).Ok?
    ensures var b := Encode(m).value;
            && |b| == HeaderSize(m.destination) + |m.payload|
            && b[0..4] == BigEndian(m.sessionId, 4)
            && b[4..6] == BigEndian(m.packetId, 2)
            && b[6] == m.fragmentId && b[7] == m.fragmentCount
            && b[8..] == Encoding(|m.destination|) + (m.destination + m.payload)
  {
    var b := Encode(m).value;
    var head := BigEndian(m.sessionId, 4) + BigEndian(m.packetId, 2) + [m.fragmentId, m.fragmentCount];
    assert b == head + (Encoding(|m.destination|) + (m.destination + m.payload));
  }

  /** Encoding succeeds exactly on valid messages, and decoding gives the message back. */
  lemma DecodeEncode(m: Message, lossy: Lossy)
    requires lossy(m.destination) == m.destination
    ensures Encode(m).Ok? <==> 0 < |m.destination| <= 2048 && |m.payload| <= 4096
    ensures Encode(m).Ok? ==> Decode(Encode(m).value, lossy) == Ok(m)
  {
    if Validate(m.destination, m.payload).None? {
      EncodedLayout(m);
      var tail := m.destination + m.payload;
      ParseEncoding(|m.destination|, tail);
      Powers();
      BigEndianRoundTrip(m.sessionId, 4);
      BigEndianRoundTrip(m.packetId, 2);
      assert tail[..|m.destination|] == m.destination;
      assert tail[|m.destination|..] == m.payload;
    }
  }

  /** The destination bytes of a datagram, before they are turned into a string. */
  function RawDestination(input: Bytes, lossy: Lossy): Bytes
    requires Decode(input, lossy).Ok?
  {
    var p := Parse(input[8..]).value;
    p.rest[..p.value]
  }

  /** The length field of a datagram is in its shortest form. */
  predicate ShortLengthField(input: Bytes, lossy: Lossy)
    requires Decode(input, lossy).Ok?
  {
    var p := Parse(input[8..]).value;
    |input| == 8 + VarintSize(p.value) + |p.rest|
  }

  /**
   * The converse, for every datagram the decoder accepts and any conversion that leaves strings
   * alone. Re-encoding fails exactly when replacement characters made the destination too long or
   * empty; otherwise it decodes to the same message, and reproduces the datagram byte for byte exactly
   * when the destination was a string and its length field was in the shortest form. It never makes
   * a datagram with a string destination longer.
   */
  lemma EncodeDecode(input: Bytes, lossy: Lossy)
    requires Decode(input, lossy).Ok?
    requires var raw := RawDestination(input, lossy); lossy(lossy(raw)) == lossy(raw)
    ensures var m := Decode(input, lossy).value;
            var raw := RawDestination(input, lossy);
            && (Encode(m).Ok? <==> 0 < |lossy(raw)| <= MAX_ADDRESS_LENGTH)
            && (Encode(m).Ok? ==> Decode(Encode(m).value, lossy) == Ok(m))
            && (Encode(m) == Ok(input) <==> lossy(raw) == raw && ShortLengthField(input, lossy))
            && (lossy(raw) == raw ==> Encode(m).Ok? && |Encode(m).value| <= |input|)
  {
    var m := Decode(input, lossy).value;
    DecodedLayout(input, lossy);
    DecodeEncode(m, lossy);
    if Encode(m).Ok? {
      Reproduces(input, lossy);
    }
  }

  lemma Reproduces(input: Bytes, lossy: Lossy)
    requires Decode(input, lossy).Ok? && Encode(Decode(input, lossy).value).Ok?
    ensures var raw := RawDestination(input, lossy);
            var b := Encode(Decode(input, lossy).value).value;
            && (b == input <==> lossy(raw) == raw && ShortLengthField(input, lossy))
            && (lossy(raw) == raw ==> |b| <= |input|)
  {
    var m := Decode(input, lossy).value;
    var raw := RawDestination(input, lossy);
    EncodingIsShortest(input[8..]);
    DecodedLayout(input, lossy);
    EncodedLayout(m);
    var b := Encode(m).value;
    var tail := m.destination + m.payload;
    ParseEncoding(|m.destination|, tail);
    if b == input {
      assert tail[..|m.destination|] == m.destination;
    } else if lossy(raw) == raw && ShortLengthField(input, lossy) {
      SameHeader(b, input);
    }
  }

  /** What a successful decode says about the datagram it read. */
  lemma DecodedLayout(input: Bytes, lossy: Lossy)
    requires Decode(input, lossy).Ok?
    ensures var m := Decode(input, lossy).value;
            var raw := RawDestination(input, lossy);
            && Validate(raw, m.payload).None? && m.destination == lossy(raw)
            && input[0..4] == BigEndian(m.sessionId, 4)
            && input[4..6] == BigEndian(m.packetId, 2)
            && input[6] == m.fragmentId && input[7] == m.fragmentCount
            && Parse(input[8..]).value == Parsed(|raw|, raw + m.payload)
  {
    BigEndianInverse(input[0..4]);
    BigEndianInverse(input[4..6]);
    var p := Parse(input[8..]).value;
    assert p.rest == p.rest[..p.value] + p.rest[p.value..];
  }

  /**
   * The decoder on any input that starts with eight header bytes and a length field in any form:
   * which error, and otherwise which message.
   */
  lemma DecodeForm(sessionId: U32, packetId: U16, fragmentId: Byte, fragmentCount: Byte, length: nat, width: nat,
                   tail: Bytes, lossy: Lossy)
    requires IsWidth(width) && length < 64 * Pow256(width - 1)
    ensures Decode(BigEndian(sessionId, 4) + BigEndian(packetId, 2) + [fragmentId, fragmentCount] + Form(length, width) + tail, lossy)
         == if length == 0 || length > 2048 then Err(InvalidDestination(length))
            else if |tail| < length then Err(Truncated)
            else if |tail| - length > 4096 then Err(PayloadTooLarge)
            else Ok(Message(sessionId, packetId, fragmentId, fragmentCount, lossy(tail[..length]), tail[length..]))
  {
    ParseForm(length, width, tail);
    Powers();
    BigEndianRoundTrip(sessionId, 4);
    BigEndianRoundTrip(packetId, 2);
    HeaderParts(BigEndian(sessionId, 4), BigEndian(packetId, 2), fragmentId, fragmentCount, Form(length, width), tail);
  }

  lemma HeaderParts(a: Bytes, b: Bytes, c: Byte, d: Byte, form: Bytes, tail: Bytes)
    requires |a| == 4 && |b| == 2
    ensures var input := a + b + [c, d] + form + tail;
            && |input| == 8 + |form| + |tail| && input[0..4] == a && input[4..6] == b && input[6] == c && input[7] == d
            && input[8..] == form + tail
  {
  }

  /** Every input is of that kind or too short: fewer than nine bytes, or cut inside its length field. */
  lemma DecodeShort(input: Bytes, lossy: Lossy)
    ensures Decode(input, lossy) == Err(BadVarint(VarintTruncated)) <==>
              |input| >= 9 && |input| - 8 < if input[8] < 64 then 1 else if input[8] < 128 then 2 else if input[8] < 192 then 4 else 8
    ensures |input| < 9 ==> Decode(input, lossy) == Err(Truncated)
  {
  }

  lemma DecodeShape(input: Bytes)
    requires |input| >= 9 && Parse(input[8..]).Ok?
    ensures var p, width := Parse(input[8..]).value, Width(input[8]);
            && IsWidth(width) && p.value < 64 * Pow256(width - 1)
            && input == BigEndian(Id32(input[0..4]), 4) + BigEndian(Id16(input[4..6]), 2) + [input[6], input[7]]
                        + Form(p.value, width) + p.rest
  {
    ParsedIsForm(input[8..]);
    BigEndianInverse(input[0..4]);
    BigEndianInverse(input[4..6]);
    assert input == input[0..4] + input[4..6] + [input[6], input[7]] + input[8..];
  }

  lemma SameHeader(a: Bytes, b: Bytes)
    requires |a| >= 8 && |b| >= 8
    requires a[0..4] == b[0..4] && a[4..6] == b[4..6] && a[6] == b[6] && a[7] == b[7] && a[8..] == b[8..]
    ensures a == b
  {
    assert a == a[0..4] + a[4..6] + [a[6], a[7]] + a[8..];
    assert b == b[0..4] + b[4..6] + [b[6], b[7]] + b[8..];
  }

  // ----- fragmentation -----

  lemma {:induction false} CollectAll<T, E>(results: seq<Result<T, E>>)
    requires forall k :: 0 <= k < |results| ==> results[k].Ok?
    ensures Collect(results).Ok?
    ensures |Collect(results).value| == |results|
    ensures forall k :: 0 <= k < |results| ==> results[k] == Ok(Collect(results).value[k])
  {
    if results != [] {
      CollectAll(results[1..]);
    }
  }

  /** The direct encoder and fragment-then-encode agree, errors included, on every valid whole message. */
  lemma EncodeFragmentsIsFragmentThenEncode(m: Message, limit: nat)
    requires Validate(m.destination, m.payload).None?
    requires m.fragmentId == 0 && m.fragmentCount == 1
    ensures EncodeFragments(m.sessionId, m.packetId, m.destination, m.payload, limit) == FragmentThenEncode(m, limit)
  {
    if limit > HeaderSize(m.destination) {
      var perFragment := limit - HeaderSize(m.destination);
      var chunks := Chunks(m.payload, perFragment);
      ChunkCount(m.payload, perFragment);
      var left := seq(|chunks|, k requires 0 <= k < |chunks| =>
        Encode(Piece(m.sessionId, m.packetId, k, Max(|chunks|, 1), m.destination, chunks[k])));
      if |m.payload| <= perFragment {
        DivCeilSmall(|m.payload|, perFragment);
        var right := [Encode(m)];
        assert Fragment(m, limit).value == [m];
        assert seq(1, k requires 0 <= k < 1 => Encode([m][k])) == right;
        if m.payload != [] {
          assert chunks == [m.payload];
          assert left == right;
        }
      } else {
        if |chunks| <= 255 {
          var pieces := Fragment(m, limit).value;
          assert seq(|pieces|, k requires 0 <= k < |pieces| => Encode(pieces[k])) == left;
        }
      }
    }
  }

  /** The largest payload that `count` fragments can carry, in division-free form. */
  lemma {:induction false} DivCeilAtMost(a: nat, n: nat, count: nat)
    requires n > 0
    ensures DivCeil(a, n) <= count <==> a <= count * n
    decreases count
  {
    if a <= n {
      DivCeilSmall(a, n);
      if count > 0 { MulAtLeast(count, n); }
    } else {
      DivCeilStep(a, n);
      if count > 0 {
        DivCeilAtMost(a - n, n, count - 1);
        assert count * n == (count - 1) * n + n;
      }
    }
  }

  /** A datagram within the limit that decodes to `m`. */
  ghost predicate Carries(datagram: Bytes, limit: nat, m: Message, lossy: Lossy) {
    |datagram| <= limit && Decode(datagram, lossy) == Ok(m)
  }

  /** How a payload is split: an empty payload still travels, as one empty piece. */
  function Pieces(payload: Bytes, room: nat): (r: seq<Bytes>)
    requires room > 0
    ensures r != []
  {
    if payload == [] then [[]] else Chunks(payload, room)
  }

  /** The datagrams of one message: the k-th carries piece k of |datagrams|. */
  ghost predicate AllFragments(datagrams: seq<Bytes>, sessionId: U32, packetId: U16, destination: Bytes,
                               pieces: seq<Bytes>, limit: nat, lossy: Lossy)
  {
    && |datagrams| == |pieces| <= 255
    && forall k :: 0 <= k < |datagrams| ==>
         Carries(datagrams[k], limit, Message(sessionId, packetId, k, |pieces|, destination, pieces[k]), lossy)
  }

  /**
   * What `encode_fragments` produces. It succeeds exactly when the message is valid, the limit
   * leaves room for payload and 255 fragments are enough; then the k-th datagram is within the
   * limit and decodes to the k-th piece, ids running from 0 to count - 1, and the pieces join to
   * the payload.
   */
  lemma {:induction false} EncodeFragmentsCorrect(sessionId: U32, packetId: U16, destination: Bytes, payload: Bytes, limit: nat, lossy: Lossy)
    requires lossy(destination) == destination
    ensures var r := EncodeFragments(sessionId, packetId, destination, payload, limit);
            var room := limit - HeaderSize(destination);
            && (r.Ok? <==> Validate(destination, payload).None? && room > 0 && |payload| <= 255 * room)
            && (r.Ok? ==>
                  && Concat(Pieces(payload, room)) == payload
                  && AllFragments(r.value, sessionId, packetId, destination, Pieces(payload, room), limit, lossy))
  {
    var room := limit - HeaderSize(destination);
    if Validate(destination, payload).None? && room > 0 {
      DivCeilAtMost(|payload|, room, 255);
      PiecesShape(payload, room);
      if |payload| <= 255 * room {
        AllPiecesCarried(sessionId, packetId, destination, payload, room, lossy);
        EncodesPieces(sessionId, packetId, destination, payload, limit);
      }
    }
  }

  lemma EncodesPieces(sessionId: U32, packetId: U16, destination: Bytes, payload: Bytes, limit: nat)
    requires Validate(destination, payload).None? && limit > HeaderSize(destination)
    requires |Pieces(payload, limit - HeaderSize(destination))| <= 255
    ensures EncodeFragments(sessionId, packetId, destination, payload, limit)
         == Collect(EncodedPieces(sessionId, packetId, destination, Pieces(payload, limit - HeaderSize(destination))))
  {
    var pieces := Pieces(payload, limit - HeaderSize(destination));
    PiecesShape(payload, limit - HeaderSize(destination));
    if payload == [] {
      assert EncodedPieces(sessionId, packetId, destination, pieces)
          == [Encode(Message(sessionId, packetId, 0, 1, destination, payload))];
    }
  }

  function EncodedPieces(sessionId: U32, packetId: U16, destination: Bytes, pieces: seq<Bytes>)
    : (r: seq<Result<Bytes, UdpError>>)
    ensures |r| == |pieces|
  {
    seq(|pieces|, k requires 0 <= k < |pieces| => Encode(Piece(sessionId, packetId, k, |pieces|, destination, pieces[k])))
  }

  /** Which error the direct encoder gives, and exactly when. */
  lemma EncodeFragmentsErrors(sessionId: U32, packetId: U16, destination: Bytes, payload: Bytes, limit: nat, lossy: Lossy)
    requires lossy(destination) == destination
    ensures var r := EncodeFragments(sessionId, packetId, destination, payload, limit);
            var room := limit - (8 + VarintSize(|destination|) + |destination|);
            && (r == Err(InvalidDestination(|destination|)) <==> |destination| == 0 || |destination| > 2048)
            && (r == Err(PayloadTooLarge) <==> 0 < |destination| <= 2048 && |payload| > 4096)
            && (r == Err(DatagramLimitTooSmall) <==> 0 < |destination| <= 2048 && |payload| <= 4096 && room <= 0)
            && (r == Err(InvalidFragment) <==>
                  0 < |destination| <= 2048 && |payload| <= 4096 && room > 0 && |payload| > 255 * room)
  {
    EncodeFragmentsCorrect(sessionId, packetId, destination, payload, limit, lossy);
    var room := limit - HeaderSize(destination);
    if Validate(destination, payload).None? && room > 0 {
      DivCeilAtMost(|payload|, room, 255);
    }
  }

  lemma PiecesShape(payload: Bytes, room: nat)
    requires room > 0
    ensures Concat(Pieces(payload, room)) == payload
    ensures |Pieces(payload, room)| == Max(DivCeil(|payload|, room), 1)
    ensures forall k :: 0 <= k < |Pieces(payload, room)| ==> |Pieces(payload, room)[k]| <= room
  {
    if payload == [] {
      DivCeilSmall(0, room);
      assert Concat<Byte>([[]]) == [] + Concat<Byte>([]);
    } else {
      ChunkCount(payload, room);
      ConcatChunks(payload, room);
    }
  }

  lemma PieceCarried(m: Message, limit: nat, lossy: Lossy)
    requires lossy(m.destination) == m.destination
    requires Validate(m.destination, m.payload).None?
    requires HeaderSize(m.destination) + |m.payload| <= limit
    ensures Encode(m).Ok? && Carries(Encode(m).value, limit, m, lossy)
  {
    EncodedLayout(m);
    DecodeEncode(m, lossy);
  }

  /** Up to 255 fragments the byte casts lose nothing. */
  lemma PieceIsExact(sessionId: U32, packetId: U16, k: nat, count: nat, destination: Bytes, payload: Bytes)
    requires k < count <= 255
    ensures Piece(sessionId, packetId, k, count, destination, payload)
         == Message(sessionId, packetId, k, count, destination, payload)
  {
  }

  lemma {:induction false} AllPiecesCarried(sessionId: U32, packetId: U16, destination: Bytes, payload: Bytes, room: nat, lossy: Lossy)
    requires lossy(destination) == destination
    requires Validate(destination, payload).None? && room > 0
    requires |Pieces(payload, room)| <= 255
    ensures var pieces := Pieces(payload, room);
            var r := Collect(EncodedPieces(sessionId, packetId, destination, pieces));
            r.Ok? && AllFragments(r.value, sessionId, packetId, destination, pieces, HeaderSize(destination) + room, lossy)
  {
    var pieces := Pieces(payload, room);
    var encoded := EncodedPieces(sessionId, packetId, destination, pieces);
    var limit := HeaderSize(destination) + room;
    PiecesShape(payload, room);
    forall k | 0 <= k < |pieces|
      ensures encoded[k].Ok?
      ensures Carries(encoded[k].value, limit, Piece(sessionId, packetId, k, |pieces|, destination, pieces[k]), lossy)
    {
      PieceFits(pieces, k);
      PieceCarried(Piece(sessionId, packetId, k, |pieces|, destination, pieces[k]), limit, lossy);
    }
    CollectAll(encoded);
    var r := Collect(encoded).value;
    forall k | 0 <= k < |r|
      ensures Carries(r[k], limit, Message(sessionId, packetId, k, |pieces|, destination, pieces[k]), lossy)
    {
      assert encoded[k] == Ok(r[k]);
      PieceIsExact(sessionId, packetId, k, |pieces|, destination, pieces[k]);
    }
  }

  lemma {:induction false} PieceFits<T>(parts: seq<seq<T>>, k: nat)
    requires k < |parts|
    ensures |parts[k]| <= |Concat(parts)|
  {
    if k > 0 {
      PieceFits(parts[1..], k - 1);
    }
  }
}
