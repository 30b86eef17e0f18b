/** HY2 TCP requests as whole byte slices (src/protocol/tcp.rs). */
module TcpCodec {
  import opened Seqs
  import opened Varint
  import opened UdpCodec

  const MAX_PADDING_LENGTH: nat := 4096
  const FRAME_TYPE_TCP_REQUEST: nat := 0x401

  datatype Field = Address | Padding

  datatype TcpError =
    | InvalidFrameType(frameType: nat)
    | InvalidLength(field: Field, length: nat)
    | TcpTruncated
    | TcpVarint(cause: VarintError)

  datatype Request = Request(destination: Bytes, payload: Bytes)

  datatype Piece = Piece(value: Bytes, rest: Bytes)

  /** `read_limited`: a length-prefixed field and what follows it. */
  function ReadLimited(input: Bytes, maximum: nat, field: Field): Result<Piece, TcpError> {
    match Parse(input)
    case Err(e) => Err(TcpVarint(e))
    case Ok(Parsed(length, rest)) =>
      if length > maximum then Err(InvalidLength(field, length))
      else if |rest| < length then Err(TcpTruncated)
      else Ok(Piece(rest[..length], rest[length..]))
  }

  /** `TcpRequest::decode`; the payload is everything after the padding. */
  function DecodeRequest(input: Bytes, lossy: Lossy): Result<Request, TcpError> {
    match Parse(input)
    case Err(e) => Err(TcpVarint(e))
    case Ok(Parsed(frameType, afterType)) =>
      if frameType != FRAME_TYPE_TCP_REQUEST then Err(InvalidFrameType(frameType)) else
      match ReadLimited(afterType, MAX_ADDRESS_LENGTH, Address)
      case Err(e) => Err(e)
      case Ok(Piece(address, afterAddress)) =>
        if address == [] then Err(InvalidLength(Address, 0)) else
        match ReadLimited(afterAddress, MAX_PADDING_LENGTH, Padding)
        case Err(e) => Err(e)
        case Ok(Piece(_, payload)) => Ok(Request(lossy(address), payload))
  }

  /** `write_bytes`. */
  function Prefixed(bytes: Bytes): Bytes
    requires |bytes| < VARINT_LIMIT
  {
    Encoding(|bytes|) + bytes
  }

  function EncodeRequest(destination: Bytes, padding: Bytes, payload: Bytes): Result<Bytes, TcpError> {
    if |destination| > MAX_ADDRESS_LENGTH then Err(InvalidLength(Address, |destination|))
    else if destination == [] then Err(InvalidLength(Address, 0))
    else if |padding| > MAX_PADDING_LENGTH then Err(InvalidLength(Padding, |padding|))
    else Ok(Encoding(FRAME_TYPE_TCP_REQUEST) + Prefixed(destination) + Prefixed(padding) + payload)
  }

  lemma ReadPrefixed(bytes: Bytes, rest: Bytes, maximum: nat, field: Field)
    requires |bytes| <= maximum < VARINT_LIMIT
    ensures ReadLimited(Prefixed(bytes) + rest, maximum, field) == Ok(Piece(bytes, rest))
  {
    assert Prefixed(bytes) + rest == Encoding(|bytes|) + (bytes + rest);
    ParseEncoding(|bytes|, bytes + rest);
    assert (bytes + rest)[..|bytes|] == bytes && (bytes + rest)[|bytes|..] == rest;
  }

  /** Decoding an encoded request gives destination and payload back, whatever the padding. */
  lemma DecodeEncodeRequest(destination: Bytes, padding: Bytes, payload: Bytes, lossy: Lossy)
    requires lossy(destination) == destination
    ensures EncodeRequest(destination, padding, payload).Ok?
       <==> 0 < |destination| <= 2048 && |padding| <= 4096
    ensures EncodeRequest(destination, padding, payload).Ok? ==>
              DecodeRequest(EncodeRequest(destination, padding, payload).value, lossy) == Ok(Request(destination, payload))
  {
    var r := EncodeRequest(destination, padding, payload);
    if r.Ok? {
      var afterAddress := Prefixed(padding) + payload;
      var afterType := Prefixed(destination) + afterAddress;
      assert r.value == Encoding(FRAME_TYPE_TCP_REQUEST) + afterType;
      ParseEncoding(FRAME_TYPE_TCP_REQUEST, afterType);
      ReadPrefixed(destination, afterAddress, MAX_ADDRESS_LENGTH, Address);
      ReadPrefixed(padding, payload, MAX_PADDING_LENGTH, Padding);
    }
  }

  /** A length-prefixed field in any form. */
  lemma ReadForm(length: nat, width: nat, tail: Bytes, maximum: nat, field: Field)
    requires IsWidth(width) && length < 64 * Pow256(width - 1)
    ensures ReadLimited(Form(length, width) + tail, maximum, field)
         == if length > maximum then Err(InvalidLength(field, length))
            else if |tail| < length then Err(TcpTruncated)
            else Ok(Piece(tail[..length], tail[length..]))
  {
    ParseForm(length, width, tail);
  }

  /** The decoder on a frame type in any form: another type is refused by its number. */
  lemma DecodeFrameType(frameType: nat, width: nat, tail: Bytes, lossy: Lossy)
    requires IsWidth(width) && frameType < 64 * Pow256(width - 1)
    ensures frameType != 0x401 ==> DecodeRequest(Form(frameType, width) + tail, lossy) == Err(InvalidFrameType(frameType))
    ensures frameType == 0x401 ==>
              DecodeRequest(Form(frameType, width) + tail, lossy)
              == match ReadLimited(tail, 2048, Address)
                 case Err(e) => Err(e)
                 case Ok(Piece(address, rest)) =>
                   if address == [] then Err(InvalidLength(Address, 0)) else
                   match ReadLimited(rest, 4096, Padding)
                   case Err(e) => Err(e)
                   case Ok(Piece(_, payload)) => Ok(Request(lossy(address), payload))
  {
    ParseForm(frameType, width, tail);
  }

  /** A request with its three length fields in any form: which error, and otherwise its destination and payload. */
  lemma DecodeRequestForm(w0: nat, w1: nat, w2: nat, address: Bytes, padding: Bytes, payload: Bytes, lossy: Lossy)
    requires IsWidth(w0) && IsWidth(w1) && IsWidth(w2) && 0x401 < 64 * Pow256(w0 - 1)
    requires |address| < 64 * Pow256(w1 - 1) && |padding| < 64 * Pow256(w2 - 1)
    ensures var input := Form(0x401, w0) + (Form(|address|, w1) + (address + (Form(|padding|, w2) + (padding + payload))));
            DecodeRequest(input, lossy)
            == if |address| > 2048 || |address| == 0 then Err(InvalidLength(Address, |address|))
               else if |padding| > 4096 then Err(InvalidLength(Padding, |padding|))
               else Ok(Request(lossy(address), payload))
  {
    var second := Form(|padding|, w2) + (padding + payload);
    DecodeFrameType(0x401, w0, Form(|address|, w1) + (address + second), lossy);
    ReadForm(|address|, w1, address + second, 2048, Address);
    assert (address + second)[..|address|] == address && (address + second)[|address|..] == second;
    ReadForm(|padding|, w2, padding + payload, 4096, Padding);
    assert (padding + payload)[..|padding|] == padding && (padding + payload)[|padding|..] == payload;
  }
}
