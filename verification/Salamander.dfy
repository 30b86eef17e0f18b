/** Salamander obfuscation of one packet (src/salamander.rs). */
module Salamander {
  import opened Seqs

  type Octets = seq<bv8>

  const SALT_LENGTH: nat := 8

  type Key = k: seq<bv8> | |k| == 32 witness seq(32, _ => 0)

  /** `derive_key` for one password: BLAKE2b of password and salt, left uninterpreted. */
  type DeriveKey = Octets -> Key

  datatype SalamanderError = Truncated

  /** XOR with the key repeated. */
  function Masked(key: Key, s: Octets): (r: Octets)
    ensures |r| == |s| && forall i :: 0 <= i < |s| ==> r[i] == s[i] ^ key[i % 32]
  {
    seq(|s|, i requires 0 <= i < |s| => s[i] ^ key[i % 32])
  }

  lemma XorTwice(x: bv8, k: bv8)
    ensures (x ^ k) ^ k == x
  {
  }

  lemma MaskedTwice(key: Key, s: Octets)
    ensures Masked(key, Masked(key, s)) == s
  {
    forall i | 0 <= i < |s|
      ensures Masked(key, Masked(key, s))[i] == s[i]
    {
      XorTwice(s[i], key[i % 32]);
    }
  }

  function Encrypt(derive: DeriveKey, salt: Octets, payload: Octets): Octets {
    salt + Masked(derive(salt), payload)
  }

  function Decrypt(derive: DeriveKey, packet: Octets): Result<Octets, SalamanderError> {
    if |packet| <= SALT_LENGTH then Err(Truncated)
    else Ok(Masked(derive(packet[..SALT_LENGTH]), packet[SALT_LENGTH..]))
  }

  /** Decryption undoes encryption, except that an empty payload leaves a packet that is refused. */
  lemma DecryptEncrypt(derive: DeriveKey, salt: Octets, payload: Octets)
    requires |salt| == SALT_LENGTH
    ensures Decrypt(derive, Encrypt(derive, salt, payload)) == if payload == [] then Err(Truncated) else Ok(payload)
  {
    var packet := Encrypt(derive, salt, payload);
    assert packet[..SALT_LENGTH] == salt;
    assert packet[SALT_LENGTH..] == Masked(derive(salt), payload);
    MaskedTwice(derive(salt), payload);
  }

  /** `apply_keystream` on the slice a[lo..hi]. */
  method ApplyKeystream(key: Key, a: array<bv8>, lo: nat, hi: nat)
    requires lo <= hi <= a.Length
    modifies a
    ensures a[..] == old(a[..lo]) + Masked(key, old(a[lo..hi])) + old(a[hi..])
  {
    ghost var before := a[..];
    for i := lo to hi
      invariant forall j :: 0 <= j < lo ==> a[j] == before[j]
      invariant forall j :: lo <= j < i ==> a[j] == before[j] ^ key[(j - lo) % 32]
      invariant forall j :: i <= j < a.Length ==> a[j] == before[j]
    {
      a[i] := a[i] ^ key[(i - lo) % 32];
    }
    ghost var after := before[..lo] + Masked(key, before[lo..hi]) + before[hi..];
    assert forall j :: lo <= j < hi ==> after[j] == Masked(key, before[lo..hi])[j - lo];
    assert forall j :: 0 <= j < a.Length ==> a[j] == after[j];
  }
}

/** The obfuscating UDP socket: segmented sends, batched receives in place (src/salamander_socket.rs). */
module SalamanderSocket {
  import opened Seqs
  import opened Salamander

  datatype Transmit = Transmit(contents: Octets, segmentSize: Option<nat>)

  datatype SendError = EmptyTransmit

  /** quinn's receive metadata; `route` stands for the addresses and ECN bits carried along. */
  datatype RecvMeta = RecvMeta(len: nat, stride: nat, route: nat)

  // ----- sending -----

  function SourceSegmentSize(t: Transmit): nat {
    if t.segmentSize.Some? then t.segmentSize.value else |t.contents|
  }

  /** The k-th salt cut from the random bytes drawn for the whole transmit. */
  function Salt(salts: Octets, k: nat): Octets
    requires (k + 1) * SALT_LENGTH <= |salts|
  {
    salts[k * SALT_LENGTH..(k + 1) * SALT_LENGTH]
  }

  /** Each segment encrypted on its own, with its own salt. */
  function EncryptAll(derive: DeriveKey, segments: seq<Octets>, salts: Octets): (r: seq<Octets>)
    requires |salts| == |segments| * SALT_LENGTH
    ensures |r| == |segments|
    ensures forall k :: 0 <= k < |r| ==> r[k] == Encrypt(derive, Salt(salts, k), segments[k])
    ensures forall k :: 0 <= k < |r| ==> |r[k]| == SALT_LENGTH + |segments[k]|
  {
    seq(|segments|, k requires 0 <= k < |segments| => Encrypt(derive, Salt(salts, k), segments[k]))
  }

  method EncryptTransmit(derive: DeriveKey, t: Transmit, salts: Octets) returns (r: Result<Transmit, SendError>)
    requires SourceSegmentSize(t) > 0 ==> |salts| == DivCeil(|t.contents|, SourceSegmentSize(t)) * SALT_LENGTH
    ensures r == Sent(derive, t, salts)
    ensures r.Ok? <==> SourceSegmentSize(t) > 0
    ensures r.Ok? ==> && Obfuscated(derive, t.contents, SourceSegmentSize(t), salts, r.value.contents)
                      && r.value.segmentSize == if t.segmentSize.Some? then Some(t.segmentSize.value + 8) else None
  {
    var size := SourceSegmentSize(t);
    if size > 0 {
      SentBytes(derive, t, salts);
    }
    if size == 0 {
      return Err(EmptyTransmit);
    }
    ChunkCount(t.contents, size);
    ghost var segments := Chunks(t.contents, size);
    ghost var packets := EncryptAll(derive, segments, salts);
    var encrypted := [];
    var rest, index := t.contents, 0;
    while rest != []
      invariant index <= |segments| && Chunks(rest, size) == segments[index..]
      invariant encrypted == Concat(packets[..index])
      decreases |rest|
    {
      var segment := rest[..Min(size, |rest|)];
      ChunksHead(rest, size);
      assert segment == Chunks(rest, size)[0] == segments[index];
      ConcatTake(packets, index);
      var salt := Salt(salts, index);
      Reassociate(encrypted, salt, Masked(derive(salt), segment));
      encrypted := encrypted + salt;
      encrypted := encrypted + Masked(derive(salt), segment);
      assert segments[index..][1..] == segments[index + 1..];
      rest := rest[|segment|..];
      index := index + 1;
    }
    assert packets[..index] == packets;
    return Ok(Transmit(encrypted, if t.segmentSize.Some? then Some(t.segmentSize.value + SALT_LENGTH) else None));
  }

  /** What is handed to the inner socket: the packets side by side, the segment size grown by the salt. */
  function Sent(derive: DeriveKey, t: Transmit, salts: Octets): Result<Transmit, SendError>
    requires SourceSegmentSize(t) > 0 ==> |salts| == DivCeil(|t.contents|, SourceSegmentSize(t)) * SALT_LENGTH
  {
    var size := SourceSegmentSize(t);
    if size == 0 then Err(EmptyTransmit) else
    ChunkCount(t.contents, size);
    Ok(Transmit(Concat(EncryptAll(derive, Chunks(t.contents, size), salts)),
                if t.segmentSize.Some? then Some(t.segmentSize.value + SALT_LENGTH) else None))
  }

  /** At `start`: eight bytes of salt, then contents[at..at + length] under the key of that salt. */
  ghost predicate PacketAt(derive: DeriveKey, salt: Octets, contents: Octets, at: nat, length: nat, out: Octets, start: nat) {
    && |salt| == 8 && at + length <= |contents| && start + 8 + length <= |out|
    && out[start..start + 8] == salt
    && forall i :: 0 <= i < length ==> out[start + 8..][i] == contents[at..][i] ^ derive(salt)[i % 32]
  }

  /** The k-th packet of the output carries the k-th salt and the k-th segment. */
  ghost predicate SegmentAt(derive: DeriveKey, contents: Octets, size: nat, salts: Octets, out: Octets, k: nat) {
    && 0 <= k * size <= |contents| && 0 <= k * (size + 8) && 8 * k + 8 <= |salts|
    && PacketAt(derive, salts[8 * k..8 * k + 8], contents, k * size, Min(size, |contents| - k * size), out, k * (size + 8))
  }

  ghost predicate Obfuscated(derive: DeriveKey, contents: Octets, size: nat, salts: Octets, out: Octets)
    requires size > 0
  {
    && |out| == |contents| + |salts|
    && forall k :: 0 <= k < DivCeil(|contents|, size) ==> SegmentAt(derive, contents, size, salts, out, k)
  }

  lemma {:induction false} PacketsLength(derive: DeriveKey, segments: seq<Octets>, packets: seq<Octets>)
    requires |packets| == |segments| && forall k :: 0 <= k < |packets| ==> |packets[k]| == 8 + |segments[k]|
    ensures |Concat(packets)| == |Concat(segments)| + 8 * |segments|
  {
    if segments != [] {
      PacketsLength(derive, segments[1..], packets[1..]);
    }
  }

  lemma PacketReads(derive: DeriveKey, salt: Octets, contents: Octets, at: nat, segment: Octets, out: Octets, start: nat)
    requires |salt| == 8 && at + |segment| <= |contents| && contents[at..at + |segment|] == segment
    requires start + 8 + |segment| <= |out| && out[start..start + 8 + |segment|] == Encrypt(derive, salt, segment)
    ensures PacketAt(derive, salt, contents, at, |segment|, out, start)
  {
    var packet := out[start..start + 8 + |segment|];
    assert out[start..start + 8] == packet[..8];
    forall i | 0 <= i < |segment|
      ensures out[start + 8..][i] == contents[at..][i] ^ derive(salt)[i % 32]
    {
      assert out[start + 8..][i] == packet[8 + i] && contents[at..][i] == segment[i];
    }
  }

  lemma PacketPosition(derive: DeriveKey, segments: seq<Octets>, salts: Octets, size: nat, k: nat, start: int)
    requires Uniform(segments, size) && k < |segments| && |salts| == |segments| * SALT_LENGTH && start == k * (size + 8)
    ensures var out := Concat(EncryptAll(derive, segments, salts));
            && 0 <= start && start + 8 + |segments[k]| <= |out| && 8 * k + 8 <= |salts|
            && out[start..start + 8 + |segments[k]|] == Encrypt(derive, salts[8 * k..8 * k + 8], segments[k])
  {
    UniformAt(EncryptAll(derive, segments, salts), size + 8, k);
  }

  lemma SegmentPosition(contents: Octets, size: nat, k: nat, at: int)
    requires size > 0 && k < |Chunks(contents, size)| && at == k * size
    ensures var segment := Chunks(contents, size)[k];
            && 0 <= at && at + |segment| <= |contents| && contents[at..at + |segment|] == segment
            && |segment| == Min(size, |contents| - at)
  {
    UniformAt(Chunks(contents, size), size, k);
    ConcatChunks(contents, size);
    ChunkLength(contents, size, k);
  }

  lemma SegmentIsAt(derive: DeriveKey, contents: Octets, size: nat, salts: Octets, k: nat)
    requires size > 0 && k < |Chunks(contents, size)| && |salts| == |Chunks(contents, size)| * SALT_LENGTH
    ensures SegmentAt(derive, contents, size, salts, Concat(EncryptAll(derive, Chunks(contents, size), salts)), k)
  {
    var segments := Chunks(contents, size);
    var at, start := k * size, k * (size + 8);
    SegmentPosition(contents, size, k, at);
    PacketPosition(derive, segments, salts, size, k, start);
    PacketReads(derive, salts[8 * k..8 * k + 8], contents, at, segments[k], Concat(EncryptAll(derive, segments, salts)), start);
  }

  lemma {:induction false} ChunkLength(contents: Octets, size: nat, k: nat)
    requires size > 0 && k < |Chunks(contents, size)|
    ensures |Chunks(contents, size)[k]| == Min(size, |contents| - k * size)
  {
    if k > 0 {
      ChunkLength(contents[size..], size, k - 1);
      assert k * size == (k - 1) * size + size;
    }
  }

  /** What is sent, byte by byte: the salts in order, each in front of its own masked segment, and nothing else. */
  lemma SentBytes(derive: DeriveKey, t: Transmit, salts: Octets)
    requires SourceSegmentSize(t) > 0 && |salts| == DivCeil(|t.contents|, SourceSegmentSize(t)) * SALT_LENGTH
    ensures Sent(derive, t, salts).Ok?
    ensures Obfuscated(derive, t.contents, SourceSegmentSize(t), salts, Sent(derive, t, salts).value.contents)
  {
    var size := SourceSegmentSize(t);
    ChunkCount(t.contents, size);
    ConcatChunks(t.contents, size);
    var segments := Chunks(t.contents, size);
    PacketsLength(derive, segments, EncryptAll(derive, segments, salts));
    forall k | 0 <= k < |segments|
      ensures SegmentAt(derive, t.contents, size, salts, Concat(EncryptAll(derive, segments, salts)), k)
    {
      SegmentIsAt(derive, t.contents, size, salts, k);
    }
  }

  // ----- receiving, on values -----

  function SourceStride(m: RecvMeta): nat { if m.stride == 0 then m.len else m.stride }

  /** Every segment of the datagram is longer than a salt. */
  predicate AllLonger(segments: seq<Octets>) {
    forall k :: 0 <= k < |segments| ==> |segments[k]| > SALT_LENGTH
  }

  predicate Accepted(buffer: Octets, m: RecvMeta) {
    && SourceStride(m) > SALT_LENGTH
    && m.len <= |buffer|
    && AllLonger(Chunks(buffer[..m.len], SourceStride(m)))
  }

  /** The per-packet `decrypt` applied to each segment. */
  function DecryptAll(derive: DeriveKey, segments: seq<Octets>): (r: seq<Octets>)
    requires AllLonger(segments)
    ensures |r| == |segments|
    ensures forall k :: 0 <= k < |r| ==> Decrypt(derive, segments[k]) == Ok(r[k])
    ensures forall k :: 0 <= k < |r| ==> |r[k]| == |segments[k]| - SALT_LENGTH
  {
    seq(|segments|, k requires 0 <= k < |segments| => Decrypt(derive, segments[k]).value)
  }

  /** The plaintexts of a datagram's segments, joined. */
  function PlainOf(derive: DeriveKey, data: Octets, stride: nat): Octets
    requires stride > 0 && AllLonger(Chunks(data, stride))
  {
    Concat(DecryptAll(derive, Chunks(data, stride)))
  }

  datatype Delivery = Delivery(plain: Octets, meta: RecvMeta)

  /** What the simple specification makes of one received datagram. */
  function Deliver(derive: DeriveKey, buffer: Octets, m: RecvMeta): Option<Delivery> {
    if !Accepted(buffer, m) then None else
    var plain := PlainOf(derive, buffer[..m.len], SourceStride(m));
    Some(Delivery(plain, RecvMeta(|plain|, SourceStride(m) - SALT_LENGTH, m.route)))
  }

  datatype Input = Input(buffer: Octets, meta: RecvMeta)

  /** The accepted datagrams of a batch, in arrival order. */
  function Deliveries(derive: DeriveKey, inputs: seq<Input>): seq<Delivery> {
    if inputs == [] then [] else
    var n := |inputs| - 1;
    var d := Deliver(derive, inputs[n].buffer, inputs[n].meta);
    Deliveries(derive, inputs[..n]) + if d.Some? then [d.value] else []
  }

  /** Cutting a delivery by its new stride gives back the per-segment plaintexts, short last one included. */
  lemma CutByNewStride(derive: DeriveKey, buffer: Octets, m: RecvMeta)
    requires Accepted(buffer, m)
    ensures var d := Deliver(derive, buffer, m).value;
            && d.meta.stride > 0
            && Chunks(d.plain, d.meta.stride) == DecryptAll(derive, Chunks(buffer[..m.len], SourceStride(m)))
            && d.meta.len == |d.plain| <= m.len
  {
    var segments := Chunks(buffer[..m.len], SourceStride(m));
    var plains := DecryptAll(derive, segments);
    ChunksConcat(plains, SourceStride(m) - SALT_LENGTH);
    ConcatChunks(buffer[..m.len], SourceStride(m));
    ShorterParts(plains, segments);
  }

  /** The per-packet `decrypt` accepts each segment; an empty datagram is one empty packet. */
  predicate EachDecrypts(derive: DeriveKey, data: Octets, stride: nat)
    requires data != [] ==> stride > 0
  {
    if data == [] then Decrypt(derive, data).Ok?
    else forall k :: 0 <= k < |Chunks(data, stride)| ==> Decrypt(derive, Chunks(data, stride)[k]).Ok?
  }

  /**
   * The batch receiver against the per-packet `decrypt`, for every datagram: it delivers a datagram
   * exactly when each segment decrypts, with the same plaintexts, except that it also delivers an
   * empty datagram whose stride is longer than a salt. A length beyond the buffer is skipped.
   */
  lemma AgreesWithDecrypt(derive: DeriveKey, buffer: Octets, m: RecvMeta)
    ensures m.len > |buffer| ==> Deliver(derive, buffer, m).None?
    ensures m.len <= |buffer| ==>
              ((Deliver(derive, buffer, m).Some? <==> EachDecrypts(derive, buffer[..m.len], SourceStride(m)))
               <==> !(m.len == 0 && m.stride > SALT_LENGTH))
    ensures Deliver(derive, buffer, m).Some? && m.len > 0 ==>
              var d := Deliver(derive, buffer, m).value;
              var segments, plains := Chunks(buffer[..m.len], SourceStride(m)), Chunks(d.plain, d.meta.stride);
              |plains| == |segments| && forall k :: 0 <= k < |segments| ==> Decrypt(derive, segments[k]) == Ok(plains[k])
  {
    if m.len == 0 {
      if m.stride > SALT_LENGTH {
        EmptyDatagramDelivered(derive, buffer, m);
      }
    } else if m.len <= |buffer| {
      var data, stride := buffer[..m.len], SourceStride(m);
      FirstSegment(data, 0, Min(stride, m.len), stride);
      assert data[0..] == data;
      var segments := Chunks(data, stride);
      assert segments[0] == data[0..Min(stride, m.len)];
      assert EachDecrypts(derive, data, stride) <==> AllLonger(segments);
      if Accepted(buffer, m) {
        CutByNewStride(derive, buffer, m);
      }
    }
  }

  /** The datagram on which they differ. */
  lemma EmptyDatagramDelivered(derive: DeriveKey, buffer: Octets, m: RecvMeta)
    requires m.len == 0 && m.stride > SALT_LENGTH
    ensures Deliver(derive, buffer, m) == Some(Delivery([], RecvMeta(0, m.stride - SALT_LENGTH, m.route)))
    ensures Decrypt(derive, buffer[..m.len]).Err?
  {
    assert Chunks(buffer[..0], m.stride) == [];
  }

  lemma {:induction false} ShorterParts(a: seq<Octets>, b: seq<Octets>)
    requires |a| == |b| && forall k :: 0 <= k < |a| ==> |a[k]| <= |b[k]|
    ensures |Concat(a)| <= |Concat(b)|
  {
    if a != [] {
      ShorterParts(a[1..], b[1..]);
    }
  }

  /** Sending and receiving restore the contents and the segment size, for every key function and salts. */
  lemma {:induction false} TransmitRoundTrip(derive: DeriveKey, t: Transmit, salts: Octets, buffer: Octets, route: nat)
    requires t.contents != [] && SourceSegmentSize(t) > 0
    requires |salts| == DivCeil(|t.contents|, SourceSegmentSize(t)) * SALT_LENGTH
    requires Sent(derive, t, salts).Ok? && Sent(derive, t, salts).value.contents <= buffer
    ensures var sent := Sent(derive, t, salts).value;
            var stride := if sent.segmentSize.Some? then sent.segmentSize.value else 0;
            Deliver(derive, buffer, RecvMeta(|sent.contents|, stride, route))
            == Some(Delivery(t.contents, RecvMeta(|t.contents|, SourceSegmentSize(t), route)))
  {
    var size := SourceSegmentSize(t);
    ChunkCount(t.contents, size);
    ConcatChunks(t.contents, size);
    var sent := Sent(derive, t, salts).value;
    if t.segmentSize.None? {
      SinglePacket(derive, t.contents, salts);
    }
    var stride := if sent.segmentSize.Some? then sent.segmentSize.value else 0;
    DeliverPackets(derive, Chunks(t.contents, size), salts, size, buffer, RecvMeta(|sent.contents|, stride, route));
  }

  /** Receiving packets sent side by side: the stride finds them again and each one decrypts. */
  lemma {:induction false} DeliverPackets(derive: DeriveKey, segments: seq<Octets>, salts: Octets, size: nat, buffer: Octets, m: RecvMeta)
    requires size > 0 && Uniform(segments, size) && |salts| == |segments| * SALT_LENGTH
    requires Concat(EncryptAll(derive, segments, salts)) <= buffer
    requires m.len == |Concat(EncryptAll(derive, segments, salts))| && SourceStride(m) == size + SALT_LENGTH
    ensures Deliver(derive, buffer, m)
         == Some(Delivery(Concat(segments), RecvMeta(|Concat(segments)|, size, m.route)))
  {
    var packets := EncryptAll(derive, segments, salts);
    assert buffer[..m.len] == Concat(packets);
    ChunksConcat(packets, size + SALT_LENGTH);
    DecryptedPackets(derive, segments, salts);
  }

  lemma SinglePacket(derive: DeriveKey, contents: Octets, salts: Octets)
    requires contents != [] && |salts| == |Chunks(contents, |contents|)| * SALT_LENGTH
    ensures |Concat(EncryptAll(derive, Chunks(contents, |contents|), salts))| == |contents| + SALT_LENGTH
  {
    var packets := EncryptAll(derive, Chunks(contents, |contents|), salts);
    assert packets[1..] == [];
    assert Concat(packets) == packets[0] + Concat(packets[1..]);
  }

  lemma DecryptedPackets(derive: DeriveKey, segments: seq<Octets>, salts: Octets)
    requires |salts| == |segments| * SALT_LENGTH
    requires forall k :: 0 <= k < |segments| ==> |segments[k]| > 0
    ensures AllLonger(EncryptAll(derive, segments, salts))
    ensures DecryptAll(derive, EncryptAll(derive, segments, salts)) == segments
  {
    var packets := EncryptAll(derive, segments, salts);
    forall k | 0 <= k < |segments|
      ensures DecryptAll(derive, packets)[k] == segments[k]
    {
      DecryptEncrypt(derive, Salt(salts, k), segments[k]);
    }
  }

  // ----- receiving, in place -----

  /** `copy_within(lo..hi, to)` to an earlier, possibly overlapping position. */
  method CopyWithin(a: array<bv8>, lo: nat, hi: nat, to: nat)
    requires to <= lo <= hi <= a.Length
    modifies a
    ensures a[..] == old(a[..to]) + old(a[lo..hi]) + old(a[to + hi - lo..])
  {
    ghost var before := a[..];
    for i := 0 to hi - lo
      invariant forall j :: 0 <= j < to ==> a[j] == before[j]
      invariant forall j :: to <= j < to + i ==> a[j] == before[j - to + lo]
      invariant forall j :: to + i <= j < a.Length ==> a[j] == before[j]
    {
      a[to + i] := a[lo + i];
    }
    forall j | 0 <= j < a.Length
      ensures a[j] == (before[..to] + before[lo..hi] + before[to + hi - lo..])[j]
    {
      SplicedAt(before, lo, hi, to, j);
    }
  }

  lemma SplicedAt(s: Octets, lo: nat, hi: nat, to: nat, j: nat)
    requires to <= lo <= hi <= |s| && j < |s|
    ensures (s[..to] + s[lo..hi] + s[to + hi - lo..])[j]
         == if j < to then s[j] else if j < to + hi - lo then s[j - to + lo] else s[j]
  {
  }

  method CopyFromSlice(target: array<bv8>, source: array<bv8>, n: nat)
    requires n <= target.Length && n <= source.Length && target != source
    modifies target
    ensures target[..n] == source[..n]
  {
    for i := 0 to n
      invariant target[..i] == source[..i]
    {
      target[i] := source[i];
    }
  }

  lemma {:induction false} FirstSegment(data: Octets, start: nat, end: nat, stride: nat)
    requires stride > 0 && start < |data| && end == Min(start + stride, |data|)
    ensures Chunks(data[start..], stride) == [data[start..end]] + Chunks(data[end..], stride)
    ensures AllLonger(Chunks(data[start..], stride)) <==> end - start > SALT_LENGTH && AllLonger(Chunks(data[end..], stride))
  {
    ChunksHead(data[start..], stride);
    assert data[start..][..end - start] == data[start..end];
    assert data[start..][end - start..] == data[end..];
    AllLongerCons(data[start..end], Chunks(data[end..], stride));
  }

  lemma AllLongerCons(segment: Octets, rest: seq<Octets>)
    ensures AllLonger([segment] + rest) <==> |segment| > SALT_LENGTH && AllLonger(rest)
  {
    var all := [segment] + rest;
    if AllLonger(all) {
      assert |all[0]| > SALT_LENGTH;
      forall k | 0 <= k < |rest|
        ensures |rest[k]| > SALT_LENGTH
      {
        assert rest[k] == all[k + 1];
      }
    }
  }

  /** The `any` scan over segment starts. */
  method SegmentsAreLonger(len: nat, stride: nat, ghost data: Octets) returns (ok: bool)
    requires stride > 0 && |data| == len
    ensures ok == AllLonger(Chunks(data, stride))
  {
    var start := 0;
    ghost var done := 0;
    while start < len
      invariant done == Min(start, len)
      invariant AllLonger(Chunks(data, stride)) == AllLonger(Chunks(data[done..], stride))
      decreases len - start
    {
      var end := Min(start + stride, len);
      FirstSegment(data, start, end, stride);
      if end - start <= SALT_LENGTH {
        return false;
      }
      start := start + stride;
      done := end;
    }
    assert data[done..] == [];
    return true;
  }

  /** The inner loop: decrypt each segment where it lies and close the gaps its salts leave. */
  method DecryptInPlace(derive: DeriveKey, a: array<bv8>, len: nat, stride: nat) returns (plainLength: nat)
    requires stride > SALT_LENGTH && len <= a.Length
    requires AllLonger(Chunks(a[..len], stride))
    modifies a
    ensures plainLength <= len
    ensures a[..plainLength] == PlainOf(derive, old(a[..len]), stride)
  {
    ghost var data := a[..len];
    ghost var all := PlainOf(derive, data, stride);
    plainLength := 0;
    var start := 0;
    ghost var done := 0;
    assert data[0..] == data;
    while start < len
      invariant done == Min(start, len) && plainLength <= done
      invariant a[done..len] == data[done..]
      invariant AllLonger(Chunks(data[done..], stride))
      invariant a[..plainLength] + PlainOf(derive, data[done..], stride) == all
      decreases len - start
    {
      var end := Min(start + stride, len);
      SplitFirst(derive, data, start, end, stride, a[..plainLength]);
      plainLength := DecryptSegment(derive, a, start, end, plainLength, data);
      start := start + stride;
      done := end;
    }
    assert data[done..] == [];
  }

  lemma {:induction false} SplitFirst(derive: DeriveKey, data: Octets, start: nat, end: nat, stride: nat, prefix: Octets)
    requires stride > SALT_LENGTH && start < |data| && end == Min(start + stride, |data|)
    requires AllLonger(Chunks(data[start..], stride))
    ensures end - start > SALT_LENGTH && AllLonger(Chunks(data[end..], stride))
    ensures prefix + PlainOf(derive, data[start..], stride)
         == (prefix + Decrypt(derive, data[start..end]).value) + PlainOf(derive, data[end..], stride)
  {
    FirstSegment(data, start, end, stride);
    var segments := Chunks(data[start..], stride);
    var plains := DecryptAll(derive, segments);
    assert plains[1..] == DecryptAll(derive, segments[1..]);
    Reassociate(prefix, plains[0], PlainOf(derive, data[end..], stride));
  }

  /** What masking s[lo..hi] in place and then moving it down to `to` leaves behind. */
  lemma MaskedAndMoved(s: Octets, plain: Octets, lo: nat, hi: nat, to: nat)
    requires to <= lo <= hi <= |s| && |plain| == hi - lo
    ensures var masked := s[..lo] + plain + s[hi..];
            var moved := masked[..to] + masked[lo..hi] + masked[to + hi - lo..];
            moved[..to + hi - lo] == s[..to] + plain && moved[hi..] == s[hi..]
  {
    var masked := s[..lo] + plain + s[hi..];
    assert masked[..to] == s[..to] && masked[lo..hi] == plain && masked[hi..] == s[hi..];
    var moved := masked[..to] + masked[lo..hi] + masked[to + hi - lo..];
    assert moved[hi..] == masked[hi..];
  }

  /** A buffer that still holds the datagram from `start` on holds the segment and the rest. */
  lemma SegmentIn(s: Octets, data: Octets, start: nat, end: nat)
    requires start <= end <= |data| <= |s| && s[start..|data|] == data[start..]
    ensures s[start..end] == data[start..end]
    ensures forall t: Octets :: |t| == |s| && t[end..] == s[end..] ==> t[end..|data|] == data[end..]
  {
    assert s[start..end] == s[start..|data|][..end - start];
    assert s[end..|data|] == s[start..|data|][end - start..] == data[end..];
    forall t: Octets | |t| == |s| && t[end..] == s[end..]
      ensures t[end..|data|] == data[end..]
    {
      assert t[end..|data|] == t[end..][..|data| - end] == s[end..|data|];
    }
  }

  /** One turn of the inner loop. */
  method DecryptSegment(derive: DeriveKey, a: array<bv8>, start: nat, end: nat, plainLength: nat, ghost data: Octets)
    returns (newLength: nat)
    requires plainLength <= start && start + SALT_LENGTH < end <= |data| <= a.Length
    requires a[start..|data|] == data[start..]
    modifies a
    ensures newLength == plainLength + (end - start - SALT_LENGTH)
    ensures a[..newLength] == old(a[..plainLength]) + Decrypt(derive, data[start..end]).value
    ensures a[end..|data|] == data[end..]
  {
    ghost var before := a[..];
    SegmentIn(before, data, start, end);
    var payloadStart := start + SALT_LENGTH;
    var salt := a[start..payloadStart];
    assert before[start..end][..SALT_LENGTH] == salt;
    assert before[start..end][SALT_LENGTH..] == before[payloadStart..end];
    ghost var plain := Masked(derive(salt), before[payloadStart..end]);
    ApplyKeystream(derive(salt), a, payloadStart, end);
    CopyWithin(a, payloadStart, end, plainLength);
    MaskedAndMoved(before, plain, payloadStart, end, plainLength);
    newLength := plainLength + (end - payloadStart);
    assert a[..newLength] == a[..][..newLength] && a[end..|data|] == a[..][end..|data|] && a[end..] == a[..][end..];
  }

  /** Mutable slices in Rust never overlap: the buffers are different objects, none of them the metadata array. */
  ghost predicate Distinct(bufs: seq<array<bv8>>, meta: array<RecvMeta>) {
    && (forall i, j :: 0 <= i < |bufs| && 0 <= j < |bufs| && i != j ==> bufs[i] != bufs[j])
    && (forall i :: 0 <= i < |bufs| ==> bufs[i] as object != meta)
  }

  ghost function Inputs(bufs: seq<array<bv8>>, meta: array<RecvMeta>, count: nat): (r: seq<Input>)
    requires count <= |bufs| && count <= meta.Length
    reads bufs, meta
    ensures |r| == count
  {
    seq(count, i requires 0 <= i < count reads bufs, meta => Input(bufs[i][..], meta[i]))
  }

  /** The first |deliveries| buffers and metadata entries hold exactly the deliveries. */
  ghost predicate Hold(bufs: seq<array<bv8>>, meta: array<RecvMeta>, deliveries: seq<Delivery>)
    reads bufs, meta
  {
    && |deliveries| <= |bufs| && |deliveries| <= meta.Length
    && forall k :: 0 <= k < |deliveries| ==>
         && meta[k] == deliveries[k].meta
         && meta[k].len <= bufs[k].Length
         && bufs[k][..meta[k].len] == deliveries[k].plain
  }

  lemma {:induction false} DeliveredAtMost(derive: DeriveKey, inputs: seq<Input>)
    ensures |Deliveries(derive, inputs)| <= |inputs|
  {
    if inputs != [] {
      DeliveredAtMost(derive, inputs[..|inputs| - 1]);
    }
  }

  /** The buffer an accepted datagram moves down to. */
  function Slot(derive: DeriveKey, inputs: seq<Input>, i: nat): (t: nat)
    requires i < |inputs|
    ensures t <= i
  {
    DeliveredAtMost(derive, inputs[..i]);
    |Deliveries(derive, inputs[..i])|
  }

  /** `copy_from_slice` finds room: it panics on a shorter target buffer. */
  ghost predicate Fits(derive: DeriveKey, inputs: seq<Input>) {
    forall i :: 0 <= i < |inputs| ==> FitsAt(derive, inputs, i)
  }

  predicate FitsAt(derive: DeriveKey, inputs: seq<Input>, i: nat)
    requires i < |inputs|
  {
    var d := Deliver(derive, inputs[i].buffer, inputs[i].meta);
    d.Some? ==> |d.value.plain| <= |inputs[Slot(derive, inputs, i)].buffer|
  }

  lemma DeliveriesStep(derive: DeriveKey, inputs: seq<Input>, i: nat)
    requires i < |inputs| && Fits(derive, inputs)
    ensures var d := Deliver(derive, inputs[i].buffer, inputs[i].meta);
            && Deliveries(derive, inputs[..i + 1])
               == Deliveries(derive, inputs[..i]) + (if d.Some? then [d.value] else [])
            && |Deliveries(derive, inputs[..i])| <= i
            && (d.Some? ==> |d.value.plain| <= |inputs[|Deliveries(derive, inputs[..i])|].buffer|)
  {
    DeliveredAtMost(derive, inputs[..i]);
    assert inputs[..i + 1][..i] == inputs[..i];
    assert FitsAt(derive, inputs, i);
  }

  /** Buffers that do not grow along the batch, such as the equal ones quinn passes, always fit. */
  lemma EqualBuffersFit(derive: DeriveKey, inputs: seq<Input>)
    requires forall i, j :: 0 <= i <= j < |inputs| ==> |inputs[j].buffer| <= |inputs[i].buffer|
    ensures Fits(derive, inputs)
  {
    forall i | 0 <= i < |inputs|
      ensures FitsAt(derive, inputs, i)
    {
      if Accepted(inputs[i].buffer, inputs[i].meta) {
        CutByNewStride(derive, inputs[i].buffer, inputs[i].meta);
        assert |inputs[i].buffer| <= |inputs[Slot(derive, inputs, i)].buffer|;
      }
    }
  }

  /** `decrypt_receive_batch` refines the per-segment `decrypt`, although it works in the input buffers. */
  method DecryptReceiveBatch(derive: DeriveKey, count: nat, bufs: seq<array<bv8>>, meta: array<RecvMeta>)
    returns (target: nat)
    requires count <= |bufs| && count <= meta.Length
    requires Distinct(bufs, meta) && Fits(derive, Inputs(bufs, meta, count))
    modifies meta, bufs
    ensures target == |Deliveries(derive, old(Inputs(bufs, meta, count)))|
    ensures Hold(bufs, meta, Deliveries(derive, old(Inputs(bufs, meta, count))))
  {
    target := 0;
    ghost var inputs := Inputs(bufs, meta, count);
    var index := 0;
    assert inputs[..0] == [];
    while index < count
      invariant index <= count && Progress(derive, bufs, meta, index, target, inputs)
    {
      target := Turn(derive, index, target, bufs, meta, inputs);
      index := index + 1;
    }
    assert inputs[..count] == inputs;
  }

  /** The first `index` datagrams are dealt with and the others untouched. */
  ghost predicate Progress(derive: DeriveKey, bufs: seq<array<bv8>>, meta: array<RecvMeta>, index: nat, target: nat,
                           inputs: seq<Input>)
    reads bufs, meta
  {
    && index <= |inputs| <= |bufs| && |inputs| <= meta.Length
    && target == |Deliveries(derive, inputs[..index])| && Hold(bufs, meta, Deliveries(derive, inputs[..index]))
    && (forall i :: index <= i < |inputs| ==> bufs[i][..] == inputs[i].buffer && meta[i] == inputs[i].meta)
    && (forall i :: 0 <= i < |inputs| ==> |inputs[i].buffer| == bufs[i].Length)
  }

  /** One turn of the outer loop. */
  method Turn(derive: DeriveKey, index: nat, target: nat, bufs: seq<array<bv8>>, meta: array<RecvMeta>, ghost inputs: seq<Input>)
    returns (newTarget: nat)
    requires index < |inputs| && Distinct(bufs, meta) && Fits(derive, inputs)
    requires Progress(derive, bufs, meta, index, target, inputs)
    modifies meta, bufs
    ensures Progress(derive, bufs, meta, index + 1, newTarget, inputs)
  {
    DeliveriesStep(derive, inputs, index);
    newTarget := ReceiveOne(derive, index, target, bufs, meta, Deliveries(derive, inputs[..index]), inputs);
  }

  /** Earlier deliveries are in place and the inputs after `index` have not been touched. */
  ghost predicate Pending(bufs: seq<array<bv8>>, meta: array<RecvMeta>, index: nat, done: seq<Delivery>, inputs: seq<Input>)
    reads bufs, meta
  {
    && |done| <= index < |inputs| <= |bufs| && |inputs| <= meta.Length
    && Hold(bufs, meta, done)
    && forall i :: index < i < |inputs| ==> bufs[i][..] == inputs[i].buffer && meta[i] == inputs[i].meta
  }

  /** One datagram: decrypted in its buffer, moved down and recorded, or skipped. */
  method ReceiveOne(derive: DeriveKey, index: nat, target: nat, bufs: seq<array<bv8>>, meta: array<RecvMeta>,
                    ghost done: seq<Delivery>, ghost inputs: seq<Input>)
    returns (newTarget: nat)
    requires Distinct(bufs, meta) && target == |done| && Pending(bufs, meta, index, done, inputs)
    requires bufs[index][..] == inputs[index].buffer && meta[index] == inputs[index].meta
    requires var d := Deliver(derive, bufs[index][..], meta[index]); d.Some? ==> |d.value.plain| <= bufs[target].Length
    modifies meta, bufs
    ensures var d := Deliver(derive, inputs[index].buffer, inputs[index].meta);
            var after := done + if d.Some? then [d.value] else [];
            newTarget == |after| && Hold(bufs, meta, after)
    ensures forall i :: index < i < |inputs| ==> bufs[i][..] == inputs[i].buffer && meta[i] == inputs[i].meta
  {
    newTarget := target;
    var sourceMeta := meta[index];
    var plainLength := TryDecrypt(derive, bufs[index], sourceMeta);
    assert Pending(bufs, meta, index, done, inputs);
    if plainLength.None? {
      return;
    }
    MoveDown(target, index, plainLength.value, bufs, meta, done, inputs);
    meta[target] := RecvMeta(plainLength.value, SourceStride(sourceMeta) - SALT_LENGTH, sourceMeta.route);
    newTarget := target + 1;
  }

  method MoveDown(target: nat, index: nat, n: nat, bufs: seq<array<bv8>>, meta: array<RecvMeta>,
                  ghost done: seq<Delivery>, ghost inputs: seq<Input>)
    requires Distinct(bufs, meta) && target == |done| && Pending(bufs, meta, index, done, inputs)
    requires n <= bufs[index].Length && n <= bufs[target].Length
    modifies bufs[target]
    ensures bufs[target][..n] == old(bufs[index][..n])
    ensures Pending(bufs, meta, index, done, inputs)
  {
    if target != index {
      CopyFromSlice(bufs[target], bufs[index], n);
    }
  }

  /** One datagram in its own buffer: refused and untouched, or decrypted to the front of the buffer. */
  method TryDecrypt(derive: DeriveKey, buffer: array<bv8>, m: RecvMeta) returns (r: Option<nat>)
    modifies buffer
    ensures r.None? ==> Deliver(derive, old(buffer[..]), m).None? && buffer[..] == old(buffer[..])
    ensures r.Some? ==>
              && r.value <= buffer.Length && SourceStride(m) > SALT_LENGTH
              && Deliver(derive, old(buffer[..]), m)
                 == Some(Delivery(buffer[..r.value], RecvMeta(r.value, SourceStride(m) - SALT_LENGTH, m.route)))
  {
    var stride := SourceStride(m);
    if stride <= SALT_LENGTH || m.len > buffer.Length {
      return None;
    }
    assert buffer[..m.len] == buffer[..][..m.len];
    var longer := SegmentsAreLonger(m.len, stride, buffer[..m.len]);
    if !longer {
      return None;
    }
    var plainLength := DecryptInPlace(derive, buffer, m.len, stride);
    return Some(plainLength);
  }
}
