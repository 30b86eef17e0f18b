/** QUIC variable-length integers, section 16 of RFC 9000 (src/protocol/varint.rs). */
module Varint {
  import opened Seqs

  type Byte = x: int | 0 <= x < 256
  type Bytes = seq<Byte>

  const VARINT_LIMIT: nat := 0x4000_0000_0000_0000

  datatype VarintError = VarintTruncated | VarintTooLarge

  datatype Parsed = Parsed(value: nat, rest: Bytes)

  function Pow256(k: nat): (p: nat)
    ensures p > 0
  {
    if k == 0 then 1 else 256 * Pow256(k - 1)
  }

  /** The low `width` bytes of `value`, most significant first (`to_be_bytes`). */
  function BigEndian(value: nat, width: nat): (r: Bytes)
    ensures |r| == width
  {
    if width == 0 then [] else BigEndian(value / 256, width - 1) + [value % 256]
  }

  function BigEndianValue(bytes: Bytes): (v: nat)
  {
    if bytes == [] then 0 else 256 * BigEndianValue(bytes[..|bytes| - 1]) + bytes[|bytes| - 1]
  }

  lemma {:induction false} BigEndianValueBound(bytes: Bytes)
    ensures BigEndianValue(bytes) < Pow256(|bytes|)
  {
    if bytes != [] {
      BigEndianValueBound(bytes[..|bytes| - 1]);
    }
  }

  lemma {:induction false} BigEndianRoundTrip(value: nat, width: nat)
    requires value < Pow256(width)
    ensures BigEndianValue(BigEndian(value, width)) == value
  {
    if width > 0 {
      BigEndianRoundTrip(value / 256, width - 1);
      var r := BigEndian(value, width);
      assert r[..width - 1] == BigEndian(value / 256, width - 1);
    }
  }

  lemma {:induction false} BigEndianInverse(bytes: Bytes)
    ensures BigEndian(BigEndianValue(bytes), |bytes|) == bytes
  {
    if bytes != [] {
      BigEndianInverse(bytes[..|bytes| - 1]);
    }
  }

  /** The first byte carries the most significant base-256 digit. */
  lemma {:induction false} BigEndianValueHead(bytes: Bytes)
    requires bytes != []
    ensures BigEndianValue(bytes) == bytes[0] * Pow256(|bytes| - 1) + BigEndianValue(bytes[1..])
  {
    if |bytes| > 1 {
      var front := bytes[..|bytes| - 1];
      BigEndianValueHead(front);
      assert bytes[1..][..|bytes| - 2] == front[1..];
      assert front[0] * (256 * Pow256(|bytes| - 2)) == 256 * (front[0] * Pow256(|bytes| - 2));
    } else {
      assert bytes[..0] == [];
    }
  }

  lemma Powers()
    ensures Pow256(0) == 1 && Pow256(1) == 0x100 && Pow256(2) == 0x1_0000
    ensures Pow256(3) == 0x100_0000 && Pow256(4) == 0x1_0000_0000
    ensures Pow256(7) == 0x100_0000_0000_0000 && Pow256(8) == 0x1_0000_0000_0000_0000
  {
    assert Pow256(2) == 256 * Pow256(1);
    assert Pow256(4) == 256 * Pow256(3);
    assert Pow256(6) == 256 * Pow256(5);
    assert Pow256(8) == 256 * Pow256(7);
  }

  /** Number of bytes for a value, as `varint_size` in src/protocol/udp.rs computes it. */
  function VarintSize(value: nat): nat {
    if value <= 63 then 1 else if value <= 16_383 then 2 else if value <= 1_073_741_823 then 4 else 8
  }

  /** The two-bit length tag: the base-2 logarithm of the width. */
  function Tag(width: nat): nat {
    if width == 1 then 0 else if width == 2 then 1 else if width == 4 then 2 else 3
  }

  /** The width a first byte announces: `1 << (first >> 6)`. */
  function Width(first: Byte): nat {
    if first < 64 then 1 else if first < 128 then 2 else if first < 192 then 4 else 8
  }

  /** RFC 9000: the value in network byte order with the tag in the two top bits. */
  function Encoding(value: nat): (r: Bytes)
    requires value < VARINT_LIMIT
    ensures |r| == VarintSize(value)
  {
    var width := VarintSize(value);
    BigEndian(value + Tag(width) * 64 * Pow256(width - 1), width)
  }

  function Parse(input: Bytes): (r: Result<Parsed, VarintError>)
  {
    if input == [] || |input| < Width(input[0]) then
      Err(VarintTruncated)
    else
      var width := Width(input[0]);
      Ok(Parsed(BigEndianValue([input[0] % 64] + input[1..width]), input[width..]))
  }

  /** Adding `tag` to the two clear top bits of a value changes its first byte and no other. */
  lemma {:induction false} TagOnTop(value: nat, width: nat, tag: nat)
    requires width > 0 && tag < 4 && value < 64 * Pow256(width - 1)
    ensures var plain := BigEndian(value, width);
            && plain[0] < 64
            && BigEndian(value + tag * 64 * Pow256(width - 1), width) == [64 * tag + plain[0]] + plain[1..]
  {
    var unit := Pow256(width - 1);
    var plain := BigEndian(value, width);
    BigEndianRoundTrip(value, width);
    BigEndianValueHead(plain);
    if plain[0] >= 64 {
      MulMonotone(64, plain[0], unit);
      assert false;
    }
    var tagged := [64 * tag + plain[0]] + plain[1..];
    BigEndianValueHead(tagged);
    assert tagged[1..] == plain[1..];
    Distribute(64 * tag, plain[0], unit);
    BigEndianInverse(tagged);
  }

  lemma MulMonotone(a: nat, b: nat, c: nat)
    requires a <= b
    ensures a * c <= b * c
  {
    Distribute(a, b - a, c);
  }

  lemma Distribute(a: int, b: int, c: int)
    ensures (a + b) * c == a * c + b * c
  {
  }

  lemma {:induction false} EncodingHead(value: nat)
    requires value < VARINT_LIMIT
    ensures var width := VarintSize(value);
            var plain := BigEndian(value, width);
            && plain[0] < 64
            && value < 64 * Pow256(width - 1)
            && Encoding(value) == [64 * Tag(width) + plain[0]] + plain[1..]
  {
    Powers();
    TagOnTop(value, VarintSize(value), Tag(VarintSize(value)));
  }

  /** Decoding value-then-tail returns the value and leaves exactly the tail. */
  lemma {:induction false} ParseEncoding(value: nat, tail: Bytes)
    requires value < VARINT_LIMIT
    ensures Parse(Encoding(value) + tail) == Ok(Parsed(value, tail))
  {
    EncodingHead(value);
    BigEndianRoundTrip(value, VarintSize(value));
    ParseTagged(BigEndian(value, VarintSize(value)), VarintSize(value), tail);
  }

  predicate IsWidth(width: nat) { width == 1 || width == 2 || width == 4 || width == 8 }

  /** A value in the form of any width that can hold it; the shortest such form is its encoding. */
  function Form(value: nat, width: nat): (r: Bytes)
    requires IsWidth(width) && value < 64 * Pow256(width - 1)
    ensures |r| == width
  {
    BigEndian(value + Tag(width) * 64 * Pow256(width - 1), width)
  }

  lemma FormHead(value: nat, width: nat)
    requires IsWidth(width) && value < 64 * Pow256(width - 1)
    ensures var plain := BigEndian(value, width);
            plain[0] < 64 && Form(value, width) == [64 * Tag(width) + plain[0]] + plain[1..]
  {
    TagOnTop(value, width, Tag(width));
  }

  lemma TagByte(digit: nat, width: nat)
    requires IsWidth(width) && digit < 64
    ensures 64 * Tag(width) + digit < 256
    ensures Width(64 * Tag(width) + digit) == width && (64 * Tag(width) + digit) % 64 == digit
  {
  }

  /** Reading digits with the tag of their width on top. */
  lemma ParseTagged(digits: Bytes, width: nat, tail: Bytes)
    requires IsWidth(width) && |digits| == width && digits[0] < 64
    ensures Parse([64 * Tag(width) + digits[0]] + digits[1..] + tail) == Ok(Parsed(BigEndianValue(digits), tail))
  {
    TagByte(digits[0], width);
    var first: Byte := 64 * Tag(width) + digits[0];
    var input := [first] + digits[1..] + tail;
    assert input[0] == first;
    assert input[1..width] == digits[1..];
    assert [digits[0]] + digits[1..] == digits;
    assert input[width..] == tail;
  }

  /** The decoder reads every form, not only the shortest. */
  lemma ParseForm(value: nat, width: nat, tail: Bytes)
    requires IsWidth(width) && value < 64 * Pow256(width - 1)
    ensures Parse(Form(value, width) + tail) == Ok(Parsed(value, tail))
  {
    FormHead(value, width);
    BigEndianRoundTrip(value, width);
    ParseTagged(BigEndian(value, width), width, tail);
  }

  /** Digits below 64 on top are those of a value that fits the width. */
  lemma DigitsFit(digits: Bytes)
    requires digits != [] && digits[0] < 64
    ensures BigEndianValue(digits) < 64 * Pow256(|digits| - 1)
    ensures BigEndian(BigEndianValue(digits), |digits|) == digits
  {
    BigEndianValueHead(digits);
    BigEndianValueBound(digits[1..]);
    MulMonotone(digits[0], 63, Pow256(|digits| - 1));
    BigEndianInverse(digits);
  }

  lemma FormOfDigits(digits: Bytes, width: nat)
    requires IsWidth(width) && |digits| == width && digits[0] < 64
    ensures BigEndianValue(digits) < 64 * Pow256(width - 1)
    ensures Form(BigEndianValue(digits), width) == [64 * Tag(width) + digits[0]] + digits[1..]
  {
    DigitsFit(digits);
    FormHead(BigEndianValue(digits), width);
  }

  /** What the decoder reads is a form followed by the rest. */
  lemma {:induction false} ParsedIsForm(input: Bytes)
    requires Parse(input).Ok?
    ensures var p, width := Parse(input).value, Width(input[0]);
            IsWidth(width) && p.value < 64 * Pow256(width - 1) && input == Form(p.value, width) + p.rest
  {
    var width, digits := Width(input[0]), Digits(input);
    FormOfDigits(digits, width);
    assert 64 * Tag(width) + digits[0] == input[0];
    assert digits[1..] == input[1..width];
    assert input == ([input[0]] + input[1..width]) + input[width..];
  }

  /** The bytes a decoder of the given width reads, with the tag removed. */
  function Digits(input: Bytes): (r: Bytes)
    requires input != [] && |input| >= Width(input[0])
    ensures |r| == Width(input[0])
  {
    [input[0] % 64] + input[1..Width(input[0])]
  }

  lemma {:induction false} ParsedFits(input: Bytes)
    requires Parse(input).Ok?
    ensures var value := Parse(input).value.value;
            value < VARINT_LIMIT && VarintSize(value) <= Width(input[0])
  {
    Powers();
    var width, digits := Width(input[0]), Digits(input);
    BigEndianValueHead(digits);
    BigEndianValueBound(digits[1..]);
    MulMonotone(digits[0], 63, Pow256(width - 1));
  }

  lemma {:induction false} ShortestIsCanonical(input: Bytes)
    requires Parse(input).Ok? && Parse(input).value.value < VARINT_LIMIT
    requires VarintSize(Parse(input).value.value) == Width(input[0])
    ensures Encoding(Parse(input).value.value) == input[..Width(input[0])]
  {
    var value, width, digits := Parse(input).value.value, Width(input[0]), Digits(input);
    EncodingHead(value);
    BigEndianInverse(digits);
    assert BigEndian(value, width) == digits;
    assert digits[1..] == input[1..width];
    assert [input[0]] + input[1..width] == input[..width];
  }

  /**
   * Whatever the decoder accepts is below 2^62, is at least as long as the canonical encoding
   * of the value it yields, and is the canonical encoding exactly when the lengths agree.
   */
  lemma {:induction false} EncodingIsShortest(input: Bytes)
    requires Parse(input).Ok?
    ensures var p := Parse(input).value;
            && p.value < VARINT_LIMIT
            && p.rest == input[Width(input[0])..]
            && |Encoding(p.value)| <= |input| - |p.rest|
            && (|Encoding(p.value)| == |input| - |p.rest| <==> input == Encoding(p.value) + p.rest)
  {
    ParsedFits(input);
    var p, width := Parse(input).value, Width(input[0]);
    if VarintSize(p.value) == width {
      ShortestIsCanonical(input);
      assert input == input[..width] + input[width..];
    }
  }

  /** `encode_varint`: appends to the output vector, or fails above 62 bits and appends nothing. */
  method EncodeVarint(value: nat, output: Bytes) returns (r: Result<Bytes, VarintError>)
    requires value <= U64_MAX
    ensures value < VARINT_LIMIT ==> r == Ok(output + Encoding(value))
    ensures value >= VARINT_LIMIT ==> r == Err(VarintTooLarge)
  {
    var width, prefix;
    if value <= 63 {
      width, prefix := 1, 0;
    } else if value <= 16_383 {
      width, prefix := 2, 0x40;
    } else if value <= 1_073_741_823 {
      width, prefix := 4, 0x80;
    } else if value <= 4_611_686_018_427_387_903 {
      width, prefix := 8, 0xC0;
    } else {
      return Err(VarintTooLarge);
    }
    var bytes := BigEndian(value, 8);
    var start := |bytes| - width;
    BigEndianSuffix(value, 8, width);
    EncodingHead(value);
    // `bytes[start] |= prefix`: the two top bits of this byte are clear, so or is addition
    bytes := bytes[start := bytes[start] + prefix];
    assert bytes[start..] == Encoding(value);
    return Ok(output + bytes[start..]);
  }

  lemma {:induction false} BigEndianSuffix(value: nat, wide: nat, width: nat)
    requires width <= wide
    ensures BigEndian(value, wide)[wide - width..] == BigEndian(value, width)
  {
    if width > 0 {
      BigEndianSuffix(value / 256, wide - 1, width - 1);
    }
  }

  /** `decode_varint`: the byte loop computes `Parse`; no intermediate value leaves 62 bits. */
  method DecodeVarint(input: Bytes) returns (r: Result<Parsed, VarintError>)
    ensures r == Parse(input)
    ensures r.Ok? ==> r.value.value < VARINT_LIMIT
  {
    if |input| == 0 {
      return Err(VarintTruncated);
    }
    var first := input[0];
    var width := Width(first);
    if |input| < width {
      return Err(VarintTruncated);
    }
    ghost var digits := [first % 64] + input[1..width];
    var value: nat := first % 64;
    var k := 1;
    assert digits[..1] == [first % 64];
    while k < width
      invariant 1 <= k <= width
      invariant value == BigEndianValue(digits[..k])
    {
      ghost var next := digits[..k + 1];
      assert next[..|next| - 1] == digits[..k] && next[k] == input[k];
      assert BigEndianValue(next) == 256 * BigEndianValue(digits[..k]) + input[k];
      value := value * 256 + input[k];
      k := k + 1;
    }
    assert digits[..width] == digits;
    r := Ok(Parsed(value, input[width..]));
    EncodingIsShortest(input);
  }
}
