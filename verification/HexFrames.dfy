/** Golden frames: a big-endian length prefix, written as lowercase hexadecimal text and read back. */
module HexFrames {
  import opened Octets
  import opened Options

  // ----- writing -----

  function Digit(n: int): Byte
    requires 0 <= n < 16
  {
    if n < 10 then 0x30 + n else 0x57 + n
  }

  function Hex(bytes: Bytes): Bytes {
    if bytes == [] then [] else [Digit(bytes[0] / 16), Digit(bytes[0] % 16)] + Hex(bytes[1..])
  }

  lemma {:induction false} HexAppend(bytes: Bytes, b: Byte)
    ensures Hex(bytes + [b]) == Hex(bytes) + [Digit(b / 16), Digit(b % 16)]
  {
    if bytes == [] {
      assert bytes + [b] == [b];
      assert [b][1..] == [];
    } else {
      HexAppend(bytes[1..], b);
      assert (bytes + [b])[1..] == bytes[1..] + [b];
    }
  }

  method EncodeHex(bytes: Bytes) returns (output: Bytes)
    ensures output == Hex(bytes) + [0x0a]
  {
    output := [];
    for i := 0 to |bytes|
      invariant output == Hex(bytes[..i])
    {
      HexAppend(bytes[..i], bytes[i]);
      assert bytes[..i] + [bytes[i]] == bytes[..i + 1];
      output := output + [Digit(bytes[i] / 16)];
      output := output + [Digit(bytes[i] % 16)];
    }
    assert bytes[..|bytes|] == bytes;
    output := output + [0x0a];
  }

  function BigEndian(n: int): Bytes
    requires 0 <= n < 0x1_0000_0000
  {
    [n / 0x100_0000, n / 0x1_0000 % 0x100, n / 0x100 % 0x100, n % 0x100]
  }

  /** The frame of a payload, unless its length does not fit the prefix. */
  function Frame(payload: Bytes): Option<Bytes> {
    if |payload| < 0x1_0000_0000 then Some(BigEndian(|payload|) + payload) else None
  }

  // ----- reading -----

  predicate IsSpace(b: Byte) { b == 0x20 || b == 0x09 || b == 0x0a || b == 0x0c || b == 0x0d }

  function Compact(text: Bytes): Bytes {
    if text == [] then [] else (if IsSpace(text[0]) then [] else [text[0]]) + Compact(text[1..])
  }

  function Nibble(b: Byte): Option<int> {
    if 0x30 <= b <= 0x39 then Some(b as int - 0x30)
    else if 0x61 <= b <= 0x66 then Some(b as int - 0x61 + 10)
    else if 0x41 <= b <= 0x46 then Some(b as int - 0x41 + 10)
    else None
  }

  function Pairs(digits: Bytes): Option<Bytes>
    requires |digits| % 2 == 0
  {
    if digits == [] then Some([])
    else
      var high, low, rest := Nibble(digits[0]), Nibble(digits[1]), Pairs(digits[2..]);
      if high.None? || low.None? || rest.None? then None else Some([high.value * 16 + low.value] + rest.value)
  }

  function DecodeHex(text: Bytes): Option<Bytes> {
    var digits := Compact(text);
    if |digits| % 2 == 0 then Pairs(digits) else None
  }

  function Prefix(bytes: Bytes): int
    requires |bytes| >= 4
  {
    0x100_0000 * (bytes[0] as int) + 0x1_0000 * (bytes[1] as int) + 0x100 * (bytes[2] as int) + bytes[3] as int
  }

  // ----- the two directions -----

  lemma CompactPair(a: Byte, b: Byte, rest: Bytes)
    requires !IsSpace(a) && !IsSpace(b)
    ensures Compact([a, b] + rest) == [a, b] + Compact(rest)
  {
    assert ([a, b] + rest)[1..] == [b] + rest;
    assert ([b] + rest)[1..] == rest;
  }

  lemma {:induction false} CompactHex(bytes: Bytes)
    ensures Compact(Hex(bytes) + [0x0a]) == Hex(bytes)
  {
    if bytes == [] {
      assert Hex(bytes) + [0x0a] == [0x0a];
      assert [0x0a][1..] == [];
    } else {
      var high, low, rest := Digit(bytes[0] / 16), Digit(bytes[0] % 16), Hex(bytes[1..]);
      CompactHex(bytes[1..]);
      CompactPair(high, low, rest + [0x0a]);
      assert Hex(bytes) + [0x0a] == [high, low] + (rest + [0x0a]);
    }
  }

  lemma NibbleReads(n: int)
    requires 0 <= n < 16
    ensures Nibble(Digit(n)) == Some(n)
  {
  }

  lemma Halves(b: Byte)
    ensures 0 <= b / 16 < 16 && 0 <= b % 16 < 16 && (b / 16) * 16 + b % 16 == b
  {
  }

  lemma {:induction false} PairsHex(bytes: Bytes)
    ensures |Hex(bytes)| % 2 == 0 && Pairs(Hex(bytes)) == Some(bytes)
  {
    if bytes == [] {
    } else {
      PairsHex(bytes[1..]);
      assert Hex(bytes)[2..] == Hex(bytes[1..]);
      NibbleReads(bytes[0] / 16);
      NibbleReads(bytes[0] % 16);
      Halves(bytes[0]);
      assert bytes == [bytes[0]] + bytes[1..];
    }
  }

  /** Decoding undoes encoding. */
  lemma DecodesEncoded(bytes: Bytes)
    ensures DecodeHex(Hex(bytes) + [0x0a]) == Some(bytes)
  {
    CompactHex(bytes);
    PairsHex(bytes);
  }

  function LowerOne(b: Byte): Byte { if 0x41 <= b <= 0x46 then b + 0x20 else b }

  function Lower(text: Bytes): Bytes {
    seq(|text|, i requires 0 <= i < |text| => LowerOne(text[i]))
  }

  lemma {:induction false} HexOfPairs(digits: Bytes)
    requires |digits| % 2 == 0 && Pairs(digits).Some?
    ensures Hex(Pairs(digits).value) == Lower(digits)
    decreases |digits|
  {
    if digits == [] {
    } else {
      HexOfPairs(digits[2..]);
      var high, low := Nibble(digits[0]).value, Nibble(digits[1]).value;
      var bytes := Pairs(digits).value;
      assert bytes[1..] == Pairs(digits[2..]).value;
      assert bytes[0] / 16 == high && bytes[0] % 16 == low;
      assert Lower(digits) == [LowerOne(digits[0]), LowerOne(digits[1])] + Lower(digits[2..]);
    }
  }

  /** Encoding what was decoded gives the text back without its whitespace, in lowercase, with a final newline. */
  lemma ReencodesCanonical(text: Bytes)
    requires DecodeHex(text).Some?
    ensures Hex(DecodeHex(text).value) + [0x0a] == Lower(Compact(text)) + [0x0a]
  {
    HexOfPairs(Compact(text));
  }

  lemma PrefixReads(n: int)
    requires 0 <= n < 0x1_0000_0000
    ensures Prefix(BigEndian(n)) == n
  {
    var high, low := n / 0x1_0000, n % 0x1_0000;
    assert n / 0x100_0000 == high / 0x100;
    assert n / 0x100 % 0x100 == low / 0x100;
    assert n % 0x100 == low % 0x100;
  }

  /** A frame read back from its text has the payload's length as prefix and the payload after it. */
  lemma FrameRoundTrips(payload: Bytes)
    requires Frame(payload).Some?
    ensures var decoded := DecodeHex(Hex(Frame(payload).value) + [0x0a]);
      && decoded.Some? && |decoded.value| >= 4
      && Prefix(decoded.value) == |payload| && decoded.value[4..] == payload
  {
    DecodesEncoded(Frame(payload).value);
    PrefixReads(|payload|);
  }

  // ----- digits, spaces and places, spelled out -----

  const LOWER := "0123456789abcdef"
  const UPPER := "0123456789ABCDEF"

  lemma DigitsSpelled(n: int)
    requires 0 <= n < 16
    ensures Digit(n) == LOWER[n] as int
  {
  }

  lemma NibblesSpelled(b: Byte, n: int)
    ensures Nibble(b) == Some(n) <==> 0 <= n < 16 && (b == LOWER[n] as int || b == UPPER[n] as int)
  {
  }

  lemma SpacesSpelled(b: Byte)
    ensures IsSpace(b) <==> b == ' ' as int || b == '\t' as int || b == '\n' as int || b == '\r' as int || b == 12
  {
  }

  /** The place value of each byte of the prefix, the first one highest. */
  lemma PlacesSpelled(n: int)
    requires 0 <= n < 4294967296
    ensures var b := BigEndian(n);
            |b| == 4 && n == 16777216 * (b[0] as int) + 65536 * (b[1] as int) + 256 * (b[2] as int) + b[3] as int
  {
    PrefixReads(n);
  }

  /** A prefix of four bytes reads as the number with these places. */
  lemma PrefixSpelled(a: Byte, b: Byte, c: Byte, d: Byte, rest: Bytes)
    ensures Prefix([a, b, c, d] + rest) == 16777216 * a + 65536 * b + 256 * c + d
  {
  }
}
