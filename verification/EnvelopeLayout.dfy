/** The persisted form of a sealed value, character by character and byte by byte (internal/secret/envelope.go), and the
    texts that parse. */
module EnvelopeLayout {
  import opened Envelope

  // --- base64: section 4 of RFC 4648, without padding (section 3.2) ---

  function Alphabet(): string { "ABCDEFGHIJKLMNOPQRSTUVWXYZabcdefghijklmnopqrstuvwxyz0123456789+/" }

  lemma DigitIsAlphabet(v: int)
    requires 0 <= v < 64
    ensures |Alphabet()| == 64 && Digit(v) == Alphabet()[v]
  {
    if v < 26 { assert Alphabet()[v] == "ABCDEFGHIJKLMNOPQRSTUVWXYZ"[v]; }
  }

  /** Bit j of the bytes, most significant first, and zeros behind the last byte. */
  function Bit(b: Bytes, j: nat): (bit: int)
    ensures 0 <= bit <= 1
  {
    if j / 8 >= |b| then 0
    else
      var x := b[j / 8];
      match j % 8
      case 0 => x / 128
      case 1 => x / 64 % 2
      case 2 => x / 32 % 2
      case 3 => x / 16 % 2
      case 4 => x / 8 % 2
      case 5 => x / 4 % 2
      case 6 => x / 2 % 2
      case _ => x % 2
  }

  /** The i-th group of six bits. */
  function Sextet(b: Bytes, i: nat): (v: int)
    ensures 0 <= v < 64
  {
    32 * Bit(b, 6 * i) + 16 * Bit(b, 6 * i + 1) + 8 * Bit(b, 6 * i + 2)
    + 4 * Bit(b, 6 * i + 3) + 2 * Bit(b, 6 * i + 4) + Bit(b, 6 * i + 5)
  }

  /** A byte from the top, bit by bit. */
  lemma Halves(x: Byte)
    ensures x / 64 == 2 * (x / 128) + x / 64 % 2 && x / 32 == 2 * (x / 64) + x / 32 % 2
    ensures x / 16 == 2 * (x / 32) + x / 16 % 2 && x / 8 == 2 * (x / 16) + x / 8 % 2
    ensures x / 4 == 2 * (x / 8) + x / 4 % 2 && x / 2 == 2 * (x / 4) + x / 2 % 2 && x == 2 * (x / 2) + x % 2
  {
  }

  lemma HighBits(x: Byte)
    ensures 32 * (x / 128) + 16 * (x / 64 % 2) + 8 * (x / 32 % 2) + 4 * (x / 16 % 2) + 2 * (x / 8 % 2) + x / 4 % 2 == x / 4
    ensures 8 * (x / 128) + 4 * (x / 64 % 2) + 2 * (x / 32 % 2) + x / 16 % 2 == x / 16
    ensures 2 * (x / 128) + x / 64 % 2 == x / 64
  {
    Halves(x);
  }

  lemma LowBits(x: Byte)
    ensures 2 * (x / 2 % 2) + x % 2 == x % 4
    ensures 8 * (x / 8 % 2) + 4 * (x / 4 % 2) + 2 * (x / 2 % 2) + x % 2 == x % 16
    ensures 32 * (x / 32 % 2) + 16 * (x / 16 % 2) + 8 * (x / 8 % 2) + 4 * (x / 4 % 2) + 2 * (x / 2 % 2) + x % 2 == x % 64
  {
    Halves(x);
    assert x % 4 == x - 4 * (x / 4) && x % 16 == x - 16 * (x / 16) && x % 64 == x - 64 * (x / 64);
  }

  function ByteAt(b: Bytes, k: nat): Byte { if k < |b| then b[k] else 0 }

  lemma BitsOf(b: Bytes, k: nat)
    ensures var x := ByteAt(b, k);
      && Bit(b, 8 * k) == x / 128 && Bit(b, 8 * k + 1) == x / 64 % 2 && Bit(b, 8 * k + 2) == x / 32 % 2
      && Bit(b, 8 * k + 3) == x / 16 % 2 && Bit(b, 8 * k + 4) == x / 8 % 2 && Bit(b, 8 * k + 5) == x / 4 % 2
      && Bit(b, 8 * k + 6) == x / 2 % 2 && Bit(b, 8 * k + 7) == x % 2
  {
  }

  /** The digits of the first three bytes, with zeros behind the last. */
  lemma FirstSextets(b: Bytes)
    ensures Sextet(b, 0) == ByteAt(b, 0) / 4
    ensures Sextet(b, 1) == ByteAt(b, 0) % 4 * 16 + ByteAt(b, 1) / 16
    ensures Sextet(b, 2) == ByteAt(b, 1) % 16 * 4 + ByteAt(b, 2) / 64
    ensures Sextet(b, 3) == ByteAt(b, 2) % 64
  {
    BitsOf(b, 0);
    BitsOf(b, 1);
    BitsOf(b, 2);
    HighBits(ByteAt(b, 0));
    LowBits(ByteAt(b, 0));
    HighBits(ByteAt(b, 1));
    LowBits(ByteAt(b, 1));
    HighBits(ByteAt(b, 2));
    LowBits(ByteAt(b, 2));
  }

  lemma BitBehind(b: Bytes, j: nat)
    requires |b| >= 3
    ensures Bit(b, j + 24) == Bit(b[3..], j)
  {
    assert (j + 24) / 8 == j / 8 + 3 && (j + 24) % 8 == j % 8;
  }

  lemma SextetBehind(b: Bytes, i: nat)
    requires |b| >= 3
    ensures Sextet(b, i + 4) == Sextet(b[3..], i)
  {
    BitBehind(b, 6 * i);
    BitBehind(b, 6 * i + 1);
    BitBehind(b, 6 * i + 2);
    BitBehind(b, 6 * i + 3);
    BitBehind(b, 6 * i + 4);
    BitBehind(b, 6 * i + 5);
  }

  lemma EncodeShort(b: Bytes, i: nat)
    requires 1 <= |b| <= 2
    ensures |Encode(b)| == |b| + 1 && (i < |Encode(b)| ==> Encode(b)[i] == Digit(Sextet(b, i)))
  {
    FirstSextets(b);
  }

  function FirstDigits(b: Bytes): string {
    [Digit(Sextet(b, 0)), Digit(Sextet(b, 1)), Digit(Sextet(b, 2)), Digit(Sextet(b, 3))]
  }

  lemma EncodeThree(b: Bytes)
    requires |b| >= 3
    ensures Encode(b) == FirstDigits(b) + Encode(b[3..])
  {
    FirstSextets(b);
  }

  lemma EncodeHead(b: Bytes, i: nat)
    requires |b| >= 3
    ensures |Encode(b)| == 4 + |Encode(b[3..])|
    ensures i < 4 ==> Encode(b)[i] == Digit(Sextet(b, i))
    ensures 4 <= i < |Encode(b)| ==> Encode(b)[i] == Encode(b[3..])[i - 4]
  {
    EncodeThree(b);
    assert i < 4 ==> FirstDigits(b)[i] == Digit(Sextet(b, i));
  }

  lemma {:induction false} EncodeSextets(b: Bytes, i: nat)
    ensures |Encode(b)| == (8 * |b| + 5) / 6
    ensures i < |Encode(b)| ==> Encode(b)[i] == Digit(Sextet(b, i))
    decreases |b|
  {
    if |b| >= 3 {
      EncodeHead(b, i);
      EncodeSextets(b[3..], if i < 4 then 0 else i - 4);
      if i >= 4 { SextetBehind(b, i - 4); }
    } else if b != [] {
      EncodeShort(b, i);
    }
  }

  /** The text of some bytes: their bits in groups of six, filled up with zeros, each group the letter of the alphabet it
      numbers. */
  lemma EncodeIsBase64(b: Bytes, i: nat)
    ensures |Encode(b)| == (8 * |b| + 5) / 6
    ensures i < |Encode(b)| ==> 0 <= Sextet(b, i) < |Alphabet()| && Encode(b)[i] == Alphabet()[Sextet(b, i)]
  {
    EncodeSextets(b, i);
    if i < |Encode(b)| { DigitIsAlphabet(Sextet(b, i)); }
  }

  // --- the stored text ---

  /** A sealed value is "enc:v1:" and three texts between colons: the wrapping IV, the blob and the wrapping tag. The blob
      is a version byte, the wrapped key, the record's IV, its ciphertext and its tag. */
  lemma EnvelopeIsLaidOut(p: Parts)
    requires WellFormed(p)
    ensures EncodeEnvelope(p) == "enc:v1:" + Encode(p.wrapIV) + ":" + Encode(Blob(p)) + ":" + Encode(p.wrapTag)
    ensures var b, n := Blob(p), |p.recordCT|;
      && |b| == 61 + n && b[0] == 1 && b[1..33] == p.wrappedDEK && b[33..45] == p.recordIV
      && b[45..45 + n] == p.recordCT && b[45 + n..] == p.recordTag
  {
    var iv, blob, tag := Encode(p.wrapIV), Encode(Blob(p)), Encode(p.wrapTag);
    assert "enc" + ":" + ("v1" + ":" + (iv + ":" + (blob + ":" + tag))) == "enc:v1:" + iv + ":" + blob + ":" + tag;
  }

  predicate NoColon(s: string) { forall i | 0 <= i < |s| :: s[i] != ':' }

  function Join(parts: seq<string>): string
    requires parts != []
  {
    if |parts| == 1 then parts[0] else parts[0] + ":" + Join(parts[1..])
  }

  /** Splitting at colons loses nothing. */
  lemma {:induction false} SplitJoins(s: string)
    ensures Join(Split(s)) == s && forall k | 0 <= k < |Split(s)| :: NoColon(Split(s)[k])
  {
    if s != "" {
      var rest := Split(s[1..]);
      SplitJoins(s[1..]);
      assert s == [s[0]] + s[1..];
      if s[0] == ':' {
        assert ([""] + rest)[1..] == rest && "" + ":" + s[1..] == s;
      } else {
        var head := [[s[0]] + rest[0]] + rest[1..];
        assert head[1..] == rest[1..];
        assert |rest| > 1 ==> [s[0]] + (rest[0] + ":" + Join(rest[1..])) == ([s[0]] + rest[0]) + ":" + Join(rest[1..]);
      }
    }
  }

  lemma JoinFive(a: string, b: string, c: string, d: string, e: string)
    ensures Join([a, b, c, d, e]) == a + ":" + (b + ":" + (c + ":" + (d + ":" + e)))
  {
    assert [a, b, c, d, e][1..] == [b, c, d, e] && [b, c, d, e][1..] == [c, d, e];
    assert [c, d, e][1..] == [d, e] && [d, e][1..] == [e];
    assert Join([d, e]) == d + ":" + e;
    assert Join([c, d, e]) == c + ":" + (d + ":" + e);
    assert Join([b, c, d, e]) == b + ":" + (c + ":" + (d + ":" + e));
  }

  lemma SplitFive(a: string, b: string, c: string, d: string, e: string)
    requires NoColon(a) && NoColon(b) && NoColon(c) && NoColon(d) && NoColon(e)
    ensures Split(a + ":" + (b + ":" + (c + ":" + (d + ":" + e)))) == [a, b, c, d, e]
  {
    SplitLast(e);
    SplitFirst(d, e);
    SplitFirst(c, d + ":" + e);
    SplitFirst(b, c + ":" + (d + ":" + e));
    SplitFirst(a, b + ":" + (c + ":" + (d + ":" + e)));
  }

  /** The text has this form, and its three texts decode to the wrapping IV, the blob and the wrapping tag of p. */
  ghost predicate Stands(encoded: string, iv: string, blob: string, tag: string, p: Parts) {
    && NoColon(iv) && NoColon(blob) && NoColon(tag)
    && encoded == "enc" + ":" + ("v1" + ":" + (iv + ":" + (blob + ":" + tag)))
    && Decode(iv) == Some(p.wrapIV) && Decode(blob) == Some(Blob(p)) && Decode(tag) == Some(p.wrapTag)
  }

  lemma PackUnpacks(wrapIV: Bytes, blob: Bytes, wrapTag: Bytes)
    requires |blob| >= BLOB_MIN && blob[0] == BLOB_VERSION
    ensures Blob(Unpack(wrapIV, blob, wrapTag)) == blob
  {
  }

  lemma ParsedStands(encoded: string, p: Parts)
    requires ParseEnvelope(encoded) == Ok(p)
    ensures exists iv, blob, tag :: Stands(encoded, iv, blob, tag, p)
  {
    var parts := Split(encoded);
    SplitJoins(encoded);
    assert parts == ["enc", "v1", parts[2], parts[3], parts[4]];
    JoinFive("enc", "v1", parts[2], parts[3], parts[4]);
    PackUnpacks(p.wrapIV, Decode(parts[3]).value, p.wrapTag);
    assert Stands(encoded, parts[2], parts[3], parts[4], p);
  }

  lemma StandingParses(encoded: string, iv: string, blob: string, tag: string, p: Parts)
    requires WellFormed(p) && Stands(encoded, iv, blob, tag, p)
    ensures ParseEnvelope(encoded) == Ok(p)
  {
    SplitFive("enc", "v1", iv, blob, tag);
    UnpackBlob(p);
  }

  /** Exactly the texts of this form with parts of the pinned sizes parse, and to those parts. */
  lemma ParsesIff(encoded: string, p: Parts)
    ensures ParseEnvelope(encoded) == Ok(p) <==> WellFormed(p) && exists iv, blob, tag :: Stands(encoded, iv, blob, tag, p)
  {
    if ParseEnvelope(encoded) == Ok(p) {
      ParsedStands(encoded, p);
    } else if WellFormed(p) {
      forall iv, blob, tag | Stands(encoded, iv, blob, tag, p) ensures false { StandingParses(encoded, iv, blob, tag, p); }
    }
  }
}
