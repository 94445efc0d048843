/** The enc:v1 envelope (internal/secret/envelope.go): unpadded base64, the persisted layout, and key rotation by
    rewrapping. The AEAD is abstract; random bytes are arguments. */
module Envelope {

  type Byte = x: int | 0 <= x < 256

  type Bytes = seq<Byte>

  datatype Option<T> = None | Some(value: T)

  // --- base64 (section 4 of RFC 4648, unpadded per section 3.2) ---

  function Digit(v: int): char
    requires 0 <= v < 64
  {
    if v < 26 then 'A' + v as char
    else if v < 52 then 'a' + (v - 26) as char
    else if v < 62 then '0' + (v - 52) as char
    else if v == 62 then '+' else '/'
  }

  function ValueOf(c: char): (v: int)
    ensures -1 <= v < 64
  {
    if 'A' <= c <= 'Z' then (c - 'A') as int
    else if 'a' <= c <= 'z' then (c - 'a') as int + 26
    else if '0' <= c <= '9' then (c - '0') as int + 52
    else if c == '+' then 62 else if c == '/' then 63 else -1
  }

  lemma DigitRoundTrip(v: int)
    requires 0 <= v < 64
    ensures ValueOf(Digit(v)) == v && Digit(v) != ':' && Digit(v) != '\r' && Digit(v) != '\n'
  {
  }

  function Encode(b: Bytes): string {
    if |b| == 0 then ""
    else if |b| == 1 then [Digit(b[0] / 4), Digit(b[0] % 4 * 16)]
    else if |b| == 2 then [Digit(b[0] / 4), Digit(b[0] % 4 * 16 + b[1] / 16), Digit(b[1] % 16 * 4)]
    else
      [Digit(b[0] / 4), Digit(b[0] % 4 * 16 + b[1] / 16), Digit(b[1] % 16 * 4 + b[2] / 64), Digit(b[2] % 64)]
      + Encode(b[3..])
  }

  /** Line breaks inside the text are skipped. */
  function Strip(s: string): string {
    if s == "" then "" else (if s[0] == '\r' || s[0] == '\n' then "" else [s[0]]) + Strip(s[1..])
  }

  predicate AllDigits(s: string) { forall i | 0 <= i < |s| :: ValueOf(s[i]) >= 0 }

  /** The bits past the last whole byte are ignored; a single leftover digit is an error. */
  function DecodeDigits(s: string): Option<Bytes>
    requires AllDigits(s)
  {
    if |s| == 0 then Some([])
    else if |s| == 1 then None
    else
      var v0, v1 := ValueOf(s[0]), ValueOf(s[1]);
      var b0 := v0 * 4 + v1 / 16;
      if |s| == 2 then Some([b0])
      else
        var v2 := ValueOf(s[2]);
        var b1 := v1 % 16 * 16 + v2 / 4;
        if |s| == 3 then Some([b0, b1])
        else
          var b2 := v2 % 4 * 64 + ValueOf(s[3]);
          var rest := DecodeDigits(s[4..]);
          if rest.None? then None else Some([b0, b1, b2] + rest.value)
  }

  function Decode(s: string): Option<Bytes> {
    var t := Strip(s);
    if AllDigits(t) then DecodeDigits(t) else None
  }

  lemma {:induction false} StripPlain(s: string)
    requires AllDigits(s)
    ensures Strip(s) == s
  {
    if s != "" {
      assert ValueOf(s[0]) >= 0;
      assert AllDigits(s[1..]) by { assert forall i | 0 <= i < |s| - 1 :: s[1..][i] == s[i + 1]; }
      StripPlain(s[1..]);
    }
  }

  /** The digits of three bytes give the bytes back. */
  lemma Sextets(b0: Byte, b1: Byte, b2: Byte)
    ensures b0 / 4 * 4 + (b0 % 4 * 16 + b1 / 16) / 16 == b0
    ensures (b0 % 4 * 16 + b1 / 16) % 16 * 16 + (b1 % 16 * 4 + b2 / 64) / 4 == b1
    ensures (b1 % 16 * 4 + b2 / 64) % 4 * 64 + b2 % 64 == b2
  {
  }

  lemma DecodeQuantum(v0: int, v1: int, v2: int, v3: int, t: string)
    requires 0 <= v0 < 64 && 0 <= v1 < 64 && 0 <= v2 < 64 && 0 <= v3 < 64
    requires AllDigits(t) && DecodeDigits(t).Some?
    ensures var s := [Digit(v0), Digit(v1), Digit(v2), Digit(v3)] + t;
      AllDigits(s)
      && DecodeDigits(s) == Some([v0 * 4 + v1 / 16, v1 % 16 * 16 + v2 / 4, v2 % 4 * 64 + v3] + DecodeDigits(t).value)
  {
    DigitRoundTrip(v0);
    DigitRoundTrip(v1);
    DigitRoundTrip(v2);
    DigitRoundTrip(v3);
    assert ([Digit(v0), Digit(v1), Digit(v2), Digit(v3)] + t)[4..] == t;
  }

  lemma DecodePartial(v0: int, v1: int, v2: int)
    requires 0 <= v0 < 64 && 0 <= v1 < 64 && 0 <= v2 < 64
    ensures AllDigits([Digit(v0), Digit(v1)]) && DecodeDigits([Digit(v0), Digit(v1)]) == Some([v0 * 4 + v1 / 16])
    ensures AllDigits([Digit(v0), Digit(v1), Digit(v2)])
    ensures DecodeDigits([Digit(v0), Digit(v1), Digit(v2)]) == Some([v0 * 4 + v1 / 16, v1 % 16 * 16 + v2 / 4])
  {
    DigitRoundTrip(v0);
    DigitRoundTrip(v1);
    DigitRoundTrip(v2);
  }

  lemma DecodeOne(x: Byte)
    ensures var s := [Digit(x / 4), Digit(x % 4 * 16)]; AllDigits(s) && DecodeDigits(s) == Some([x])
  {
    assert x / 4 * 4 + x % 4 * 16 / 16 == x;
    DecodePartial(x / 4, x % 4 * 16, 0);
  }

  lemma DecodeTwo(x: Byte, y: Byte)
    ensures var s := [Digit(x / 4), Digit(x % 4 * 16 + y / 16), Digit(y % 16 * 4)];
      AllDigits(s) && DecodeDigits(s) == Some([x, y])
  {
    var v1, v2 := x % 4 * 16 + y / 16, y % 16 * 4;
    assert x / 4 * 4 + v1 / 16 == x;
    assert v1 % 16 * 16 + v2 / 4 == y;
    DecodePartial(x / 4, v1, v2);
  }

  lemma DecodeThree(x: Byte, y: Byte, z: Byte, t: string)
    requires AllDigits(t) && DecodeDigits(t).Some?
    ensures var s := [Digit(x / 4), Digit(x % 4 * 16 + y / 16), Digit(y % 16 * 4 + z / 64), Digit(z % 64)] + t;
      AllDigits(s) && DecodeDigits(s) == Some([x, y, z] + DecodeDigits(t).value)
  {
    Sextets(x, y, z);
    DecodeQuantum(x / 4, x % 4 * 16 + y / 16, y % 16 * 4 + z / 64, z % 64, t);
  }

  lemma {:induction false} DecodeDigitsUndoesEncode(b: Bytes)
    ensures AllDigits(Encode(b)) && DecodeDigits(Encode(b)) == Some(b)
  {
    if |b| == 1 {
      DecodeOne(b[0]);
      assert b == [b[0]];
    } else if |b| == 2 {
      DecodeTwo(b[0], b[1]);
      assert b == [b[0], b[1]];
    } else if |b| >= 3 {
      var rest := b[3..];
      DecodeDigitsUndoesEncode(rest);
      DecodeThree(b[0], b[1], b[2], Encode(rest));
      FirstThree(b);
    }
  }

  lemma FirstThree(b: Bytes)
    requires |b| >= 3
    ensures [b[0], b[1], b[2]] + b[3..] == b
  {
  }

  /** Decoding undoes encoding, for every length. */
  lemma DecodeUndoesEncode(b: Bytes)
    ensures Decode(Encode(b)) == Some(b)
  {
    DecodeDigitsUndoesEncode(b);
    StripPlain(Encode(b));
  }

  // --- the persisted form ---

  const IV_SIZE := 12
  const TAG_SIZE := 16
  const DEK_SIZE := 32
  const KEK_SIZE := 32
  const BLOB_VERSION: Byte := 1
  const BLOB_MIN := 1 + DEK_SIZE + IV_SIZE + TAG_SIZE

  datatype Parts = Parts(wrapIV: Bytes, wrappedDEK: Bytes, wrapTag: Bytes, recordIV: Bytes, recordCT: Bytes, recordTag: Bytes)

  predicate WellFormed(p: Parts) {
    && |p.wrapIV| == IV_SIZE && |p.wrappedDEK| == DEK_SIZE && |p.wrapTag| == TAG_SIZE
    && |p.recordIV| == IV_SIZE && |p.recordTag| == TAG_SIZE
  }

  datatype Error = InvalidFormat | UnknownVersion | BadKey | DecryptFailed

  datatype Result<T> = Ok(value: T) | Err(error: Error)

  function Split(s: string): (parts: seq<string>)
    ensures parts != []
  {
    if s == "" then [""]
    else
      var rest := Split(s[1..]);
      if s[0] == ':' then [""] + rest else [[s[0]] + rest[0]] + rest[1..]
  }

  function Blob(p: Parts): Bytes { [BLOB_VERSION] + p.wrappedDEK + p.recordIV + p.recordCT + p.recordTag }

  function EncodeEnvelope(p: Parts): string {
    "enc" + ":" + ("v1" + ":" + (Encode(p.wrapIV) + ":" + (Encode(Blob(p)) + ":" + Encode(p.wrapTag))))
  }

  function Unpack(wrapIV: Bytes, blob: Bytes, wrapTag: Bytes): Parts
    requires |blob| >= BLOB_MIN
  {
    var ct := 1 + DEK_SIZE + IV_SIZE;
    Parts(wrapIV, blob[1..1 + DEK_SIZE], wrapTag, blob[1 + DEK_SIZE..ct], blob[ct..|blob| - TAG_SIZE], blob[|blob| - TAG_SIZE..])
  }

  function ParseEnvelope(encoded: string): (r: Result<Parts>)
    ensures r.Ok? ==> WellFormed(r.value)
  {
    var parts := Split(encoded);
    if |parts| != 5 || parts[0] != "enc" then Err(InvalidFormat)
    else if parts[1] != "v1" then Err(UnknownVersion)
    else
      var wrapIV := Decode(parts[2]);
      if wrapIV.None? || |wrapIV.value| != IV_SIZE then Err(InvalidFormat)
      else
        var blob := Decode(parts[3]);
        if blob.None? then Err(InvalidFormat)
        else
          var wrapTag := Decode(parts[4]);
          if wrapTag.None? || |wrapTag.value| != TAG_SIZE then Err(InvalidFormat)
          else if |blob.value| < BLOB_MIN then Err(InvalidFormat)
          else if blob.value[0] != BLOB_VERSION then Err(UnknownVersion)
          else Ok(Unpack(wrapIV.value, blob.value, wrapTag.value))
  }

  lemma {:induction false} SplitFirst(a: string, rest: string)
    requires forall i | 0 <= i < |a| :: a[i] != ':'
    ensures Split(a + ":" + rest) == [a] + Split(rest)
  {
    if a == "" {
      assert a + ":" + rest == ":" + rest && (":" + rest)[1..] == rest;
    } else {
      var s := a + ":" + rest;
      assert s[1..] == a[1..] + ":" + rest;
      SplitFirst(a[1..], rest);
      assert [a[0]] + a[1..] == a;
    }
  }

  lemma {:induction false} SplitLast(a: string)
    requires forall i | 0 <= i < |a| :: a[i] != ':'
    ensures Split(a) == [a]
  {
    if a != "" {
      SplitLast(a[1..]);
      assert [a[0]] + a[1..] == a;
    }
  }

  lemma PlainHasNoColon(b: Bytes)
    ensures forall i | 0 <= i < |Encode(b)| :: Encode(b)[i] != ':'
  {
    DecodeDigitsUndoesEncode(b);
    forall i | 0 <= i < |Encode(b)| ensures Encode(b)[i] != ':' {
      assert ValueOf(Encode(b)[i]) >= 0;
    }
  }

  lemma SplitEnvelope(p: Parts)
    ensures Split(EncodeEnvelope(p)) == ["enc", "v1", Encode(p.wrapIV), Encode(Blob(p)), Encode(p.wrapTag)]
  {
    var e2, e3, e4 := Encode(p.wrapIV), Encode(Blob(p)), Encode(p.wrapTag);
    PlainHasNoColon(p.wrapIV);
    PlainHasNoColon(Blob(p));
    PlainHasNoColon(p.wrapTag);
    SplitLast(e4);
    SplitFirst(e3, e4);
    SplitFirst(e2, e3 + ":" + e4);
    SplitFirst("v1", e2 + ":" + (e3 + ":" + e4));
    SplitFirst("enc", "v1" + ":" + (e2 + ":" + (e3 + ":" + e4)));
  }

  lemma UnpackBlob(p: Parts)
    requires WellFormed(p)
    ensures |Blob(p)| >= BLOB_MIN && Blob(p)[0] == BLOB_VERSION && Unpack(p.wrapIV, Blob(p), p.wrapTag) == p
  {
    var b := Blob(p);
    var ct := 1 + DEK_SIZE + IV_SIZE;
    assert b[1..1 + DEK_SIZE] == p.wrappedDEK;
    assert b[1 + DEK_SIZE..ct] == p.recordIV;
    assert b[ct..|b| - TAG_SIZE] == p.recordCT;
    assert b[|b| - TAG_SIZE..] == p.recordTag;
  }

  /** Parsing undoes encoding, for records of every length. */
  lemma ParseUndoesEncode(p: Parts)
    requires WellFormed(p)
    ensures ParseEnvelope(EncodeEnvelope(p)) == Ok(p)
  {
    SplitEnvelope(p);
    DecodeUndoesEncode(p.wrapIV);
    DecodeUndoesEncode(Blob(p));
    DecodeUndoesEncode(p.wrapTag);
    UnpackBlob(p);
  }

  // --- sealing, opening, rotating ---

  datatype Aead = Aead(seal: (Bytes, Bytes, Bytes) -> Bytes, open: (Bytes, Bytes, Bytes) -> Option<Bytes>)

  /** seal(key, iv, plaintext) appends a tag, and open undoes it. */
  ghost predicate Correct(aead: Aead) {
    forall k, iv, p ::
      |aead.seal(k, iv, p)| == |p| + TAG_SIZE && aead.open(k, iv, aead.seal(k, iv, p)) == Some(p)
  }

  /** The key sizes the block cipher takes. */
  predicate CipherKey(k: Bytes) { |k| == 16 || |k| == 24 || |k| == 32 }

  function Body(sealed: Bytes): Bytes
    requires |sealed| >= TAG_SIZE
  {
    sealed[..|sealed| - TAG_SIZE]
  }

  function Tag(sealed: Bytes): Bytes
    requires |sealed| >= TAG_SIZE
  {
    sealed[|sealed| - TAG_SIZE..]
  }

  ghost function Seal(aead: Aead, kek: Bytes, plaintext: Bytes, dek: Bytes, recordIV: Bytes, wrapIV: Bytes): Result<string>
    requires Correct(aead) && |dek| == DEK_SIZE && |recordIV| == IV_SIZE && |wrapIV| == IV_SIZE
  {
    if |kek| != KEK_SIZE then Err(BadKey)
    else
      var record := aead.seal(dek, recordIV, plaintext);
      var wrapped := aead.seal(kek, wrapIV, dek);
      Ok(EncodeEnvelope(Parts(wrapIV, Body(wrapped), Tag(wrapped), recordIV, Body(record), Tag(record))))
  }

  function Open(aead: Aead, kek: Bytes, encoded: string): Result<Bytes> {
    var env := ParseEnvelope(encoded);
    if env.Err? then Err(env.error)
    else if |kek| != KEK_SIZE then Err(BadKey)
    else
      var dek := aead.open(kek, env.value.wrapIV, env.value.wrappedDEK + env.value.wrapTag);
      if dek.None? || |dek.value| != DEK_SIZE then Err(DecryptFailed)
      else
        var plaintext := aead.open(dek.value, env.value.recordIV, env.value.recordCT + env.value.recordTag);
        if plaintext.None? then Err(DecryptFailed) else Ok(plaintext.value)
  }

  ghost function Rewrap(aead: Aead, oldKEK: Bytes, newKEK: Bytes, encoded: string, wrapIV: Bytes): Result<string>
    requires Correct(aead) && |wrapIV| == IV_SIZE
  {
    var env := ParseEnvelope(encoded);
    if env.Err? then Err(env.error)
    else if !CipherKey(oldKEK) then Err(BadKey)
    else
      var dek := aead.open(oldKEK, env.value.wrapIV, env.value.wrappedDEK + env.value.wrapTag);
      if dek.None? then Err(DecryptFailed)
      else if !CipherKey(newKEK) then Err(BadKey)
      else
        var wrapped := aead.seal(newKEK, wrapIV, dek.value);
        Ok(EncodeEnvelope(env.value.(wrapIV := wrapIV, wrappedDEK := Body(wrapped), wrapTag := Tag(wrapped))))
  }

  /** encoded holds this record, its DEK wrapped under kek. */
  ghost predicate HoldsRecord(aead: Aead, encoded: string, kek: Bytes, dek: Bytes, recordIV: Bytes, record: Bytes)
    requires |record| >= TAG_SIZE
  {
    var env := ParseEnvelope(encoded);
    && env.Ok? && |dek| == DEK_SIZE
    && aead.open(kek, env.value.wrapIV, env.value.wrappedDEK + env.value.wrapTag) == Some(dek)
    && env.value.recordIV == recordIV && env.value.recordCT == Body(record) && env.value.recordTag == Tag(record)
  }

  lemma BodyTag(sealed: Bytes)
    requires |sealed| >= TAG_SIZE
    ensures Body(sealed) + Tag(sealed) == sealed && |Tag(sealed)| == TAG_SIZE && |Body(sealed)| == |sealed| - TAG_SIZE
  {
  }

  lemma SealHolds(aead: Aead, kek: Bytes, plaintext: Bytes, dek: Bytes, recordIV: Bytes, wrapIV: Bytes)
    requires Correct(aead) && |dek| == DEK_SIZE && |recordIV| == IV_SIZE && |wrapIV| == IV_SIZE && |kek| == KEK_SIZE
    ensures var s := Seal(aead, kek, plaintext, dek, recordIV, wrapIV);
      s.Ok? && HoldsRecord(aead, s.value, kek, dek, recordIV, aead.seal(dek, recordIV, plaintext))
  {
    var record := aead.seal(dek, recordIV, plaintext);
    var wrapped := aead.seal(kek, wrapIV, dek);
    BodyTag(record);
    BodyTag(wrapped);
    ParseUndoesEncode(Parts(wrapIV, Body(wrapped), Tag(wrapped), recordIV, Body(record), Tag(record)));
  }

  lemma RewrapHolds(aead: Aead, oldKEK: Bytes, newKEK: Bytes, encoded: string, wrapIV: Bytes,
                    dek: Bytes, recordIV: Bytes, record: Bytes)
    requires Correct(aead) && |wrapIV| == IV_SIZE && CipherKey(oldKEK) && CipherKey(newKEK) && |record| >= TAG_SIZE
    requires HoldsRecord(aead, encoded, oldKEK, dek, recordIV, record)
    ensures var s := Rewrap(aead, oldKEK, newKEK, encoded, wrapIV);
      s.Ok? && HoldsRecord(aead, s.value, newKEK, dek, recordIV, record)
  {
    var env := ParseEnvelope(encoded).value;
    var wrapped := aead.seal(newKEK, wrapIV, dek);
    BodyTag(wrapped);
    ParseUndoesEncode(env.(wrapIV := wrapIV, wrappedDEK := Body(wrapped), wrapTag := Tag(wrapped)));
  }

  datatype Rotation = Rotation(kek: Bytes, wrapIV: Bytes)

  ghost function RewrapAll(aead: Aead, kek: Bytes, encoded: string, rotations: seq<Rotation>): Result<string>
    requires Correct(aead) && forall i | 0 <= i < |rotations| :: |rotations[i].wrapIV| == IV_SIZE
    decreases |rotations|
  {
    if rotations == [] then Ok(encoded)
    else
      var r := Rewrap(aead, kek, rotations[0].kek, encoded, rotations[0].wrapIV);
      if r.Err? then r else RewrapAll(aead, rotations[0].kek, r.value, rotations[1..])
  }

  function LastKEK(kek: Bytes, rotations: seq<Rotation>): Bytes {
    if rotations == [] then kek else rotations[|rotations| - 1].kek
  }

  lemma {:induction false} RewrapAllHolds(aead: Aead, kek: Bytes, encoded: string, rotations: seq<Rotation>,
                                          dek: Bytes, recordIV: Bytes, record: Bytes)
    requires Correct(aead) && CipherKey(kek) && |record| >= TAG_SIZE
    requires forall i | 0 <= i < |rotations| :: |rotations[i].wrapIV| == IV_SIZE && CipherKey(rotations[i].kek)
    requires HoldsRecord(aead, encoded, kek, dek, recordIV, record)
    ensures var s := RewrapAll(aead, kek, encoded, rotations);
      s.Ok? && HoldsRecord(aead, s.value, LastKEK(kek, rotations), dek, recordIV, record)
    decreases |rotations|
  {
    if rotations != [] {
      var k, iv := rotations[0].kek, rotations[0].wrapIV;
      RewrapHolds(aead, kek, k, encoded, iv, dek, recordIV, record);
      RewrapAllHolds(aead, k, Rewrap(aead, kek, k, encoded, iv).value, rotations[1..], dek, recordIV, record);
    }
  }

  /** However often a sealed value is rotated, its record stays byte for byte what was sealed, and opening it under the
      last key returns the plaintext exactly when that key has the size Open insists on. Rewrap does not insist on it:
      it takes any key the cipher takes, so a rotation to a shorter key yields a value Open refuses. */
  lemma RotationKeepsMeaning(aead: Aead, kek: Bytes, plaintext: Bytes, dek: Bytes, recordIV: Bytes, wrapIV: Bytes,
                             rotations: seq<Rotation>)
    requires Correct(aead) && |dek| == DEK_SIZE && |recordIV| == IV_SIZE && |wrapIV| == IV_SIZE && |kek| == KEK_SIZE
    requires forall i | 0 <= i < |rotations| :: |rotations[i].wrapIV| == IV_SIZE && CipherKey(rotations[i].kek)
    ensures var sealed := Seal(aead, kek, plaintext, dek, recordIV, wrapIV);
      && sealed.Ok?
      && var rotated := RewrapAll(aead, kek, sealed.value, rotations);
      && rotated.Ok?
      && var (a, b) := (ParseEnvelope(sealed.value), ParseEnvelope(rotated.value));
      && a.Ok? && b.Ok?
      && a.value.recordIV == b.value.recordIV && a.value.recordCT == b.value.recordCT && a.value.recordTag == b.value.recordTag
      && Open(aead, LastKEK(kek, rotations), rotated.value)
         == if |LastKEK(kek, rotations)| == KEK_SIZE then Ok(plaintext) else Err(BadKey)
  {
    var record := aead.seal(dek, recordIV, plaintext);
    SealHolds(aead, kek, plaintext, dek, recordIV, wrapIV);
    var sealed := Seal(aead, kek, plaintext, dek, recordIV, wrapIV).value;
    RewrapAllHolds(aead, kek, sealed, rotations, dek, recordIV, record);
    BodyTag(record);
  }
}
