/** What the server reads from and writes about a stored file (src/attachments.rs): the
    animation test of a PNG and the file name of a download. */
module AttachmentFiles {

  import opened Wrappers

  type Byte = b: int | 0 <= b < 256

  const ACTL: seq<Byte> := [0x61, 0x63, 0x54, 0x4C]
  const IEND: seq<Byte> := [0x49, 0x45, 0x4E, 0x44]

  function Big32(b: seq<Byte>): nat
    requires |b| == 4
  {
    0x100_0000 * (b[0] as int) + 0x1_0000 * (b[1] as int) + 0x100 * (b[2] as int) + b[3] as int
  }

  function ToBig32(n: nat): (b: seq<Byte>)
    requires n < 0x1_0000_0000
    ensures |b| == 4 && Big32(b) == n
  {
    var high, low := n / 0x1_0000, n % 0x1_0000;
    [high / 256, high % 256, low / 256, low % 256]
  }

  // ------------------------------------------------------------------------ chunks

  /** The answer for what follows `offset`, chunk header by chunk header. */
  predicate Animated(bytes: seq<Byte>, offset: nat)
    decreases |bytes| - offset
  {
    if offset + 8 > |bytes| then false else
      var kind := bytes[offset + 4..offset + 8];
      if kind == ACTL then true
      else if kind == IEND then false
      else
        var next := offset + 12 + Big32(bytes[offset..offset + 4]);
        next <= |bytes| && Animated(bytes, next)
  }

  /** `png_is_animated`. */
  method PngIsAnimated(bytes: seq<Byte>) returns (animated: bool)
    ensures animated == Animated(bytes, 8)
  {
    var offset := 8;
    while offset + 8 <= |bytes|
      invariant 8 <= offset && Animated(bytes, 8) == Animated(bytes, offset)
      decreases |bytes| - offset
    {
      var kind := bytes[offset + 4..offset + 8];
      if kind == ACTL {
        return true;
      }
      if kind == IEND {
        return false;
      }
      var next := offset + 12 + Big32(bytes[offset..offset + 4]);
      if next > |bytes| {
        return false;
      }
      offset := next;
    }
    return false;
  }

  /** A chunk of the PNG format: section 5.3 of the W3C PNG Specification. */
  datatype Chunk = Chunk(kind: seq<Byte>, data: seq<Byte>, crc: seq<Byte>)

  predicate WellFormed(c: Chunk) {
    |c.kind| == 4 && |c.data| < 0x1_0000_0000 && |c.crc| == 4
  }

  function Serialize(c: Chunk): seq<Byte>
    requires WellFormed(c)
  {
    ToBig32(|c.data|) + c.kind + c.data + c.crc
  }

  function SerializeAll(chunks: seq<Chunk>): seq<Byte>
    requires forall c | c in chunks :: WellFormed(c)
  {
    if |chunks| == 0 then [] else Serialize(chunks[0]) + SerializeAll(chunks[1..])
  }

  /** What the chunk types alone decide: the first `acTL` or `IEND`, if there is one. */
  function Decides(kinds: seq<seq<Byte>>): Option<bool> {
    if |kinds| == 0 then None
    else if kinds[0] == ACTL then Some(true)
    else if kinds[0] == IEND then Some(false)
    else Decides(kinds[1..])
  }

  function Kinds(chunks: seq<Chunk>): seq<seq<Byte>> {
    seq(|chunks|, i requires 0 <= i < |chunks| => chunks[i].kind)
  }

  /** The walk depends on what follows `offset` only. */
  lemma {:induction false} Shifted(before: seq<Byte>, bytes: seq<Byte>, offset: nat)
    ensures Animated(before + bytes, |before| + offset) == Animated(bytes, offset)
    decreases |bytes| - offset
  {
    if offset + 8 <= |bytes| {
      var all, at := before + bytes, |before| + offset;
      assert all[at..at + 4] == bytes[offset..offset + 4];
      assert all[at + 4..at + 8] == bytes[offset + 4..offset + 8];
      var next := offset + 12 + Big32(bytes[offset..offset + 4]);
      if next <= |bytes| {
        Shifted(before, bytes, next);
      }
    }
  }

  lemma OneChunk(c: Chunk, rest: seq<Byte>)
    requires WellFormed(c)
    ensures Animated(Serialize(c) + rest, 0) ==
            if c.kind == ACTL then true else if c.kind == IEND then false else Animated(rest, 0)
  {
    var bytes := Serialize(c) + rest;
    assert bytes[0..4] == ToBig32(|c.data|);
    assert bytes[4..8] == c.kind;
    Shifted(Serialize(c), rest, 0);
  }

  /** For every file made of chunks the answer is decided by the chunk types: true exactly
      when an `acTL` precedes the first `IEND`, whatever the payloads and checksums hold;
      only a list with neither leaves the answer to the bytes after it. */
  lemma ChunkTypesDecide(signature: seq<Byte>, chunks: seq<Chunk>, rest: seq<Byte>)
    requires |signature| == 8 && forall c | c in chunks :: WellFormed(c)
    ensures Animated(signature + SerializeAll(chunks) + rest, 8) ==
            match Decides(Kinds(chunks)) case Some(answer) => answer case None => Animated(rest, 0)
  {
    var body := SerializeAll(chunks);
    Regrouped(signature, body, rest);
    AfterSignature(signature, body + rest);
    ChunksDecide(chunks, rest);
  }

  lemma AfterSignature(signature: seq<Byte>, body: seq<Byte>)
    requires |signature| == 8
    ensures Animated(signature + body, 8) == Animated(body, 0)
  {
    Shifted(signature, body, 0);
  }

  lemma {:induction false} ChunksDecide(chunks: seq<Chunk>, rest: seq<Byte>)
    requires forall c | c in chunks :: WellFormed(c)
    ensures Animated(SerializeAll(chunks) + rest, 0) ==
            match Decides(Kinds(chunks)) case Some(answer) => answer case None => Animated(rest, 0)
  {
    if |chunks| == 0 {
      assert SerializeAll(chunks) + rest == rest;
    } else {
      var after := SerializeAll(chunks[1..]) + rest;
      Regrouped(Serialize(chunks[0]), SerializeAll(chunks[1..]), rest);
      OneChunk(chunks[0], after);
      ChunksDecide(chunks[1..], rest);
      FirstKind(chunks);
    }
  }

  lemma FirstKind(chunks: seq<Chunk>)
    requires |chunks| > 0
    ensures var kind := chunks[0].kind;
            Decides(Kinds(chunks)) ==
            if kind == ACTL then Some(true) else if kind == IEND then Some(false) else Decides(Kinds(chunks[1..]))
  {
    assert Kinds(chunks)[1..] == Kinds(chunks[1..]);
  }

  /** "An `acTL` chunk precedes the first `IEND`", said directly. */
  lemma {:induction false} DecidesIff(kinds: seq<seq<Byte>>)
    ensures Decides(kinds) == Some(true) <==>
            exists i :: 0 <= i < |kinds| && kinds[i] == [0x61, 0x63, 0x54, 0x4C]
                        && forall j | 0 <= j < i :: kinds[j] != [0x49, 0x45, 0x4E, 0x44]
  {
    if kinds != [] && kinds[0] != ACTL && kinds[0] != IEND {
      var rest := kinds[1..];
      DecidesIff(rest);
      if i :| 0 <= i < |rest| && rest[i] == ACTL && forall j | 0 <= j < i :: rest[j] != IEND {
        assert kinds[i + 1] == ACTL;
        forall j | 0 <= j < i + 1
          ensures kinds[j] != IEND
        {
          assert j > 0 ==> kinds[j] == rest[j - 1];
        }
      }
      if i :| 0 <= i < |kinds| && kinds[i] == ACTL && forall j | 0 <= j < i :: kinds[j] != IEND {
        assert rest[i - 1] == ACTL;
        forall j | 0 <= j < i - 1
          ensures rest[j] != IEND
        {
          assert rest[j] == kinds[j + 1];
        }
      }
    }
  }

  /** The test fails closed: an `acTL` header counts even when its body is cut off or its
      length is nonsense, while any other chunk that runs past the end ends the walk. */
  lemma CutOffChunk(signature: seq<Byte>, chunks: seq<Chunk>, length: seq<Byte>, kind: seq<Byte>, rest: seq<Byte>)
    requires |signature| == 8 && |length| == 4 && |kind| == 4 && forall c | c in chunks :: WellFormed(c)
    requires Decides(Kinds(chunks)).None? && 4 + Big32(length) > |rest|
    ensures Animated(signature + SerializeAll(chunks) + (length + kind + rest), 8) <==> kind == ACTL
  {
    var tail := length + kind + rest;
    assert Animated(tail, 0) <==> kind == ACTL by {
      CutOff(length, kind, rest);
    }
    ChunkTypesDecide(signature, chunks, tail);
  }

  lemma CutOff(length: seq<Byte>, kind: seq<Byte>, rest: seq<Byte>)
    requires |length| == 4 && |kind| == 4 && 4 + Big32(length) > |rest|
    ensures Animated(length + kind + rest, 0) <==> kind == ACTL
  {
    var tail := length + kind + rest;
    assert tail[0..4] == length && tail[4..8] == kind;
  }

  // ---------------------------------------------------------------------- file name

  predicate IsAlphanumeric(b: Byte) {
    0x30 <= b <= 0x39 || 0x41 <= b <= 0x5A || 0x61 <= b <= 0x7A
  }

  /** The unescaped bytes of a `filename*` value: attr-char of RFC 8187. */
  predicate IsAttrChar(b: Byte) {
    IsAlphanumeric(b) || b in {0x21, 0x23, 0x24, 0x26, 0x2B, 0x2D, 0x2E, 0x5E, 0x5F, 0x60, 0x7C, 0x7E}
  }

  const PERCENT: Byte := 0x25

  function HexDigit(n: nat): Byte
    requires n < 16
  {
    if n < 10 then 0x30 + n else 0x41 + n - 10
  }

  function HexValue(b: Byte): Option<nat> {
    if 0x30 <= b <= 0x39 then Some(b - 0x30)
    else if 0x41 <= b <= 0x46 then Some(b - 0x41 + 10)
    else if 0x61 <= b <= 0x66 then Some(b - 0x61 + 10)
    else None
  }

  function Escaped(b: Byte): seq<Byte> {
    if IsAttrChar(b) then [b] else [PERCENT, HexDigit(b / 16), HexDigit(b % 16)]
  }

  function Encoded(name: seq<Byte>): seq<Byte> {
    if name == [] then [] else Encoded(name[..|name| - 1]) + Escaped(name[|name| - 1])
  }

  /** The `filename*` part of `content_disposition`. */
  method EncodeName(name: seq<Byte>) returns (encoded: seq<Byte>)
    ensures encoded == Encoded(name)
  {
    encoded := [];
    for i := 0 to |name|
      invariant encoded == Encoded(name[..i])
    {
      assert name[..i + 1][..i] == name[..i];
      if IsAttrChar(name[i]) {
        encoded := encoded + [name[i]];
      } else {
        encoded := encoded + [PERCENT, HexDigit(name[i] / 16), HexDigit(name[i] % 16)];
      }
    }
    assert name[..|name|] == name;
  }

  /** How a receiver reads an ext-value: section 3.2.1 of RFC 8187. */
  function Decoded(text: seq<Byte>): Option<seq<Byte>> {
    if text == [] then Some([])
    else if IsAttrChar(text[0]) then
      var rest := Decoded(text[1..]);
      if rest.None? then None else Some([text[0]] + rest.value)
    else if text[0] == PERCENT && |text| >= 3 && HexValue(text[1]).Some? && HexValue(text[2]).Some? then
      var rest := Decoded(text[3..]);
      if rest.None? then None else Some([HexValue(text[1]).value * 16 + HexValue(text[2]).value] + rest.value)
    else None
  }

  lemma DecodeEscaped(b: Byte, rest: seq<Byte>)
    ensures Decoded(Escaped(b) + rest) == if Decoded(rest).None? then None else Some([b] + Decoded(rest).value)
  {
    var text := Escaped(b) + rest;
    if IsAttrChar(b) {
      assert text[1..] == rest;
    } else {
      assert text[3..] == rest;
      assert HexValue(HexDigit(b / 16)) == Some(b / 16) && HexValue(HexDigit(b % 16)) == Some(b % 16);
    }
  }

  /** The name a client reads back is the stored name, byte for byte. */
  lemma NameRoundTrip(name: seq<Byte>)
    ensures Decoded(Encoded(name)) == Some(name)
  {
    DecodeAfter(name, []);
    assert Encoded(name) + [] == Encoded(name) && name + [] == name;
  }

  lemma {:induction false} DecodeAfter(name: seq<Byte>, rest: seq<Byte>)
    requires Decoded(rest).Some?
    ensures Decoded(Encoded(name) + rest) == Some(name + Decoded(rest).value)
  {
    if name == [] {
      assert Encoded(name) + rest == rest && name + Decoded(rest).value == Decoded(rest).value;
    } else {
      var n := |name| - 1;
      var more := Escaped(name[n]) + rest;
      DecodeEscaped(name[n], rest);
      DecodeAfter(name[..n], more);
      Regrouped(Encoded(name[..n]), Escaped(name[n]), rest);
      Regrouped(name[..n], [name[n]], Decoded(rest).value);
      assert name == name[..n] + [name[n]];
    }
  }

  lemma Regrouped(a: seq<Byte>, b: seq<Byte>, c: seq<Byte>)
    ensures a + b + c == a + (b + c)
  {}

  /** The encoding cannot break out of the header: it holds only letters, digits, percent
      signs and the twelve marks of an attr-char, so no control character, space, quote,
      semicolon, backslash or byte from 0x80 up. */
  lemma {:induction false} EncodedIsSafe(name: seq<Byte>)
    ensures forall b | b in Encoded(name) :: IsAttrChar(b) || b == PERCENT
    ensures forall b | b in Encoded(name) ::
              0x21 <= b < 0x7F && b !in {0x22, 0x27, 0x28, 0x29, 0x2A, 0x2C, 0x2F, 0x3A, 0x3B, 0x3C, 0x3D, 0x3E, 0x3F,
                                         0x40, 0x5B, 0x5C, 0x5D, 0x7B, 0x7D}
  {
    if name != [] {
      EncodedIsSafe(name[..|name| - 1]);
      EscapedIsSafe(name[|name| - 1]);
    }
  }

  lemma EscapedIsSafe(b: Byte)
    ensures forall x | x in Escaped(b) :: IsAttrChar(x) || x == PERCENT
  {}

  /** Bytes that need no escape: letters, digits and the marks of RFC 8187. */
  predicate Plain(b: Byte) {
    || 'a' <= b as char <= 'z' || 'A' <= b as char <= 'Z' || '0' <= b as char <= '9'
    || b as char in "!#$&+-.^_`|~"
  }

  lemma PlainIsAttrChar(b: Byte)
    requires Plain(b)
    ensures IsAttrChar(b)
  {}

  lemma {:induction false} AttrCharsAreKept(name: seq<Byte>)
    requires forall b | b in name :: IsAttrChar(b)
    ensures Encoded(name) == name
  {
    if name != [] {
      var n := |name| - 1;
      assert name == name[..n] + [name[n]];
      AttrCharsAreKept(name[..n]);
    }
  }

  /** A name made of such bytes is sent as it is. */
  lemma PlainNames(name: seq<Byte>)
    requires forall b | b in name :: Plain(b)
    ensures Encoded(name) == name
  {
    forall b | b in name ensures IsAttrChar(b) {
      PlainIsAttrChar(b);
    }
    AttrCharsAreKept(name);
  }

  predicate UpperHex(b: Byte) {
    '0' <= b as char <= '9' || 'A' <= b as char <= 'F'
  }

  /** Every percent sign starts an escape of two upper-case hexadecimal digits. */
  lemma {:induction false} EscapesAreWhole(name: seq<Byte>, k: nat)
    requires k < |Encoded(name)| && Encoded(name)[k] as char == '%'
    ensures k + 2 < |Encoded(name)| && UpperHex(Encoded(name)[k + 1]) && UpperHex(Encoded(name)[k + 2])
  {
    var before := Encoded(name[..|name| - 1]);
    if k < |before| {
      EscapesAreWhole(name[..|name| - 1], k);
    }
  }
}
