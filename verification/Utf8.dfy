/** Lossy UTF-8 decoding of a byte chunk, as applied to each chunk of a streamed body
    (crates/workflow_engine_llm_openai/src/streaming.rs:81): every maximal ill-formed
    piece becomes one replacement character. */
module Utf8 {
  newtype byte = x: int | 0 <= x < 256

  const REPLACEMENT: char := '\U{FFFD}'

  predicate IsContinuation(b: byte) { 0x80 <= b < 0xC0 }

  /** Length announced by a first byte; zero for a byte no sequence starts with. */
  function Announced(b: byte): int {
    if b < 0x80 then 1
    else if 0xC2 <= b < 0xE0 then 2
    else if 0xE0 <= b < 0xF0 then 3
    else if 0xF0 <= b < 0xF5 then 4
    else 0
  }

  /** The second byte excludes overlong forms, surrogates and values past U+10FFFF. */
  predicate SecondFits(first: byte, second: byte) {
    && IsContinuation(second)
    && (first == 0xE0 ==> second >= 0xA0)
    && (first == 0xED ==> second < 0xA0)
    && (first == 0xF0 ==> second >= 0x90)
    && (first == 0xF4 ==> second < 0x90)
  }

  /** Byte `i` may stand at place `i` of the sequence that starts the bytes. */
  predicate Fits(bytes: seq<byte>, i: nat)
    requires 1 <= i < |bytes|
  {
    if i == 1 then SecondFits(bytes[0], bytes[1]) else IsContinuation(bytes[i])
  }

  /** Bytes of the first piece: a whole character, or its longest fitting beginning. */
  function PieceLength(bytes: seq<byte>): (n: nat)
    requires bytes != []
    ensures 1 <= n <= |bytes| && n <= Max1(Announced(bytes[0]))
    ensures forall i :: 1 <= i < n ==> Fits(bytes, i)
    ensures n < Announced(bytes[0]) && n < |bytes| ==> !Fits(bytes, n)
  {
    var m := Announced(bytes[0]);
    if m < 2 || |bytes| < 2 || !Fits(bytes, 1) then 1
    else if m < 3 || |bytes| < 3 || !Fits(bytes, 2) then 2
    else if m < 4 || |bytes| < 4 || !Fits(bytes, 3) then 3
    else 4
  }

  function Max1(n: int): int { if n >= 1 then n else 1 }

  function Bits(b: byte): int { b as int % 64 }

  function Character(bytes: seq<byte>): char
    requires bytes != []
  {
    var n, m, b := PieceLength(bytes), Announced(bytes[0]), bytes[0] as int;
    if n != m then REPLACEMENT
    else if n == 1 then b as char
    else if n == 2 then ((b - 0xC0) * 64 + Bits(bytes[1])) as char
    else if n == 3 then
      assert Fits(bytes, 1);
      ((b - 0xE0) * 4096 + Bits(bytes[1]) * 64 + Bits(bytes[2])) as char
    else
      assert Fits(bytes, 1);
      ((b - 0xF0) * 262144 + Bits(bytes[1]) * 4096 + Bits(bytes[2]) * 64 + Bits(bytes[3])) as char
  }

  function Decode(bytes: seq<byte>): string {
    if bytes == [] then ""
    else [Character(bytes)] + Decode(bytes[PieceLength(bytes)..])
  }

  /** Some piece of `a` is a beginning that runs to the very end of `a`, and the first
      byte of `b` continues it: the cut between the two falls inside a character. */
  predicate CutsCharacter(a: seq<byte>, b: seq<byte>) {
    if a == [] || b == [] then false
    else
      var n := PieceLength(a);
      if n == |a| then n < Announced(a[0]) && Fits(a + [b[0]], n)
      else CutsCharacter(a[n..], b)
  }

  /** Decoding chunk by chunk is decoding the whole exactly at character boundaries. */
  lemma {:induction false} DecodeSplitsIff(a: seq<byte>, b: seq<byte>)
    ensures !CutsCharacter(a, b) ==> Decode(a + b) == Decode(a) + Decode(b)
    ensures CutsCharacter(a, b) ==> |Decode(a + b)| < |Decode(a)| + |Decode(b)|
    decreases |a|
  {
    hide Character, PieceLength, Announced, Fits;
    if a == [] {
      assert a + b == b;
    } else if b == [] {
      assert a + b == a;
    } else if CutsCharacter(a, b) && PieceLength(a) == |a| {
      CutLosesCharacter(a, b);
    } else {
      var rest := a[PieceLength(a)..];
      DecodeSplitsIff(rest, b);
      DecodeTail(a, b);
      assert Decode(a + b) == [Character(a)] + Decode(rest + b);
      assert [Character(a)] + (Decode(rest) + Decode(b)) == ([Character(a)] + Decode(rest)) + Decode(b);
    }
  }

  lemma DecodeTail(a: seq<byte>, b: seq<byte>)
    requires a != [] && b != []
    requires PieceLength(a) < |a| || !CutsCharacter(a, b)
    ensures Decode(a + b) == [Character(a)] + Decode(a[PieceLength(a)..] + b)
    ensures CutsCharacter(a, b) <==> CutsCharacter(a[PieceLength(a)..], b)
  {
    FirstPieceStable(a, b);
    assert (a + b)[PieceLength(a)..] == a[PieceLength(a)..] + b;
  }

  /** Unless the cut falls inside it, the first piece is decoded alike with more bytes behind it. */
  lemma FirstPieceStable(a: seq<byte>, b: seq<byte>)
    requires a != [] && b != []
    requires PieceLength(a) < |a| || !CutsCharacter(a, b)
    ensures PieceLength(a + b) == PieceLength(a) && Character(a + b) == Character(a)
  {
    var n, ab := PieceLength(a), a + b;
    assert forall i :: 1 <= i < |a| ==> Fits(ab, i) == Fits(a, i);
    if n == |a| {
      assert (a + [b[0]])[n] == ab[n];
    }
  }

  /** A cut inside a character costs at least one extra replacement character. */
  lemma CutLosesCharacter(a: seq<byte>, b: seq<byte>)
    requires CutsCharacter(a, b) && PieceLength(a) == |a|
    ensures |Decode(a + b)| < |Decode(a)| + |Decode(b)|
  {
    var ab, n := a + b, PieceLength(a + b);
    assert forall i :: 1 <= i < |a| ==> Fits(ab, i) == Fits(a, i);
    assert (a + [b[0]])[|a|] == ab[|a|];
    assert n > |a|;
    var j := n - |a|;
    assert ab[n..] == b[j..];
    assert a[|a|..] == [];
    assert |Decode(a)| == 1;
    forall i | 0 <= i < j ensures IsContinuation(b[i]) {
      assert Fits(ab, |a| + i);
    }
    ContinuationsAlone(b, j);
  }

  lemma {:induction false} ContinuationsAlone(b: seq<byte>, j: nat)
    requires j <= |b| && forall i :: 0 <= i < j ==> IsContinuation(b[i])
    ensures |Decode(b)| == j + |Decode(b[j..])|
  {
    if j > 0 {
      assert PieceLength(b) == 1;
      assert b[1..][j - 1..] == b[j..];
      ContinuationsAlone(b[1..], j - 1);
    }
  }

  /** The concrete loss: the two bytes of U+00E9 in two chunks become two replacements. */
  lemma CutInsideAccent()
    ensures Decode([0xC3, 0xA9]) == "\U{00E9}"
    ensures Decode([0xC3]) + Decode([0xA9]) == [REPLACEMENT, REPLACEMENT]
  {
    assert Decode([]) == "";
    assert [0xC3 as byte, 0xA9 as byte][2..] == [];
    assert [0xC3 as byte][1..] == [] == [0xA9 as byte][1..];
  }

  /** Every cut between consecutive chunks falls on a character boundary. */
  predicate CutsClean(chunks: seq<seq<byte>>) {
    |chunks| > 0 ==> !CutsCharacter(chunks[0], Join(chunks[1..])) && CutsClean(chunks[1..])
  }

  function Join(chunks: seq<seq<byte>>): seq<byte> {
    if chunks == [] then [] else chunks[0] + Join(chunks[1..])
  }

  function DecodeEach(chunks: seq<seq<byte>>): string {
    if chunks == [] then "" else Decode(chunks[0]) + DecodeEach(chunks[1..])
  }

  /** The text collected chunk by chunk is the text of the body exactly when no cut
      falls inside a character. */
  lemma {:induction false} DecodeEachIff(chunks: seq<seq<byte>>)
    ensures DecodeEach(chunks) == Decode(Join(chunks)) <==> CutsClean(chunks)
    ensures |DecodeEach(chunks)| >= |Decode(Join(chunks))|
    ensures !CutsClean(chunks) ==> |DecodeEach(chunks)| > |Decode(Join(chunks))|
  {
    if chunks != [] {
      DecodeSplitsIff(chunks[0], Join(chunks[1..]));
      DecodeEachIff(chunks[1..]);
    }
  }

  // ----- The encoding that is decoded -----

  /** A character in UTF-8. */
  function Encode(c: char): (bytes: seq<byte>)
    ensures 1 <= |bytes| <= 4
  {
    var n := c as int;
    if n < 0x80 then [n as byte]
    else if n < 0x800 then [(0xC0 + n / 64) as byte, (0x80 + n % 64) as byte]
    else if n < 0x1_0000 then [(0xE0 + n / 4096) as byte, (0x80 + n / 64 % 64) as byte, (0x80 + n % 64) as byte]
    else [(0xF0 + n / 262144) as byte, (0x80 + n / 4096 % 64) as byte, (0x80 + n / 64 % 64) as byte, (0x80 + n % 64) as byte]
  }

  function EncodeText(text: string): seq<byte> {
    if text == "" then [] else Encode(text[0]) + EncodeText(text[1..])
  }

  lemma Sextets(n: nat)
    ensures n == n / 64 * 64 + n % 64
    ensures n == n / 4096 * 4096 + n / 64 % 64 * 64 + n % 64
    ensures n == n / 262144 * 262144 + n / 4096 % 64 * 4096 + n / 64 % 64 * 64 + n % 64
    ensures (0x80 + n % 64) % 64 == n % 64
  {
    var a, b := n / 64, n / 4096;
    assert n / 4096 == a / 64 && n / 262144 == b / 64;
  }

  /** The pieces of two, three and four bytes, from the number they encode. */
  lemma Piece2(n: nat, bytes: seq<byte>)
    requires 0x80 <= n < 0x800 && |bytes| >= 2
    requires bytes[0] as int == 0xC0 + n / 64 && bytes[1] as int == 0x80 + n % 64
    ensures PieceLength(bytes) == 2 == Announced(bytes[0]) && Character(bytes) as int == n
  {
    Sextets(n);
    assert Fits(bytes, 1);
  }

  lemma Piece3(n: nat, bytes: seq<byte>)
    requires 0x800 <= n < 0x1_0000 && !(0xD800 <= n < 0xE000) && |bytes| >= 3
    requires bytes[0] as int == 0xE0 + n / 4096 && bytes[1] as int == 0x80 + n / 64 % 64 && bytes[2] as int == 0x80 + n % 64
    ensures PieceLength(bytes) == 3 == Announced(bytes[0]) && Character(bytes) as int == n
  {
    Sextets(n);
    Sextets(n / 64);
    assert Fits(bytes, 1) && Fits(bytes, 2);
  }

  lemma Piece4(n: nat, bytes: seq<byte>)
    requires 0x1_0000 <= n < 0x11_0000 && |bytes| >= 4
    requires bytes[0] as int == 0xF0 + n / 262144 && bytes[1] as int == 0x80 + n / 4096 % 64
    requires bytes[2] as int == 0x80 + n / 64 % 64 && bytes[3] as int == 0x80 + n % 64
    ensures PieceLength(bytes) == 4 == Announced(bytes[0]) && Character(bytes) as int == n
  {
    Sextets(n);
    Sextets(n / 64);
    Sextets(n / 4096);
    assert Fits(bytes, 1) && Fits(bytes, 2) && Fits(bytes, 3);
  }

  /** An encoded character is one piece, and is decoded to itself. */
  lemma EncodedPiece(c: char, rest: seq<byte>)
    ensures PieceLength(Encode(c) + rest) == |Encode(c)| == Announced(Encode(c)[0])
    ensures Character(Encode(c) + rest) == c
  {
    var n, bytes := c as int, Encode(c) + rest;
    assert forall i :: 0 <= i < |Encode(c)| ==> bytes[i] == Encode(c)[i];
    hide PieceLength, Character, Announced;
    if n >= 0x1_0000 {
      Piece4(n, bytes);
    } else if n >= 0x800 {
      Piece3(n, bytes);
    } else if n >= 0x80 {
      Piece2(n, bytes);
    } else {
      Piece1(n, bytes);
    }
  }

  lemma Piece1(n: nat, bytes: seq<byte>)
    requires n < 0x80 && bytes != [] && bytes[0] as int == n
    ensures PieceLength(bytes) == 1 == Announced(bytes[0]) && Character(bytes) as int == n
  {
  }

  /** Decoding is the inverse of encoding, on every text. */
  lemma {:induction false} DecodeEncoded(text: string)
    ensures Decode(EncodeText(text)) == text
  {
    if text != "" {
      var rest := EncodeText(text[1..]);
      EncodedPiece(text[0], rest);
      DecodeEncoded(text[1..]);
      assert EncodeText(text)[|Encode(text[0])|..] == rest;
    }
  }

  /** A piece that is complete is the encoding of its character; every other piece becomes
      U+FFFD. So whatever is not the encoding of a character is replaced. */
  lemma PieceIsEncodedIff(bytes: seq<byte>)
    requires bytes != []
    ensures PieceLength(bytes) == Announced(bytes[0]) ==> bytes[..PieceLength(bytes)] == Encode(Character(bytes))
    ensures PieceLength(bytes) != Announced(bytes[0]) ==>
              Character(bytes) as int == 0xFFFD && forall c :: !(Encode(c) <= bytes)
  {
    if PieceLength(bytes) == Announced(bytes[0]) {
      CompletePiece(bytes);
    } else {
      forall c ensures Encode(c) <= bytes ==> PieceLength(bytes) == Announced(bytes[0]) {
        PrefixIsPiece(c, bytes);
      }
    }
  }

  lemma PrefixIsPiece(c: char, bytes: seq<byte>)
    ensures Encode(c) <= bytes ==> PieceLength(bytes) == Announced(bytes[0])
  {
    hide PieceLength, Announced, Encode;
    if Encode(c) <= bytes {
      assert Encode(c) + bytes[|Encode(c)|..] == bytes;
      EncodedPiece(c, bytes[|Encode(c)|..]);
    }
  }

  lemma CompletePiece(bytes: seq<byte>)
    requires bytes != [] && PieceLength(bytes) == Announced(bytes[0])
    ensures bytes[..PieceLength(bytes)] == Encode(Character(bytes))
  {
    var n := PieceLength(bytes);
    if n == 4 {
      assert Fits(bytes, 1) && Fits(bytes, 2) && Fits(bytes, 3);
      Complete4(bytes);
    } else if n == 3 {
      assert Fits(bytes, 1) && Fits(bytes, 2);
      Complete3(bytes);
    } else if n == 2 {
      assert Fits(bytes, 1);
      Complete2(bytes);
    } else {
      assert bytes[..1] == Encode(Character(bytes));
    }
  }

  lemma Unpack(a: nat, b: nat)
    requires b < 64
    ensures (a * 64 + b) / 64 == a && (a * 64 + b) % 64 == b
  {
  }

  lemma Complete2(bytes: seq<byte>)
    requires bytes != [] && PieceLength(bytes) == 2 == Announced(bytes[0])
    ensures bytes[..2] == Encode(Character(bytes))
  {
    assert Fits(bytes, 1);
    Unpack(bytes[0] as int - 0xC0, Bits(bytes[1]));
  }

  /** The number of some sextets gives the sextets back. */
  lemma Packed(a: nat, b: nat, c: nat, d: nat)
    requires b < 64 && c < 64 && d < 64
    ensures var n := a * 262144 + b * 4096 + c * 64 + d;
            n / 262144 == a && n / 4096 % 64 == b && n / 64 % 64 == c && n % 64 == d
    ensures var n := a * 4096 + b * 64 + c; n / 4096 == a && n / 64 % 64 == b && n % 64 == c
  {
    Unpack((a * 64 + b) * 64 + c, d);
    Unpack(a * 64 + b, c);
    Unpack(a, b);
    Sextets(((a * 64 + b) * 64 + c) * 64 + d);
    Sextets((a * 64 + b) * 64 + c);
  }

  lemma Complete3(bytes: seq<byte>)
    requires bytes != [] && PieceLength(bytes) == 3 == Announced(bytes[0])
    ensures bytes[..3] == Encode(Character(bytes))
  {
    assert Fits(bytes, 1) && Fits(bytes, 2);
    hide PieceLength, Fits;
    Packed(bytes[0] as int - 0xE0, Bits(bytes[1]), Bits(bytes[2]), 0);
  }

  lemma Complete4(bytes: seq<byte>)
    requires bytes != [] && PieceLength(bytes) == 4 == Announced(bytes[0])
    ensures bytes[..4] == Encode(Character(bytes))
  {
    assert Fits(bytes, 1) && Fits(bytes, 2) && Fits(bytes, 3);
    hide PieceLength, Fits;
    Packed(bytes[0] as int - 0xF0, Bits(bytes[1]), Bits(bytes[2]), Bits(bytes[3]));
  }
}
