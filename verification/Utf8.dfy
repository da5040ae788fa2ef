/** UTF-8 as section 3 of RFC 3629 defines it, and the code that checks and shortens it. */
module Utf8 {
  import opened Wire
  import opened Wrappers

  /** A Unicode scalar value: no surrogates. */
  type Scalar = x: int | 0 <= x < 0xD800 || 0xE000 <= x < 0x11_0000

  // ----- One character ----------------------------------------------------------------

  function Width(c: Scalar): nat {
    if c < 0x80 then 1 else if c < 0x800 then 2 else if c < 0x1_0000 then 3 else 4
  }

  function EncodeOne(c: Scalar): (r: seq<Byte>)
    ensures |r| == Width(c)
  {
    if c < 0x80 then [c]
    else if c < 0x800 then [0xC0 + c / 64, 0x80 + c % 64]
    else if c < 0x1_0000 then [0xE0 + c / 4096, 0x80 + c / 64 % 64, 0x80 + c % 64]
    else [0xF0 + c / 0x4_0000, 0x80 + c / 4096 % 64, 0x80 + c / 64 % 64, 0x80 + c % 64]
  }

  predicate Continues(b: Byte) {
    0x80 <= b < 0xC0
  }

  /** How many bytes follow a leading byte; none is a valid lead otherwise. */
  function Extra(first: Byte): Option<nat> {
    if first < 0x80 then Some(0)
    else if 0xC2 <= first <= 0xDF then Some(1)
    else if 0xE0 <= first <= 0xEF then Some(2)
    else if 0xF0 <= first <= 0xF4 then Some(3)
    else None
  }

  function LeadBits(first: Byte): nat {
    if first < 0x80 then first
    else if first <= 0xDF then first % 32
    else if first <= 0xEF then first % 16
    else first % 8
  }

  /** The bits of a leading byte and of `n` bytes after it. */
  function Bits(b: seq<Byte>, n: nat): nat
    requires n < |b|
  {
    if n == 0 then LeadBits(b[0]) else Bits(b, n - 1) * 64 + b[n] % 64
  }

  predicate Proper(value: nat, extra: nat) {
    && (extra == 2 ==> value >= 0x800) && (extra == 3 ==> value >= 0x1_0000)
    && (value < 0xD800 || 0xE000 <= value <= 0x10FFFF)
  }

  predicate AllContinue(b: seq<Byte>, n: nat)
    requires n < |b|
  {
    forall i | 1 <= i <= n :: Continues(b[i])
  }

  /** The character that bytes begin with, if they begin with a whole and well-formed one. */
  function DecodeOne(b: seq<Byte>): Option<Scalar> {
    if b == [] then None
    else match Extra(b[0])
      case None => None
      case Some(n) =>
        if n >= |b| || !AllContinue(b, n) || !Proper(Bits(b, n), n) then None else Some(Bits(b, n))
  }

  lemma Digits2(c: nat)
    requires c < 0x800
    ensures c / 64 < 32 && c / 64 * 64 + c % 64 == c
    ensures (0xC0 + c / 64) % 32 == c / 64 && (0x80 + c % 64) % 64 == c % 64
  {
  }

  lemma Digits3(c: nat)
    requires c < 0x1_0000
    ensures c / 4096 < 16 && (c / 4096 * 64 + c / 64 % 64) * 64 + c % 64 == c
    ensures (0xE0 + c / 4096) % 16 == c / 4096
    ensures (0x80 + c / 64 % 64) % 64 == c / 64 % 64 && (0x80 + c % 64) % 64 == c % 64
  {
  }

  lemma Digits4(c: nat)
    requires c < 0x11_0000
    ensures c / 0x4_0000 < 5 && ((c / 0x4_0000 * 64 + c / 4096 % 64) * 64 + c / 64 % 64) * 64 + c % 64 == c
    ensures (0xF0 + c / 0x4_0000) % 8 == c / 0x4_0000 && (0x80 + c / 4096 % 64) % 64 == c / 4096 % 64
    ensures (0x80 + c / 64 % 64) % 64 == c / 64 % 64 && (0x80 + c % 64) % 64 == c % 64
  {
  }

  /** The bits of the second, third and fourth byte in turn. */
  lemma BitsOf(b: seq<Byte>)
    ensures |b| > 0 ==> Bits(b, 0) == LeadBits(b[0])
    ensures |b| > 1 ==> Bits(b, 1) == LeadBits(b[0]) * 64 + b[1] % 64
    ensures |b| > 2 ==> Bits(b, 2) == (LeadBits(b[0]) * 64 + b[1] % 64) * 64 + b[2] % 64
    ensures |b| > 3 ==> Bits(b, 3) == ((LeadBits(b[0]) * 64 + b[1] % 64) * 64 + b[2] % 64) * 64 + b[3] % 64
  {
    if |b| > 3 {
      assert Bits(b, 3) == Bits(b, 2) * 64 + b[3] % 64;
    }
    if |b| > 2 {
      assert Bits(b, 2) == Bits(b, 1) * 64 + b[2] % 64;
    }
    if |b| > 1 {
      assert Bits(b, 1) == Bits(b, 0) * 64 + b[1] % 64;
    }
  }

  predicate BitsAre(c: Scalar, b: seq<Byte>)
    requires |b| >= Width(c)
  {
    Extra(b[0]) == Some(Width(c) - 1) && AllContinue(b, Width(c) - 1) && Bits(b, Width(c) - 1) == c
  }

  lemma TwoBits(c: Scalar, b: seq<Byte>)
    requires 0x80 <= c < 0x800 && |b| >= 2 && b[..2] == EncodeOne(c)
    ensures BitsAre(c, b)
  {
    BitsOf(b);
    Digits2(c);
    assert b[0] == b[..2][0] && b[1] == b[..2][1];
  }

  lemma ThreeBits(c: Scalar, b: seq<Byte>)
    requires 0x800 <= c < 0x1_0000 && |b| >= 3 && b[..3] == EncodeOne(c)
    ensures BitsAre(c, b)
  {
    BitsOf(b);
    Digits3(c);
    assert b[0] == b[..3][0] && b[1] == b[..3][1] && b[2] == b[..3][2];
  }

  lemma FourBits(c: Scalar, b: seq<Byte>)
    requires 0x1_0000 <= c && |b| >= 4 && b[..4] == EncodeOne(c)
    ensures BitsAre(c, b)
  {
    BitsOf(b);
    Digits4(c);
    assert b[0] == b[..4][0] && b[1] == b[..4][1] && b[2] == b[..4][2] && b[3] == b[..4][3];
  }

  lemma EncodedBits(c: Scalar, b: seq<Byte>)
    requires |b| >= Width(c) && b[..Width(c)] == EncodeOne(c)
    ensures BitsAre(c, b)
  {
    if c < 0x80 {
      BitsOf(b);
      assert b[0] == EncodeOne(c)[0];
    } else if c < 0x800 {
      TwoBits(c, b);
    } else if c < 0x1_0000 {
      ThreeBits(c, b);
    } else {
      FourBits(c, b);
    }
  }

  /** Reading the encoding of a character gives the character, whatever follows. */
  lemma DecodesEncoded(c: Scalar, rest: seq<Byte>)
    ensures DecodeOne(EncodeOne(c) + rest) == Some(c)
  {
    EncodedBits(c, EncodeOne(c) + rest);
  }

  lemma Join2(h: nat, l: nat)
    requires l < 64
    ensures (h * 64 + l) / 64 == h && (h * 64 + l) % 64 == l
  {
  }

  lemma Join3(h: nat, m: nat, l: nat)
    requires m < 64 && l < 64
    ensures var c := (h * 64 + m) * 64 + l;
      c / 4096 == h && c / 64 % 64 == m && c % 64 == l
  {
  }

  lemma Join4(g: nat, h: nat, m: nat, l: nat)
    requires h < 64 && m < 64 && l < 64
    ensures var c := ((g * 64 + h) * 64 + m) * 64 + l;
      c / 0x4_0000 == g && c / 4096 % 64 == h && c / 64 % 64 == m && c % 64 == l
  {
    var x := (g * 64 + h) * 64 + m;
    Join2(x, l);
    Join3(g, h, m);
    Quotients(x * 64 + l);
  }

  lemma Quotients(c: nat)
    ensures c / 4096 == c / 64 / 64 && c / 0x4_0000 == c / 64 / 4096
  {
  }

  lemma LowBits(b: Byte)
    ensures Continues(b) ==> b == 0x80 + b % 64
    ensures 0xC0 <= b <= 0xDF ==> b == 0xC0 + b % 32
    ensures 0xE0 <= b <= 0xEF ==> b == 0xE0 + b % 16
    ensures 0xF0 <= b <= 0xF7 ==> b == 0xF0 + b % 8
  {
  }

  /** What a well-formed beginning decodes to encodes back to it. */
  lemma EncodesDecoded(b: seq<Byte>)
    requires DecodeOne(b).Some?
    ensures var c := DecodeOne(b).value;
      Width(c) <= |b| && b[..Width(c)] == EncodeOne(c) && Extra(b[0]) == Some(Width(c) - 1)
  {
    BitsOf(b);
    LowBits(b[0]);
    var n := Extra(b[0]).value;
    if n == 1 {
      DecodedTwo(b);
    } else if n == 2 {
      DecodedThree(b);
    } else if n == 3 {
      DecodedFour(b);
    }
  }

  lemma DecodedTwo(b: seq<Byte>)
    requires DecodeOne(b).Some? && Extra(b[0]) == Some(1)
    ensures Width(DecodeOne(b).value) == 2 && b[..2] == EncodeOne(DecodeOne(b).value)
  {
    BitsOf(b);
    LowBits(b[0]);
    LowBits(b[1]);
    Join2(LeadBits(b[0]), b[1] % 64);
  }

  lemma DecodedThree(b: seq<Byte>)
    requires DecodeOne(b).Some? && Extra(b[0]) == Some(2)
    ensures Width(DecodeOne(b).value) == 3 && b[..3] == EncodeOne(DecodeOne(b).value)
  {
    BitsOf(b);
    LowBits(b[0]);
    LowBits(b[1]);
    LowBits(b[2]);
    Join3(LeadBits(b[0]), b[1] % 64, b[2] % 64);
  }

  lemma DecodedFour(b: seq<Byte>)
    requires DecodeOne(b).Some? && Extra(b[0]) == Some(3)
    ensures Width(DecodeOne(b).value) == 4 && b[..4] == EncodeOne(DecodeOne(b).value)
  {
    BitsOf(b);
    LowBits(b[0]);
    LowBits(b[1]);
    LowBits(b[2]);
    LowBits(b[3]);
    Join4(LeadBits(b[0]), b[1] % 64, b[2] % 64, b[3] % 64);
  }

  // ----- Texts ------------------------------------------------------------------------

  function Size(cs: seq<Scalar>): nat {
    |Encode(cs)|
  }

  function Encode(cs: seq<Scalar>): seq<Byte> {
    if cs == [] then [] else EncodeOne(cs[0]) + Encode(cs[1..])
  }

  /** The strict decoder: one malformed character spoils the text. */
  function Decode(b: seq<Byte>): Option<seq<Scalar>>
    decreases |b|
  {
    if b == [] then Some([])
    else match DecodeOne(b)
      case None => None
      case Some(c) =>
        EncodesDecoded(b);
        match Decode(b[Width(c)..])
        case None => None
        case Some(cs) => Some([c] + cs)
  }

  lemma {:induction false} DecodeEncode(cs: seq<Scalar>)
    ensures Decode(Encode(cs)) == Some(cs)
  {
    if cs != [] {
      var rest := Encode(cs[1..]);
      DecodesEncoded(cs[0], rest);
      assert (EncodeOne(cs[0]) + rest)[Width(cs[0])..] == rest;
      DecodeEncode(cs[1..]);
      assert [cs[0]] + cs[1..] == cs;
    }
  }

  lemma EncodeAhead(c: Scalar, cs: seq<Scalar>)
    ensures Encode([c] + cs) == EncodeOne(c) + Encode(cs)
  {
    assert ([c] + cs)[1..] == cs;
  }

  lemma DecodeStep(b: seq<Byte>) returns (c: Scalar, rest: seq<Byte>)
    requires b != [] && Decode(b).Some?
    ensures b == EncodeOne(c) + rest && |rest| < |b| && Decode(rest).Some?
    ensures Decode(b).value == [c] + Decode(rest).value
  {
    EncodesDecoded(b);
    c := DecodeOne(b).value;
    rest := b[Width(c)..];
  }

  lemma {:induction false} EncodeDecode(b: seq<Byte>)
    requires Decode(b).Some?
    ensures Encode(Decode(b).value) == b
    decreases |b|
  {
    if b != [] {
      var c, rest := DecodeStep(b);
      EncodeDecode(rest);
      EncodeAhead(c, Decode(rest).value);
    }
  }

  // ----- The validator ----------------------------------------------------------------

  /** The bytes after a lead: whether they all continue it, and the value they make. */
  method Continuation(b: seq<Byte>, at: nat, extra: nat) returns (ok: bool, value: nat)
    requires at + extra < |b|
    ensures ok <==> AllContinue(b[at..], extra)
    ensures ok ==> value == Bits(b[at..], extra)
  {
    value := LeadBits(b[at]);
    for j := 0 to extra
      invariant forall i | 1 <= i <= j :: Continues(b[at..][i])
      invariant value == Bits(b[at..], j)
    {
      var next := b[at + 1 + j];
      if next < 0x80 || next >= 0xC0 {
        assert b[at..][1 + j] == next;
        return false, value;
      }
      value := value * 64 + next % 64;
    }
    ok := true;
  }

  /** Accepts exactly the encodings of texts. */
  method ValidUtf8(b: seq<Byte>) returns (ok: bool)
    ensures ok <==> Decode(b).Some?
    ensures ok <==> exists cs :: Encode(cs) == b
  {
    var i := 0;
    ok := true;
    while i < |b| && ok
      invariant 0 <= i <= |b|
      invariant ok ==> (Decode(b).Some? <==> Decode(b[i..]).Some?)
      invariant !ok ==> Decode(b).None?
      decreases |b| - i, if ok then 1 else 0
    {
      var first := b[i];
      ghost var rest := b[i..];
      if first < 0x80 {
        assert Bits(rest, 0) == first;
        EncodesDecoded(rest);
        assert rest[1..] == b[i + 1..];
        i := i + 1;
      } else {
        match Extra(first) {
          case None => ok := false;
          case Some(extra) =>
            if extra > |b| - (i + 1) {
              ok := false;
            } else {
              var continues, value := Continuation(b, i, extra);
              if !continues || (extra == 2 && value < 0x800) || (extra == 3 && value < 0x1_0000) || value > 0x10FFFF ||
                 0xD800 <= value <= 0xDFFF {
                ok := false;
              } else {
                EncodesDecoded(rest);
                assert rest[1 + extra..] == b[i + 1 + extra..];
                i := i + 1 + extra;
              }
            }
        }
      }
    }
    if Decode(b).Some? {
      EncodeDecode(b);
    }
    forall cs | Encode(cs) == b
      ensures Decode(b).Some?
    {
      DecodeEncode(cs);
    }
  }

  // ----- Shortening -------------------------------------------------------------------

  /** How many characters fit into `limit` bytes. */
  function Fit(cs: seq<Scalar>, limit: nat): (n: nat)
    ensures n <= |cs|
  {
    if cs == [] || Width(cs[0]) > limit then 0 else 1 + Fit(cs[1..], limit - Width(cs[0]))
  }

  function Prefix(cs: seq<Scalar>, limit: nat): seq<Scalar> {
    cs[..Fit(cs, limit)]
  }

  lemma EncodeFirst(cs: seq<Scalar>, n: nat)
    requires 0 < n <= |cs|
    ensures cs[..n][0] == cs[0] && cs[..n][1..] == cs[1..][..n - 1]
    ensures Encode(cs[..n]) == EncodeOne(cs[0]) + Encode(cs[1..][..n - 1])
  {
  }

  /** The longest prefix that fits: one more character would not. */
  lemma {:induction false} PrefixIsLongest(cs: seq<Scalar>, limit: nat)
    ensures |Encode(Prefix(cs, limit))| <= limit
    ensures forall n | Fit(cs, limit) < n <= |cs| :: |Encode(cs[..n])| > limit
  {
    if cs != [] && Width(cs[0]) <= limit {
      PrefixIsLongest(cs[1..], limit - Width(cs[0]));
      EncodeFirst(cs, Fit(cs, limit));
    }
    forall n | Fit(cs, limit) < n <= |cs|
      ensures |Encode(cs[..n])| > limit
    {
      EncodeFirst(cs, n);
    }
  }

  lemma {:induction false} PrefixWhole(cs: seq<Scalar>, limit: nat)
    ensures |Encode(cs)| <= limit <==> Prefix(cs, limit) == cs
  {
    PrefixIsLongest(cs, limit);
    assert cs[..|cs|] == cs;
  }

  /** A lenient decoder: what is not part of a well-formed character is skipped. */
  function DecodeIgnoring(b: seq<Byte>): seq<Scalar>
    decreases |b|
  {
    if b == [] then []
    else match DecodeOne(b)
      case None => DecodeIgnoring(b[1..])
      case Some(c) => EncodesDecoded(b); [c] + DecodeIgnoring(b[Width(c)..])
  }

  lemma {:induction false} AllSkipped(b: seq<Byte>)
    requires forall i | 0 <= i < |b| :: Continues(b[i])
    ensures DecodeIgnoring(b) == []
  {
    if b != [] {
      AllSkipped(b[1..]);
    }
  }

  /** A character cut short is skipped whole. */
  lemma CutIsSkipped(c: Scalar, n: nat)
    requires n < Width(c)
    ensures DecodeIgnoring(EncodeOne(c)[..n]) == []
  {
    var b := EncodeOne(c)[..n];
    EncodedBits(c, EncodeOne(c));
    if n > 0 {
      assert DecodeOne(b) == None;
      forall i | 0 <= i < n - 1
        ensures Continues(b[1..][i])
      {
        assert b[1..][i] == EncodeOne(c)[i + 1];
      }
      AllSkipped(b[1..]);
    }
  }

  /** Cutting an encoded text at any byte and decoding leniently leaves the longest prefix that fits. */
  lemma {:induction false} CutIsPrefix(cs: seq<Scalar>, limit: nat)
    requires limit <= |Encode(cs)|
    ensures DecodeIgnoring(Encode(cs)[..limit]) == Prefix(cs, limit)
  {
    if cs != [] {
      var one, rest := EncodeOne(cs[0]), Encode(cs[1..]);
      if limit < Width(cs[0]) {
        assert (one + rest)[..limit] == one[..limit];
        CutIsSkipped(cs[0], limit);
      } else {
        var cut := rest[..limit - Width(cs[0])];
        assert (one + rest)[..limit] == one + cut;
        DecodesEncoded(cs[0], cut);
        assert (one + cut)[Width(cs[0])..] == cut;
        CutIsPrefix(cs[1..], limit - Width(cs[0]));
        assert Prefix(cs, limit) == [cs[0]] + Prefix(cs[1..], limit - Width(cs[0]));
      }
    }
  }

  /** A cut inside the first character leaves nothing that decodes, unless nothing is left. */
  lemma CutInFirst(c: Scalar, rest: seq<Byte>, n: nat)
    requires n < Width(c)
    ensures Decode((EncodeOne(c) + rest)[..n]) == if n == 0 then Some([]) else None
  {
    var one := EncodeOne(c);
    assert (one + rest)[..n] == one[..n];
    EncodedBits(c, one);
    if n > 0 {
      assert DecodeOne(one[..n]) == None;
    }
  }

  lemma CutAfterFirst(c: Scalar, rest: seq<Byte>, n: nat)
    requires Width(c) <= n <= Width(c) + |rest|
    ensures Decode((EncodeOne(c) + rest)[..n]) ==
      match Decode(rest[..n - Width(c)]) case None => None case Some(cs) => Some([c] + cs)
  {
    var one, cut := EncodeOne(c), rest[..n - Width(c)];
    assert (one + rest)[..n] == one + cut;
    DecodesEncoded(c, cut);
    assert (one + cut)[Width(c)..] == cut;
  }

  lemma PrefixAfterFirst(cs: seq<Scalar>, n: nat)
    requires cs != [] && Width(cs[0]) <= n
    ensures Prefix(cs, n) == [cs[0]] + Prefix(cs[1..], n - Width(cs[0]))
    ensures Size(Prefix(cs, n)) == Width(cs[0]) + Size(Prefix(cs[1..], n - Width(cs[0])))
  {
    EncodeAhead(cs[0], Prefix(cs[1..], n - Width(cs[0])));
  }

  /**
   Cutting an encoded text at a byte, without regard for characters, leaves something the strict
   decoder takes exactly when no character is cut.
   */
  lemma {:induction false} CutDecodesExactly(cs: seq<Scalar>, n: nat)
    requires n <= |Encode(cs)|
    ensures Decode(Encode(cs)[..n]) == if Size(Prefix(cs, n)) == n then Some(Prefix(cs, n)) else None
  {
    hide EncodeOne;
    if cs != [] {
      var rest := Encode(cs[1..]);
      if n < Width(cs[0]) {
        CutInFirst(cs[0], rest, n);
      } else {
        CutAfterFirst(cs[0], rest, n);
        CutDecodesExactly(cs[1..], n - Width(cs[0]));
        PrefixAfterFirst(cs, n);
      }
    }
  }

  /** Some messages are cut that way: plain ones up to the limit, then a character across it. */
  lemma {:induction false} CutsHappen(limit: nat) returns (cs: seq<Scalar>)
    requires limit > 0
    ensures Size(cs) == limit + 1 && Decode(Encode(cs)[..limit]) == None
  {
    if limit == 1 {
      cs := [0xE9];
      assert Encode(cs) == EncodeOne(0xE9) + Encode(cs[1..]);
      CutDecodesExactly(cs, 1);
    } else {
      var rest := CutsHappen(limit - 1);
      cs := [0x61] + rest;
      EncodeAhead(0x61, rest);
      CutDecodesExactly(cs, limit);
      CutDecodesExactly(rest, limit - 1);
      assert cs[1..] == rest;
      assert Prefix(cs, limit) == [0x61] + Prefix(rest, limit - 1);
      EncodeAhead(0x61, Prefix(rest, limit - 1));
    }
  }

  /** The Python form: encode, cut, decode leniently, encode again. */
  method ShortenText(cs: seq<Scalar>, limit: nat) returns (bytes: seq<Byte>, cut: bool)
    ensures bytes == Encode(Prefix(cs, limit)) && (cut <==> |Encode(cs)| > limit)
    ensures cut <==> Prefix(cs, limit) != cs
  {
    var encoded := Encode(cs);
    PrefixWhole(cs, limit);
    if |encoded| <= limit {
      return encoded, false;
    }
    CutIsPrefix(cs, limit);
    bytes, cut := Encode(DecodeIgnoring(encoded[..limit])), true;
  }

  /** A byte that continues a character starts none, and the first byte of a text starts one. */
  lemma {:induction false} StartsOrContinues(cs: seq<Scalar>, n: nat)
    requires n < |cs|
    ensures |Encode(cs[..n])| + Width(cs[n]) == |Encode(cs[..n + 1])| <= |Encode(cs)|
    ensures !Continues(Encode(cs)[|Encode(cs[..n])|])
    ensures forall i | |Encode(cs[..n])| < i < |Encode(cs[..n + 1])| :: Continues(Encode(cs)[i])
  {
    EncodedBits(cs[0], EncodeOne(cs[0]));
    EncodeFirst(cs, n + 1);
    if n > 0 {
      StartsOrContinues(cs[1..], n - 1);
      EncodeFirst(cs, n);
    }
  }

  /** The native form: back from the limit to a byte that starts a character. */
  method PrefixSize(data: seq<Byte>, limit: nat, ghost cs: seq<Scalar>) returns (size: nat)
    requires data == Encode(cs)
    ensures size == |Encode(Prefix(cs, limit))|
  {
    size := |data|;
    PrefixWhole(cs, limit);
    if size <= limit {
      return;
    }
    ghost var n := Fit(cs, limit);
    PrefixIsLongest(cs, limit);
    StartsOrContinues(cs, n);
    size := limit;
    while size > 0 && 0x80 <= data[size] < 0xC0
      invariant |Encode(cs[..n])| <= size <= limit
    {
      size := size - 1;
    }
  }
}
