/** Bytes, and UTF-8 as Python's strict encoder writes it (RFC 3629). */
module Bytes {
  import opened Prelude

  type Byte = n: nat | n < 256

  /** A Python string's elements: any code point, surrogates included. */
  type CodePoint = n: nat | n <= 0x10FFFF

  type Text = seq<CodePoint>

  predicate IsSurrogate(c: CodePoint) {
    0xD800 <= c <= 0xDFFF
  }

  function EncodeOne(c: CodePoint): (bytes: seq<Byte>)
    ensures 1 <= |bytes| <= 4
  {
    if c < 0x80 then [c]
    else if c < 0x800 then [0xC0 + c / 0x40, 0x80 + c % 0x40]
    else if c < 0x10000 then [0xE0 + c / 0x40 / 0x40] + [0x80 + c / 0x40 % 0x40, 0x80 + c % 0x40]
    else [0xF0 + c / 0x40 / 0x40 / 0x40] + [0x80 + c / 0x40 / 0x40 % 0x40, 0x80 + c / 0x40 % 0x40, 0x80 + c % 0x40]
  }

  /** A lone surrogate has no encoding. */
  function Encode(s: Text): Option<seq<Byte>> {
    if s == [] then Some([])
    else if IsSurrogate(s[0]) then None
    else
      match Encode(s[1..])
      case None => None
      case Some(rest) => Some(EncodeOne(s[0]) + rest)
  }

  /** Strict encoding fails exactly on surrogates. */
  lemma {:induction false} EncodesAllButSurrogates(s: Text)
    ensures Encode(s).Some? <==> forall i | 0 <= i < |s| :: s[i] < 0xD800 || s[i] > 0xDFFF
  {
    if s != [] {
      EncodesAllButSurrogates(s[1..]);
      assert s == [s[0]] + s[1..];
    }
  }

  predicate IsTrailing(b: int) {
    0x80 <= b <= 0xBF
  }

  /** The ranges and the bits of each byte (section 3 of RFC 3629). */
  predicate Spells(b: seq<int>, c: int) {
    if c < 0x80 then b == [c]
    else if c < 0x800 then
      |b| == 2 && 0xC2 <= b[0] <= 0xDF && IsTrailing(b[1]) && c == (b[0] - 0xC0) * 0x40 + (b[1] - 0x80)
    else if c < 0x10000 then
      && |b| == 3 && 0xE0 <= b[0] <= 0xEF && IsTrailing(b[1]) && IsTrailing(b[2])
      && c == (b[0] - 0xE0) * 0x1000 + (b[1] - 0x80) * 0x40 + (b[2] - 0x80)
    else
      && |b| == 4 && 0xF0 <= b[0] <= 0xF4 && IsTrailing(b[1]) && IsTrailing(b[2]) && IsTrailing(b[3])
      && c == (b[0] - 0xF0) * 0x40000 + (b[1] - 0x80) * 0x1000 + (b[2] - 0x80) * 0x40 + (b[3] - 0x80)
  }

  lemma EncodingSpells(c: CodePoint)
    ensures Spells(EncodeOne(c), c)
  {
    var low, rest := c % 0x40, c / 0x40;
    var middle, high := rest % 0x40, rest / 0x40;
    if c >= 0x10000 {
      assert EncodeOne(c) == [0xF0 + high / 0x40, 0x80 + high % 0x40, 0x80 + middle, 0x80 + low];
    } else if c >= 0x800 {
      assert EncodeOne(c) == [0xE0 + high, 0x80 + middle, 0x80 + low];
    }
  }

  /** How many bytes the first code point takes, by its leading byte. */
  function Width(lead: Byte): (n: nat)
    ensures 1 <= n <= 4
  {
    if lead < 0x80 then 1 else if lead < 0xE0 then 2 else if lead < 0xF0 then 3 else 4
  }

  function Tail(b: Byte): (n: nat)
    ensures n < 0x40
  {
    b % 0x40
  }

  /** What the leading byte contributes. */
  function Head(lead: Byte): nat {
    match Width(lead)
    case 1 => lead
    case 2 => lead % 0x20
    case 3 => lead % 0x10
    case _ => lead % 0x08
  }

  function DecodeOne(bytes: seq<Byte>): nat
    requires bytes != []
  {
    if |bytes| == 1 then Head(bytes[0]) else DecodeOne(bytes[..|bytes| - 1]) * 0x40 + Tail(bytes[|bytes| - 1])
  }

  function Decode(bytes: seq<Byte>): Option<Text> {
    if bytes == [] then Some([])
    else
      var n := Width(bytes[0]);
      if n > |bytes| || DecodeOne(bytes[..n]) > 0x10FFFF then None
      else
        match Decode(bytes[n..])
        case None => None
        case Some(rest) => Some([DecodeOne(bytes[..n])] + rest)
  }

  lemma DecodeTwo(a: Byte, b: Byte)
    ensures DecodeOne([a, b]) == Head(a) * 0x40 + Tail(b)
  {
  }

  lemma DecodeThree(a: Byte, b: Byte, c: Byte)
    ensures DecodeOne([a, b, c]) == (Head(a) * 0x40 + Tail(b)) * 0x40 + Tail(c)
  {
    assert [a, b, c][..2] == [a, b];
    DecodeTwo(a, b);
  }

  lemma DecodeFour(a: Byte, b: Byte, c: Byte, d: Byte)
    ensures DecodeOne([a, b, c, d]) == ((Head(a) * 0x40 + Tail(b)) * 0x40 + Tail(c)) * 0x40 + Tail(d)
  {
    assert [a, b, c, d][..3] == [a, b, c];
    DecodeThree(a, b, c);
  }

  lemma TailInverts(n: nat)
    requires n < 0x40
    ensures Tail(0x80 + n) == n
  {
  }

  lemma LeadInverts(n: nat)
    ensures n < 0x20 ==> Width(0xC0 + n) == 2 && Head(0xC0 + n) == n
    ensures n < 0x10 ==> Width(0xE0 + n) == 3 && Head(0xE0 + n) == n
    ensures n < 0x08 ==> Width(0xF0 + n) == 4 && Head(0xF0 + n) == n
  {
  }

  lemma TwoInvert(low: nat, lead: nat)
    requires low < 0x40 && lead < 0x20
    ensures DecodeOne([0xC0 + lead, 0x80 + low]) == lead * 0x40 + low && Width(0xC0 + lead) == 2
  {
  }

  lemma ThreeInvert(low: nat, middle: nat, lead: nat)
    requires low < 0x40 && middle < 0x40 && lead < 0x10
    ensures DecodeOne([0xE0 + lead, 0x80 + middle, 0x80 + low]) == (lead * 0x40 + middle) * 0x40 + low
    ensures Width(0xE0 + lead) == 3
  {
    TailInverts(low);
    TailInverts(middle);
    LeadInverts(lead);
    DecodeThree(0xE0 + lead, 0x80 + middle, 0x80 + low);
  }

  lemma FourInvert(low: nat, middle: nat, high: nat, lead: nat)
    requires low < 0x40 && middle < 0x40 && high < 0x40 && lead < 0x08
    ensures DecodeOne([0xF0 + lead, 0x80 + high, 0x80 + middle, 0x80 + low]) ==
              ((lead * 0x40 + high) * 0x40 + middle) * 0x40 + low
    ensures Width(0xF0 + lead) == 4
  {
    TailInverts(low);
    TailInverts(middle);
    TailInverts(high);
    LeadInverts(lead);
    DecodeFour(0xF0 + lead, 0x80 + high, 0x80 + middle, 0x80 + low);
  }

  lemma DecodeOneInverts(c: CodePoint)
    ensures Width(EncodeOne(c)[0]) == |EncodeOne(c)|
    ensures DecodeOne(EncodeOne(c)) == c
  {
    var low, rest := c % 0x40, c / 0x40;
    var middle, high := rest % 0x40, rest / 0x40;
    if c < 0x80 {
    } else if c < 0x800 {
      TwoInvert(low, rest);
    } else if c < 0x10000 {
      ThreeInvert(low, middle, high);
      assert EncodeOne(c) == [0xE0 + high, 0x80 + middle, 0x80 + low];
    } else {
      FourInvert(low, middle, high % 0x40, high / 0x40);
      assert EncodeOne(c) == [0xF0 + high / 0x40, 0x80 + high % 0x40, 0x80 + middle, 0x80 + low];
    }
  }

  lemma {:induction false} DecodeInverts(s: Text)
    requires Encode(s).Some?
    ensures Decode(Encode(s).value) == Some(s)
  {
    if s != [] {
      var first, rest := EncodeOne(s[0]), Encode(s[1..]).value;
      DecodeOneInverts(s[0]);
      DecodeInverts(s[1..]);
      assert (first + rest)[0] == first[0];
      assert (first + rest)[..|first|] == first && (first + rest)[|first|..] == rest;
      assert s == [s[0]] + s[1..];
    }
  }
}
