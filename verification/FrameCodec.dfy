/** Unpadded base64url text, and authenticated frames. */
module FrameCodec {
  import opened Prelude
  import opened Bytes

  // ----- base64url (section 5 of RFC 4648, without padding) -----

  type Sextet = n: nat | n < 64

  function Symbol(n: Sextet): (c: char)
    ensures IndexOf(c) == Some(n)
  {
    if n < 26 then ('A' as int + n) as char
    else if n < 52 then ('a' as int + (n - 26)) as char
    else if n < 62 then ('0' as int + (n - 52)) as char
    else if n == 62 then '-' else '_'
  }

  function IndexOf(c: char): Option<Sextet> {
    if 'A' <= c <= 'Z' then Some(c as int - 'A' as int)
    else if 'a' <= c <= 'z' then Some(c as int - 'a' as int + 26)
    else if '0' <= c <= '9' then Some(c as int - '0' as int + 52)
    else if c == '-' then Some(62) else if c == '_' then Some(63) else None
  }

  function Group(a: Byte, b: Byte, c: Byte): (s: seq<Sextet>)
    ensures |s| == 4
  {
    [a / 4, a % 4 * 16 + b / 16, b % 16 * 4 + c / 64, c % 64]
  }

  function Sextets(bytes: seq<Byte>): (s: seq<Sextet>)
    ensures |s| % 4 != 1
    ensures s == [] <==> bytes == []
  {
    match |bytes|
    case 0 => []
    case 1 => Group(bytes[0], 0, 0)[..2]
    case 2 => Group(bytes[0], bytes[1], 0)[..3]
    case _ => Group(bytes[0], bytes[1], bytes[2]) + Sextets(bytes[3..])
  }

  function Ungroup(i: Sextet, j: Sextet, k: Sextet, l: Sextet): (bytes: seq<Byte>)
    ensures |bytes| == 3
  {
    [i * 4 + j / 16, j % 16 * 16 + k / 4, k % 4 * 64 + l]
  }

  /** Whatever bits a short last group leaves over are dropped. */
  function FromSextets(s: seq<Sextet>): seq<Byte>
    requires |s| % 4 != 1
  {
    match |s|
    case 0 => []
    case 2 => Ungroup(s[0], s[1], 0, 0)[..1]
    case 3 => Ungroup(s[0], s[1], s[2], 0)[..2]
    case _ => Ungroup(s[0], s[1], s[2], s[3]) + FromSextets(s[4..])
  }

  function TextOf(s: seq<Sextet>): (text: string)
    ensures |text| == |s| && forall i | 0 <= i < |s| :: text[i] == Symbol(s[i])
  {
    seq(|s|, i requires 0 <= i < |s| => Symbol(s[i]))
  }

  predicate IsSymbols(text: string) {
    forall i | 0 <= i < |text| :: IndexOf(text[i]).Some?
  }

  function SextetsOf(text: string): (s: seq<Sextet>)
    requires IsSymbols(text)
    ensures |s| == |text| && forall i | 0 <= i < |s| :: s[i] == IndexOf(text[i]).value
  {
    seq(|text|, i requires 0 <= i < |text| => IndexOf(text[i]).value)
  }

  function Base64(bytes: seq<Byte>): string {
    TextOf(Sextets(bytes))
  }

  /** Refuses empty text, foreign characters, an impossible length, and left-over bits that are set. */
  function FromBase64(text: string): Option<seq<Byte>> {
    if text == "" || !IsSymbols(text) || |text| % 4 == 1 then None
    else
      var bytes := FromSextets(SextetsOf(text));
      if Base64(bytes) != text then None else Some(bytes)
  }

  lemma UngroupInverts(a: Byte, b: Byte, c: Byte)
    ensures var s := Group(a, b, c); Ungroup(s[0], s[1], s[2], s[3]) == [a, b, c]
  {
  }

  lemma {:induction false} FromSextetsInverts(bytes: seq<Byte>)
    ensures FromSextets(Sextets(bytes)) == bytes
  {
    var s := Sextets(bytes);
    if |bytes| == 0 {
    } else if |bytes| == 1 {
      UngroupInverts(bytes[0], 0, 0);
      assert s[1] % 16 == 0;
    } else if |bytes| == 2 {
      UngroupInverts(bytes[0], bytes[1], 0);
      assert s[2] % 4 == 0;
    } else {
      UngroupInverts(bytes[0], bytes[1], bytes[2]);
      FromSextetsInverts(bytes[3..]);
      assert s[4..] == Sextets(bytes[3..]);
      assert bytes == bytes[..3] + bytes[3..];
    }
  }

  lemma SextetsOfInverts(s: seq<Sextet>)
    ensures IsSymbols(TextOf(s)) && SextetsOf(TextOf(s)) == s
  {
  }

  /** Encoding is undone, except that empty text is never accepted. */
  lemma Base64RoundTrip(bytes: seq<Byte>)
    ensures FromBase64(Base64(bytes)) == if bytes == [] then None else Some(bytes)
  {
    SextetsOfInverts(Sextets(bytes));
    FromSextetsInverts(bytes);
  }

  /** Exactly one text stands for each non-empty byte string, and no other text is accepted. */
  lemma Base64IsCanonical(text: string, bytes: seq<Byte>)
    ensures FromBase64(text) == Some(bytes) <==> bytes != [] && text == Base64(bytes)
  {
    Base64RoundTrip(bytes);
  }

  /** A two-symbol group: the byte it holds whatever its left-over bits, and how that byte is written. */
  lemma ShortGroup(i: Sextet, top: nat, low: nat)
    requires top < 4 && low < 16
    ensures FromSextets([i, top * 16 + low]) == [i * 4 + top]
    ensures Sextets([i * 4 + top]) == [i, top * 16]
  {
  }

  lemma TextsDiffer(a: seq<Sextet>, b: seq<Sextet>)
    ensures TextOf(a) == TextOf(b) <==> a == b
  {
  }

  /** The re-encoding check refuses exactly the short groups whose left-over bits are set. */
  lemma LeftOverBitsMustBeClear(i: Sextet, top: nat, low: nat)
    requires top < 4 && low < 16
    ensures FromBase64(TextOf([i, top * 16 + low])).Some? <==> low == 0
  {
    var j: Sextet, clear: Sextet := top * 16 + low, top * 16;
    ShortGroup(i, top, low);
    SextetsOfInverts([i, j]);
    TextsDiffer([i, clear], [i, j]);
    assert [i, clear] == [i, j] <==> clear == j by {
      assert [i, clear][1] == clear && [i, j][1] == j;
    }
  }

  // ----- Frames -----

  const MAX_FRAME_BODY := 16 * 1024 * 1024
  const MAC_SIZE := 32
  const HEADER_SIZE := 36

  /** "pomodorough-iroh-frame-v1" and a zero byte. */
  const FRAME_PREFIX: seq<Byte> :=
    [112, 111, 109, 111, 100, 111, 114, 111, 117, 103, 104, 45, 105, 114, 111, 104, 45, 102, 114, 97, 109, 101, 45,
     118, 49, 0]

  type Digest = s: seq<Byte> | |s| == MAC_SIZE witness seq(MAC_SIZE, _ => 0)

  /** HMAC-SHA-256: any function to 32 bytes. */
  type Mac = (seq<Byte>, seq<Byte>) -> Digest

  function BigEndian(n: nat): (s: seq<Byte>)
    requires n < 0x1_0000_0000
    ensures |s| == 4
  {
    [n / 0x100 / 0x100 / 0x100, n / 0x100 / 0x100 % 0x100, n / 0x100 % 0x100, n % 0x100]
  }

  function FromBigEndian(s: seq<Byte>): (n: nat)
    requires |s| == 4
    ensures n < 0x1_0000_0000
  {
    var first: nat, second: nat, third: nat, fourth: nat := s[0], s[1], s[2], s[3];
    ((first * 0x100 + second) * 0x100 + third) * 0x100 + fourth
  }

  lemma BigEndianInverts(n: nat)
    requires n < 0x1_0000_0000
    ensures FromBigEndian(BigEndian(n)) == n
  {
  }

  lemma FromBigEndianInverts(s: seq<Byte>)
    requires |s| == 4
    ensures BigEndian(FromBigEndian(s)) == s
  {
    var first: nat, second: nat, third: nat := s[0], s[1], s[2];
    ByteAppended(first, s[1]);
    ByteAppended(first * 0x100 + second, s[2]);
    ByteAppended((first * 0x100 + second) * 0x100 + third, s[3]);
  }

  lemma ByteAppended(high: nat, low: Byte)
    ensures (high * 0x100 + low) / 0x100 == high && (high * 0x100 + low) % 0x100 == low
  {
  }

  function EncodeFrame(body: seq<Byte>, secret: seq<Byte>, mac: Mac): Option<seq<Byte>> {
    if |body| > MAX_FRAME_BODY || |secret| != 32 then None
    else Some(BigEndian(|body|) + mac(secret, FRAME_PREFIX + body) + body)
  }

  function DecodeFrame(frame: seq<Byte>, secret: seq<Byte>, mac: Mac): Option<seq<Byte>> {
    if |frame| < HEADER_SIZE || |secret| != 32 then None
    else
      var length := FromBigEndian(frame[..4]);
      if length > MAX_FRAME_BODY || |frame| != length + HEADER_SIZE then None
      else
        var body := frame[HEADER_SIZE..];
        if frame[4..HEADER_SIZE] != mac(secret, FRAME_PREFIX + body) then None else Some(body)
  }

  /** A frame decodes to a body exactly when it is that body's frame: nothing else is accepted. */
  lemma FramesAreExactlyTheEncodings(frame: seq<Byte>, body: seq<Byte>, secret: seq<Byte>, mac: Mac)
    ensures DecodeFrame(frame, secret, mac) == Some(body) <==> EncodeFrame(body, secret, mac) == Some(frame)
  {
    if DecodeFrame(frame, secret, mac) == Some(body) {
      FromBigEndianInverts(frame[..4]);
      assert frame == frame[..4] + frame[4..HEADER_SIZE] + frame[HEADER_SIZE..];
    }
    if EncodeFrame(body, secret, mac) == Some(frame) {
      BigEndianInverts(|body|);
      assert frame[..4] == BigEndian(|body|);
      assert frame[4..HEADER_SIZE] == mac(secret, FRAME_PREFIX + body);
      assert frame[HEADER_SIZE..] == body;
    }
  }
}
