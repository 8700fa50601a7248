/** Canonical JSON, and a parser that undoes it. */
module CanonicalJson {
  import opened Prelude
  import opened Bytes
  import Order

  /** A decoded value whose text is code points; `Other` is anything the printer does not know. */
  datatype Value =
    | Null
    | Bool(b: bool)
    | Int(n: int)
    | Other
    | Str(s: Text)
    | List(items: seq<Value>)
    | Object(members: map<Text, Value>)

  const QUOTE: CodePoint := 0x22
  const BACKSLASH: CodePoint := 0x5C
  const COMMA: CodePoint := 0x2C
  const COLON: CodePoint := 0x3A
  const MINUS: CodePoint := 0x2D
  const LIST_OPEN: CodePoint := 0x5B
  const LIST_CLOSE: CodePoint := 0x5D
  const OBJECT_OPEN: CodePoint := 0x7B
  const OBJECT_CLOSE: CodePoint := 0x7D
  const NULL_TEXT: Text := [0x6E, 0x75, 0x6C, 0x6C]
  const TRUE_TEXT: Text := [0x74, 0x72, 0x75, 0x65]
  const FALSE_TEXT: Text := [0x66, 0x61, 0x6C, 0x73, 0x65]

  /** A text of ASCII characters. */
  function Characters(s: string): Text
    requires forall c <- s :: c < '\U{0080}'
  {
    seq(|s|, i requires 0 <= i < |s| => assert s[i] in s; s[i] as int)
  }

  lemma WordsOfJson()
    ensures NULL_TEXT == Characters("null") && TRUE_TEXT == Characters("true") && FALSE_TEXT == Characters("false")
    ensures [QUOTE, BACKSLASH, COMMA, COLON, MINUS] == Characters("\"\\,:-")
    ensures [LIST_OPEN, LIST_CLOSE, OBJECT_OPEN, OBJECT_CLOSE] == Characters("[]{}")
  {
  }

  // ----- Numbers -----

  predicate IsDigit(c: CodePoint) {
    0x30 <= c <= 0x39
  }

  function Digits(n: nat): (s: Text)
    ensures s != [] && forall i | 0 <= i < |s| :: IsDigit(s[i])
  {
    if n < 10 then [0x30 + n] else Digits(n / 10) + [0x30 + n % 10]
  }

  function Number(n: int): Text {
    if n < 0 then [MINUS] + Digits(-n) else Digits(n)
  }

  function DigitCount(s: Text): (n: nat)
    ensures n <= |s| && forall i | 0 <= i < n :: IsDigit(s[i])
  {
    if s == [] || !IsDigit(s[0]) then 0 else 1 + DigitCount(s[1..])
  }

  function DigitValue(s: Text): nat
    requires forall i | 0 <= i < |s| :: IsDigit(s[i])
  {
    if s == [] then 0
    else
      assert IsDigit(s[|s| - 1]);
      DigitValue(s[..|s| - 1]) * 10 + (s[|s| - 1] - 0x30)
  }

  lemma {:induction false} DigitValueInverts(n: nat)
    ensures DigitValue(Digits(n)) == n
  {
    var s := Digits(n);
    if n < 10 {
      assert s[..|s| - 1] == [];
    } else {
      DigitValueInverts(n / 10);
      assert s[..|s| - 1] == Digits(n / 10);
    }
  }

  lemma DigitsOfJson(c: CodePoint)
    ensures IsDigit(c) <==> c in Characters("0123456789")
  {
    var decimal := Characters("0123456789");
    if IsDigit(c) { assert decimal[c - 0x30] == c; }
  }

  /** An integer is written without leading zeros, and without a sign for zero. */
  lemma {:induction false} NoLeadingZeros(n: nat)
    ensures n > 0 ==> Digits(n)[0] != Characters("0")[0]
  {
    if n >= 10 { NoLeadingZeros(n / 10); }
  }

  lemma SignOfNumber(n: nat)
    ensures Number(n) == Digits(n) && (n > 0 ==> Number(0 - n) == Characters("-") + Digits(n))
  {
    assert Characters("-") == [MINUS];
  }

  lemma {:induction false} DigitCountStops(s: Text, rest: Text)
    requires forall i | 0 <= i < |s| :: IsDigit(s[i])
    requires rest == [] || !IsDigit(rest[0])
    ensures DigitCount(s + rest) == |s|
  {
    if s == [] {
      assert s + rest == rest;
    } else {
      assert (s + rest)[1..] == s[1..] + rest;
      DigitCountStops(s[1..], rest);
    }
  }

  // ----- Strings -----

  function HexDigit(n: nat): CodePoint
    requires n < 16
  {
    if n < 10 then 0x30 + n else 0x61 + (n - 10)
  }

  /** The letter of a short escape. */
  function ShortEscape(c: CodePoint): Option<CodePoint> {
    if c == QUOTE || c == BACKSLASH then Some(c)
    else if c == 0x0A then Some(0x6E)
    else if c == 0x0D then Some(0x72)
    else if c == 0x09 then Some(0x74)
    else if c == 0x08 then Some(0x62)
    else if c == 0x0C then Some(0x66)
    else None
  }

  function Escaped(c: CodePoint): (s: Text)
    ensures s != []
  {
    if ShortEscape(c).Some? then [BACKSLASH, ShortEscape(c).value]
    else if c < 0x20 then [BACKSLASH, 0x75, 0x30, 0x30, HexDigit(c / 16), HexDigit(c % 16)]
    else [c]
  }

  /** Two characters for those that have a short form, six for other controls, itself for the rest. */
  lemma EscapesOfJson(c: CodePoint)
    ensures Escaped(0x22) == Characters("\\\"") && Escaped(0x5C) == Characters("\\\\")
    ensures Escaped(0x08) == Characters("\\b") && Escaped(0x0C) == Characters("\\f")
    ensures Escaped(0x0A) == Characters("\\n") && Escaped(0x0D) == Characters("\\r")
    ensures Escaped(0x09) == Characters("\\t")
    ensures c < 0x20 && c !in {0x08, 0x09, 0x0A, 0x0C, 0x0D} ==>
              && var hex := Characters("0123456789abcdef");
              Escaped(c) == Characters("\\u00") + [hex[c / 16], hex[c % 16]]
    ensures c >= 0x20 && c !in {0x22, 0x5C} ==> Escaped(c) == [c]
  {
    var hex := Characters("0123456789abcdef");
    assert forall k: nat | k < 16 :: hex[k] == HexDigit(k);
  }

  function EscapedText(s: Text): Text {
    if s == [] then [] else Escaped(s[0]) + EscapedText(s[1..])
  }

  function Quoted(s: Text): Text {
    [QUOTE] + EscapedText(s) + [QUOTE]
  }

  function FromShortEscape(letter: CodePoint): Option<CodePoint> {
    if letter == QUOTE || letter == BACKSLASH then Some(letter)
    else if letter == 0x6E then Some(0x0A)
    else if letter == 0x72 then Some(0x0D)
    else if letter == 0x74 then Some(0x09)
    else if letter == 0x62 then Some(0x08)
    else if letter == 0x66 then Some(0x0C)
    else None
  }

  function FromHexDigit(c: CodePoint): nat {
    if c < 0x61 then (if c < 0x30 then 0 else (c - 0x30) % 16) else (c - 0x61 + 10) % 16
  }

  /** The first code point of a string's body and the width it is written in. */
  function ParseEscape(s: Text): (r: Option<(CodePoint, nat)>)
    ensures r.Some? ==> 1 <= r.value.1 <= |s|
  {
    if s == [] then None
    else if s[0] != BACKSLASH then Some((s[0], 1))
    else if |s| < 2 then None
    else if FromShortEscape(s[1]).Some? then Some((FromShortEscape(s[1]).value, 2))
    else if |s| < 6 || s[1] != 0x75 then None
    else Some((FromHexDigit(s[4]) * 16 + FromHexDigit(s[5]), 6))
  }

  /** A string's body up to its closing quote, and what follows. */
  function ParseBody(s: Text): (r: Option<(Text, Text)>)
    ensures r.Some? ==> |r.value.1| < |s|
    decreases |s|
  {
    if s == [] then None
    else if s[0] == QUOTE then Some(([], s[1..]))
    else
      match ParseEscape(s)
      case None => None
      case Some((c, width)) =>
        match ParseBody(s[width..])
        case None => None
        case Some((text, rest)) => Some(([c] + text, rest))
  }

  lemma EscapeInverts(c: CodePoint, rest: Text)
    ensures Escaped(c)[0] != QUOTE
    ensures ParseEscape(Escaped(c) + rest) == Some((c, |Escaped(c)|))
  {
  }

  lemma BodySteps(c: CodePoint, rest: Text)
    ensures ParseBody(Escaped(c) + rest) ==
              match ParseBody(rest)
              case None => None
              case Some((text, after)) => Some(([c] + text, after))
  {
  }

  lemma {:induction false} BodyInverts(s: Text, rest: Text)
    ensures ParseBody(EscapedText(s) + [QUOTE] + rest) == Some((s, rest))
  {
    var printed := EscapedText(s) + [QUOTE] + rest;
    if s == [] {
      assert printed == [QUOTE] + rest;
    } else {
      var after := EscapedText(s[1..]) + [QUOTE] + rest;
      assert printed == Escaped(s[0]) + after;
      EscapeInverts(s[0], after);
      BodyInverts(s[1..], rest);
      BodySteps(s[0], after);
      assert s == [s[0]] + s[1..];
    }
  }

  // ----- Key order -----

  /** UTF-16, surrogates passed through. */
  function Units(s: Text): seq<nat> {
    if s == [] then []
    else if s[0] < 0x10000 then [s[0]] + Units(s[1..])
    else [0xD800 + (s[0] - 0x10000) / 0x400, 0xDC00 + (s[0] - 0x10000) % 0x400] + Units(s[1..])
  }

  /** By UTF-16 code units (section 3.2.3 of RFC 8785); only surrogates can tie, and then by code points. */
  predicate Before(a: Text, b: Text) {
    Order.Less(Units(a), Units(b)) || (Units(a) == Units(b) && Order.Less(a, b))
  }

  /** The first differing code unit decides; of equal units the first differing code point. */
  lemma BeforeMeans(a: Text, b: Text)
    ensures Before(a, b) <==> Order.Precedes(Units(a), Units(b)) || (Units(a) == Units(b) && Order.Precedes(a, b))
  {
    Order.LessMeans(Units(a), Units(b));
    Order.LessMeans(a, b);
  }

  /** A code point above 0xFFFF takes two units, a high and a low surrogate, which give it back. */
  lemma {:induction false} UnitsOfParts(c: CodePoint, s: Text)
    ensures c < 0x10000 ==> Units([c] + s) == [c] + Units(s)
    ensures c >= 0x10000 ==>
              exists high, low ::
                && Units([c] + s) == [high, low] + Units(s)
                && 0xD800 <= high <= 0xDBFF && 0xDC00 <= low <= 0xDFFF
                && c == 0x10000 + (high - 0xD800) * 0x400 + (low - 0xDC00)
  {
    var text := [c] + s;
    assert text[0] == c && text[1..] == s;
    if c >= 0x10000 {
      var high, low := 0xD800 + (c - 0x10000) / 0x400, 0xDC00 + (c - 0x10000) % 0x400;
      assert Units(text) == [high, low] + Units(s);
    }
  }

  lemma BeforeIsStrict(a: Text, b: Text, c: Text)
    ensures Before(a, b) || a == b || Before(b, a)
    ensures !Before(a, a)
    ensures Before(a, b) && Before(b, c) ==> Before(a, c)
  {
    Order.Total(Units(a), Units(b));
    Order.Total(a, b);
    Order.Irreflexive(Units(a));
    Order.Irreflexive(a);
    if Order.Less(Units(a), Units(b)) && Order.Less(Units(b), Units(c)) {
      Order.Transitive(Units(a), Units(b), Units(c));
    }
    if Order.Less(a, b) && Order.Less(b, c) { Order.Transitive(a, b, c); }
  }

  ghost predicate IsLeast(k: Text, keys: set<Text>) {
    k in keys && forall other <- keys | other != k :: Before(k, other)
  }

  lemma {:induction false} LeastExists(keys: set<Text>)
    requires keys != {}
    ensures exists k :: IsLeast(k, keys)
    decreases keys
  {
    var k :| k in keys;
    if keys == {k} {
      assert IsLeast(k, keys);
    } else {
      LeastExists(keys - {k});
      var least :| IsLeast(least, keys - {k});
      BeforeIsStrict(k, least, k);
      var winner := if Before(k, least) then k else least;
      forall other | other in keys && other != winner ensures Before(winner, other) {
        if other != k { BeforeIsStrict(k, least, other); }
      }
      assert IsLeast(winner, keys);
    }
  }

  ghost function SortedKeys(keys: set<Text>): (sorted: seq<Text>)
    ensures (set k <- sorted) == keys
    ensures Ascending(sorted)
    decreases keys
  {
    if keys == {} then []
    else
      LeastExists(keys);
      var k :| IsLeast(k, keys);
      assert keys == {k} + (keys - {k});
      [k] + SortedKeys(keys - {k})
  }

  ghost predicate Ascending(keys: seq<Text>) {
    forall i, j | 0 <= i < j < |keys| :: Before(keys[i], keys[j])
  }

  // ----- Printing -----

  ghost function Print(v: Value): (r: Option<Text>)
    ensures r.Some? ==> r.value != []
    decreases v
  {
    match v
    case Null => Some(NULL_TEXT)
    case Bool(b) => Some(if b then TRUE_TEXT else FALSE_TEXT)
    case Int(n) => if -MAX_SAFE_INTEGER <= n <= MAX_SAFE_INTEGER then Some(Number(n)) else None
    case Other => None
    case Str(s) => Some(Quoted(s))
    case List(items) =>
      (match PrintItems(items)
       case None => None
       case Some(body) => Some([LIST_OPEN] + body + [LIST_CLOSE]))
    case Object(members) =>
      (match PrintMembers(v, SortedKeys(members.Keys))
       case None => None
       case Some(body) => Some([OBJECT_OPEN] + body + [OBJECT_CLOSE]))
  }

  ghost function PrintItems(items: seq<Value>): Option<Text>
    decreases items
  {
    if items == [] then Some([])
    else
      var first := Print(items[0]);
      if |items| == 1 then first
      else
        var rest := PrintItems(items[1..]);
        if first.None? || rest.None? then None else Some(first.value + [COMMA] + rest.value)
  }

  ghost function PrintMember(v: Value, key: Text): Option<Text>
    requires v.Object? && key in v.members
    decreases v, 0
  {
    match Print(v.members[key])
    case None => None
    case Some(value) => Some(Quoted(key) + [COLON] + value)
  }

  ghost function PrintMembers(v: Value, keys: seq<Text>): Option<Text>
    requires v.Object? && forall k <- keys :: k in v.members
    decreases v, |keys| + 1
  {
    if keys == [] then Some([])
    else
      var first := PrintMember(v, keys[0]);
      if |keys| == 1 then first
      else
        var rest := PrintMembers(v, keys[1..]);
        if first.None? || rest.None? then None else Some(first.value + [COMMA] + rest.value)
  }

  /** The record's bytes; text with a lone surrogate has none. */
  ghost function Canonical(v: Value): Option<seq<Byte>> {
    match Print(v)
    case None => None
    case Some(text) => Encode(text)
  }

  /** Safe integers, and nothing unknown, all the way down. */
  ghost predicate Portable(v: Value)
    decreases v
  {
    match v
    case Int(n) => -MAX_SAFE_INTEGER <= n <= MAX_SAFE_INTEGER
    case Other => false
    case List(items) => forall i | 0 <= i < |items| :: Portable(items[i])
    case Object(members) => forall key <- members :: Portable(members[key])
    case _ => true
  }

  lemma {:induction false} PrintsExactlyThePortable(v: Value)
    ensures Print(v).Some? <==> Portable(v)
    decreases v
  {
    match v
    case List(items) => PrintsPortableItems(items);
    case Object(members) =>
      PrintsPortableMembers(v, SortedKeys(members.Keys));
      forall key ensures key in SortedKeys(members.Keys) <==> key in members {
        assert key in (set k <- SortedKeys(members.Keys)) <==> key in members.Keys;
      }
    case _ =>
  }

  lemma {:induction false} PrintsPortableItems(items: seq<Value>)
    ensures PrintItems(items).Some? <==> forall i | 0 <= i < |items| :: Portable(items[i])
    decreases items
  {
    if items != [] {
      PrintsExactlyThePortable(items[0]);
      PrintsPortableItems(items[1..]);
      assert items == [items[0]] + items[1..];
    }
  }

  lemma {:induction false} PrintsPortableMembers(v: Value, keys: seq<Text>)
    requires v.Object? && forall k <- keys :: k in v.members
    ensures PrintMembers(v, keys).Some? <==> forall k <- keys :: Portable(v.members[k])
    decreases v, |keys|
  {
    if keys != [] {
      PrintsExactlyThePortable(v.members[keys[0]]);
      PrintsPortableMembers(v, keys[1..]);
      assert keys == [keys[0]] + keys[1..];
    }
  }

  // ----- Parsing -----

  predicate Starts(s: Text, prefix: Text) {
    |prefix| <= |s| && s[..|prefix|] == prefix
  }

  function ParseNumber(s: Text): (r: Option<(Value, Text)>)
    ensures r.Some? ==> |r.value.1| < |s|
  {
    if s != [] && s[0] == MINUS then
      var n := DigitCount(s[1..]);
      if n == 0 then None else Some((Int(0 - DigitValue(s[1..][..n])), s[1..][n..]))
    else
      var n := DigitCount(s);
      if n == 0 then None else Some((Int(DigitValue(s[..n])), s[n..]))
  }

  /** What a value's first code point announces. */
  datatype Shape = Word | Quotes | Brackets | Braces | Digit

  function ShapeOf(c: CodePoint): Shape {
    if c in {0x6E, 0x74, 0x66} then Word
    else if c == QUOTE then Quotes
    else if c == LIST_OPEN then Brackets
    else if c == OBJECT_OPEN then Braces
    else Digit
  }

  function ParseWord(s: Text): (r: Option<(Value, Text)>)
    ensures r.Some? ==> |r.value.1| < |s|
  {
    if Starts(s, NULL_TEXT) then Some((Null, s[4..]))
    else if Starts(s, TRUE_TEXT) then Some((Bool(true), s[4..]))
    else if Starts(s, FALSE_TEXT) then Some((Bool(false), s[5..]))
    else None
  }

  function ParseText(s: Text): (r: Option<(Value, Text)>)
    ensures r.Some? ==> |r.value.1| < |s|
  {
    match ParseBody(s)
    case None => None
    case Some((text, rest)) => Some((Str(text), rest))
  }

  function Parse(s: Text): (r: Option<(Value, Text)>)
    ensures r.Some? ==> |r.value.1| < |s|
    decreases |s|, 0
  {
    if s == [] then None
    else
      match ShapeOf(s[0])
      case Word => ParseWord(s)
      case Quotes => ParseText(s[1..])
      case Brackets => ParseList(s[1..])
      case Braces => ParseObject(s[1..])
      case Digit => ParseNumber(s)
  }

  function ParseList(s: Text): (r: Option<(Value, Text)>)
    ensures r.Some? ==> |r.value.1| < |s|
    decreases |s|, 2
  {
    if s != [] && s[0] == LIST_CLOSE then Some((List([]), s[1..]))
    else
      match ParseItems(s)
      case None => None
      case Some((items, rest)) => Some((List(items), rest))
  }

  function ParseObject(s: Text): (r: Option<(Value, Text)>)
    ensures r.Some? ==> |r.value.1| < |s|
    decreases |s|, 3
  {
    if s != [] && s[0] == OBJECT_CLOSE then Some((Object(map[]), s[1..]))
    else
      match ParseMembers(s)
      case None => None
      case Some((members, rest)) => Some((Object(members), rest))
  }

  function ParseItems(s: Text): (r: Option<(seq<Value>, Text)>)
    ensures r.Some? ==> |r.value.1| < |s|
    decreases |s|, 1
  {
    match Parse(s)
    case None => None
    case Some((first, after)) =>
      if after == [] then None
      else if after[0] == LIST_CLOSE then Some(([first], after[1..]))
      else if after[0] != COMMA then None
      else
        match ParseItems(after[1..])
        case None => None
        case Some((items, rest)) => Some(([first] + items, rest))
  }

  /** `"key":value`, and what follows. */
  function ParseMember(s: Text): (r: Option<(Text, Value, Text)>)
    ensures r.Some? ==> |r.value.2| < |s|
    decreases |s|, 1
  {
    if s == [] || s[0] != QUOTE then None
    else
      match ParseBody(s[1..])
      case None => None
      case Some((key, after)) =>
        if after == [] || after[0] != COLON then None
        else
          match Parse(after[1..])
          case None => None
          case Some((value, rest)) => Some((key, value, rest))
  }

  function ParseMembers(s: Text): (r: Option<(map<Text, Value>, Text)>)
    ensures r.Some? ==> |r.value.1| < |s|
    decreases |s|, 2
  {
    match ParseMember(s)
    case None => None
    case Some((key, value, after)) =>
      if after == [] then None
      else if after[0] == OBJECT_CLOSE then Some((map[key := value], after[1..]))
      else if after[0] != COMMA then None
      else
        match ParseMembers(after[1..])
        case None => None
        case Some((members, rest)) => if key in members then None else Some((members[key := value], rest))
  }

  // ----- Parsing undoes printing -----

  predicate Closed(rest: Text) {
    rest == [] || !IsDigit(rest[0])
  }

  lemma Halves(a: Text, b: Text)
    ensures (a + b)[..|a|] == a && (a + b)[|a|..] == b
    ensures a != [] ==> (a + b)[0] == a[0] && (a + b)[1..] == a[1..] + b
  {
  }

  lemma NumberInverts(n: int, rest: Text)
    requires Closed(rest)
    ensures ParseNumber(Number(n) + rest) == Some((Int(n), rest))
    ensures Number(n)[0] == MINUS || IsDigit(Number(n)[0])
  {
    var size: nat := if n < 0 then -n else n;
    var digits := Digits(size);
    DigitCountStops(digits, rest);
    DigitValueInverts(size);
    Halves(digits, rest);
    if n < 0 { Halves(Number(n), rest); }
  }

  /** What follows the opening mark of a printed string, list or object. */
  lemma Opened(open: CodePoint, body: Text, close: CodePoint, rest: Text)
    ensures ([open] + body + [close])[1..] + rest == body + [close] + rest
    ensures body == [] ==> (body + [close] + rest)[0] == close && (body + [close] + rest)[1..] == rest
    ensures body != [] ==> (body + [close] + rest)[0] == body[0]
  {
  }

  lemma QuotedInverts(text: Text, rest: Text)
    ensures (Quoted(text) + rest)[0] == QUOTE
    ensures ParseBody((Quoted(text) + rest)[1..]) == Some((text, rest))
  {
    BodyInverts(text, rest);
    Opened(QUOTE, EscapedText(text), QUOTE, rest);
    Halves(Quoted(text), rest);
  }

  /** No printed value starts like the end of a list or of an object. */
  lemma PrintedStart(v: Value)
    requires Print(v).Some?
    ensures Print(v).value[0] !in {LIST_CLOSE, OBJECT_CLOSE}
  {
  }

  lemma WordInverts(v: Value, rest: Text)
    requires v.Null? || v.Bool?
    ensures ParseWord(Print(v).value + rest) == Some((v, rest))
    ensures ShapeOf(Print(v).value[0]) == Word
  {
    var word := Print(v).value;
    var s := word + rest;
    assert s[0] == word[0] && s[..|word|] == word && s[|word|..] == rest;
  }

  /** Parsing reads the shape off the first code point. */
  lemma ParseDispatch(first: Text, rest: Text)
    requires first != []
    ensures Parse(first + rest) ==
              match ShapeOf(first[0])
              case Word => ParseWord(first + rest)
              case Quotes => ParseText(first[1..] + rest)
              case Brackets => ParseList(first[1..] + rest)
              case Braces => ParseObject(first[1..] + rest)
              case Digit => ParseNumber(first + rest)
  {
    var s := first + rest;
    assert s[0] == first[0] && s[1..] == first[1..] + rest;
  }

  lemma IntInverts(n: int, rest: Text)
    requires Closed(rest)
    ensures Parse(Number(n) + rest) == Some((Int(n), rest))
  {
    ParseDispatch(Number(n), rest);
    NumberInverts(n, rest);
  }

  lemma StringInverts(text: Text, rest: Text)
    ensures Parse(Quoted(text) + rest) == Some((Str(text), rest))
  {
    ParseDispatch(Quoted(text), rest);
    BodyInverts(text, rest);
    Opened(QUOTE, EscapedText(text), QUOTE, rest);
  }

  lemma {:induction false} ParseInverts(v: Value, rest: Text)
    requires Print(v).Some? && Closed(rest)
    ensures Parse(Print(v).value + rest) == Some((v, rest))
    decreases v
  {
    match v
    case Int(n) => IntInverts(n, rest);
    case Str(text) => StringInverts(text, rest);
    case List(items) => ParseDispatch(Print(v).value, rest); ListInverts(v, rest);
    case Object(members) => ParseDispatch(Print(v).value, rest); ObjectInverts(v, rest);
    case Null => ParseDispatch(NULL_TEXT, rest); WordInverts(v, rest);
    case Bool(b) => ParseDispatch(Print(v).value, rest); WordInverts(v, rest);
    case Other =>
  }

  lemma {:induction false} ListInverts(v: Value, rest: Text)
    requires v.List? && Print(v).Some?
    ensures ParseList(Print(v).value[1..] + rest) == Some((v, rest))
    decreases v, 0
  {
    var body := PrintItems(v.items).value;
    Opened(LIST_OPEN, body, LIST_CLOSE, rest);
    if v.items != [] {
      ItemsInvert(v.items, rest);
      PrintedStart(v.items[0]);
      assert body[0] == Print(v.items[0]).value[0];
    }
  }

  /** What follows the first item of a printed list. */
  ghost function AfterFirstItem(items: seq<Value>, rest: Text): Text
    requires items != [] && PrintItems(items).Some?
  {
    if |items| == 1 then [LIST_CLOSE] + rest
    else [COMMA] + (PrintItems(items[1..]).value + [LIST_CLOSE] + rest)
  }

  lemma ItemsSplit(items: seq<Value>, rest: Text)
    requires items != [] && PrintItems(items).Some?
    ensures PrintItems(items).value + [LIST_CLOSE] + rest == Print(items[0]).value + AfterFirstItem(items, rest)
  {
    var first := Print(items[0]).value;
    if |items| == 1 { EndsHere(first, LIST_CLOSE, rest); }
    else { GoesOn(first, PrintItems(items[1..]).value, LIST_CLOSE, rest); }
  }

  lemma EndsHere(first: Text, close: CodePoint, rest: Text)
    ensures first + [close] + rest == first + ([close] + rest)
  {
  }

  lemma GoesOn(first: Text, others: Text, close: CodePoint, rest: Text)
    ensures first + [COMMA] + others + [close] + rest == first + ([COMMA] + (others + [close] + rest))
  {
  }

  lemma {:induction false} ItemsInvert(items: seq<Value>, rest: Text)
    requires items != [] && PrintItems(items).Some?
    ensures ParseItems(PrintItems(items).value + [LIST_CLOSE] + rest) == Some((items, rest))
    decreases items
  {
    var after := AfterFirstItem(items, rest);
    ItemsSplit(items, rest);
    ParseInverts(items[0], after);
    assert items == [items[0]] + items[1..];
    if |items| == 1 {
      assert after[1..] == rest && items == [items[0]];
    } else {
      ItemsInvert(items[1..], rest);
      assert after[1..] == PrintItems(items[1..]).value + [LIST_CLOSE] + rest;
    }
  }

  lemma {:induction false} ObjectInverts(v: Value, rest: Text)
    requires v.Object? && Print(v).Some?
    ensures ParseObject(Print(v).value[1..] + rest) == Some((v, rest))
    decreases v, |v.members| + 2
  {
    var keys := SortedKeys(v.members.Keys);
    var body := PrintMembers(v, keys).value;
    Opened(OBJECT_OPEN, body, OBJECT_CLOSE, rest);
    if keys == [] {
      assert v.members.Keys == {};
    } else {
      AscendingKeysAreFew(keys, v.members.Keys);
      MembersInvert(v, keys, rest);
      MembersStart(v, keys);
      RestrictedToAll(v, keys);
      MembersMakeAnObject(body + [OBJECT_CLOSE] + rest, v.members, rest);
    }
  }

  lemma RestrictedToAll(v: Value, keys: seq<Text>)
    requires v.Object? && v.members.Keys == set k <- keys
    ensures Restricted(v, keys) == v.members
  {
    assert Restricted(v, keys).Keys == v.members.Keys;
  }

  lemma MembersMakeAnObject(s: Text, members: map<Text, Value>, rest: Text)
    requires s != [] && s[0] != OBJECT_CLOSE && ParseMembers(s) == Some((members, rest))
    ensures ParseObject(s) == Some((Object(members), rest))
  {
  }

  lemma MembersStart(v: Value, keys: seq<Text>)
    requires v.Object? && keys != [] && (forall k <- keys :: k in v.members) && PrintMembers(v, keys).Some?
    ensures PrintMembers(v, keys).value != [] && PrintMembers(v, keys).value[0] == QUOTE
  {
  }

  lemma {:induction false} AscendingKeysAreFew(keys: seq<Text>, all: set<Text>)
    requires Ascending(keys) && forall k <- keys :: k in all
    ensures |keys| <= |all|
  {
    if keys != [] {
      BeforeIsStrict(keys[0], keys[0], keys[0]);
      assert keys[0] in keys;
      forall k | k in keys[1..] ensures k in all - {keys[0]} {
        assert k in keys;
      }
      AscendingKeysAreFew(keys[1..], all - {keys[0]});
    }
  }

  lemma {:induction false} MemberInverts(v: Value, key: Text, rest: Text)
    requires v.Object? && key in v.members && PrintMember(v, key).Some? && Closed(rest)
    ensures ParseMember(PrintMember(v, key).value + rest) == Some((key, v.members[key], rest))
    decreases v, 0
  {
    var value := Print(v.members[key]).value;
    var after := [COLON] + (value + rest);
    assert PrintMember(v, key).value + rest == Quoted(key) + after;
    QuotedInverts(key, after);
    assert after[1..] == value + rest;
    ParseInverts(v.members[key], rest);
  }

  lemma MembersStep(key: Text, value: Value, first: Text, after: Text)
    requires ParseMember(first + after) == Some((key, value, after)) && after != []
    ensures after[0] == OBJECT_CLOSE ==> ParseMembers(first + after) == Some((map[key := value], after[1..]))
    ensures after[0] == COMMA ==>
              ParseMembers(first + after) ==
              match ParseMembers(after[1..])
              case None => None
              case Some((members, rest)) => if key in members then None else Some((members[key := value], rest))
  {
  }

  ghost function Restricted(v: Value, keys: seq<Text>): map<Text, Value>
    requires v.Object? && forall k <- keys :: k in v.members
  {
    map k | k in keys :: v.members[k]
  }

  lemma RestrictedGrows(v: Value, keys: seq<Text>)
    requires v.Object? && keys != [] && Ascending(keys) && forall k <- keys :: k in v.members
    ensures keys[0] !in Restricted(v, keys[1..])
    ensures Restricted(v, keys) == Restricted(v, keys[1..])[keys[0] := v.members[keys[0]]]
  {
    BeforeIsStrict(keys[0], keys[0], keys[0]);
  }

  /** What follows the first member of a printed object. */
  ghost function AfterFirst(v: Value, keys: seq<Text>, rest: Text): Text
    requires v.Object? && keys != [] && (forall k <- keys :: k in v.members) && PrintMembers(v, keys).Some?
  {
    if |keys| == 1 then [OBJECT_CLOSE] + rest
    else [COMMA] + (PrintMembers(v, keys[1..]).value + [OBJECT_CLOSE] + rest)
  }

  lemma MembersSplit(v: Value, keys: seq<Text>, rest: Text)
    requires v.Object? && keys != [] && (forall k <- keys :: k in v.members) && PrintMembers(v, keys).Some?
    ensures PrintMembers(v, keys).value + [OBJECT_CLOSE] + rest ==
              PrintMember(v, keys[0]).value + AfterFirst(v, keys, rest)
  {
    var first := PrintMember(v, keys[0]).value;
    if |keys| == 1 { EndsHere(first, OBJECT_CLOSE, rest); }
    else { GoesOn(first, PrintMembers(v, keys[1..]).value, OBJECT_CLOSE, rest); }
  }

  lemma {:induction false} MembersInvert(v: Value, keys: seq<Text>, rest: Text)
    requires v.Object? && keys != [] && Ascending(keys) && forall k <- keys :: k in v.members
    requires PrintMembers(v, keys).Some?
    ensures ParseMembers(PrintMembers(v, keys).value + [OBJECT_CLOSE] + rest) == Some((Restricted(v, keys), rest))
    decreases v, |keys|
  {
    var key, first, after := keys[0], PrintMember(v, keys[0]).value, AfterFirst(v, keys, rest);
    MembersSplit(v, keys, rest);
    MemberInverts(v, key, after);
    MembersStep(key, v.members[key], first, after);
    RestrictedGrows(v, keys);
    if |keys| == 1 {
      assert Restricted(v, keys[1..]) == map[] && after[1..] == rest;
    } else {
      MembersInvert(v, keys[1..], rest);
      assert after[1..] == PrintMembers(v, keys[1..]).value + [OBJECT_CLOSE] + rest;
    }
  }

  /** The bytes of a record determine it. */
  lemma CanonicalIsInvertible(v: Value)
    requires Canonical(v).Some?
    ensures Decode(Canonical(v).value).Some?
    ensures Parse(Decode(Canonical(v).value).value) == Some((v, []))
  {
    var text := Print(v).value;
    DecodeInverts(text);
    ParseInverts(v, []);
    assert text + [] == text;
  }

  lemma CanonicalIsInjective(v: Value, w: Value)
    requires Canonical(v).Some? && Canonical(v) == Canonical(w)
    ensures v == w
  {
    CanonicalIsInvertible(v);
    CanonicalIsInvertible(w);
  }
}
