/** The incremental parser of the revision stream, against a specification by whole lines. */
module RevisionEvents {
  import opened Prelude
  import opened Bytes
  import opened Json

  const LF: Byte := 10
  const CR: Byte := 13
  const DATA: seq<Byte> := [100, 97, 116, 97, 58]
  const SPACE: Byte := 32

  /**
   * What Python makes of a payload: its JSON value, its text, and the integer a text spells; `None`
   * where it raises.
   */
  datatype Reader = Reader(
    decode: seq<Byte> -> Option<Json>,
    text: seq<Byte> -> Option<string>,
    number: string -> Option<int>)

  datatype Limits = Limits(buffer: nat, line: nat, event: nat)

  // ----- The stream as lines -----

  /** Where the first line ends; the length when it does not. */
  ghost predicate EndsFirstLine(s: seq<Byte>, n: nat) {
    n <= |s| && (n < |s| ==> s[n] == LF) && forall i | 0 <= i < n :: s[i] != LF
  }

  lemma {:induction false} FirstLineEnds(s: seq<Byte>)
    ensures exists n: nat :: EndsFirstLine(s, n)
  {
    if s == [] || s[0] == LF {
      assert EndsFirstLine(s, 0);
    } else {
      FirstLineEnds(s[1..]);
      var n: nat :| EndsFirstLine(s[1..], n);
      assert forall i | 0 <= i < n :: s[i + 1] == s[1..][i];
      assert EndsFirstLine(s, n + 1);
    }
  }

  ghost function FirstLF(s: seq<Byte>): (n: nat)
    ensures EndsFirstLine(s, n)
  {
    FirstLineEnds(s);
    var n: nat :| EndsFirstLine(s, n);
    n
  }

  method FindLF(s: seq<Byte>) returns (n: nat)
    ensures n == FirstLF(s)
  {
    n := 0;
    while n < |s| && s[n] != LF
      invariant n <= |s| && forall i | 0 <= i < n :: s[i] != LF
    {
      n := n + 1;
    }
    FirstLFIsUnique(s, n);
  }

  lemma FirstLFIsUnique(s: seq<Byte>, n: nat)
    requires EndsFirstLine(s, n)
    ensures FirstLF(s) == n
  {
  }

  /** The finished lines of a stream, without their line feeds. */
  ghost function Lines(s: seq<Byte>): seq<seq<Byte>>
    decreases |s|
  {
    var n := FirstLF(s);
    if n == |s| then [] else [s[..n]] + Lines(s[n + 1..])
  }

  /** What follows the last line feed. */
  ghost function Rest(s: seq<Byte>): (rest: seq<Byte>)
    ensures |rest| <= |s|
    decreases |s|
  {
    var n := FirstLF(s);
    if n == |s| then s else Rest(s[n + 1..])
  }

  lemma {:induction false} RestIsUnfinished(s: seq<Byte>)
    ensures LF !in Rest(s)
    decreases |s|
  {
    var n := FirstLF(s);
    if n < |s| { RestIsUnfinished(s[n + 1..]); }
  }

  function Strip(line: seq<Byte>): seq<Byte> {
    if line != [] && line[|line| - 1] == CR then Strip(line[..|line| - 1]) else line
  }

  /** The value of a `data:` line, less one leading space. */
  function DataOf(line: seq<Byte>): Option<seq<Byte>> {
    var text := Strip(line);
    if |text| < 5 || text[..5] != DATA then None
    else if |text| > 5 && text[5] == SPACE then Some(text[6..]) else Some(text[5..])
  }

  function Joined(lines: seq<seq<Byte>>): seq<Byte> {
    if lines == [] then [] else if |lines| == 1 then lines[0] else lines[0] + [LF] + Joined(lines[1..])
  }

  // ----- Payloads -----

  /** `int(...)`, which truncates towards zero; `None` where it raises. */
  function Integer(value: Json, number: string -> Option<int>): Option<int> {
    match value
    case Bool(b) => Some(if b then 1 else 0)
    case Int(n) => Some(n)
    case Float(x) => Some(if x >= 0.0 then x.Floor else -(-x).Floor)
    case Str(s) => number(s)
    case _ => None
  }

  /** What of a document is read as its revision. */
  function Value(document: Json): Json {
    if !document.Obj? then document
    else if "revision" in document.members then document.members["revision"] else Null
  }

  function RevisionOf(document: Json, number: string -> Option<int>): Option<nat> {
    var integer := Integer(Value(document), number);
    if Value(document).Bool? || integer.None? || integer.value < 0 then None else Some(integer.value)
  }

  /** A payload that is no JSON is taken for a text. */
  function RevisionIn(read: Reader, raw: seq<Byte>): Option<nat> {
    match read.decode(raw)
    case Some(document) => RevisionOf(document, read.number)
    case None =>
      match read.text(raw)
      case Some(text) => RevisionOf(Str(text), read.number)
      case None => None
  }

  /** What a value carries: a number above -1 cut to the whole, or a text that spells a natural number. */
  ghost predicate Carries(value: Json, number: string -> Option<int>, revision: nat) {
    match value
    case Int(n) => n == revision
    case Float(x) => revision as real <= x < revision as real + 1.0 || (-1.0 < x < 0.0 && revision == 0)
    case Str(s) => number(s) == Some(revision)
    case _ => false
  }

  /** An object carries what its member "revision" does, and nothing without one; anything else carries itself. */
  lemma WhatCarriesARevision(document: Json, number: string -> Option<int>, revision: nat)
    ensures RevisionOf(document, number) == Some(revision) <==>
              match document
              case Obj(members) => "revision" in members && Carries(members["revision"], number, revision)
              case _ => Carries(document, number, revision)
  {
  }

  function Size(lines: seq<seq<Byte>>): nat {
    if lines == [] then 0 else Size(lines[..|lines| - 1]) + |lines[|lines| - 1]|
  }

  /** The data lines of the unfinished event after one more line. */
  function Pending(pending: seq<seq<Byte>>, line: seq<Byte>): seq<seq<Byte>> {
    if Strip(line) == [] then []
    else match DataOf(line)
         case Some(data) => pending + [data]
         case None => pending
  }

  /** The revision a line completes: a blank one ends the event. */
  function Completed(pending: seq<seq<Byte>>, line: seq<Byte>, read: Reader): seq<nat> {
    if Strip(line) != [] || pending == [] then []
    else match RevisionIn(read, Joined(pending))
         case Some(revision) => [revision]
         case None => []
  }

  function PendingAfter(pending: seq<seq<Byte>>, lines: seq<seq<Byte>>): seq<seq<Byte>>
    decreases |lines|
  {
    if lines == [] then pending else PendingAfter(Pending(pending, lines[0]), lines[1..])
  }

  function Revisions(pending: seq<seq<Byte>>, lines: seq<seq<Byte>>, read: Reader): seq<nat>
    decreases |lines|
  {
    if lines == [] then []
    else Completed(pending, lines[0], read) + Revisions(Pending(pending, lines[0]), lines[1..], read)
  }

  predicate LineOverflows(pending: seq<seq<Byte>>, line: seq<Byte>, limits: Limits) {
    || |line| > limits.line
    || (DataOf(line).Some? && Size(pending) + |DataOf(line).value| > limits.event)
  }

  predicate LinesOverflow(pending: seq<seq<Byte>>, lines: seq<seq<Byte>>, limits: Limits)
    decreases |lines|
  {
    lines != [] &&
    (LineOverflows(pending, lines[0], limits) || LinesOverflow(Pending(pending, lines[0]), lines[1..], limits))
  }

  /** When feeding a buffer that now holds `s` overflows. */
  ghost predicate Overflows(pending: seq<seq<Byte>>, s: seq<Byte>, limits: Limits) {
    |s| > limits.buffer || LinesOverflow(pending, Lines(s), limits)
  }

  // ----- Splitting a stream -----

  lemma LinesOfUnfinished(buffer: seq<Byte>)
    requires LF !in buffer
    ensures Lines(buffer) == [] && Rest(buffer) == buffer
  {
  }

  lemma FirstLine(s: seq<Byte>)
    requires FirstLF(s) < |s|
    ensures var n := FirstLF(s); Lines(s) == [s[..n]] + Lines(s[n + 1..]) && Rest(s) == Rest(s[n + 1..])
  {
  }

  lemma Regroup<T>(a: seq<T>, b: seq<T>, c: seq<T>)
    ensures a + b + c == a + (b + c)
  {
  }

  /** A stream's lines are those of its beginning, then those of what was left over and the end. */
  lemma {:induction false} LinesOfParts(a: seq<Byte>, b: seq<Byte>)
    ensures Lines(a + b) == Lines(a) + Lines(Rest(a) + b)
    ensures Rest(a + b) == Rest(Rest(a) + b)
    decreases |a|
  {
    var n := FirstLF(a);
    if n < |a| {
      PartsAfterLine(a, b);
      LinesOfParts(a[n + 1..], b);
      Regroup([a[..n]], Lines(a[n + 1..]), Lines(Rest(a) + b));
    } else {
      LinesOfUnfinished(a);
    }
  }

  lemma PartsAfterLine(a: seq<Byte>, b: seq<Byte>)
    requires FirstLF(a) < |a|
    ensures var n := FirstLF(a);
            && Lines(a) == [a[..n]] + Lines(a[n + 1..]) && Rest(a) == Rest(a[n + 1..])
            && Lines(a + b) == [a[..n]] + Lines(a[n + 1..] + b) && Rest(a + b) == Rest(a[n + 1..] + b)
  {
    var n := FirstLF(a);
    FirstLFIsUnique(a + b, n);
    assert (a + b)[..n] == a[..n] && (a + b)[n + 1..] == a[n + 1..] + b;
    FirstLine(a);
    FirstLine(a + b);
  }

  lemma {:induction false} PendingOfParts(pending: seq<seq<Byte>>, a: seq<seq<Byte>>, b: seq<seq<Byte>>)
    ensures PendingAfter(pending, a + b) == PendingAfter(PendingAfter(pending, a), b)
    decreases |a|
  {
    if a == [] {
      assert a + b == b;
    } else {
      assert (a + b)[1..] == a[1..] + b;
      PendingOfParts(Pending(pending, a[0]), a[1..], b);
    }
  }

  /** One line more at the front. */
  lemma LineFirst(pending: seq<seq<Byte>>, line: seq<Byte>, rest: seq<seq<Byte>>, read: Reader, limits: Limits)
    ensures PendingAfter(pending, [line] + rest) == PendingAfter(Pending(pending, line), rest)
    ensures Revisions(pending, [line] + rest, read) ==
              Completed(pending, line, read) + Revisions(Pending(pending, line), rest, read)
    ensures LinesOverflow(pending, [line] + rest, limits) <==>
              LineOverflows(pending, line, limits) || LinesOverflow(Pending(pending, line), rest, limits)
  {
    var lines := [line] + rest;
    assert lines[0] == line && lines[1..] == rest;
  }

  lemma {:induction false} RevisionsOfParts(pending: seq<seq<Byte>>, a: seq<seq<Byte>>, b: seq<seq<Byte>>, read: Reader)
    ensures Revisions(pending, a + b, read) ==
              Revisions(pending, a, read) + Revisions(PendingAfter(pending, a), b, read)
    decreases |a|
  {
    if a == [] {
      assert a + b == b;
    } else {
      var next := Pending(pending, a[0]);
      assert (a + b)[0] == a[0] && (a + b)[1..] == a[1..] + b;
      RevisionsOfParts(next, a[1..], b, read);
      Regroup(Completed(pending, a[0], read), Revisions(next, a[1..], read),
              Revisions(PendingAfter(next, a[1..]), b, read));
    }
  }

  lemma {:induction false} OverflowOfParts(pending: seq<seq<Byte>>, a: seq<seq<Byte>>, b: seq<seq<Byte>>,
                                           limits: Limits)
    ensures LinesOverflow(pending, a + b, limits) <==>
              LinesOverflow(pending, a, limits) || LinesOverflow(PendingAfter(pending, a), b, limits)
    decreases |a|
  {
    if a == [] {
      assert a + b == b;
    } else {
      assert (a + b)[1..] == a[1..] + b;
      OverflowOfParts(Pending(pending, a[0]), a[1..], b, limits);
    }
  }

  /** Reading on from `pending` and `s` completes what `found` began of reading all of `whole`. */
  ghost predicate Continues(start: seq<seq<Byte>>, whole: seq<Byte>, found: seq<nat>, pending: seq<seq<Byte>>,
                            s: seq<Byte>, read: Reader, limits: Limits) {
    && found + Revisions(pending, Lines(s), read) == Revisions(start, Lines(whole), read)
    && PendingAfter(pending, Lines(s)) == PendingAfter(start, Lines(whole))
    && (LinesOverflow(pending, Lines(s), limits) <==> LinesOverflow(start, Lines(whole), limits))
    && Rest(s) == Rest(whole)
  }

  lemma ContinuesAfterLine(start: seq<seq<Byte>>, whole: seq<Byte>, found: seq<nat>, pending: seq<seq<Byte>>,
                           s: seq<Byte>, read: Reader, limits: Limits)
    requires FirstLF(s) < |s| && Continues(start, whole, found, pending, s, read, limits)
    ensures var line, rest := s[..FirstLF(s)], s[FirstLF(s) + 1..];
            if LineOverflows(pending, line, limits) then LinesOverflow(start, Lines(whole), limits)
            else Continues(start, whole, found + Completed(pending, line, read), Pending(pending, line), rest, read,
                           limits)
  {
    var line, rest := s[..FirstLF(s)], s[FirstLF(s) + 1..];
    FirstLine(s);
    LineFirst(pending, line, Lines(rest), read, limits);
    Regroup(found, Completed(pending, line, read), Revisions(Pending(pending, line), Lines(rest), read));
  }

  // ----- Chunks -----

  function Concat(chunks: seq<seq<Byte>>): seq<Byte> {
    if chunks == [] then [] else chunks[0] + Concat(chunks[1..])
  }

  /** No chunk overflows, feeding them one after the other. */
  ghost predicate Fits(pending: seq<seq<Byte>>, buffer: seq<Byte>, chunks: seq<seq<Byte>>, limits: Limits)
    decreases |chunks|
  {
    chunks != [] ==>
      var s := buffer + chunks[0];
      && !Overflows(pending, s, limits)
      && Fits(PendingAfter(pending, Lines(s)), Rest(s), chunks[1..], limits)
  }

  /** What the parser answers to each chunk in turn, all together. */
  ghost function Answers(pending: seq<seq<Byte>>, buffer: seq<Byte>, chunks: seq<seq<Byte>>, read: Reader): seq<nat>
    decreases |chunks|
  {
    if chunks == [] then []
    else
      var s := buffer + chunks[0];
      Revisions(pending, Lines(s), read) + Answers(PendingAfter(pending, Lines(s)), Rest(s), chunks[1..], read)
  }

  ghost function BufferAfter(buffer: seq<Byte>, chunks: seq<seq<Byte>>): seq<Byte>
    decreases |chunks|
  {
    if chunks == [] then buffer else BufferAfter(Rest(buffer + chunks[0]), chunks[1..])
  }

  ghost function DataAfter(pending: seq<seq<Byte>>, buffer: seq<Byte>, chunks: seq<seq<Byte>>): seq<seq<Byte>>
    decreases |chunks|
  {
    if chunks == [] then pending
    else
      var s := buffer + chunks[0];
      DataAfter(PendingAfter(pending, Lines(s)), Rest(s), chunks[1..])
  }

  /** However a stream is cut into chunks, revisions, buffer and data lines are those of the whole. */
  lemma {:induction false} ChunkingDoesNotMatter(pending: seq<seq<Byte>>, buffer: seq<Byte>, chunks: seq<seq<Byte>>,
                                                 read: Reader, limits: Limits)
    requires LF !in buffer
    ensures var whole := buffer + Concat(chunks);
            && Answers(pending, buffer, chunks, read) == Revisions(pending, Lines(whole), read)
            && BufferAfter(buffer, chunks) == Rest(whole)
            && DataAfter(pending, buffer, chunks) == PendingAfter(pending, Lines(whole))
            // and cutting a stream up never makes it overflow
            && (!Overflows(pending, whole, limits) ==> Fits(pending, buffer, chunks, limits))
            && (Fits(pending, buffer, chunks, limits) ==> !LinesOverflow(pending, Lines(whole), limits))
    decreases |chunks|
  {
    if chunks == [] {
      assert buffer + Concat(chunks) == buffer;
      LinesOfUnfinished(buffer);
    } else {
      var s, rest := buffer + chunks[0], Concat(chunks[1..]);
      assert buffer + Concat(chunks) == s + rest;
      LinesOfParts(s, rest);
      var after := PendingAfter(pending, Lines(s));
      RestIsUnfinished(s);
      PendingOfParts(pending, Lines(s), Lines(Rest(s) + rest));
      RevisionsOfParts(pending, Lines(s), Lines(Rest(s) + rest), read);
      OverflowOfParts(pending, Lines(s), Lines(Rest(s) + rest), limits);
      ChunkingDoesNotMatter(after, Rest(s), chunks[1..], read, limits);
    }
  }

  /** Lines joined by line feeds, and ended by one, are those lines again. */
  lemma {:induction false} JoinedLinesComeBack(lines: seq<seq<Byte>>)
    requires lines != [] && forall line <- lines :: LF !in line
    ensures Lines(Joined(lines) + [LF]) == lines && Rest(Joined(lines) + [LF]) == []
  {
    var first := lines[0];
    if |lines| == 1 {
      assert lines == [first];
      FirstOfParts(first, []);
      assert first + [LF] + [] == Joined(lines) + [LF];
    } else {
      var rest := Joined(lines[1..]) + [LF];
      JoinedLinesComeBack(lines[1..]);
      FirstOfParts(first, rest);
      assert first + [LF] + rest == Joined(lines) + [LF] && lines == [first] + lines[1..];
    }
  }

  lemma FirstOfParts(first: seq<Byte>, rest: seq<Byte>)
    requires LF !in first
    ensures Lines(first + [LF] + rest) == [first] + Lines(rest) && Rest(first + [LF] + rest) == Rest(rest)
  {
    var s := first + [LF] + rest;
    FirstLFIsUnique(s, |first|);
    FirstLine(s);
    assert s[..|first|] == first && s[|first| + 1..] == rest;
  }

  // ----- Events as they are written -----

  /** One line of an event, ended by LF or by CR LF. */
  function LineText(line: seq<Byte>, crlf: bool): seq<Byte> {
    line + (if crlf then [CR, LF] else [LF])
  }

  /** An event with these data lines (section 9.2 of the WHATWG HTML Standard). */
  function EventText(values: seq<seq<Byte>>, crlf: bool): seq<Byte> {
    if values == [] then LineText([], crlf)
    else LineText(DATA + [SPACE] + values[0], crlf) + EventText(values[1..], crlf)
  }

  predicate Plain(value: seq<Byte>) {
    LF !in value && (value == [] || value[|value| - 1] != CR)
  }

  lemma LinesOfLine(line: seq<Byte>, crlf: bool, rest: seq<Byte>)
    requires LF !in line
    ensures var ended := if crlf then line + [CR] else line;
            && Lines(LineText(line, crlf) + rest) == [ended] + Lines(rest)
            && Rest(LineText(line, crlf) + rest) == Rest(rest)
  {
    var ended := if crlf then line + [CR] else line;
    var s := LineText(line, crlf) + rest;
    assert s == ended + [LF] + rest;
    forall i | 0 <= i < |ended| ensures s[i] != LF {
      if i < |line| { assert s[i] == line[i]; }
    }
    FirstLFIsUnique(s, |ended|);
    FirstLine(s);
    assert s[..|ended|] == ended && s[|ended| + 1..] == rest;
  }

  lemma StripOfPlain(line: seq<Byte>)
    requires line == [] || line[|line| - 1] != CR
    ensures Strip(line) == line && Strip(line + [CR]) == line
  {
  }

  lemma DataOfLine(value: seq<Byte>, crlf: bool)
    requires Plain(value)
    ensures var line := DATA + [SPACE] + value;
            var ended := if crlf then line + [CR] else line;
            Strip(ended) != [] && DataOf(ended) == Some(value) && LF !in line
  {
  }

  /** A written data line joins those that wait. */
  lemma WrittenLineIsRead(pending: seq<seq<Byte>>, value: seq<Byte>, crlf: bool, rest: seq<Byte>, read: Reader)
    requires Plain(value)
    ensures var s := LineText(DATA + [SPACE] + value, crlf) + rest;
            && Rest(s) == Rest(rest)
            && PendingAfter(pending, Lines(s)) == PendingAfter(pending + [value], Lines(rest))
            && Revisions(pending, Lines(s), read) == Revisions(pending + [value], Lines(rest), read)
  {
    var line := DATA + [SPACE] + value;
    var ended := if crlf then line + [CR] else line;
    DataOfLine(value, crlf);
    LinesOfLine(line, crlf, rest);
    LineFirst(pending, ended, Lines(rest), read, Limits(0, 0, 0));
  }

  /** What a server writes as one event is read as one: its data lines, joined, and nothing left over. */
  lemma {:induction false} WrittenEventIsRead(pending: seq<seq<Byte>>, values: seq<seq<Byte>>, crlf: bool, read: Reader)
    requires forall value <- values :: Plain(value)
    requires pending + values != []
    ensures var lines := Lines(EventText(values, crlf));
            && Rest(EventText(values, crlf)) == []
            && PendingAfter(pending, lines) == []
            && Revisions(pending, lines, read) ==
               (match RevisionIn(read, Joined(pending + values))
                case Some(revision) => [revision]
                case None => [])
    decreases |values|
  {
    if values == [] {
      assert pending + values == pending;
      assert EventText(values, crlf) == LineText([], crlf) + [];
      BlankLine(pending, crlf, read);
    } else {
      assert Plain(values[0]) && (pending + [values[0]]) + values[1..] == pending + values;
      WrittenLineIsRead(pending, values[0], crlf, EventText(values[1..], crlf), read);
      WrittenEventIsRead(pending + [values[0]], values[1..], crlf, read);
    }
  }

  lemma BlankLine(pending: seq<seq<Byte>>, crlf: bool, read: Reader)
    requires pending != []
    ensures var s := LineText([], crlf) + [];
            && Rest(s) == [] && PendingAfter(pending, Lines(s)) == []
            && Revisions(pending, Lines(s), read) ==
               (match RevisionIn(read, Joined(pending))
                case Some(revision) => [revision]
                case None => [])
  {
    LinesOfLine([], crlf, []);
    StripOfPlain([]);
    var ended: seq<Byte> := if crlf then [] + [CR] else [];
    assert Lines([]) == [] && [ended] + Lines([]) == [ended];
    assert [ended][1..] == [];
  }

  lemma SingleLineIsRead(payload: seq<Byte>, crlf: bool, read: Reader)
    requires Plain(payload)
    ensures var lines := Lines(EventText([payload], crlf));
            && Rest(EventText([payload], crlf)) == [] && PendingAfter([], lines) == []
            && Revisions([], lines, read) ==
               (match RevisionIn(read, payload)
                case Some(revision) => [revision]
                case None => [])
  {
    WrittenEventIsRead([], [payload], crlf, read);
    assert [] + [payload] == [payload] && Joined([payload]) == payload;
  }

  /** The server's ordinary event: one data line, an object with a revision. */
  lemma OrdinaryEventIsRead(payload: seq<Byte>, crlf: bool, read: Reader, revision: nat)
    requires Plain(payload) && read.decode(payload).Some? && read.decode(payload).value.Obj?
    requires "revision" in read.decode(payload).value.members
    requires read.decode(payload).value.members["revision"] == Int(revision)
    ensures Revisions([], Lines(EventText([payload], crlf)), read) == [revision]
    ensures Rest(EventText([payload], crlf)) == [] && PendingAfter([], Lines(EventText([payload], crlf))) == []
  {
    SingleLineIsRead(payload, crlf, read);
    WhatCarriesARevision(read.decode(payload).value, read.number, revision);
  }

  /** So is a bare number, or a text that is no JSON and spells one. */
  lemma BareRevisionIsRead(payload: seq<Byte>, crlf: bool, read: Reader, revision: nat)
    requires Plain(payload)
    requires if read.decode(payload).Some? then read.decode(payload) == Some(Int(revision))
             else read.text(payload).Some? && read.number(read.text(payload).value) == Some(revision)
    ensures Revisions([], Lines(EventText([payload], crlf)), read) == [revision]
  {
    SingleLineIsRead(payload, crlf, read);
  }

  /** What begins otherwise than `data:` says nothing and ends nothing, unless it is blank. */
  lemma OtherLinesAreIgnored(pending: seq<seq<Byte>>, line: seq<Byte>, read: Reader)
    requires Strip(line) != [] && !(DATA <= Strip(line))
    ensures Pending(pending, line) == pending && Completed(pending, line, read) == []
  {
  }

  /** The space after the colon is optional, and only one is taken off. */
  lemma DataLineIsRead(value: seq<Byte>, crlf: bool)
    requires Plain(value)
    ensures DataOf(DATA + [SPACE] + value) == Some(value)
    ensures value == [] || value[0] != SPACE ==> DataOf(DATA + value) == Some(value)
  {
    var spaced, bare := DATA + [SPACE] + value, DATA + value;
    assert spaced[..5] == DATA && spaced[6..] == value && bare[..5] == DATA && bare[5..] == value;
  }

  // ----- The parser -----

  class RevisionEventParser {
    var buffer: seq<Byte>
    var dataLines: seq<seq<Byte>>
    var eventBytes: nat
    const limits: Limits
    const read: Reader

    constructor (limits: Limits, read: Reader)
      ensures Valid() && buffer == [] && dataLines == [] && this.limits == limits && this.read == read
    {
      this.limits, this.read := limits, read;
      buffer, dataLines, eventBytes := [], [], 0;
    }

    /** The counter is the pending data's length, and the buffer holds no finished line. */
    ghost predicate Valid()
      reads this
    {
      eventBytes == Size(dataLines) && LF !in buffer
    }

    method Discard()
      modifies this
      ensures Valid() && buffer == [] && dataLines == []
    {
      buffer, dataLines, eventBytes := [], [], 0;
    }

    /** Answers the revisions of the events the chunk completes; `None` is an overflow, which discards all. */
    method Feed(chunk: seq<Byte>) returns (revisions: Option<seq<nat>>)
      requires Valid()
      modifies this
      ensures Valid()
      ensures revisions.None? <==> Overflows(old(dataLines), old(buffer) + chunk, limits)
      ensures revisions.None? ==> buffer == [] && dataLines == []
      ensures revisions.Some? ==>
                var s := old(buffer) + chunk;
                && revisions.value == Revisions(old(dataLines), Lines(s), read)
                && dataLines == PendingAfter(old(dataLines), Lines(s))
                && buffer == Rest(s)
    {
      buffer := buffer + chunk;
      ghost var whole, start := buffer, dataLines;
      if |buffer| > limits.buffer {
        Discard();
        return None;
      }
      var found: seq<nat> := [];
      while LF in buffer
        invariant eventBytes == Size(dataLines)
        invariant Continues(start, whole, found, dataLines, buffer, read, limits)
        decreases |buffer|
      {
        var n := FindLF(buffer);
        ContinuesAfterLine(start, whole, found, dataLines, buffer, read, limits);
        var line := buffer[..n];
        buffer := buffer[n + 1..];
        var completed := FeedLine(line);
        if completed.None? { return None; }
        found := found + completed.value;
      }
      LinesOfUnfinished(buffer);
      revisions := Some(found);
    }

    method FeedLine(line: seq<Byte>) returns (completed: Option<seq<nat>>)
      requires eventBytes == Size(dataLines)
      modifies this
      ensures eventBytes == Size(dataLines)
      ensures completed.None? <==> LineOverflows(old(dataLines), line, limits)
      ensures completed.None? ==> buffer == [] && dataLines == []
      ensures completed.Some? ==>
                && completed.value == Completed(old(dataLines), line, read)
                && dataLines == Pending(old(dataLines), line) && buffer == old(buffer)
    {
      if |line| > limits.line {
        Discard();
        return None;
      }
      if Strip(line) == [] {
        var revision := Dispatch();
        return Some(if revision.Some? then [revision.value] else []);
      }
      var data := DataOf(line);
      if data.Some? {
        eventBytes := eventBytes + |data.value|;
        if eventBytes > limits.event {
          Discard();
          return None;
        }
        dataLines := dataLines + [data.value];
        assert dataLines[..|dataLines| - 1] == old(dataLines);
      }
      completed := Some([]);
    }

    method Dispatch() returns (revision: Option<nat>)
      requires eventBytes == Size(dataLines)
      modifies this
      ensures dataLines == [] && eventBytes == 0 && buffer == old(buffer)
      ensures revision == if old(dataLines) == [] then None else RevisionIn(read, Joined(old(dataLines)))
    {
      if dataLines == [] { return None; }
      var raw := Joined(dataLines);
      dataLines, eventBytes := [], 0;
      revision := RevisionIn(read, raw);
    }
  }
}
