/** Who owns which buffer of the WebAssembly module's memory during a dispatch. */
module SharedCoreBuffers {
  import opened Prelude
  import opened Bytes
  import J = Json

  const MAX_OPERATION_BYTES := 256
  const MAX_INPUT_BYTES := 16 * 1024 * 1024
  const MAX_OUTPUT_BYTES := 16 * 1024 * 1024
  const TWO_TO_32 := 0x1_0000_0000
  const TWO_TO_64 := 0x1_0000_0000_0000_0000

  type Pointer = n: nat | n < TWO_TO_32

  // ----- Pointer packing -----

  /** An i32 as the module returns it, read as a pointer. */
  function Unsigned(raw: int): Pointer {
    raw % TWO_TO_32
  }

  function SignedI32(p: Pointer): (raw: int)
    ensures -0x8000_0000 <= raw <= 0x7FFF_FFFF
    ensures Unsigned(raw) == p
  {
    if p <= 0x7FFF_FFFF then p else p - TWO_TO_32
  }

  function PackedPointer(packed: int): Pointer {
    packed % TWO_TO_64 % TWO_TO_32
  }

  function PackedLength(packed: int): Pointer {
    packed % TWO_TO_64 / TWO_TO_32
  }

  /** Any i64 holding a length above a pointer gives both back, the negative ones included. */
  lemma PackingInverts(pointer: Pointer, length: Pointer, packed: int)
    requires packed == length * TWO_TO_32 + pointer || packed == length * TWO_TO_32 + pointer - TWO_TO_64
    ensures PackedPointer(packed) == pointer && PackedLength(packed) == length
  {
  }

  // ----- The module -----

  datatype Buffer = Buffer(pointer: Pointer, length: nat)

  const NOTHING := Buffer(0, 0)

  /** What a buffer holds, if it lies within the memory. */
  function Read(memory: seq<Byte>, b: Buffer): Option<seq<Byte>> {
    if b.pointer + b.length <= |memory| then Some(memory[b.pointer..b.pointer + b.length]) else None
  }

  ghost predicate Apart(a: Buffer, b: Buffer) {
    a.pointer + a.length <= b.pointer || b.pointer + b.length <= a.pointer
  }

  /** What the module holds for the client is as it was, and not handed out a second time. */
  ghost predicate Spares(held: multiset<Buffer>, before: seq<Byte>, after: seq<Byte>, granted: Buffer) {
    forall b <- held | Read(before, b).Some? :: Read(after, b) == Read(before, b) && Apart(b, granted)
  }

  /** An answer is a buffer within the memory, neither empty nor too large. */
  ghost function Answer(memory: seq<Byte>, packed: int): Option<seq<Byte>> {
    var r := ResultOf(packed);
    if r.pointer == 0 || r.length == 0 || r.length > 16_777_216 then None else Read(memory, r)
  }

  function Written(memory: seq<Byte>, b: Buffer, value: seq<Byte>): (after: seq<Byte>)
    requires b.pointer + b.length <= |memory| && |value| <= b.length
    ensures |after| == |memory|
    ensures |value| == b.length ==> Read(after, b) == Some(value)
  {
    memory[..b.pointer] + value + memory[b.pointer + |value|..]
  }

  lemma WritingSpares(memory: seq<Byte>, b: Buffer, value: seq<Byte>, other: Buffer)
    requires b.pointer + b.length <= |memory| && |value| == b.length
    requires Read(memory, other).Some? && Apart(other, b)
    ensures Read(Written(memory, b, value), other) == Read(memory, other)
  {
    var after := Written(memory, b, value);
    var own, own' := Read(memory, other).value, Read(after, other).value;
    forall k | 0 <= k < other.length ensures own'[k] == own[k] {
      assert own'[k] == after[other.pointer + k] && own[k] == memory[other.pointer + k];
    }
    assert own' == own;
  }

  class SharedCore {
    /** What a sound module answers to an operation and its input. */
    const reply: (seq<Byte>, seq<Byte>) -> seq<Byte>
    /** Decoding and parsing of an envelope, and the value in it. */
    const envelope: seq<Byte> -> Option<J.Json>
    var unusable: bool
    var memory: seq<Byte>
    /** How often the module was entered, what it handed over, what it took back. */
    ghost var calls: nat
    ghost var handed: seq<Buffer>
    ghost var freed: seq<Buffer>
    ghost var failedReleases: nat
    /** How often it was asked; what it last found in the two buffers, and what it left as its answer. */
    ghost var asked: nat
    ghost var operation: Option<seq<Byte>>
    ghost var input: Option<seq<Byte>>
    ghost var said: Option<seq<Byte>>
    /** A call trapped, was refused, or did not do what a sound module does. */
    ghost var broken: bool

    constructor (reply: (seq<Byte>, seq<Byte>) -> seq<Byte>, envelope: seq<Byte> -> Option<J.Json>)
      ensures Valid() && !unusable && calls == 0 && asked == 0 && !broken
      ensures this.reply == reply && this.envelope == envelope
    {
      this.reply, this.envelope := reply, envelope;
      unusable, memory, broken := false, [], false;
      calls, handed, freed, failedReleases, asked := 0, [], [], 0, 0;
      operation, input, said := None, None, None;
    }

    /** Usable exactly while no release has failed, and then nothing is owed and nothing freed twice. */
    ghost predicate Valid()
      reads this
    {
      && (unusable <==> failedReleases > 0)
      && (unusable ==> broken)
      && (!unusable ==> NothingOwed())
    }

    ghost predicate NothingOwed()
      reads this`handed, this`freed
    {
      multiset(handed) == multiset(freed)
    }

    ghost function Held(): multiset<Buffer>
      reads this`handed, this`freed
    {
      multiset(handed) - multiset(freed)
    }

    /** `pomodorough_alloc`: traps or answers any i32. */
    method AllocExport(length: nat) returns (raw: Option<int>)
      modifies this`calls, this`handed, this`memory, this`broken
      ensures calls == old(calls) + 1 && (old(broken) ==> broken)
      ensures handed == old(handed) + if raw.Some? && Unsigned(raw.value) != 0
                                      then [Buffer(Unsigned(raw.value), length)] else []
      ensures !broken ==>
                && raw.Some? && Unsigned(raw.value) != 0
                && Read(memory, Buffer(Unsigned(raw.value), length)).Some?
                && Spares(old(Held()), old(memory), memory, Buffer(Unsigned(raw.value), length))
    {
      ghost var held, before := Held(), memory;
      calls := calls + 1;
      memory := *;
      if * { broken := true; return None; }
      var answer: int := *;
      raw := Some(answer);
      ghost var granted := Buffer(Unsigned(answer), length);
      if granted.pointer == 0 || Read(memory, granted).None? || !Spares(held, before, memory, granted) {
        broken := true;
      }
      if Unsigned(answer) != 0 { handed := handed + [Buffer(Unsigned(answer), length)]; }
    }

    /** `pomodorough_free_v2`: frees the buffer and answers 1, or does neither. */
    method FreeExport(pointer: int, length: nat) returns (accepted: bool)
      modifies this`calls, this`freed, this`memory, this`broken
      ensures calls == old(calls) + 1 && (old(broken) ==> broken)
      ensures freed == old(freed) + if accepted then [Buffer(Unsigned(pointer), length)] else []
      ensures !broken ==> accepted
    {
      calls := calls + 1;
      memory := *;
      accepted := *;
      if !accepted { broken := true; }
      if accepted { freed := freed + [Buffer(Unsigned(pointer), length)]; }
    }

    /** `pomodorough_dispatch`: traps or answers any i64. */
    method DispatchExport(operationPointer: int, operationLength: nat, inputPointer: int, inputLength: nat)
      returns (packed: Option<int>)
      modifies this`calls, this`handed, this`memory, this`asked, this`operation, this`input, this`said, this`broken
      ensures calls == old(calls) + 1 && asked == old(asked) + 1 && (old(broken) ==> broken)
      ensures handed == if packed.Some? then old(handed) + LiveOf(ResultOf(packed.value)) else old(handed)
      ensures operation == Read(old(memory), Buffer(Unsigned(operationPointer), operationLength))
      ensures input == Read(old(memory), Buffer(Unsigned(inputPointer), inputLength))
      ensures said == if packed.Some? then Answer(memory, packed.value) else None
      ensures !broken && operation.Some? && input.Some? ==> said == Some(reply(operation.value, input.value))
    {
      operation := Read(memory, Buffer(Unsigned(operationPointer), operationLength));
      input := Read(memory, Buffer(Unsigned(inputPointer), inputLength));
      calls, asked, said := calls + 1, asked + 1, None;
      memory := *;
      if * { broken := true; return None; }
      var answer: int := *;
      packed, said := Some(answer), Answer(memory, answer);
      if operation.Some? && input.Some? && said != Some(reply(operation.value, input.value)) { broken := true; }
      handed := handed + LiveOf(ResultOf(answer));
    }

    /** The host's write may fall short, even within the memory. */
    method WriteMemory(value: seq<Byte>, buffer: Buffer) returns (count: nat)
      requires buffer.pointer + buffer.length <= |memory| && |value| == buffer.length
      modifies this`memory, this`broken
      ensures old(broken) ==> broken
      ensures count == |value| ==> memory == Written(old(memory), buffer, value)
      ensures count != |value| ==> broken
    {
      var some: int := *;
      count := if 0 <= some < |value| then some else |value|;
      if count < |value| { broken := true; }
      memory := Written(memory, buffer, value[..count]);
      assert value[..|value|] == value;
    }

    // ----- The adapter -----

    method Release(buffer: Buffer) returns (released: bool)
      modifies this`calls, this`freed, this`failedReleases, this`memory, this`broken
      ensures old(broken) ==> broken
      ensures buffer == NOTHING ==> released && freed == old(freed)
      ensures (buffer.pointer == 0) != (buffer.length == 0) ==> !released
      ensures freed == if released then old(freed) + LiveOf(buffer) else old(freed)
      ensures failedReleases == old(failedReleases) + if released then 0 else 1
      ensures !broken && Consistent(buffer) ==> released
    {
      if buffer == NOTHING { return true; }
      if buffer.pointer == 0 || buffer.length == 0 {
        failedReleases := failedReleases + 1;
        return false;
      }
      released := FreeExport(SignedI32(buffer.pointer), buffer.length);
      if !released { failedReleases := failedReleases + 1; }
    }

    /** Each in turn, whatever fails. */
    method ReleaseEach(buffers: seq<Buffer>) returns (errors: nat)
      modifies this`calls, this`freed, this`failedReleases, this`memory, this`broken
      ensures failedReleases == old(failedReleases) + errors
      ensures errors == 0 ==> freed == old(freed) + Live(buffers)
      ensures errors == 0 ==> forall b <- buffers :: Consistent(b)
      ensures old(broken) ==> broken
      ensures !broken && (forall b <- buffers :: Consistent(b)) ==> errors == 0
    {
      errors := 0;
      for i := 0 to |buffers|
        invariant failedReleases == old(failedReleases) + errors
        invariant errors == 0 ==> freed == old(freed) + Live(buffers[..i])
        invariant errors == 0 ==> forall k | 0 <= k < i :: Consistent(buffers[k])
        invariant old(broken) ==> broken
        invariant !broken && (forall b <- buffers :: Consistent(b)) ==> errors == 0
      {
        var released := Release(buffers[i]);
        if !released { errors := errors + 1; }
        assert buffers[..i + 1][..i] == buffers[..i];
      }
      assert buffers[..|buffers|] == buffers;
    }

    /** A buffer holding `value`; a failure leaves the instance unusable from the moment it owns memory. */
    method Allocate(value: seq<Byte>) returns (pointer: Option<Pointer>)
      modifies this`unusable, this`calls, this`handed, this`freed, this`failedReleases, this`memory, this`broken
      ensures pointer.Some? ==>
                && pointer.value != 0 && Read(memory, Buffer(pointer.value, |value|)) == Some(value)
                && handed == old(handed) + [Buffer(pointer.value, |value|)]
                && freed == old(freed) && failedReleases == old(failedReleases) && unusable == old(unusable)
      ensures old(broken) || pointer.None? ==> broken
      ensures pointer.None? && handed != old(handed) ==> unusable
      ensures failedReleases >= old(failedReleases)
      ensures old(unusable) ==> unusable
      ensures unusable && !old(unusable) ==> broken
      ensures !broken ==>
                forall b <- old(Held()) | Read(old(memory), b).Some? :: Read(memory, b) == Read(old(memory), b)
    {
      ghost var held, before := Held(), memory;
      var raw := AllocExport(|value|);
      if raw.None? || Unsigned(raw.value) == 0 { return None; }
      var buffer := Buffer(Unsigned(raw.value), |value|);
      var complete := false;
      if buffer.pointer + buffer.length <= |memory| {
        ghost var granted := memory;
        var count := WriteMemory(value, buffer);
        complete := count == |value|;
        if !broken {
          forall b | b in held && Read(before, b).Some? ensures Read(memory, b) == Read(before, b) {
            WritingSpares(granted, buffer, value, b);
          }
        }
      }
      if !complete {
        unusable := true;
        var released := Release(buffer);
        return None;
      }
      pointer := Some(buffer.pointer);
    }

    /**
     * Refuses bad sizes and an unusable instance without entering the module. Otherwise a sound module is
     * asked exactly this and its reply is what comes back; from any module no answer comes but the one it
     * left in its memory, and none once a buffer could not be given back.
     */
    method DispatchJson(operation: seq<Byte>, input: seq<Byte>) returns (answered: Option<J.Json>)
      requires Valid()
      modifies this
      ensures Valid()
      ensures old(unusable) || !(0 < |operation| <= 256 && 0 < |input| <= 16_777_216) ==>
                answered.None? && calls == old(calls) && asked == old(asked) && unusable == old(unusable)
      ensures !old(unusable) && 0 < |operation| <= 256 && 0 < |input| <= 16_777_216 ==>
                Dispatched(old(asked), operation, input, answered)
      ensures answered.Some? ==> !unusable
    {
      if |operation| == 0 || |input| == 0 { return None; }
      if |operation| > MAX_OPERATION_BYTES || |input| > MAX_INPUT_BYTES { return None; }
      if unusable { return None; }
      answered := DispatchLocked(operation, input);
    }

    ghost predicate Dispatched(before: nat, operation: seq<Byte>, input: seq<Byte>, answered: Option<J.Json>)
      reads this
    {
      && (answered.Some? ==>
            && !unusable && asked == before + 1 && this.input == Some(input)
            && said.Some? && answered == envelope(said.value))
      && (!broken ==>
            && !unusable && asked == before + 1 && this.operation == Some(operation) && this.input == Some(input)
            && answered == envelope(reply(operation, input)))
    }

    method DispatchLocked(operation: seq<Byte>, input: seq<Byte>) returns (answered: Option<J.Json>)
      requires Valid() && !unusable && operation != [] && input != []
      modifies this
      ensures Valid()
      ensures Dispatched(old(asked), operation, input, answered)
    {
      var buffers := new DispatchBuffers(operation, input);
      answered := buffers.Execute(this);
      var errors := buffers.Release(this);
      if errors > 0 {
        unusable := true;
        answered := None;
      }
    }
  }

  function ResultOf(packed: int): Buffer {
    Buffer(PackedPointer(packed), PackedLength(packed))
  }

  /** What there is to give back. */
  ghost function Live(buffers: seq<Buffer>): seq<Buffer> {
    if buffers == [] then [] else Live(buffers[..|buffers| - 1]) + LiveOf(buffers[|buffers| - 1])
  }

  ghost function LiveOf(b: Buffer): seq<Buffer> {
    if b == NOTHING then [] else [b]
  }

  lemma LiveOfThree(a: Buffer, b: Buffer, c: Buffer)
    ensures Live([a, b, c]) == LiveOf(a) + LiveOf(b) + LiveOf(c)
  {
    assert Live([a]) == LiveOf(a) by { assert [a][..0] == []; }
    assert Live([a, b]) == Live([a]) + LiveOf(b) by { assert [a, b][..1] == [a]; }
    assert Live([a, b, c]) == Live([a, b]) + LiveOf(c) by { assert [a, b, c][..2] == [a, b]; }
  }

  lemma Reordered(a: Buffer, b: Buffer, rest: seq<Buffer>)
    ensures multiset([a, b] + rest) == multiset(rest + [b] + [a])
  {
  }

  ghost predicate Consistent(b: Buffer) {
    b.pointer == 0 <==> b.length == 0
  }

  class DispatchBuffers {
    const operation: seq<Byte>
    const input: seq<Byte>
    var operationPointer: Pointer
    var inputPointer: Pointer
    var result: Buffer

    constructor (operation: seq<Byte>, input: seq<Byte>)
      ensures this.operation == operation && this.input == input
      ensures operationPointer == 0 && inputPointer == 0 && result == NOTHING
    {
      this.operation, this.input := operation, input;
      operationPointer, inputPointer, result := 0, 0, NOTHING;
    }

    predicate Allocated()
      reads this
    {
      operationPointer != 0 && inputPointer != 0
    }

    /** What this dispatch was handed. */
    ghost function Handed(): seq<Buffer>
      reads this
    {
      [Operation(), Input()] + LiveOf(result)
    }

    /** What is given back is what was handed over. */
    lemma HandedIsHeld(freed: seq<Buffer>)
      requires operation != [] && input != [] && Allocated()
      ensures multiset(freed + Live([result, Input(), Operation()])) == multiset(freed) + multiset(Handed())
    {
      LiveOfThree(result, Input(), Operation());
      Reordered(Operation(), Input(), LiveOf(result));
    }

    /** Each of the handed buffers is recorded here before anything else can fail. */
    method Execute(core: SharedCore) returns (answered: Option<J.Json>)
      requires operation != [] && input != [] && !core.unusable
      requires operationPointer == 0 && inputPointer == 0 && result == NOTHING
      requires core.NothingOwed()
      modifies this, core
      ensures answered.Some? ==> Allocated()
      ensures Allocated() ==>
                && core.handed == old(core.handed) + Handed()
                && core.freed == old(core.freed)
                && core.failedReleases == old(core.failedReleases) && !core.unusable
                && core.asked == old(core.asked) + 1 && core.input == Some(input)
                && answered == if core.said.Some? then core.envelope(core.said.value) else None
      ensures old(core.broken) || !Allocated() ==> core.broken
      ensures !core.broken ==>
                && result.pointer != 0 && result.length != 0 && core.said == Some(core.reply(operation, input))
                && core.operation == Some(operation) && core.input == Some(input)
      ensures core.failedReleases >= old(core.failedReleases)
    {
      var ready := AllocateBoth(core);
      if !ready { return None; }
      answered := Ask(core);
    }

    /** The call, and what it answered. */
    method Ask(core: SharedCore) returns (answered: Option<J.Json>)
      modifies this`result
      modifies core`calls, core`handed, core`memory, core`asked, core`operation, core`input, core`said, core`broken
      requires result == NOTHING
      ensures core.handed == old(core.handed) + LiveOf(result)
      ensures core.asked == old(core.asked) + 1 && (old(core.broken) ==> core.broken)
      ensures core.operation == Read(old(core.memory), Operation()) && core.input == Read(old(core.memory), Input())
      ensures core.said.Some? ==> result.pointer != 0 && result.length != 0
      ensures answered == if core.said.Some? then core.envelope(core.said.value) else None
      ensures !core.broken && core.operation.Some? && core.input.Some? ==>
                core.said == Some(core.reply(core.operation.value, core.input.value))
    {
      var packed := core.DispatchExport(SignedI32(operationPointer), |operation|, SignedI32(inputPointer), |input|);
      if packed.None? { return None; }
      answered := CaptureResult(core, packed.value);
    }

    method AllocateBoth(core: SharedCore) returns (ready: bool)
      requires operation != [] && input != [] && operationPointer == 0 && inputPointer == 0
      requires core.NothingOwed()
      modifies this`operationPointer, this`inputPointer
      modifies core`unusable, core`calls, core`handed, core`freed, core`failedReleases, core`memory, core`broken
      ensures ready == Allocated()
      ensures ready ==>
                && core.handed == old(core.handed) + [Operation(), Input()]
                && core.freed == old(core.freed) && core.failedReleases == old(core.failedReleases)
                && core.unusable == old(core.unusable)
                && Read(core.memory, Input()) == Some(input)
                && (!core.broken ==> Read(core.memory, Operation()) == Some(operation))
      ensures old(core.broken) || !ready ==> core.broken
      ensures core.failedReleases >= old(core.failedReleases)
    {
      var first := core.Allocate(operation);
      if first.None? { return false; }
      operationPointer := first.value;
      assert Operation() in core.Held();
      var second := core.Allocate(input);
      if second.None? { return false; }
      inputPointer, ready := second.value, true;
    }

    function Operation(): Buffer
      reads this`operationPointer
    {
      Buffer(operationPointer, |operation|)
    }

    function Input(): Buffer
      reads this`inputPointer
    {
      Buffer(inputPointer, |input|)
    }

    /** The result is recorded, and so released, even when it is refused. */
    method CaptureResult(core: SharedCore, packed: int) returns (answered: Option<J.Json>)
      modifies this`result
      ensures result == ResultOf(packed)
      ensures Answer(core.memory, packed).Some? ==> result.pointer != 0 && result.length != 0
      ensures answered == match Answer(core.memory, packed)
                          case Some(bytes) => core.envelope(bytes)
                          case None => None
    {
      result := ResultOf(packed);
      if result.length == 0 || result.pointer == 0 || result.length > MAX_OUTPUT_BYTES { return None; }
      if result.pointer + result.length > |core.memory| { return None; }
      answered := core.envelope(core.memory[result.pointer..result.pointer + result.length]);
    }

    /** Tries to release all three, whatever fails. */
    method Release(core: SharedCore) returns (errors: nat)
      requires operation != [] && input != []
      modifies core`calls, core`freed, core`failedReleases, core`memory, core`broken
      ensures core.failedReleases == old(core.failedReleases) + errors
      ensures !Allocated() ==> errors > 0
      ensures errors == 0 ==> multiset(core.freed) == multiset(old(core.freed)) + multiset(Handed())
      ensures old(core.broken) ==> core.broken
      ensures !core.broken && Allocated() && Consistent(result) ==> errors == 0
    {
      var all := [result, Input(), Operation()];
      errors := core.ReleaseEach(all);
      assert Input() in all && Operation() in all;
      if Allocated() { HandedIsHeld(old(core.freed)); }
    }
  }
}
