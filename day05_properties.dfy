/** What the machine of src/bin/05.rs promises: every access stays inside memory or panics, the
    instruction format with modes 0 and 1, the effect of each opcode, and how runs compose. */
module Day05Properties {
  import opened Base
  import opened Primitives
  import opened Machine
  import opened Day05
  import Text

  // ---------------------------------------------------------------- memory

  /** Reading fails exactly for a position past the end of memory, and reports that position. */
  lemma GetFails(memory: seq<int>, loc: Location)
    ensures Get(memory, loc).Failure? <==> loc.Absolute? && loc.index >= |memory|
    ensures Get(memory, loc).Failure? ==> Get(memory, loc).error == OutOfBounds(loc.index)
    ensures loc.Immediate? ==> Get(memory, loc) == Success(loc.value)
  {
  }

  /** A store fails exactly for an immediate destination or a position past the end; it never
      changes the length of memory. */
  lemma StoreFails(memory: seq<int>, loc: Location, val: int)
    ensures Store(memory, loc, val).Failure? <==> loc.Immediate? || loc.index >= |memory|
    ensures loc.Immediate? ==> Store(memory, loc, val) == Failure(ImmediateWrite)
    ensures loc.Absolute? && loc.index >= |memory| ==> Store(memory, loc, val) == Failure(WriteDiverges(loc.index))
  {
  }

  /** After a store the destination reads back the value, and every other location reads as
      before. */
  lemma StoreThenGet(memory: seq<int>, loc: Location, val: int, other: Location)
    requires Store(memory, loc, val).Success?
    ensures Get(Store(memory, loc, val).value, loc) == Success(val)
    ensures other != loc ==> Get(Store(memory, loc, val).value, other) == Get(memory, other)
  {
  }

  /** A store changes the destination cell and no other. */
  lemma StoreFrame(memory: seq<int>, loc: Location, val: int)
    requires Store(memory, loc, val).Success?
    ensures var m := Store(memory, loc, val).value;
            |m| == |memory| && m[loc.index] == val &&
            forall i :: 0 <= i < |m| && i != loc.index ==> m[i] == memory[i]
  {
  }

  // ---------------------------------------------------------------- decoding

  /** The number of parameters of the opcode numbered `code`. */
  function Arity(code: int): nat
  {
    if code in {1, 2, 7, 8} then 3 else if code in {5, 6} then 2 else if code in {3, 4} then 1 else 0
  }

  predicate KnownOpcode(code: int) { code in {1, 2, 3, 4, 5, 6, 7, 8, 99} }

  function Code(op: Opcode): int
  {
    match op
    case Add(_, _, _) => 1
    case Multiply(_, _, _) => 2
    case Input(_) => 3
    case Output(_) => 4
    case JumpIfTrue(_, _) => 5
    case JumpIfFalse(_, _) => 6
    case LessThan(_, _, _) => 7
    case Equals(_, _, _) => 8
    case Halt => 99
  }

  function Operands(op: Opcode): seq<Location>
  {
    match op
    case Add(a, b, c) => [a, b, c]
    case Multiply(a, b, c) => [a, b, c]
    case Input(a) => [a]
    case Output(a) => [a]
    case JumpIfTrue(a, b) => [a, b]
    case JumpIfFalse(a, b) => [a, b]
    case LessThan(a, b, c) => [a, b, c]
    case Equals(a, b, c) => [a, b, c]
    case Halt => []
  }

  /** The location a mode digit makes of a raw parameter: 0 position, 1 immediate. */
  function Operand(mode: int, value: int): Location
    requires 0 <= mode <= 1
  {
    if mode == 0 then Absolute(AsUsize(value)) else Immediate(value)
  }

  /** A parameter inside memory decodes exactly when its mode digit is 0 or 1, into the location
      of that mode holding memory[ip + k]; any other digit, 2 included, is reported. */
  lemma ParseLocCharacterized(memory: seq<int>, ip: nat, k: nat)
    requires 1 <= k < 10 && ip + k < |memory|
    ensures ParseLoc(memory, ip, k).Success? <==> 0 <= Mode(memory[ip], k) <= 1
    ensures ParseLoc(memory, ip, k).Success? ==>
              ParseLoc(memory, ip, k).value == Operand(Mode(memory[ip], k), memory[ip + k])
    ensures ParseLoc(memory, ip, k).Failure? ==> ParseLoc(memory, ip, k).error == UnknownMode(Mode(memory[ip], k))
  {
  }

  /** A parameter past the end of memory panics on that position, before the mode is looked at. */
  lemma ParseLocPastEnd(memory: seq<int>, ip: nat, k: nat)
    requires 1 <= k < 10 && ip + k >= |memory|
    ensures ParseLoc(memory, ip, k) == Failure(OutOfBounds(ip + k))
  {
  }

  /** Decoding at a position past the end of memory panics on that position. */
  lemma ParsePastEnd(memory: seq<int>, ip: nat)
    requires ip >= |memory|
    ensures Parse(memory, ip) == Failure(OutOfBounds(ip))
  {
  }

  /** An opcode outside 1-8 and 99 is reported as it is. */
  lemma ParseUnknownOpcode(memory: seq<int>, ip: nat)
    requires ip < |memory| && !KnownOpcode(Rem(memory[ip], 100))
    ensures Parse(memory, ip) == Failure(UnknownOpcode(Rem(memory[ip], 100)))
  {
  }

  /** Parameter k of the instruction at `ip` has a valid mode digit. */
  predicate ModeOk(memory: seq<int>, ip: nat, k: nat)
    requires ip < |memory|
  {
    0 <= Mode(memory[ip], k) <= 1
  }

  /** The first of parameters 1, 2 and 3 whose mode digit is not valid; 3 if the first two are. */
  function FirstBadMode(memory: seq<int>, ip: nat): nat
    requires ip < |memory|
  {
    if !ModeOk(memory, ip, 1) then 1 else if !ModeOk(memory, ip, 2) then 2 else 3
  }

  /** Parameter k of `op` is memory[ip + k] in the mode of digit k + 2, for each of its parameters. */
  predicate OperandsDecoded(memory: seq<int>, ip: nat, op: Opcode)
    requires ip + |Operands(op)| < |memory|
  {
    var ps := Operands(op);
    (|ps| >= 1 ==> ModeOk(memory, ip, 1) && ps[0] == Operand(Mode(memory[ip], 1), memory[ip + 1])) &&
    (|ps| >= 2 ==> ModeOk(memory, ip, 2) && ps[1] == Operand(Mode(memory[ip], 2), memory[ip + 2])) &&
    (|ps| >= 3 ==> ModeOk(memory, ip, 3) && ps[2] == Operand(Mode(memory[ip], 3), memory[ip + 3]))
  }

  /** What decoding a complete instruction with a known opcode gives: success exactly when each
      parameter has mode 0 or 1, and then the opcode's number, arity and decoded operands;
      otherwise the mode digit of the first parameter whose mode is bad. */
  predicate DecodesAs(memory: seq<int>, ip: nat, r: Result<Opcode>)
    requires ip < |memory| && ip + Arity(Rem(memory[ip], 100)) < |memory|
  {
    var n := Arity(Rem(memory[ip], 100));
    (r.Success? <==> (n >= 1 ==> ModeOk(memory, ip, 1)) && (n >= 2 ==> ModeOk(memory, ip, 2)) && (n >= 3 ==> ModeOk(memory, ip, 3))) &&
    (r.Failure? ==> r.error == UnknownMode(Mode(memory[ip], FirstBadMode(memory, ip)))) &&
    (r.Success? ==> Code(r.value) == Rem(memory[ip], 100) && |Operands(r.value)| == n && OperandsDecoded(memory, ip, r.value))
  }

  lemma ParseThreeOperands(memory: seq<int>, ip: nat)
    requires ip + 3 < |memory| && Rem(memory[ip], 100) in {1, 2, 7, 8}
    ensures DecodesAs(memory, ip, Parse(memory, ip))
  {
    ParseLocCharacterized(memory, ip, 1);
    ParseLocCharacterized(memory, ip, 2);
    ParseLocCharacterized(memory, ip, 3);
  }

  lemma ParseTwoOperands(memory: seq<int>, ip: nat)
    requires ip + 2 < |memory| && Rem(memory[ip], 100) in {5, 6}
    ensures DecodesAs(memory, ip, Parse(memory, ip))
  {
    ParseLocCharacterized(memory, ip, 1);
    ParseLocCharacterized(memory, ip, 2);
  }

  lemma ParseOneOperand(memory: seq<int>, ip: nat)
    requires ip + 1 < |memory| && Rem(memory[ip], 100) in {3, 4}
    ensures DecodesAs(memory, ip, Parse(memory, ip))
  {
    ParseLocCharacterized(memory, ip, 1);
  }

  /** A complete instruction with a known opcode decodes exactly when each of its parameters has
      mode 0 or 1; the instruction then has the opcode's number and arity and its parameters are
      the decoded operands. Otherwise a bad mode is reported: relative mode does not exist yet. */
  lemma ParseKnownOpcode(memory: seq<int>, ip: nat)
    requires ip < |memory| && KnownOpcode(Rem(memory[ip], 100))
    requires ip + Arity(Rem(memory[ip], 100)) < |memory|
    ensures DecodesAs(memory, ip, Parse(memory, ip))
  {
    var code := Rem(memory[ip], 100);
    if code in {1, 2, 7, 8} {
      ParseThreeOperands(memory, ip);
    } else if code in {5, 6} {
      ParseTwoOperands(memory, ip);
    } else if code in {3, 4} {
      ParseOneOperand(memory, ip);
    }
  }

  /** An instruction cut off by the end of memory panics while its parameters are read. */
  lemma {:induction false} ParseTruncated(memory: seq<int>, ip: nat)
    requires ip < |memory| && KnownOpcode(Rem(memory[ip], 100))
    requires ip + Arity(Rem(memory[ip], 100)) >= |memory|
    ensures Parse(memory, ip).Failure?
  {
    var code := Rem(memory[ip], 100);
    if ip + 1 >= |memory| {
      ParseLocPastEnd(memory, ip, 1);
    } else if ip + 2 >= |memory| {
      ParseLocCharacterized(memory, ip, 1);
      ParseLocPastEnd(memory, ip, 2);
    } else {
      ParseLocCharacterized(memory, ip, 1);
      ParseLocCharacterized(memory, ip, 2);
      ParseLocPastEnd(memory, ip, 3);
    }
  }

  // ---------------------------------------------------------------- one instruction

  /** The operands of a two-operand writing instruction are read left to right: the first one past
      the end of memory is the one reported. */
  lemma OperandsReadInOrder(s: State, op: Opcode)
    requires Writes(op) && !op.Input?
    ensures Computed(s, op).Failure? <==> Get(s.memory, op.a).Failure? || Get(s.memory, op.b).Failure?
    ensures Computed(s, op).Failure? ==>
              Computed(s, op).error == if Get(s.memory, op.a).Failure? then Get(s.memory, op.a).error else Get(s.memory, op.b).error
  {
  }

  /** A writing instruction fails exactly when an operand or its destination cannot be reached,
      the operands being looked at first; otherwise it writes the computed value into the
      destination cell and no other, advances ip by 4 (2 for Input) and changes nothing else. */
  lemma WritingInstruction(s: State, op: Opcode)
    requires Writes(op)
    ensures Perform(s, op).Fault? <==> Computed(s, op).Failure? || Store(s.memory, op.dst, 0).Failure?
    ensures Perform(s, op).Fault? ==>
              Perform(s, op).error == if Computed(s, op).Failure? then Computed(s, op).error else Store(s.memory, op.dst, 0).error
    ensures Perform(s, op).Continue? ==>
              var t := Perform(s, op).next;
              t.ip == s.ip + (if op.Input? then 2 else 4) && t.input == s.input && t.outputs == s.outputs &&
              |t.memory| == |s.memory| && t.memory[op.dst.index] == Computed(s, op).value &&
              forall i :: 0 <= i < |t.memory| && i != op.dst.index ==> t.memory[i] == s.memory[i]
  {
    if Computed(s, op).Success? {
      StoreFails(s.memory, op.dst, Computed(s, op).value);
      StoreFails(s.memory, op.dst, 0);
      if Perform(s, op).Continue? {
        StoreFrame(s.memory, op.dst, Computed(s, op).value);
      }
    }
  }

  /** Add and Multiply store the sum and the product of their operands. */
  lemma ArithmeticStores(s: State, op: Opcode)
    requires op.Add? || op.Multiply?
    requires Perform(s, op).Continue?
    ensures Get(s.memory, op.a).Success? && Get(s.memory, op.b).Success?
    ensures var a, b := Get(s.memory, op.a).value, Get(s.memory, op.b).value;
            Get(Perform(s, op).next.memory, op.dst) == Success(if op.Add? then a + b else a * b)
  {
    StoreThenGet(s.memory, op.dst, Computed(s, op).value, op.dst);
  }

  /** LessThan and Equals store 1 when the comparison holds and 0 otherwise. */
  lemma ComparisonStoresBit(s: State, op: Opcode)
    requires op.LessThan? || op.Equals?
    requires Perform(s, op).Continue?
    ensures Get(s.memory, op.a).Success? && Get(s.memory, op.b).Success?
    ensures var a, b := Get(s.memory, op.a).value, Get(s.memory, op.b).value;
            var stored := Get(Perform(s, op).next.memory, op.dst);
            (stored == Success(0) || stored == Success(1)) &&
            (stored == Success(1) <==> if op.LessThan? then a < b else a == b)
  {
    StoreThenGet(s.memory, op.dst, Computed(s, op).value, op.dst);
  }

  /** Input stores the fixed input value. */
  lemma InputStoresInput(s: State, op: Opcode)
    requires op.Input? && Perform(s, op).Continue?
    ensures Get(Perform(s, op).next.memory, op.dst) == Success(s.input)
  {
    StoreThenGet(s.memory, op.dst, s.input, op.dst);
  }

  /** Output fails only when its operand is past the end; otherwise it appends exactly that value
      and changes nothing else but ip. */
  lemma OutputAppendsOne(s: State, op: Opcode)
    requires op.Output?
    ensures Perform(s, op).Continue? <==> Get(s.memory, op.src).Success?
    ensures Perform(s, op).Fault? ==> Perform(s, op).error == Get(s.memory, op.src).error
    ensures Perform(s, op).Continue? ==>
              var t := Perform(s, op).next;
              t.outputs == s.outputs + [Get(s.memory, op.src).value] &&
              t.ip == s.ip + 2 && t.memory == s.memory && t.input == s.input
  {
  }

  /** The jumps write nothing. The condition is read first and the target only when the jump is
      taken (condition non-zero for JumpIfTrue, zero for JumpIfFalse); ip then becomes the
      target, and otherwise advances by 3. */
  lemma JumpsOnlyMoveIp(s: State, op: Opcode)
    requires op.JumpIfTrue? || op.JumpIfFalse?
    ensures var c, t := Get(s.memory, op.cond), Get(s.memory, op.target);
            var taken := c.Success? && (c.value != 0) == op.JumpIfTrue?;
            (Perform(s, op).Continue? <==> c.Success? && (taken ==> t.Success?)) &&
            (Perform(s, op).Continue? ==>
               var u := Perform(s, op).next;
               u.memory == s.memory && u.outputs == s.outputs && u.input == s.input &&
               u.ip == if taken then AsUsize(t.value) else s.ip + 3)
  {
  }

  /** Halt ends the run with the state untouched; the answer is memory[0]. */
  lemma HaltStops(s: State, fuel: nat)
    requires Parse(s.memory, s.ip) == Success(Halt)
    ensures |s.memory| > 0
    ensures Step(s) == Stop
    ensures Execute(s, fuel + 1) == Halted(s)
    ensures Answer(Execute(s, fuel + 1)) == Success(s.memory[0])
  {
    DriveOneStep(Step, s, fuel);
  }

  /** A jump to a negative i32 target lands far past the end of any memory (`as usize` maps it to
      2^64 minus its magnitude), where decoding panics. */
  lemma JumpToNegativeFails(s: State, target: int)
    requires I32_MIN <= target < 0 && |s.memory| <= USIZE_MODULUS + I32_MIN
    ensures AsUsize(target) >= |s.memory|
    ensures Step(s.(ip := AsUsize(target))) == Fault(OutOfBounds(AsUsize(target)))
  {
    ParsePastEnd(s.memory, AsUsize(target));
  }

  // ---------------------------------------------------------------- runs

  /** Over a whole run the input never changes, memory keeps its length, and outputs are only ever
      appended. */
  lemma RunKeeps(s: State, fuel: nat)
    ensures var t := Execute(s, fuel).state;
            t.input == s.input && |t.memory| == |s.memory| && s.outputs <= t.outputs
  {
    var rel := (a: State, b: State) =>
      b.input == a.input && |a.memory| == |b.memory| && a.outputs <= b.outputs;
    DriveKeeps(Step, rel, s, fuel);
  }

  // ---------------------------------------------------------------- examples

  const ECHO: seq<int> := [3, 0, 4, 0, 99]

  /** Memory once the input has overwritten cell 0. */
  function Echoed(input: int): seq<int>
  {
    [input, 0, 4, 0, 99]
  }

  lemma DecodeEchoInput(m: seq<int>)
    requires |m| == 5 && m[0] == 3 && m[1] == 0
    ensures Parse(m, 0) == Success(Input(Absolute(0)))
  {
    assert Mode(3, 1) == 0 by {
      assert 3 == Word(3, 0, 0, 0);
      ModeDigits(3, 0, 0, 0);
    }
    assert Rem(3, 100) == 3;
    assert ParseLoc(m, 0, 1) == Success(Absolute(0));
  }

  lemma DecodeEchoOutput(m: seq<int>)
    requires |m| == 5 && m[2] == 4 && m[3] == 0
    ensures Parse(m, 2) == Success(Output(Absolute(0)))
  {
    assert Mode(4, 1) == 0 by {
      assert 4 == Word(4, 0, 0, 0);
      ModeDigits(4, 0, 0, 0);
    }
    assert Rem(4, 100) == 4;
    assert ParseLoc(m, 2, 1) == Success(Absolute(0));
  }

  lemma EchoReads(input: int)
    ensures Step(Boot(ECHO, input)) == Continue(State(Echoed(input), 2, input, []))
  {
    var s := Boot(ECHO, input);
    DecodeEchoInput(s.memory);
    assert Step(s) == Perform(s, Input(Absolute(0)));
    assert s.memory[0 := input] == Echoed(input);
  }

  lemma EchoWrites(input: int)
    ensures Step(State(Echoed(input), 2, input, [])) == Continue(State(Echoed(input), 4, input, [input]))
  {
    var t := State(Echoed(input), 2, input, []);
    DecodeEchoOutput(t.memory);
    assert Step(t) == Perform(t, Output(Absolute(0)));
    assert [] + [input] == [input];
  }

  lemma EchoHalts(input: int)
    ensures Step(State(Echoed(input), 4, input, [input])) == Stop
  {
    var u := State(Echoed(input), 4, input, [input]);
    assert u.memory[4] == 99;
    assert Parse(u.memory, 4) == Success(Halt);
  }

  /** `3,0,4,0,99` stores its input in cell 0, prints it and halts after three instructions. */
  lemma Echo(input: int)
    ensures Execute(Boot(ECHO, input), 3) == Halted(State(Echoed(input), 4, input, [input]))
  {
    var s := Boot(ECHO, input);
    var t := State(Echoed(input), 2, input, []);
    var u := State(Echoed(input), 4, input, [input]);
    EchoReads(input);
    EchoWrites(input);
    EchoHalts(input);
    DriveOneStep(Step, s, 2);
    DriveOneStep(Step, t, 1);
    DriveOneStep(Step, u, 0);
  }

  /** Read from its text, the same program makes `part_two` report its input, 5. */
  lemma EchoReported()
    ensures Report(Text.Format(ECHO), 5, 3) == Success(Some(5))
  {
    Text.ParseFormat(ECHO, I32_MIN, I32_MAX);
    Echo(5);
  }

  /** `1101,1,1,5,99` adds into cell 5, one past the end: `set` never returns from such a write. */
  lemma WritePastEnd()
    ensures Step(Boot([1101, 1, 1, 5, 99], 0)) == Fault(WriteDiverges(5))
  {
    var s := Boot([1101, 1, 1, 5, 99], 0);
    assert s.memory[0] == Word(1, 1, 1, 0);
    ModeDigits(1, 1, 1, 0);
    ParseThreeOperands(s.memory, 0);
    assert Step(s) == Perform(s, Add(Immediate(1), Immediate(1), Absolute(5)));
  }
}
