/** What the complete machine of src/bin/09.rs promises: the memory laws, the instruction format,
    the effect of each opcode, and how runs compose. */
module Day09Properties {
  import opened Base
  import opened Primitives
  import opened Machine
  import opened Day09

  // ---------------------------------------------------------------- memory

  /** A location that names a cell past the end of memory reads as 0. */
  lemma ReadPastEnd(memory: seq<int>, base: int, loc: Location)
    requires Destination(base, loc).Success? && Destination(base, loc).value >= |memory|
    ensures Get(memory, base, loc) == 0
  {
  }

  /** After a store, the stored location reads back the value and every other cell reads as before
      (cells that were past the end read 0 before and after). */
  lemma StoreThenGet(memory: seq<int>, base: int, loc: Location, val: int, other: Location)
    requires Store(memory, base, loc, val).Success?
    ensures Get(Store(memory, base, loc, val).value, base, loc) == val
    ensures other.Immediate? || Destination(base, other).value != Destination(base, loc).value ==>
              Get(Store(memory, base, loc, val).value, base, other) == Get(memory, base, other)
  {
  }

  /** A store changes one cell: every other index reads as before. */
  lemma StoreFrame(memory: seq<int>, base: int, loc: Location, val: int)
    requires Store(memory, base, loc, val).Success?
    ensures forall i: nat :: i != Destination(base, loc).value ==>
              Read(Store(memory, base, loc, val).value, i) == Read(memory, i)
    ensures Read(Store(memory, base, loc, val).value, Destination(base, loc).value) == val
  {
  }

  /** A store fails exactly for an immediate destination, or an index no vector can reach. */
  lemma StoreFails(memory: seq<int>, base: int, loc: Location, val: int)
    ensures Store(memory, base, loc, val).Failure? <==>
              loc.Immediate? || (Destination(base, loc).value >= |memory| && Destination(base, loc).value >= ADDRESS_LIMIT)
    ensures loc.Immediate? ==> Store(memory, base, loc, val) == Failure(ImmediateWrite)
  {
  }

  // ---------------------------------------------------------------- decoding

  /** The number of parameters of the opcode numbered `code`. */
  function Arity(code: int): nat
  {
    if code in {1, 2, 7, 8} then 3 else if code in {5, 6} then 2 else if code in {3, 4, 9} then 1 else 0
  }

  predicate KnownOpcode(code: int) { code in {1, 2, 3, 4, 5, 6, 7, 8, 9, 99} }

  function Code(op: Opcode): int
  {
    match op
    case Add(_, _, _) => 1
    case Multiply(_, _, _) => 2
    case Input(_) => 3
    case Output(_) => 4
    case JumpIfTrue(_, _) => 5
    case JumpIfFalse(_, _) => 6
    case LessThan(_, _, _) => 7
    case Equals(_, _, _) => 8
    case AdjustBase(_) => 9
    case Halt => 99
  }

  function Operands(op: Opcode): seq<Location>
  {
    match op
    case Add(a, b, c) => [a, b, c]
    case Multiply(a, b, c) => [a, b, c]
    case Input(a) => [a]
    case Output(a) => [a]
    case JumpIfTrue(a, b) => [a, b]
    case JumpIfFalse(a, b) => [a, b]
    case LessThan(a, b, c) => [a, b, c]
    case Equals(a, b, c) => [a, b, c]
    case AdjustBase(a) => [a]
    case Halt => []
  }

  /** The location a mode digit makes of a raw parameter: 0 position, 1 immediate, 2 relative. */
  function Operand(mode: int, value: int): Location
    requires 0 <= mode <= 2
  {
    if mode == 0 then Absolute(AsUsize(value)) else if mode == 1 then Immediate(value) else Relative(value)
  }

  /** A parameter decodes exactly when its mode digit is 0, 1 or 2, into the location of that mode
      holding memory[ip + k]; any other digit is reported. */
  lemma ParseLocCharacterized(memory: seq<int>, ip: nat, k: nat)
    requires 1 <= k < 10
    ensures ParseLoc(memory, ip, k).Success? <==> 0 <= Mode(Read(memory, ip), k) <= 2
    ensures ParseLoc(memory, ip, k).Success? ==>
              ParseLoc(memory, ip, k).value == Operand(Mode(Read(memory, ip), k), Read(memory, ip + k))
    ensures ParseLoc(memory, ip, k).Failure? ==> ParseLoc(memory, ip, k).error == UnknownMode(Mode(Read(memory, ip), k))
  {
  }

  /** An opcode outside 1-9 and 99 is reported as it is. */
  lemma ParseUnknownOpcode(memory: seq<int>, ip: nat)
    requires !KnownOpcode(Rem(Read(memory, ip), 100))
    ensures Parse(memory, ip) == Failure(UnknownOpcode(Rem(Read(memory, ip), 100)))
  {
  }

  /** Parameter k of the instruction at `ip` has a valid mode digit. */
  predicate ModeOk(memory: seq<int>, ip: nat, k: nat)
  {
    0 <= Mode(Read(memory, ip), k) <= 2
  }

  /** The first of parameters 1, 2 and 3 whose mode digit is not valid; 3 if the first two are. */
  function FirstBadMode(memory: seq<int>, ip: nat): nat
  {
    if !ModeOk(memory, ip, 1) then 1 else if !ModeOk(memory, ip, 2) then 2 else 3
  }

  /** Parameter k of `op` is memory[ip + k] in the mode of digit k + 2, for each of its parameters. */
  predicate OperandsDecoded(memory: seq<int>, ip: nat, op: Opcode)
  {
    var ps := Operands(op);
    (|ps| >= 1 ==> ModeOk(memory, ip, 1) && ps[0] == Operand(Mode(Read(memory, ip), 1), Read(memory, ip + 1))) &&
    (|ps| >= 2 ==> ModeOk(memory, ip, 2) && ps[1] == Operand(Mode(Read(memory, ip), 2), Read(memory, ip + 2))) &&
    (|ps| >= 3 ==> ModeOk(memory, ip, 3) && ps[2] == Operand(Mode(Read(memory, ip), 3), Read(memory, ip + 3)))
  }

  /** What decoding a known opcode gives: success exactly when each parameter has mode 0, 1 or 2,
      and then the opcode's number, arity and decoded operands; otherwise the mode digit of the
      first parameter whose mode is bad. */
  predicate DecodesAs(memory: seq<int>, ip: nat, r: Result<Opcode>)
  {
    var n := Arity(Rem(Read(memory, ip), 100));
    (r.Success? <==> (n >= 1 ==> ModeOk(memory, ip, 1)) && (n >= 2 ==> ModeOk(memory, ip, 2)) && (n >= 3 ==> ModeOk(memory, ip, 3))) &&
    (r.Failure? ==> r.error == UnknownMode(Mode(Read(memory, ip), FirstBadMode(memory, ip)))) &&
    (r.Success? ==> Code(r.value) == Rem(Read(memory, ip), 100) && |Operands(r.value)| == n && OperandsDecoded(memory, ip, r.value))
  }

  lemma ParseThreeOperands(memory: seq<int>, ip: nat)
    requires Rem(Read(memory, ip), 100) in {1, 2, 7, 8}
    ensures DecodesAs(memory, ip, Parse(memory, ip))
  {
    ParseLocCharacterized(memory, ip, 1);
    ParseLocCharacterized(memory, ip, 2);
    ParseLocCharacterized(memory, ip, 3);
  }

  lemma ParseTwoOperands(memory: seq<int>, ip: nat)
    requires Rem(Read(memory, ip), 100) in {5, 6}
    ensures DecodesAs(memory, ip, Parse(memory, ip))
  {
    ParseLocCharacterized(memory, ip, 1);
    ParseLocCharacterized(memory, ip, 2);
  }

  lemma ParseOneOperand(memory: seq<int>, ip: nat)
    requires Rem(Read(memory, ip), 100) in {3, 4, 9}
    ensures DecodesAs(memory, ip, Parse(memory, ip))
  {
    ParseLocCharacterized(memory, ip, 1);
  }

  /** A known opcode decodes exactly when each of its parameters has mode 0, 1 or 2; the
      instruction then has the opcode's number and arity and its parameters are the decoded
      operands. Otherwise a bad mode is reported. */
  lemma ParseKnownOpcode(memory: seq<int>, ip: nat)
    requires KnownOpcode(Rem(Read(memory, ip), 100))
    ensures DecodesAs(memory, ip, Parse(memory, ip))
  {
    var code := Rem(Read(memory, ip), 100);
    if code in {1, 2, 7, 8} {
      ParseThreeOperands(memory, ip);
    } else if code in {5, 6} {
      ParseTwoOperands(memory, ip);
    } else if code in {3, 4, 9} {
      ParseOneOperand(memory, ip);
    }
  }

  /** A negative instruction word never decodes: its truncated remainder is at most 0. */
  lemma NegativeWordFails(memory: seq<int>, ip: nat)
    requires Read(memory, ip) < 0
    ensures Parse(memory, ip).Failure? && Parse(memory, ip).error.UnknownOpcode?
  {
  }

  // ---------------------------------------------------------------- one instruction

  /** A writing instruction fails exactly when its destination cannot be written, whatever the
      value; otherwise it writes the destination cell and no other, advances ip by 4 (2 for Input)
      and changes nothing else. */
  lemma WritingInstruction(s: State, op: Opcode)
    requires Writes(op)
    ensures Perform(s, op).Fault? <==> Store(s.memory, s.base, op.dst, 0).Failure?
    ensures Perform(s, op).Fault? ==> Perform(s, op).error == Store(s.memory, s.base, op.dst, 0).error
    ensures Perform(s, op).Continue? ==>
              var t := Perform(s, op).next;
              t.ip == s.ip + (if op.Input? then 2 else 4) && t.base == s.base &&
              t.input == s.input && t.outputs == s.outputs &&
              forall i: nat :: i != Destination(s.base, op.dst).value ==> Read(t.memory, i) == Read(s.memory, i)
  {
    StoreFails(s.memory, s.base, op.dst, Computed(s, op));
    StoreFails(s.memory, s.base, op.dst, 0);
    if Perform(s, op).Continue? {
      StoreFrame(s.memory, s.base, op.dst, Computed(s, op));
    }
  }

  /** Add and Multiply store the sum and the product of their operands. */
  lemma ArithmeticStores(s: State, op: Opcode)
    requires op.Add? || op.Multiply?
    requires Perform(s, op).Continue?
    ensures var a, b := Get(s.memory, s.base, op.a), Get(s.memory, s.base, op.b);
            Get(Perform(s, op).next.memory, s.base, op.dst) == if op.Add? then a + b else a * b
  {
    StoreThenGet(s.memory, s.base, op.dst, Computed(s, op), op.dst);
  }

  /** LessThan and Equals store 1 when the comparison holds and 0 otherwise. */
  lemma ComparisonStoresBit(s: State, op: Opcode)
    requires op.LessThan? || op.Equals?
    requires Perform(s, op).Continue?
    ensures var a, b := Get(s.memory, s.base, op.a), Get(s.memory, s.base, op.b);
            var stored := Get(Perform(s, op).next.memory, s.base, op.dst);
            (stored == 0 || stored == 1) && (stored == 1 <==> if op.LessThan? then a < b else a == b)
  {
    StoreThenGet(s.memory, s.base, op.dst, Computed(s, op), op.dst);
  }

  /** Input stores the fixed input value. */
  lemma InputStoresInput(s: State, op: Opcode)
    requires op.Input? && Perform(s, op).Continue?
    ensures Get(Perform(s, op).next.memory, s.base, op.dst) == s.input
  {
    StoreThenGet(s.memory, s.base, op.dst, s.input, op.dst);
  }

  /** Output cannot fail; it appends exactly one value and changes nothing else but ip. */
  lemma OutputAppendsOne(s: State, op: Opcode)
    requires op.Output?
    ensures Perform(s, op).Continue?
    ensures var t := Perform(s, op).next;
            t.outputs == s.outputs + [Get(s.memory, s.base, op.src)] &&
            t.ip == s.ip + 2 && t.memory == s.memory && t.base == s.base && t.input == s.input
  {
  }

  /** The jumps cannot fail and write nothing: ip becomes the target when the condition holds
      (non-zero for JumpIfTrue, zero for JumpIfFalse) and advances by 3 otherwise. */
  lemma JumpsOnlyMoveIp(s: State, op: Opcode)
    requires op.JumpIfTrue? || op.JumpIfFalse?
    ensures Perform(s, op).Continue?
    ensures var t := Perform(s, op).next;
            var taken := (Get(s.memory, s.base, op.cond) != 0) == op.JumpIfTrue?;
            t.memory == s.memory && t.base == s.base && t.outputs == s.outputs && t.input == s.input &&
            t.ip == if taken then AsUsize(Get(s.memory, s.base, op.target)) else s.ip + 3
  {
  }

  /** AdjustBase adds its operand to the base, advances ip by 2, and changes nothing else. */
  lemma AdjustBaseMovesBase(s: State, op: Opcode)
    requires op.AdjustBase?
    ensures Perform(s, op) == Continue(s.(base := s.base + Get(s.memory, s.base, op.delta), ip := s.ip + 2))
  {
  }

  /** Halt ends the run with the state untouched; the answer is memory[0]. */
  lemma HaltStops(s: State, fuel: nat)
    requires Parse(s.memory, s.ip) == Success(Halt)
    requires |s.memory| > 0
    ensures Step(s) == Stop
    ensures Execute(s, fuel + 1) == Halted(s)
    ensures Answer(Execute(s, fuel + 1)) == Success(s.memory[0])
  {
    DriveOneStep(Step, s, fuel);
  }

  /** An instruction pointer past the end of memory reads the word 0, which is no opcode. This is
      where a jump to a negative i64 target lands: `as usize` maps it to 2^64 minus its magnitude. */
  lemma JumpToNegativeFails(s: State, target: int)
    requires I64_MIN <= target < 0 && |s.memory| <= ADDRESS_LIMIT
    ensures AsUsize(target) >= |s.memory|
    ensures Step(s.(ip := AsUsize(target))) == Fault(UnknownOpcode(0))
  {
    var t := s.(ip := AsUsize(target));
    assert Read(t.memory, t.ip) == 0;
    ParseUnknownOpcode(t.memory, t.ip);
  }

  // ---------------------------------------------------------------- runs

  /** Over a whole run the input never changes, memory never shrinks nor grows past the address
      limit, and outputs are only ever appended. */
  lemma RunKeeps(s: State, fuel: nat)
    requires |s.memory| <= ADDRESS_LIMIT
    ensures var t := Execute(s, fuel).state;
            t.input == s.input && |s.memory| <= |t.memory| <= ADDRESS_LIMIT && s.outputs <= t.outputs
  {
    var rel := (a: State, b: State) =>
      b.input == a.input && |a.memory| <= |b.memory| && (|a.memory| <= ADDRESS_LIMIT ==> |b.memory| <= ADDRESS_LIMIT) && a.outputs <= b.outputs;
    DriveKeeps(Step, rel, s, fuel);
  }
}
