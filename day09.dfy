/** The complete Intcode machine of src/bin/09.rs: 64-bit words, memory that reads as zero past its
    end and grows when written past its end, position, immediate and relative addressing against a
    `base` register, opcodes 1-9 and 99, one fixed input value and an output sequence that only grows.

    The read-only operations (`parse`, `parse_loc`, `get`) are functions of the fields they read; the
    mutating ones (`set`, `next`, `run`) are methods of `Computer`, proved against `Store`, `Step` and
    `Execute`. Word arithmetic is on unbounded integers: i64 overflow is not modelled. */
module Day09 {
  import opened Base
  import opened Primitives
  import opened Machine
  import Text

  /** Memory can only grow to hold indices below 2^63. Larger indices are the images of negative
      words under `as usize`; `resize(index + 1, 0)` panics on them. */
  const ADDRESS_LIMIT: nat := 0x8000_0000_0000_0000

  datatype Location = Absolute(index: nat) | Relative(offset: int) | Immediate(value: int)

  datatype Opcode =
    | Add(a: Location, b: Location, dst: Location)             // 1
    | Multiply(a: Location, b: Location, dst: Location)        // 2
    | Input(dst: Location)                                     // 3
    | Output(src: Location)                                    // 4
    | JumpIfTrue(cond: Location, target: Location)             // 5
    | JumpIfFalse(cond: Location, target: Location)            // 6
    | LessThan(a: Location, b: Location, dst: Location)        // 7
    | Equals(a: Location, b: Location, dst: Location)          // 8
    | AdjustBase(delta: Location)                              // 9
    | Halt                                                     // 99

  /** The fields of a `Computer`, as a value. */
  datatype State = State(memory: seq<int>, ip: nat, base: int, input: int, outputs: seq<int>)

  /** A freshly built machine with its input register set. */
  function Boot(program: seq<int>, input: int): State
  {
    State(program, 0, 0, input, [])
  }

  /** The cell at `index`, or 0 past the end of memory (`memory.get(index).get_or_insert(&0)`): a
      word other than 0 is always one that memory holds. */
  function Read(memory: seq<int>, index: nat): (r: int)
    ensures index < |memory| ==> r == memory[index]
    ensures r != 0 ==> index < |memory|
  {
    if index < |memory| then memory[index] else 0
  }

  /** `get`: the value a location denotes. An immediate is its own value; a position or a relative
      location reads the very cell that `set` would write through it. */
  function Get(memory: seq<int>, base: int, loc: Location): (r: int)
    ensures loc.Immediate? ==> r == loc.value
    ensures !loc.Immediate? ==> r == Read(memory, Destination(base, loc).value)
  {
    match loc
    case Absolute(index) => Read(memory, index)
    case Relative(offset) => Read(memory, AsUsize(base + offset))
    case Immediate(value) => value
  }

  /** `parse_loc`: parameter `offset` of the instruction at `ip`, with its mode. */
  function ParseLoc(memory: seq<int>, ip: nat, offset: nat): (r: Result<Location>)
    requires 1 <= offset < 10
    ensures r.Failure? ==> r.error.UnknownMode?
  {
    var value := Read(memory, ip + offset);
    var mode := Mode(Read(memory, ip), offset);
    if mode == 0 then Success(Absolute(AsUsize(value)))
    else if mode == 1 then Success(Immediate(value))
    else if mode == 2 then Success(Relative(value))
    else Failure(UnknownMode(mode))
  }

  /** `parse`: the instruction at `ip`. */
  function Parse(memory: seq<int>, ip: nat): (r: Result<Opcode>)
    ensures r.Failure? ==> r.error.UnknownOpcode? || r.error.UnknownMode?
    ensures r == Success(Halt) ==> ip < |memory|
  {
    var code := Rem(Read(memory, ip), 100);
    if code == 1 then
      var a :- ParseLoc(memory, ip, 1); var b :- ParseLoc(memory, ip, 2); var c :- ParseLoc(memory, ip, 3);
      Success(Add(a, b, c))
    else if code == 2 then
      var a :- ParseLoc(memory, ip, 1); var b :- ParseLoc(memory, ip, 2); var c :- ParseLoc(memory, ip, 3);
      Success(Multiply(a, b, c))
    else if code == 3 then
      var a :- ParseLoc(memory, ip, 1);
      Success(Input(a))
    else if code == 4 then
      var a :- ParseLoc(memory, ip, 1);
      Success(Output(a))
    else if code == 5 then
      var a :- ParseLoc(memory, ip, 1); var b :- ParseLoc(memory, ip, 2);
      Success(JumpIfTrue(a, b))
    else if code == 6 then
      var a :- ParseLoc(memory, ip, 1); var b :- ParseLoc(memory, ip, 2);
      Success(JumpIfFalse(a, b))
    else if code == 7 then
      var a :- ParseLoc(memory, ip, 1); var b :- ParseLoc(memory, ip, 2); var c :- ParseLoc(memory, ip, 3);
      Success(LessThan(a, b, c))
    else if code == 8 then
      var a :- ParseLoc(memory, ip, 1); var b :- ParseLoc(memory, ip, 2); var c :- ParseLoc(memory, ip, 3);
      Success(Equals(a, b, c))
    else if code == 9 then
      var a :- ParseLoc(memory, ip, 1);
      Success(AdjustBase(a))
    else if code == 99 then
      Success(Halt)
    else
      Failure(UnknownOpcode(code))
  }

  /** The index `set` writes for a location; an immediate is not a place. */
  function Destination(base: int, loc: Location): (r: Result<nat>)
    ensures r.Failure? <==> loc.Immediate?
    ensures r.Failure? ==> r.error == ImmediateWrite
  {
    match loc
    case Absolute(index) => Success(index)
    case Relative(offset) => Success(AsUsize(base + offset))
    case Immediate(_) => Failure(ImmediateWrite)
  }

  /** Memory after storing `val` at `index`: grown with zeros to `index + 1` cells when too short. */
  function Write(memory: seq<int>, index: nat, val: int): (m: seq<int>)
    ensures |m| == if index < |memory| then |memory| else index + 1
    ensures m[index] == val
    ensures forall i :: 0 <= i < |memory| && i != index ==> m[i] == memory[i]
    ensures forall i :: |memory| <= i < |m| && i != index ==> m[i] == 0
  {
    var grown := if index < |memory| then memory else memory + seq(index + 1 - |memory|, _ => 0);
    grown[index := val]
  }

  /** `set`: memory after writing `val` through `loc`, or why that fails. */
  function Store(memory: seq<int>, base: int, loc: Location, val: int): (r: Result<seq<int>>)
    ensures r.Success? ==> |memory| <= |r.value|
    ensures r.Success? ==> |r.value| <= ADDRESS_LIMIT || |r.value| == |memory|
  {
    var index :- Destination(base, loc);
    if index < |memory| || index < ADDRESS_LIMIT then Success(Write(memory, index, val))
    else Failure(AddressOverflow(index))
  }

  /** The state after a store that advances the instruction pointer by `width`. */
  function Assign(s: State, dst: Location, val: int, width: nat): Transition<State>
  {
    match Store(s.memory, s.base, dst, val)
    case Failure(e) => Fault(e)
    case Success(m) => Continue(s.(memory := m, ip := s.ip + width))
  }

  /** `next`: decode the instruction at `ip` and execute it. */
  function Step(s: State): (r: Transition<State>)
    ensures r.Continue? ==> r.next.input == s.input
    ensures r.Continue? ==> |s.memory| <= |r.next.memory|
    ensures r.Continue? && |s.memory| <= ADDRESS_LIMIT ==> |r.next.memory| <= ADDRESS_LIMIT
    ensures r.Continue? ==> s.outputs <= r.next.outputs && |r.next.outputs| <= |s.outputs| + 1
    ensures r.Fault? ==> r.error != OutOfFuel
    ensures r.Stop? ==> s.ip < |s.memory|
  {
    match Parse(s.memory, s.ip)
    case Failure(e) => Fault(e)
    case Success(op) => Perform(s, op)
  }

  /** The effect of one decoded instruction: only `Halt` stops, and only a store can panic, on an
      immediate destination or an index beyond the address limit. */
  function Perform(s: State, op: Opcode): (r: Transition<State>)
    ensures r.Stop? <==> op.Halt?
    ensures r.Fault? ==> Writes(op) && (r.error == ImmediateWrite || r.error.AddressOverflow?)
  {
    var m, base := s.memory, s.base;
    if Writes(op) then Assign(s, op.dst, Computed(s, op), if op.Input? then 2 else 4)
    else
      match op
      case Output(a) => Continue(s.(outputs := s.outputs + [Get(m, base, a)], ip := s.ip + 2))
      case JumpIfTrue(a, t) =>
        Continue(s.(ip := if Get(m, base, a) != 0 then AsUsize(Get(m, base, t)) else s.ip + 3))
      case JumpIfFalse(a, t) =>
        Continue(s.(ip := if Get(m, base, a) == 0 then AsUsize(Get(m, base, t)) else s.ip + 3))
      case AdjustBase(a) => Continue(s.(base := base + Get(m, base, a), ip := s.ip + 2))
      case Halt => Stop
  }

  /** The instructions that write their last parameter. */
  predicate Writes(op: Opcode)
  {
    op.Add? || op.Multiply? || op.Input? || op.LessThan? || op.Equals?
  }

  /** The value a writing instruction stores. */
  function Computed(s: State, op: Opcode): int
    requires Writes(op)
  {
    var m, base := s.memory, s.base;
    match op
    case Add(a, b, _) => Get(m, base, a) + Get(m, base, b)
    case Multiply(a, b, _) => Get(m, base, a) * Get(m, base, b)
    case Input(_) => s.input
    case LessThan(a, b, _) => if Get(m, base, a) < Get(m, base, b) then 1 else 0
    case Equals(a, b, _) => if Get(m, base, a) == Get(m, base, b) then 1 else 0
  }

  /** `run` with a budget of `fuel` calls of `next`: a run that halts stops at a halt instruction,
      and one that panics stops at the instruction whose `next` panicked, with its reason. */
  function Execute(s: State, fuel: nat): (r: Finish<State>)
    ensures r.Halted? ==> Step(r.state) == Stop
    ensures r.Failed? && r.reason != OutOfFuel ==> Step(r.state) == Fault(r.reason)
  {
    DriveEnds(Step, s, fuel);
    Drive(Step, s, fuel)
  }

  /** What `run` returns: `memory[0]` after a normal halt (indexing an empty vector panics). */
  function Answer(f: Finish<State>): Result<int>
  {
    match f
    case Halted(s) => if |s.memory| == 0 then Failure(OutOfBounds(0)) else Success(s.memory[0])
    case Failed(_, e) => Failure(e)
  }

  /** `part_one` (input 1) and `part_two` (input 2): the last output of a run, `None` if there was
      none. There is an answer only once the machine has reached a halt instruction; a program that
      does not parse gives its parse error. */
  function Report(program: string, input: int, fuel: nat): (r: Result<Option<int>>)
    ensures Text.ParseProgram(program, I64_MIN, I64_MAX).Failure? ==>
              r == Failure(Text.ParseProgram(program, I64_MIN, I64_MAX).error)
    ensures r.Success? ==>
              var f := Execute(Boot(Text.ParseProgram(program, I64_MIN, I64_MAX).value, input), fuel);
              Step(f.state) == Stop && r.value == Last(f.state.outputs)
    ensures Text.ParseProgram(program, I64_MIN, I64_MAX).Success? ==>
              var f := Execute(Boot(Text.ParseProgram(program, I64_MIN, I64_MAX).value, input), fuel);
              (f.Halted? ==> r == Success(Last(f.state.outputs))) && (f.Failed? ==> r == Failure(f.reason))
  {
    var words :- Text.ParseProgram(program, I64_MIN, I64_MAX);
    var f := Execute(Boot(words, input), fuel);
    var _ :- Answer(f);
    Success(Last(f.state.outputs))
  }

  class Computer {
    var memory: seq<int>
    var ip: nat
    var input: int
    var outputs: seq<int>
    var base: int

    function Snapshot(): State
      reads this
    {
      State(memory, ip, base, input, outputs)
    }

    /** The struct that `new` builds from the parsed words. */
    constructor (program: seq<int>)
      ensures Snapshot() == Boot(program, 0)
    {
      memory, ip, input, outputs, base := program, 0, 0, [], 0;
    }

    /** `new`: one memory cell per comma-separated token; fails on a token that is not an i64. */
    static method New(text: string) returns (r: Result<Computer>)
      ensures r.Failure? <==> Text.ParseProgram(text, I64_MIN, I64_MAX).Failure?
      ensures r.Failure? ==> r.error == Text.ParseProgram(text, I64_MIN, I64_MAX).error
      ensures r.Success? ==> fresh(r.value) && r.value.Snapshot() == Boot(Text.ParseProgram(text, I64_MIN, I64_MAX).value, 0)
    {
      var words :- Text.ParseProgram(text, I64_MIN, I64_MAX);
      var c := new Computer(words);
      r := Success(c);
    }

    /** `set`: grows memory with zeros when the index is past its end, then writes there. */
    method Set(loc: Location, val: int) returns (r: Outcome)
      modifies this
      ensures ip == old(ip) && base == old(base) && input == old(input) && outputs == old(outputs)
      ensures Store(old(memory), old(base), loc, val).Success? ==>
                r == Pass && memory == Store(old(memory), old(base), loc, val).value
      ensures Store(old(memory), old(base), loc, val).Failure? ==>
                r == Fail(Store(old(memory), old(base), loc, val).error) && memory == old(memory)
      decreases if Destination(base, loc).Success? && Destination(base, loc).value >= |memory| then 1 else 0
    {
      var index := Destination(base, loc);
      if index.Failure? {
        assert Store(memory, base, loc, val) == Failure(index.error);
        return Fail(index.error);
      }
      if index.value < |memory| {
        memory := memory[index.value := val];
        r := Pass;
      } else if index.value >= ADDRESS_LIMIT {
        assert Store(memory, base, loc, val) == Failure(AddressOverflow(index.value));
        r := Fail(AddressOverflow(index.value));
      } else {
        ghost var before := memory;
        memory := memory + seq(index.value + 1 - |memory|, _ => 0);
        assert Write(memory, index.value, val) == Write(before, index.value, val);
        assert Store(before, base, loc, val) == Success(Write(before, index.value, val));
        r := Set(loc, val);
      }
    }

    /** `next`: executes one instruction; on a failure nothing has changed. */
    method Next() returns (r: Status)
      modifies this
      ensures r == StatusOf(Step(old(Snapshot())))
      ensures Snapshot() == StateAfter(old(Snapshot()), Step(old(Snapshot())))
    {
      var op := Parse(memory, ip);
      if op.Failure? {
        return Crashed(op.error);
      }
      assert Step(Snapshot()) == Perform(Snapshot(), op.value);
      r := Dispatch(op.value);
    }

    /** The body of `next` once the instruction is decoded: the writing instructions compute their
        value and `set` it, the others move ip, the base or the outputs. */
    method Dispatch(op: Opcode) returns (r: Status)
      modifies this
      ensures r == StatusOf(Perform(old(Snapshot()), op))
      ensures Snapshot() == StateAfter(old(Snapshot()), Perform(old(Snapshot()), op))
    {
      if Writes(op) {
        var val;
        match op {
          case Add(p1, p2, _) => val := Get(memory, base, p1) + Get(memory, base, p2);
          case Multiply(p1, p2, _) => val := Get(memory, base, p1) * Get(memory, base, p2);
          case Input(_) => val := input;
          case LessThan(p1, p2, _) => val := if Get(memory, base, p1) < Get(memory, base, p2) then 1 else 0;
          case Equals(p1, p2, _) => val := if Get(memory, base, p1) == Get(memory, base, p2) then 1 else 0;
        }
        var o := Set(op.dst, val);
        if o.Fail? {
          return Crashed(o.error);
        }
        ip := ip + if op.Input? then 2 else 4;
        return Running;
      }
      match op {
        case Output(p1) =>
          outputs := outputs + [Get(memory, base, p1)];
          ip := ip + 2;
        case JumpIfTrue(p1, p2) =>
          if Get(memory, base, p1) != 0 {
            ip := AsUsize(Get(memory, base, p2));
          } else {
            ip := ip + 3;
          }
        case JumpIfFalse(p1, p2) =>
          if Get(memory, base, p1) == 0 {
            ip := AsUsize(Get(memory, base, p2));
          } else {
            ip := ip + 3;
          }
        case AdjustBase(p1) =>
          base := base + Get(memory, base, p1);
          ip := ip + 2;
        case Halt =>
          return Stopped;
      }
      r := Running;
    }

    /** `run`: calls `next` until it halts, at most `fuel` times, then returns `memory[0]`. */
    method Run(fuel: nat) returns (r: Result<int>)
      modifies this
      ensures Snapshot() == Execute(old(Snapshot()), fuel).state
      ensures r == Answer(Execute(old(Snapshot()), fuel))
    {
      var remaining := fuel;
      var status := Running;
      while status == Running && remaining > 0
        invariant Pending(Step, status, Snapshot(), remaining) == Execute(old(Snapshot()), fuel)
        decreases remaining
      {
        ghost var before := Snapshot();
        status := Next();
        DriveOneStep(Step, before, remaining - 1);
        remaining := remaining - 1;
      }
      match status {
        case Running => r := Failure(OutOfFuel);
        case Stopped =>
          // the halt was read from memory, so `memory[0]` exists
          assert |memory| > 0;
          r := Success(memory[0]);
        case Crashed(e) => r := Failure(e);
      }
    }
  }

  /** Shared body of `part_one` and `part_two`: build, set the input, run, pop the last output. */
  method RunWithInput(program: string, input: int, fuel: nat) returns (r: Result<Option<int>>)
    ensures r == Report(program, input, fuel)
  {
    var c :- Computer.New(program);
    c.input := input;
    var answer := c.Run(fuel);
    if answer.Failure? {
      return Failure(answer.error);
    }
    r := Success(Last(c.outputs));
  }

  /** `part_one`: the BOOST test mode, input 1. */
  method PartOne(program: string, fuel: nat) returns (r: Result<Option<int>>)
    ensures r == Report(program, 1, fuel)
  {
    r := RunWithInput(program, 1, fuel);
  }

  /** `part_two`: the BOOST sensor mode, input 2. */
  method PartTwo(program: string, fuel: nat) returns (r: Result<Option<int>>)
    ensures r == Report(program, 2, fuel)
  {
    r := RunWithInput(program, 2, fuel);
  }
}
