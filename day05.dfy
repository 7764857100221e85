/** The Intcode machine of src/bin/05.rs: 32-bit words, a memory that every access must hit,
    position and immediate addressing, opcodes 1-8 and 99, one fixed input value and an output
    sequence that only grows.

    Unlike the later machine of src/bin/09.rs, a read past the end of memory panics (`unwrap` on
    `None`), and so does decoding past the end. A write past the end never returns: `set` resizes
    the vector to `index` cells, which leaves `index` still out of range, and calls itself again.
    The read-only operations are functions; `set`, `next` and `run` are methods of `Computer`. Word
    arithmetic is on unbounded integers: i32 overflow is not modelled. */
module Day05 {
  import opened Base
  import opened Primitives
  import opened Machine
  import Text

  /** The locations `parse_loc` produces: mode 0 and mode 1. */
  datatype Location = Absolute(index: nat) | Immediate(value: int)

  datatype Opcode =
    | Add(a: Location, b: Location, dst: Location)             // 1
    | Multiply(a: Location, b: Location, dst: Location)        // 2
    | Input(dst: Location)                                     // 3
    | Output(src: Location)                                    // 4
    | JumpIfTrue(cond: Location, target: Location)             // 5
    | JumpIfFalse(cond: Location, target: Location)            // 6
    | LessThan(a: Location, b: Location, dst: Location)        // 7
    | Equals(a: Location, b: Location, dst: Location)          // 8
    | Halt                                                     // 99

  /** The fields of a `Computer`, as a value. */
  datatype State = State(memory: seq<int>, ip: nat, input: int, outputs: seq<int>)

  function Boot(program: seq<int>, input: int): State
  {
    State(program, 0, input, [])
  }

  /** `get`: the value a location denotes; a position past the end of memory panics. */
  function Get(memory: seq<int>, loc: Location): (r: Result<int>)
    ensures r.Failure? <==> loc.Absolute? && loc.index >= |memory|
    ensures r.Failure? ==> r.error == OutOfBounds(loc.index)
    ensures r.Success? && loc.Immediate? ==> r.value == loc.value
    ensures r.Success? && loc.Absolute? ==> r.value == memory[loc.index]
  {
    match loc
    case Absolute(index) => if index < |memory| then Success(memory[index]) else Failure(OutOfBounds(index))
    case Immediate(value) => Success(value)
  }

  /** `parse_loc`: parameter `offset` of the instruction at `ip`. The parameter is read first, then
      the instruction word for its mode digit; only modes 0 and 1 exist. */
  function ParseLoc(memory: seq<int>, ip: nat, offset: nat): (r: Result<Location>)
    requires 1 <= offset < 10
    ensures r.Failure? ==> r.error.OutOfBounds? || r.error.UnknownMode?
  {
    var value :- Get(memory, Absolute(ip + offset));
    // the instruction word lies before its parameter, so this read cannot fail
    var word := Get(memory, Absolute(ip)).value;
    var mode := Mode(word, offset);
    if mode == 0 then Success(Absolute(AsUsize(value)))
    else if mode == 1 then Success(Immediate(value))
    else Failure(UnknownMode(mode))
  }

  /** `parse`: the instruction at `ip`, its parameters decoded left to right. */
  function Parse(memory: seq<int>, ip: nat): (r: Result<Opcode>)
    ensures r.Failure? ==> r.error.OutOfBounds? || r.error.UnknownOpcode? || r.error.UnknownMode?
  {
    var word :- Get(memory, Absolute(ip));
    var code := Rem(word, 100);
    if code == 1 then
      var a :- ParseLoc(memory, ip, 1); var b :- ParseLoc(memory, ip, 2); var c :- ParseLoc(memory, ip, 3);
      Success(Add(a, b, c))
    else if code == 2 then
      var a :- ParseLoc(memory, ip, 1); var b :- ParseLoc(memory, ip, 2); var c :- ParseLoc(memory, ip, 3);
      Success(Multiply(a, b, c))
    else if code == 3 then
      var a :- ParseLoc(memory, ip, 1);
      Success(Input(a))
    else if code == 4 then
      var a :- ParseLoc(memory, ip, 1);
      Success(Output(a))
    else if code == 5 then
      var a :- ParseLoc(memory, ip, 1); var b :- ParseLoc(memory, ip, 2);
      Success(JumpIfTrue(a, b))
    else if code == 6 then
      var a :- ParseLoc(memory, ip, 1); var b :- ParseLoc(memory, ip, 2);
      Success(JumpIfFalse(a, b))
    else if code == 7 then
      var a :- ParseLoc(memory, ip, 1); var b :- ParseLoc(memory, ip, 2); var c :- ParseLoc(memory, ip, 3);
      Success(LessThan(a, b, c))
    else if code == 8 then
      var a :- ParseLoc(memory, ip, 1); var b :- ParseLoc(memory, ip, 2); var c :- ParseLoc(memory, ip, 3);
      Success(Equals(a, b, c))
    else if code == 99 then
      Success(Halt)
    else
      Failure(UnknownOpcode(code))
  }

  /** `set`: memory after writing `val` through `loc`. An immediate is not a place; an index past
      the end sends `set` into endless recursion, reported as `WriteDiverges`. */
  function Store(memory: seq<int>, loc: Location, val: int): (r: Result<seq<int>>)
    ensures r.Success? ==> |r.value| == |memory|
  {
    match loc
    case Immediate(_) => Failure(ImmediateWrite)
    case Absolute(index) =>
      if index < |memory| then Success(memory[index := val]) else Failure(WriteDiverges(index))
  }

  /** The state after a store that advances the instruction pointer by `width`. */
  function Assign(s: State, dst: Location, val: int, width: nat): Transition<State>
  {
    match Store(s.memory, dst, val)
    case Failure(e) => Fault(e)
    case Success(m) => Continue(s.(memory := m, ip := s.ip + width))
  }

  /** The instructions that write their last parameter. */
  predicate Writes(op: Opcode)
  {
    op.Add? || op.Multiply? || op.Input? || op.LessThan? || op.Equals?
  }

  /** The value a writing instruction stores; its operands are read left to right, before the
      destination is looked at. */
  function Computed(s: State, op: Opcode): Result<int>
    requires Writes(op)
  {
    if op.Input? then Success(s.input)
    else
      var x :- Get(s.memory, op.a);
      var y :- Get(s.memory, op.b);
      Success(Combine(op, x, y))
  }

  /** What a two-operand writing instruction makes of its operands. */
  function Combine(op: Opcode, x: int, y: int): int
    requires Writes(op) && !op.Input?
  {
    match op
    case Add(_, _, _) => x + y
    case Multiply(_, _, _) => x * y
    case LessThan(_, _, _) => if x < y then 1 else 0
    case Equals(_, _, _) => if x == y then 1 else 0
  }

  /** A conditional jump: the target is read only when the jump is taken. */
  function Jump(s: State, cond: Location, target: Location, onNonZero: bool): Transition<State>
  {
    match Get(s.memory, cond)
    case Failure(e) => Fault(e)
    case Success(c) =>
      if (c != 0) == onNonZero then
        match Get(s.memory, target)
        case Failure(e) => Fault(e)
        case Success(t) => Continue(s.(ip := AsUsize(t)))
      else Continue(s.(ip := s.ip + 3))
  }

  /** The effect of one decoded instruction: only `Halt` stops; a panic is a read past the end, or
      a store to an immediate or past the end; every instruction that goes on keeps the input and
      the size of memory. */
  function Perform(s: State, op: Opcode): (r: Transition<State>)
    ensures r.Stop? <==> op.Halt?
    ensures r.Fault? ==> r.error.OutOfBounds? || r.error == ImmediateWrite || (Writes(op) && r.error.WriteDiverges?)
    ensures r.Continue? ==> r.next.input == s.input && |r.next.memory| == |s.memory|
  {
    if Writes(op) then
      match Computed(s, op)
      case Failure(e) => Fault(e)
      case Success(v) => Assign(s, op.dst, v, if op.Input? then 2 else 4)
    else
      match op
      case Output(a) =>
        (match Get(s.memory, a)
         case Failure(e) => Fault(e)
         case Success(v) => Continue(s.(outputs := s.outputs + [v], ip := s.ip + 2)))
      case JumpIfTrue(a, t) => Jump(s, a, t, true)
      case JumpIfFalse(a, t) => Jump(s, a, t, false)
      case Halt => Stop
  }

  /** `next`: decode the instruction at `ip` and execute it. */
  function Step(s: State): (r: Transition<State>)
    ensures r.Continue? ==> r.next.input == s.input && |r.next.memory| == |s.memory|
    ensures r.Continue? ==> s.outputs <= r.next.outputs && |r.next.outputs| <= |s.outputs| + 1
    ensures r.Fault? ==> r.error != OutOfFuel
  {
    match Parse(s.memory, s.ip)
    case Failure(e) => Fault(e)
    case Success(op) => Perform(s, op)
  }

  /** `run` with a budget of `fuel` calls of `next`: a run that halts stops at a halt instruction,
      and one that panics stops at the instruction whose `next` panicked, with its reason. */
  function Execute(s: State, fuel: nat): (r: Finish<State>)
    ensures r.Halted? ==> Step(r.state) == Stop
    ensures r.Failed? && r.reason != OutOfFuel ==> Step(r.state) == Fault(r.reason)
  {
    DriveEnds(Step, s, fuel);
    Drive(Step, s, fuel)
  }

  /** What `run` returns: `memory[0]` after a normal halt (indexing an empty vector panics). */
  function Answer(f: Finish<State>): Result<int>
  {
    match f
    case Halted(s) => if |s.memory| == 0 then Failure(OutOfBounds(0)) else Success(s.memory[0])
    case Failed(_, e) => Failure(e)
  }

  /** `part_one` (input 1) and `part_two` (input 5): the last output of a run, `None` if there was
      none. There is an answer only once the machine has reached a halt instruction; a program that
      does not parse gives its parse error. */
  function Report(program: string, input: int, fuel: nat): (r: Result<Option<int>>)
    ensures Text.ParseProgram(program, I32_MIN, I32_MAX).Failure? ==>
              r == Failure(Text.ParseProgram(program, I32_MIN, I32_MAX).error)
    ensures r.Success? ==>
              var f := Execute(Boot(Text.ParseProgram(program, I32_MIN, I32_MAX).value, input), fuel);
              Step(f.state) == Stop && r.value == Last(f.state.outputs)
    ensures Text.ParseProgram(program, I32_MIN, I32_MAX).Success? ==>
              var f := Execute(Boot(Text.ParseProgram(program, I32_MIN, I32_MAX).value, input), fuel);
              (f.Halted? ==> r == Success(Last(f.state.outputs))) && (f.Failed? ==> r == Failure(f.reason))
  {
    var words :- Text.ParseProgram(program, I32_MIN, I32_MAX);
    var f := Execute(Boot(words, input), fuel);
    var _ :- Answer(f);
    Success(Last(f.state.outputs))
  }

  class Computer {
    var memory: seq<int>
    var ip: nat
    var input: int
    var outputs: seq<int>

    function Snapshot(): State
      reads this
    {
      State(memory, ip, input, outputs)
    }

    /** The struct that `new` builds from the parsed words. */
    constructor (program: seq<int>)
      ensures Snapshot() == Boot(program, 0)
    {
      memory, ip, input, outputs := program, 0, 0, [];
    }

    /** `new`: one memory cell per comma-separated token; fails on a token that is not an i32. */
    static method New(text: string) returns (r: Result<Computer>)
      ensures r.Failure? <==> Text.ParseProgram(text, I32_MIN, I32_MAX).Failure?
      ensures r.Failure? ==> r.error == Text.ParseProgram(text, I32_MIN, I32_MAX).error
      ensures r.Success? ==> fresh(r.value) && r.value.Snapshot() == Boot(Text.ParseProgram(text, I32_MIN, I32_MAX).value, 0)
    {
      var words :- Text.ParseProgram(text, I32_MIN, I32_MAX);
      var c := new Computer(words);
      r := Success(c);
    }

    /** `set`: overwrites one cell inside memory. */
    method Set(loc: Location, val: int) returns (r: Outcome)
      modifies this
      ensures ip == old(ip) && input == old(input) && outputs == old(outputs)
      ensures Store(old(memory), loc, val).Success? ==>
                r == Pass && memory == Store(old(memory), loc, val).value
      ensures Store(old(memory), loc, val).Failure? ==>
                r == Fail(Store(old(memory), loc, val).error) && memory == old(memory)
    {
      match loc {
        case Immediate(_) =>
          r := Fail(ImmediateWrite);
        case Absolute(index) =>
          if index < |memory| {
            memory := memory[index := val];
            r := Pass;
          } else {
            r := Fail(WriteDiverges(index));
          }
      }
    }

    /** `next`: executes one instruction; on a failure nothing has changed. */
    method Next() returns (r: Status)
      modifies this
      ensures r == StatusOf(Step(old(Snapshot())))
      ensures Snapshot() == StateAfter(old(Snapshot()), Step(old(Snapshot())))
    {
      var op := Parse(memory, ip);
      if op.Failure? {
        return Crashed(op.error);
      }
      assert Step(Snapshot()) == Perform(Snapshot(), op.value);
      r := Dispatch(op.value);
    }

    /** The body of `next` once the instruction is decoded. */
    method Dispatch(op: Opcode) returns (r: Status)
      modifies this
      ensures r == StatusOf(Perform(old(Snapshot()), op))
      ensures Snapshot() == StateAfter(old(Snapshot()), Perform(old(Snapshot()), op))
    {
      if Writes(op) {
        r := Assignment(op);
        return;
      }
      match op {
        case Output(p1) =>
          var v := Get(memory, p1);
          if v.Failure? {
            return Crashed(v.error);
          }
          outputs := outputs + [v.value];
          ip := ip + 2;
          r := Running;
        case JumpIfTrue(p1, p2) =>
          r := Branch(p1, p2, true);
        case JumpIfFalse(p1, p2) =>
          r := Branch(p1, p2, false);
        case Halt =>
          r := Stopped;
      }
    }

    /** Add, Multiply, Input, LessThan and Equals: read the operands, `set` the result, advance ip. */
    method Assignment(op: Opcode) returns (r: Status)
      requires Writes(op)
      modifies this
      ensures r == StatusOf(Perform(old(Snapshot()), op))
      ensures Snapshot() == StateAfter(old(Snapshot()), Perform(old(Snapshot()), op))
    {
      var val: int;
      if op.Input? {
        val := input;
      } else {
        var x := Get(memory, op.a);
        if x.Failure? {
          return Crashed(x.error);
        }
        var y := Get(memory, op.b);
        if y.Failure? {
          return Crashed(y.error);
        }
        if op.Add? {
          val := x.value + y.value;
        } else if op.Multiply? {
          val := x.value * y.value;
        } else if op.LessThan? {
          val := if x.value < y.value then 1 else 0;
        } else {
          val := if x.value == y.value then 1 else 0;
        }
      }
      var o := Set(op.dst, val);
      if o.Fail? {
        return Crashed(o.error);
      }
      ip := ip + if op.Input? then 2 else 4;
      r := Running;
    }

    /** JumpIfTrue and JumpIfFalse. */
    method Branch(cond: Location, target: Location, onNonZero: bool) returns (r: Status)
      modifies this
      ensures r == StatusOf(Jump(old(Snapshot()), cond, target, onNonZero))
      ensures Snapshot() == StateAfter(old(Snapshot()), Jump(old(Snapshot()), cond, target, onNonZero))
    {
      var c := Get(memory, cond);
      if c.Failure? {
        return Crashed(c.error);
      }
      if (c.value != 0) == onNonZero {
        var t := Get(memory, target);
        if t.Failure? {
          return Crashed(t.error);
        }
        ip := AsUsize(t.value);
      } else {
        ip := ip + 3;
      }
      r := Running;
    }

    /** `run`: calls `next` until it halts, at most `fuel` times, then returns `memory[0]`. */
    method Run(fuel: nat) returns (r: Result<int>)
      modifies this
      ensures Snapshot() == Execute(old(Snapshot()), fuel).state
      ensures r == Answer(Execute(old(Snapshot()), fuel))
    {
      var remaining := fuel;
      var status := Running;
      while status == Running && remaining > 0
        invariant Pending(Step, status, Snapshot(), remaining) == Execute(old(Snapshot()), fuel)
        decreases remaining
      {
        ghost var before := Snapshot();
        status := Next();
        DriveOneStep(Step, before, remaining - 1);
        remaining := remaining - 1;
      }
      match status {
        case Running => r := Failure(OutOfFuel);
        case Stopped =>
          // the halt was read from memory, so `memory[0]` exists
          assert |memory| > 0;
          r := Success(memory[0]);
        case Crashed(e) => r := Failure(e);
      }
    }
  }

  /** Shared body of `part_one` and `part_two`: build, set the input, run, pop the last output. */
  method RunWithInput(program: string, input: int, fuel: nat) returns (r: Result<Option<int>>)
    ensures r == Report(program, input, fuel)
  {
    var c :- Computer.New(program);
    c.input := input;
    var answer := c.Run(fuel);
    if answer.Failure? {
      return Failure(answer.error);
    }
    r := Success(Last(c.outputs));
  }

  /** `part_one`: the air conditioner unit, input 1. */
  method PartOne(program: string, fuel: nat) returns (r: Result<Option<int>>)
    ensures r == Report(program, 1, fuel)
  {
    r := RunWithInput(program, 1, fuel);
  }

  /** `part_two`: the thermal radiator controller, input 5. */
  method PartTwo(program: string, fuel: nat) returns (r: Result<Option<int>>)
    ensures r == Report(program, 5, fuel)
  {
    r := RunWithInput(program, 5, fuel);
  }
}
