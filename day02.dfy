/** The first Intcode machine, of src/bin/02.rs: the instruction word is the opcode itself (1 add,
    2 multiply, 99 halt), every parameter is a position, and there is no input or output. The
    answer of a run is the word left in cell 0. `part_two` searches the noun and verb, the words
    patched into cells 1 and 2, that make the answer 19690720.

    Reads past the end of memory panic; a write past the end never returns, as in src/bin/05.rs.
    Word arithmetic is on unbounded integers: i32 overflow is not modelled. */
module Day02 {
  import opened Base
  import opened Primitives
  import opened Machine
  import Text

  /** The answer `part_two` looks for. */
  const GOAL: int := 19690720

  /** `parse_loc` only builds positions, so an operand is the index it names. */
  datatype Opcode =
    | Add(a: nat, b: nat, dst: nat)         // 1
    | Multiply(a: nat, b: nat, dst: nat)    // 2
    | Halt                                  // 99

  datatype State = State(memory: seq<int>, ip: nat)

  function Boot(program: seq<int>): State
  {
    State(program, 0)
  }

  /** `get` of a position: past the end of memory it panics. */
  function Get(memory: seq<int>, index: nat): (r: Result<int>)
    ensures r.Success? <==> index < |memory|
    ensures r.Success? ==> r.value == memory[index]
    ensures r.Failure? ==> r.error == OutOfBounds(index)
  {
    if index < |memory| then Success(memory[index]) else Failure(OutOfBounds(index))
  }

  /** `parse_loc`: the word at `ip + offset`, taken as a position; past the end of memory it panics,
      and a word that fits a usize is its own position. */
  function ParseLoc(memory: seq<int>, ip: nat, offset: nat): (r: Result<nat>)
    ensures r.Success? <==> ip + offset < |memory|
    ensures r.Failure? ==> r.error == OutOfBounds(ip + offset)
    ensures r.Success? && 0 <= memory[ip + offset] < USIZE_MODULUS ==> r.value == memory[ip + offset]
  {
    var value :- Get(memory, ip + offset);
    Success(AsUsize(value))
  }

  /** `parse`: the whole word at `ip` is the opcode. */
  function Parse(memory: seq<int>, ip: nat): (r: Result<Opcode>)
    ensures r.Failure? ==> r.error.OutOfBounds? || r.error.UnknownOpcode?
  {
    var word :- Get(memory, ip);
    if word == 1 || word == 2 then
      var a :- ParseLoc(memory, ip, 1);
      var b :- ParseLoc(memory, ip, 2);
      var c :- ParseLoc(memory, ip, 3);
      Success(if word == 1 then Add(a, b, c) else Multiply(a, b, c))
    else if word == 99 then Success(Halt)
    else Failure(UnknownOpcode(word))
  }

  /** `set` of a position: past the end `set` resizes the vector to `index` cells, which leaves
      `index` still out of range, and calls itself again forever. */
  function Store(memory: seq<int>, index: nat, val: int): (r: Result<seq<int>>)
    ensures r.Success? ==> |r.value| == |memory|
  {
    if index < |memory| then Success(memory[index := val]) else Failure(WriteDiverges(index))
  }

  /** The effect of one decoded instruction: read both operands, then store into the third. Only
      `Halt` stops, only a cell past the end panics, and an instruction that goes on moves `ip` to
      the next instruction, four words on. */
  function Perform(s: State, op: Opcode): (r: Transition<State>)
    ensures r.Stop? <==> op.Halt?
    ensures r.Fault? ==> r.error.OutOfBounds? || r.error.WriteDiverges?
    ensures r.Continue? ==> r.next.ip == s.ip + 4 && |r.next.memory| == |s.memory|
  {
    match op
    case Halt => Stop
    case _ =>
      match Get(s.memory, op.a)
      case Failure(e) => Fault(e)
      case Success(x) =>
        match Get(s.memory, op.b)
        case Failure(e) => Fault(e)
        case Success(y) =>
          match Store(s.memory, op.dst, if op.Add? then x + y else x * y)
          case Failure(e) => Fault(e)
          case Success(m) => Continue(State(m, s.ip + 4))
  }

  /** `next`. */
  function Step(s: State): (r: Transition<State>)
    ensures r.Continue? ==> |r.next.memory| == |s.memory|
    ensures r.Fault? ==> r.error != OutOfFuel
  {
    match Parse(s.memory, s.ip)
    case Failure(e) => Fault(e)
    case Success(op) => Perform(s, op)
  }

  /** `run` with a budget of `fuel` calls of `next`: a run that halts stops at a halt instruction,
      and one that panics stops at the instruction whose `next` panicked, with its reason. */
  function Execute(s: State, fuel: nat): (r: Finish<State>)
    ensures r.Halted? ==> Step(r.state) == Stop
    ensures r.Failed? && r.reason != OutOfFuel ==> Step(r.state) == Fault(r.reason)
  {
    DriveEnds(Step, s, fuel);
    Drive(Step, s, fuel)
  }

  /** What `run` returns: `memory[0]` after a normal halt. */
  function Answer(f: Finish<State>): Result<int>
  {
    match f
    case Halted(s) => if |s.memory| == 0 then Failure(OutOfBounds(0)) else Success(s.memory[0])
    case Failed(_, e) => Failure(e)
  }

  /** `memory[1] = noun; memory[2] = verb`, where indexing past the end panics. */
  function Patch(memory: seq<int>, noun: int, verb: int): (r: Result<seq<int>>)
    ensures r.Success? <==> |memory| >= 3
    ensures r.Success? ==> |r.value| == |memory| && r.value[1] == noun && r.value[2] == verb
    ensures r.Success? ==> r.value[0] == memory[0] && r.value[3..] == memory[3..]
    ensures r.Failure? ==> r.error == OutOfBounds(if |memory| < 2 then 1 else 2)
  {
    if |memory| < 2 then Failure(OutOfBounds(1))
    else if |memory| < 3 then Failure(OutOfBounds(2))
    else Success(memory[1 := noun][2 := verb])
  }

  /** The answer of a program run as it is. */
  function Evaluate(words: seq<int>, fuel: nat): Result<int>
  {
    Answer(Execute(Boot(words), fuel))
  }

  /** The answer of the program restored with `noun` and `verb`: a program too short to hold
      them panics at the first cell missing (`AttemptRestores` gives the run of any other). */
  function Attempt(words: seq<int>, noun: int, verb: int, fuel: nat): (r: Result<int>)
    ensures |words| < 3 ==> r == Failure(OutOfBounds(if |words| < 2 then 1 else 2))
  {
    var memory :- Patch(words, noun, verb);
    Evaluate(memory, fuel)
  }

  /** `part_one`: the answer of the program restored to the "1202 program alarm" state. */
  function Restored(text: string, fuel: nat): Result<int>
  {
    var words :- Text.ParseProgram(text, I32_MIN, I32_MAX);
    Attempt(words, 12, 2, fuel)
  }

  /** The search of `part_two` from the pair (noun, verb) on: the pairs are tried in order, the
      verb varying fastest, and the first one that panics ends the search. */
  function SearchFrom(words: seq<int>, noun: nat, verb: nat, fuel: nat): (r: Result<Option<int>>)
    requires noun <= 100 && verb <= 100
    ensures r.Success? && r.value.Some? ==> noun * 100 + verb <= r.value.value < 10000
    decreases 100 - noun, 100 - verb
  {
    if noun == 100 then Success(None)
    else if verb == 100 then SearchFrom(words, noun + 1, 0, fuel)
    else
      var answer :- Attempt(words, noun, verb, fuel);
      if answer == GOAL then Success(Some(noun * 100 + verb)) else SearchFrom(words, noun, verb + 1, fuel)
  }

  /** One pair of the search: a panic ends it, the goal ends it with the pair's number, and any
      other answer goes on to the next pair. */
  lemma SearchStep(words: seq<int>, noun: nat, verb: nat, fuel: nat)
    requires noun < 100 && verb < 100
    ensures var a := Attempt(words, noun, verb, fuel);
            var r := SearchFrom(words, noun, verb, fuel);
            (a.Failure? ==> r == Failure(a.error)) &&
            (a == Success(GOAL) ==> r == Success(Some(noun * 100 + verb))) &&
            (a.Success? && a.value != GOAL ==> r == SearchFrom(words, noun, verb + 1, fuel))
  {
  }

  /** `part_two`: the whole search, each attempt on a program parsed afresh. A number it finds is
      below 10000 (`SearchFinds` shows it is `100 * noun + verb` for a pair that makes the answer
      19690720), and a program that does not parse gives its parse error. */
  function Search(text: string, fuel: nat): (r: Result<Option<int>>)
    ensures Text.ParseProgram(text, I32_MIN, I32_MAX).Failure? ==>
              r == Failure(Text.ParseProgram(text, I32_MIN, I32_MAX).error)
    ensures r.Success? && r.value.Some? ==> 0 <= r.value.value < 10000
  {
    var words :- Text.ParseProgram(text, I32_MIN, I32_MAX);
    SearchFrom(words, 0, 0, fuel)
  }

  class Computer {
    var memory: seq<int>
    var ip: nat

    function Snapshot(): State
      reads this
    {
      State(memory, ip)
    }

    constructor (program: seq<int>)
      ensures Snapshot() == Boot(program)
    {
      memory, ip := program, 0;
    }

    /** `new`: one memory cell per comma-separated token; fails on a token that is not an i32. */
    static method New(text: string) returns (r: Result<Computer>)
      ensures r.Failure? <==> Text.ParseProgram(text, I32_MIN, I32_MAX).Failure?
      ensures r.Failure? ==> r.error == Text.ParseProgram(text, I32_MIN, I32_MAX).error
      ensures r.Success? ==> fresh(r.value) && r.value.Snapshot() == Boot(Text.ParseProgram(text, I32_MIN, I32_MAX).value)
    {
      var words :- Text.ParseProgram(text, I32_MIN, I32_MAX);
      var c := new Computer(words);
      r := Success(c);
    }

    /** `set`: overwrites one cell inside memory. */
    method Set(index: nat, val: int) returns (r: Outcome)
      modifies this
      ensures ip == old(ip)
      ensures Store(old(memory), index, val).Success? ==>
                r == Pass && memory == Store(old(memory), index, val).value
      ensures Store(old(memory), index, val).Failure? ==>
                r == Fail(Store(old(memory), index, val).error) && memory == old(memory)
    {
      if index < |memory| {
        memory := memory[index := val];
        r := Pass;
      } else {
        r := Fail(WriteDiverges(index));
      }
    }

    /** `next`: executes one instruction; on a failure nothing has changed. */
    method Next() returns (r: Status)
      modifies this
      ensures r == StatusOf(Step(old(Snapshot())))
      ensures Snapshot() == StateAfter(old(Snapshot()), Step(old(Snapshot())))
    {
      var op := Parse(memory, ip);
      if op.Failure? {
        return Crashed(op.error);
      }
      assert Step(Snapshot()) == Perform(Snapshot(), op.value);
      if op.value.Halt? {
        return Stopped;
      }
      var x := Get(memory, op.value.a);
      if x.Failure? {
        return Crashed(x.error);
      }
      var y := Get(memory, op.value.b);
      if y.Failure? {
        return Crashed(y.error);
      }
      var o := Set(op.value.dst, if op.value.Add? then x.value + y.value else x.value * y.value);
      if o.Fail? {
        return Crashed(o.error);
      }
      ip := ip + 4;
      r := Running;
    }

    /** `run`: calls `next` until it halts, at most `fuel` times, then returns `memory[0]`. */
    method Run(fuel: nat) returns (r: Result<int>)
      modifies this
      ensures Snapshot() == Execute(old(Snapshot()), fuel).state
      ensures r == Answer(Execute(old(Snapshot()), fuel))
    {
      var remaining := fuel;
      var status := Running;
      while status == Running && remaining > 0
        invariant Pending(Step, status, Snapshot(), remaining) == Execute(old(Snapshot()), fuel)
        decreases remaining
      {
        ghost var before := Snapshot();
        status := Next();
        DriveOneStep(Step, before, remaining - 1);
        remaining := remaining - 1;
      }
      match status {
        case Running => r := Failure(OutOfFuel);
        case Stopped =>
          // the halt was read from memory, so `memory[0]` exists
          assert |memory| > 0;
          r := Success(memory[0]);
        case Crashed(e) => r := Failure(e);
      }
    }
  }

  /** A fresh computer for `text`, restored with `noun` and `verb`, and run. */
  method RunRestored(text: string, noun: int, verb: int, fuel: nat) returns (r: Result<int>)
    ensures Text.ParseProgram(text, I32_MIN, I32_MAX).Failure? ==>
              r == Failure(Text.ParseProgram(text, I32_MIN, I32_MAX).error)
    ensures Text.ParseProgram(text, I32_MIN, I32_MAX).Success? ==>
              r == Attempt(Text.ParseProgram(text, I32_MIN, I32_MAX).value, noun, verb, fuel)
  {
    var c :- Computer.New(text);
    if |c.memory| < 2 {
      return Failure(OutOfBounds(1));
    }
    c.memory := c.memory[1 := noun];
    if |c.memory| < 3 {
      return Failure(OutOfBounds(2));
    }
    c.memory := c.memory[2 := verb];
    r := c.Run(fuel);
  }

  /** `part_one`. */
  method PartOne(text: string, fuel: nat) returns (r: Result<int>)
    ensures r == Restored(text, fuel)
  {
    r := RunRestored(text, 12, 2, fuel);
  }

  /** `part_two`: nouns and verbs from 0 to 99, the verb varying fastest. */
  method PartTwo(text: string, fuel: nat) returns (r: Result<Option<int>>)
    ensures r == Search(text, fuel)
  {
    ghost var parsed := Text.ParseProgram(text, I32_MIN, I32_MAX);
    for noun := 0 to 100
      invariant noun > 0 ==> parsed.Success?
      invariant parsed.Success? ==> Search(text, fuel) == SearchFrom(parsed.value, noun, 0, fuel)
    {
      for verb := 0 to 100
        invariant noun > 0 || verb > 0 ==> parsed.Success?
        invariant parsed.Success? ==> Search(text, fuel) == SearchFrom(parsed.value, noun, verb, fuel)
      {
        var answer := RunRestored(text, noun, verb, fuel);
        if parsed.Success? {
          SearchStep(parsed.value, noun, verb, fuel);
        }
        if answer.Failure? {
          return Failure(answer.error);
        }
        if answer.value == GOAL {
          return Success(Some(noun * 100 + verb));
        }
      }
    }
    r := Success(None);
  }
}
