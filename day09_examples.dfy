/** The two example programs of src/bin/09.rs, followed instruction by instruction: one prints a
    number too large for 32 bits, the other prints its own sixteen words. */
module Day09Examples {
  import opened Base
  import opened Primitives
  import opened Machine
  import opened Day09
  import Day09Properties
  import Text

  // ---------------------------------------------------------------- a large output

  const BIG: int := 1125899906842624
  const LARGE_OUTPUT: seq<int> := [104, BIG, 99]

  lemma DecodeLargeOutput(m: seq<int>)
    requires |m| == 3 && m[0] == 104
    ensures Parse(m, 0) == Success(Output(Immediate(m[1])))
  {
    assert Read(m, 0) == Word(4, 1, 0, 0);
    ModeDigits(4, 1, 0, 0);
    Day09Properties.ParseOneOperand(m, 0);
  }

  /** `104,1125899906842624,99` prints its middle word and halts after two instructions. */
  lemma LargeOutput(input: int)
    ensures Execute(Boot(LARGE_OUTPUT, input), 2) == Halted(State(LARGE_OUTPUT, 2, 0, input, [BIG]))
  {
    var s := Boot(LARGE_OUTPUT, input);
    var t := State(LARGE_OUTPUT, 2, 0, input, [BIG]);
    DecodeLargeOutput(s.memory);
    assert Step(s) == Perform(s, Output(Immediate(BIG)));
    assert Parse(t.memory, 2) == Success(Halt);
    assert s.outputs + [BIG] == [BIG];
    assert Step(s) == Continue(t);
    assert Step(t) == Stop;
    DriveOneStep(Step, s, 1);
    DriveOneStep(Step, t, 0);
    assert Execute(s, 2) == Drive(Step, t, 1);
  }

  /** Read from its text, the same program makes `part_one` and `part_two` report that number. */
  lemma LargeOutputReported(input: int)
    ensures Report(Text.Format(LARGE_OUTPUT), input, 2) == Success(Some(BIG))
  {
    Text.ParseFormat(LARGE_OUTPUT, I64_MIN, I64_MAX);
    LargeOutput(input);
  }

  // ---------------------------------------------------------------- the quine

  const QUINE: seq<int> := [109, 1, 204, -1, 1001, 100, 1, 100, 1008, 100, 16, 101, 1006, 101, 0, 99]

  /** Memory once the quine has written its counter (cell 100) and its flag (cell 101). */
  function Grown(counter: int, flag: int): seq<int>
  {
    QUINE + seq(84, _ => 0) + [counter, flag]
  }

  /** The machine at the top of pass k: k words printed, the base register at k. */
  function Head(k: nat): State
    requires k <= 16
  {
    State(if k == 0 then QUINE else Grown(k, 0), 0, k, 0, QUINE[..k])
  }

  /** The machine at the `Halt` at the end of the last pass. */
  function Final(): State
  {
    State(Grown(16, 1), 15, 16, 0, QUINE)
  }

  // The states inside pass k, after each of its five instructions.

  function AfterAdjust(k: nat): State requires k < 16
  {
    Head(k).(base := k + 1, ip := 2)
  }

  function AfterOutput(k: nat): State requires k < 16
  {
    AfterAdjust(k).(outputs := QUINE[..k + 1], ip := 4)
  }

  function AfterCount(k: nat): State requires k < 16
  {
    AfterOutput(k).(memory := if k == 0 then QUINE + seq(84, _ => 0) + [1] else Grown(k + 1, 0), ip := 8)
  }

  function Flag(k: nat): int
  {
    if k + 1 == 16 then 1 else 0
  }

  function AfterCompare(k: nat): State requires k < 16
  {
    AfterCount(k).(memory := Grown(k + 1, Flag(k)), ip := 12)
  }

  function AfterJump(k: nat): State requires k < 16
  {
    if k < 15 then Head(k + 1) else Final()
  }

  /** The quine's first sixteen cells never change. */
  predicate Loaded(m: seq<int>)
  {
    |m| >= 16 && forall i :: 0 <= i < 16 ==> m[i] == QUINE[i]
  }

  lemma LoadedHead(k: nat)
    requires k < 16
    ensures Loaded(Head(k).memory)
  {
  }

  lemma LoadedCount(k: nat)
    requires k < 16
    ensures Loaded(AfterCount(k).memory)
  {
  }

  lemma LoadedCompare(k: nat)
    requires k < 16
    ensures Loaded(AfterCompare(k).memory)
  {
  }

  lemma DecodeAdjust(m: seq<int>)
    requires Loaded(m)
    ensures Parse(m, 0) == Success(AdjustBase(Immediate(1)))
  {
    assert Read(m, 0) == Word(9, 1, 0, 0) && Read(m, 1) == 1;
    ModeDigits(9, 1, 0, 0);
    Day09Properties.ParseOneOperand(m, 0);
  }

  lemma DecodeOutput(m: seq<int>)
    requires Loaded(m)
    ensures Parse(m, 2) == Success(Output(Relative(-1)))
  {
    assert Read(m, 2) == Word(4, 2, 0, 0) && Read(m, 3) == -1;
    ModeDigits(4, 2, 0, 0);
    Day09Properties.ParseOneOperand(m, 2);
  }

  lemma DecodeAdd(m: seq<int>)
    requires Loaded(m)
    ensures Parse(m, 4) == Success(Add(Absolute(100), Immediate(1), Absolute(100)))
  {
    assert Read(m, 4) == Word(1, 0, 1, 0);
    assert Read(m, 5) == 100 && Read(m, 6) == 1 && Read(m, 7) == 100;
    ModeDigits(1, 0, 1, 0);
    Day09Properties.ParseThreeOperands(m, 4);
  }

  lemma DecodeEquals(m: seq<int>)
    requires Loaded(m)
    ensures Parse(m, 8) == Success(Equals(Absolute(100), Immediate(16), Absolute(101)))
  {
    assert Read(m, 8) == Word(8, 0, 1, 0);
    assert Read(m, 9) == 100 && Read(m, 10) == 16 && Read(m, 11) == 101;
    ModeDigits(8, 0, 1, 0);
    Day09Properties.ParseThreeOperands(m, 8);
  }

  lemma DecodeJump(m: seq<int>)
    requires Loaded(m)
    ensures Parse(m, 12) == Success(JumpIfFalse(Absolute(101), Immediate(0)))
  {
    assert Read(m, 12) == Word(6, 0, 1, 0);
    assert Read(m, 13) == 101 && Read(m, 14) == 0;
    ModeDigits(6, 0, 1, 0);
    Day09Properties.ParseTwoOperands(m, 12);
  }

  lemma DecodeHalt(m: seq<int>)
    requires Loaded(m)
    ensures Parse(m, 15) == Success(Halt)
  {
    assert Read(m, 15) == 99;
  }

  lemma PassAdjust(k: nat)
    requires k < 16
    ensures Step(Head(k)) == Continue(AfterAdjust(k))
  {
    var s := Head(k);
    LoadedHead(k);
    DecodeAdjust(s.memory);
    assert Step(s) == Perform(s, AdjustBase(Immediate(1)));
  }

  lemma PassOutput(k: nat)
    requires k < 16
    ensures Step(AfterAdjust(k)) == Continue(AfterOutput(k))
  {
    var s := AfterAdjust(k);
    LoadedHead(k);
    DecodeOutput(s.memory);
    assert Step(s) == Perform(s, Output(Relative(-1)));
    assert Get(s.memory, s.base, Relative(-1)) == QUINE[k];
    assert QUINE[..k] + [QUINE[k]] == QUINE[..k + 1];
  }

  lemma PassCount(k: nat)
    requires k < 16
    ensures Step(AfterOutput(k)) == Continue(AfterCount(k))
  {
    var s := AfterOutput(k);
    LoadedHead(k);
    DecodeAdd(s.memory);
    assert Step(s) == Perform(s, Add(Absolute(100), Immediate(1), Absolute(100)));
    assert Read(s.memory, 100) == k;
    var m := Write(s.memory, 100, k + 1);
    assert m == AfterCount(k).memory by {
      assert |m| == |AfterCount(k).memory|;
      forall i | 0 <= i < |m| ensures m[i] == AfterCount(k).memory[i] {
      }
    }
  }

  lemma PassCompare(k: nat)
    requires k < 16
    ensures Step(AfterCount(k)) == Continue(AfterCompare(k))
  {
    var s := AfterCount(k);
    LoadedCount(k);
    DecodeEquals(s.memory);
    assert Step(s) == Perform(s, Equals(Absolute(100), Immediate(16), Absolute(101)));
    assert Read(s.memory, 100) == k + 1;
    var m := Write(s.memory, 101, Flag(k));
    assert m == Grown(k + 1, Flag(k)) by {
      assert |m| == |Grown(k + 1, Flag(k))|;
      forall i | 0 <= i < |m| ensures m[i] == Grown(k + 1, Flag(k))[i] {
      }
    }
  }

  lemma PassJump(k: nat)
    requires k < 16
    ensures Step(AfterCompare(k)) == Continue(AfterJump(k))
  {
    var s := AfterCompare(k);
    LoadedCompare(k);
    DecodeJump(s.memory);
    assert Step(s) == Perform(s, JumpIfFalse(Absolute(101), Immediate(0)));
    assert Read(s.memory, 101) == Flag(k);
    assert QUINE[..16] == QUINE;
  }

  lemma FinalHalts()
    ensures Step(Final()) == Stop
  {
    LoadedCompare(15);
    DecodeHalt(Final().memory);
  }

  /** One pass prints one word, counts it and jumps back, or falls through to `Halt` after the
      sixteenth. */
  lemma OnePass(k: nat)
    requires k < 16
    ensures Execute(Head(k), 5) == Failed(AfterJump(k), OutOfFuel)
  {
    PassAdjust(k);
    PassOutput(k);
    PassCount(k);
    PassCompare(k);
    PassJump(k);
    DriveOneStep(Step, Head(k), 4);
    DriveOneStep(Step, AfterAdjust(k), 3);
    DriveOneStep(Step, AfterOutput(k), 2);
    DriveOneStep(Step, AfterCount(k), 1);
    DriveOneStep(Step, AfterCompare(k), 0);
  }

  /** A pass before the last one leads to the top of the next pass. */
  lemma NextPass(k: nat)
    requires k < 15
    ensures Execute(Head(k), 5 * (16 - k) + 1) == Execute(Head(k + 1), 5 * (16 - (k + 1)) + 1)
  {
    OnePass(k);
    assert AfterJump(k) == Head(k + 1);
    Resume(Head(k), Head(k + 1), 5 * (16 - k) + 1, 5 * (16 - (k + 1)) + 1);
  }

  /** The last pass falls through to the `Halt`. */
  lemma LastPass(k: nat)
    requires 15 <= k < 16
    ensures Execute(Head(k), 5 * (16 - k) + 1) == Halted(Final())
  {
    OnePass(k);
    var rest := 5 * (16 - k) + 1 - 5;
    FinalHalts();
    DriveOneStep(Step, Final(), rest - 1);
    assert Execute(Final(), rest) == Halted(Final());
    Resume(Head(k), Final(), 5 * (16 - k) + 1, rest);
  }

  /** From the top of pass k the quine halts after the remaining passes and the `Halt`. */
  lemma {:induction false} QuineFrom(k: nat)
    requires k < 16
    ensures Execute(Head(k), 5 * (16 - k) + 1) == Halted(Final())
    decreases 16 - k
  {
    if k < 15 {
      NextPass(k);
      QuineFrom(k + 1);
    } else {
      LastPass(k);
    }
  }

  /** A run that is still going after its first five steps goes on from where they left it. */
  lemma Resume(s: State, t: State, total: nat, rest: nat)
    requires Execute(s, 5) == Failed(t, OutOfFuel) && total == 5 + rest
    ensures Execute(s, total) == Execute(t, rest)
  {
    DriveSplit(Step, s, 5, rest);
  }

  /** The quine prints exactly its own sixteen words, in order, and halts within 81 instructions;
      more fuel changes nothing. */
  lemma Quine(fuel: nat)
    requires fuel >= 81
    ensures Execute(Boot(QUINE, 0), fuel).Halted?
    ensures Execute(Boot(QUINE, 0), fuel).state.outputs == QUINE
  {
    var start := 0;
    var needed := 5 * (16 - start) + 1;
    assert Head(start) == Boot(QUINE, 0);
    QuineFrom(start);
    DriveMoreFuel(Step, Head(start), needed, fuel);
  }
}
