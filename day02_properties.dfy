/** What the machine of src/bin/02.rs promises: the whole-word instruction format, the two
    arithmetic instructions, the length of memory over a run, agreement with the later machine of
    src/bin/05.rs, the order of the noun and verb search, and the example programs of its tests. */
module Day02Properties {
  import opened Base
  import opened Primitives
  import opened Machine
  import opened Day02
  import Day05

  // ---------------------------------------------------------------- one instruction

  /** The word at `ip` is the opcode itself: 1 and 2 take three positions, 99 halts, and any other
      word, 1001 or 1101 included, is reported as it is. An instruction cut off by the end of
      memory panics on the first missing cell. */
  lemma DecodeWholeWord(memory: seq<int>, ip: nat)
    requires ip < |memory|
    ensures memory[ip] !in {1, 2, 99} ==> Parse(memory, ip) == Failure(UnknownOpcode(memory[ip]))
    ensures memory[ip] == 99 ==> Parse(memory, ip) == Success(Halt)
    ensures memory[ip] in {1, 2} && ip + 3 >= |memory| ==> Parse(memory, ip) == Failure(OutOfBounds(|memory|))
    ensures memory[ip] in {1, 2} && ip + 3 < |memory| ==>
              var a, b, c := AsUsize(memory[ip + 1]), AsUsize(memory[ip + 2]), AsUsize(memory[ip + 3]);
              Parse(memory, ip) == Success(if memory[ip] == 1 then Add(a, b, c) else Multiply(a, b, c))
  {
  }

  /** Add and Multiply fail exactly when one of their three positions is past the end, the
      operands being read before the destination; otherwise they overwrite the destination with
      the sum or the product and move to the next instruction. */
  lemma ArithmeticInstruction(s: State, op: Opcode)
    requires !op.Halt?
    ensures Perform(s, op).Continue? <==> op.a < |s.memory| && op.b < |s.memory| && op.dst < |s.memory|
    ensures Perform(s, op).Fault? ==>
              Perform(s, op).error ==
                if op.a >= |s.memory| then OutOfBounds(op.a)
                else if op.b >= |s.memory| then OutOfBounds(op.b)
                else WriteDiverges(op.dst)
    ensures Perform(s, op).Continue? ==>
              var m, t := s.memory, Perform(s, op).next;
              t.ip == s.ip + 4 && |t.memory| == |m| &&
              t.memory[op.dst] == (if op.Add? then m[op.a] + m[op.b] else m[op.a] * m[op.b]) &&
              forall i :: 0 <= i < |m| && i != op.dst ==> t.memory[i] == m[i]
  {
  }

  /** Halt ends the run with the state untouched; the answer is memory[0]. */
  lemma HaltStops(s: State, fuel: nat)
    requires Parse(s.memory, s.ip) == Success(Halt)
    ensures |s.memory| > 0
    ensures Step(s) == Stop
    ensures Execute(s, fuel + 1) == Halted(s)
    ensures Answer(Execute(s, fuel + 1)) == Success(s.memory[0])
  {
    DriveOneStep(Step, s, fuel);
  }

  /** Over a whole run memory keeps its length. */
  lemma RunKeeps(s: State, fuel: nat)
    ensures |Execute(s, fuel).state.memory| == |s.memory|
  {
    var rel := (a: State, b: State) => |a.memory| == |b.memory|;
    DriveKeeps(Step, rel, s, fuel);
  }

  // ---------------------------------------------------------------- the later machine

  /** A state of this machine as one of src/bin/05.rs, with that machine's input and outputs. */
  function Embed(s: State, input: int, outputs: seq<int>): Day05.State
  {
    Day05.State(s.memory, s.ip, input, outputs)
  }

  function LiftOpcode(op: Opcode): Day05.Opcode
  {
    match op
    case Add(a, b, c) => Day05.Add(Day05.Absolute(a), Day05.Absolute(b), Day05.Absolute(c))
    case Multiply(a, b, c) => Day05.Multiply(Day05.Absolute(a), Day05.Absolute(b), Day05.Absolute(c))
    case Halt => Day05.Halt
  }

  function LiftTransition(t: Transition<State>, input: int, outputs: seq<int>): Transition<Day05.State>
  {
    match t
    case Continue(next) => Continue(Embed(next, input, outputs))
    case Stop => Stop
    case Fault(e) => Fault(e)
  }

  /** The words 1, 2 and 99 read as opcodes of the later machine have every mode digit 0. */
  lemma PositionalWord(word: int)
    requires word in {1, 2, 99}
    ensures Rem(word, 100) == word
    ensures Mode(word, 1) == 0 && Mode(word, 2) == 0 && Mode(word, 3) == 0
  {
    if word == 1 {
      ModeDigits(1, 0, 0, 0);
    } else if word == 2 {
      ModeDigits(2, 0, 0, 0);
    } else {
      ModeDigits(99, 0, 0, 0);
    }
  }

  /** A parameter in position mode is read as `parse_loc` reads it here. */
  lemma ParseLocAgrees(memory: seq<int>, ip: nat, k: nat)
    requires ip < |memory| && 1 <= k <= 3 && Mode(memory[ip], k) == 0
    ensures Day05.ParseLoc(memory, ip, k).Failure? <==> ParseLoc(memory, ip, k).Failure?
    ensures Day05.ParseLoc(memory, ip, k).Failure? ==> Day05.ParseLoc(memory, ip, k).error == ParseLoc(memory, ip, k).error
    ensures Day05.ParseLoc(memory, ip, k).Success? ==> Day05.ParseLoc(memory, ip, k).value == Day05.Absolute(ParseLoc(memory, ip, k).value)
  {
  }

  /** For the words 1, 2 and 99 the later decoder reads the same instruction, in position mode,
      and panics on the same missing cell. */
  lemma ParseAgrees(memory: seq<int>, ip: nat)
    requires ip < |memory| && memory[ip] in {1, 2, 99}
    ensures Parse(memory, ip).Failure? ==> Day05.Parse(memory, ip) == Failure(Parse(memory, ip).error)
    ensures Parse(memory, ip).Success? ==> Day05.Parse(memory, ip) == Success(LiftOpcode(Parse(memory, ip).value))
  {
    PositionalWord(memory[ip]);
    if memory[ip] != 99 {
      ParseLocAgrees(memory, ip, 1);
      ParseLocAgrees(memory, ip, 2);
      ParseLocAgrees(memory, ip, 3);
    }
  }

  /** An add, a multiply or a halt does in the later machine what it does here. */
  lemma PerformAgrees(s: State, op: Opcode, input: int, outputs: seq<int>)
    ensures Day05.Perform(Embed(s, input, outputs), LiftOpcode(op)) == LiftTransition(Perform(s, op), input, outputs)
  {
  }

  /** The machine of src/bin/05.rs extends this one: on an instruction word 1, 2 or 99 it takes the
      same step, whatever its input and outputs, which that step leaves alone. */
  lemma Day05Extends(s: State, input: int, outputs: seq<int>)
    requires s.ip < |s.memory| && s.memory[s.ip] in {1, 2, 99}
    ensures Day05.Step(Embed(s, input, outputs)) == LiftTransition(Step(s), input, outputs)
  {
    ParseAgrees(s.memory, s.ip);
    if Parse(s.memory, s.ip).Success? {
      PerformAgrees(s, Parse(s.memory, s.ip).value, input, outputs);
    }
  }

  // ---------------------------------------------------------------- the search

  /** An attempt on a program of at least three words runs it with the noun in cell 1 and the verb
      in cell 2, everything else as it was. */
  lemma AttemptRestores(words: seq<int>, noun: int, verb: int, fuel: nat)
    requires |words| >= 3
    ensures exists m: seq<int> :: |m| == |words| && m[0] == words[0] && m[1] == noun && m[2] == verb &&
              m[3..] == words[3..] && Attempt(words, noun, verb, fuel) == Evaluate(m, fuel)
  {
    var m := Patch(words, noun, verb).value;
    assert Attempt(words, noun, verb, fuel) == Evaluate(m, fuel);
  }

  /** The restored program with this pair runs to an answer other than the goal. */
  predicate Misses(words: seq<int>, noun: nat, verb: nat, fuel: nat)
  {
    Attempt(words, noun, verb, fuel).Success? && Attempt(words, noun, verb, fuel).value != GOAL
  }

  /** The order of the search: by noun, then by verb. */
  predicate Before(noun: nat, verb: nat, noun': nat, verb': nat)
  {
    noun < noun' || (noun == noun' && verb < verb')
  }

  /** Every pair from (n0, v0) up to, and not including, (n1, v1) misses. */
  predicate AllMiss(words: seq<int>, n0: nat, v0: nat, n1: nat, v1: nat, fuel: nat)
  {
    forall noun: nat, verb: nat ::
      noun < 100 && verb < 100 && !Before(noun, verb, n0, v0) && Before(noun, verb, n1, v1) ==>
        Misses(words, noun, verb, fuel)
  }

  /** No pair lies between a pair and itself. */
  lemma AllMissEmpty(words: seq<int>, noun: nat, verb: nat, fuel: nat)
    ensures AllMiss(words, noun, verb, noun, verb, fuel)
  {
  }

  /** Past the last verb of a noun comes the first verb of the next noun. */
  lemma AllMissNextNoun(words: seq<int>, noun: nat, n1: nat, v1: nat, fuel: nat)
    ensures AllMiss(words, noun, 100, n1, v1, fuel) <==> AllMiss(words, noun + 1, 0, n1, v1, fuel)
  {
    assert forall n: nat, v: nat :: v < 100 ==> (Before(n, v, noun, 100) <==> Before(n, v, noun + 1, 0));
  }

  /** The pairs from (noun, verb) on miss when this pair and those after it do. */
  lemma AllMissFirst(words: seq<int>, noun: nat, verb: nat, n1: nat, v1: nat, fuel: nat)
    requires noun < 100 && verb < 100 && !Before(n1, v1, noun, verb + 1)
    ensures AllMiss(words, noun, verb, n1, v1, fuel) <==>
              Misses(words, noun, verb, fuel) && AllMiss(words, noun, verb + 1, n1, v1, fuel)
  {
    assert forall n: nat, v: nat :: !Before(n, v, noun, verb) <==> (n == noun && v == verb) || !Before(n, v, noun, verb + 1);
  }

  /** The search from (noun, verb) answers `None` exactly when every remaining pair misses. */
  lemma {:induction false} SearchMisses(words: seq<int>, noun: nat, verb: nat, fuel: nat)
    requires noun <= 100 && verb <= 100
    ensures SearchFrom(words, noun, verb, fuel) == Success(None) <==> AllMiss(words, noun, verb, 100, 0, fuel)
    decreases 100 - noun, 100 - verb
  {
    if noun == 100 {
    } else if verb == 100 {
      SearchMisses(words, noun + 1, 0, fuel);
      AllMissNextNoun(words, noun, 100, 0, fuel);
    } else {
      SearchStep(words, noun, verb, fuel);
      AllMissFirst(words, noun, verb, 100, 0, fuel);
      if Misses(words, noun, verb, fuel) {
        SearchMisses(words, noun, verb + 1, fuel);
      }
    }
  }

  /** The pair (n, v), not before (noun, verb), reaches the goal, and every pair from (noun, verb)
      up to it misses: the search from (noun, verb) should answer 100 * n + v. */
  ghost predicate FoundAt(words: seq<int>, noun: nat, verb: nat, fuel: nat, x: int)
  {
    exists n: nat, v: nat :: n < 100 && v < 100 && x == n * 100 + v && !Before(n, v, noun, verb) &&
      Attempt(words, n, v, fuel) == Success(GOAL) && AllMiss(words, noun, verb, n, v, fuel)
  }

  /** A pair that reaches the goal is found at itself. */
  lemma FoundHere(words: seq<int>, noun: nat, verb: nat, fuel: nat)
    requires noun < 100 && verb < 100 && Attempt(words, noun, verb, fuel) == Success(GOAL)
    ensures FoundAt(words, noun, verb, fuel, noun * 100 + verb)
  {
    AllMissEmpty(words, noun, verb, fuel);
  }

  /** A find from the first verb of the next noun is a find from past the last verb of this one. */
  lemma FoundNextNoun(words: seq<int>, noun: nat, fuel: nat, x: int)
    requires FoundAt(words, noun + 1, 0, fuel, x)
    ensures FoundAt(words, noun, 100, fuel, x)
  {
    var n: nat, v: nat :| n < 100 && v < 100 && x == n * 100 + v && !Before(n, v, noun + 1, 0) &&
      Attempt(words, n, v, fuel) == Success(GOAL) && AllMiss(words, noun + 1, 0, n, v, fuel);
    AllMissNextNoun(words, noun, n, v, fuel);
  }

  /** A find from the next pair is a find from a pair that misses. */
  lemma FoundNextVerb(words: seq<int>, noun: nat, verb: nat, fuel: nat, x: int)
    requires noun < 100 && verb < 100 && Misses(words, noun, verb, fuel)
    requires FoundAt(words, noun, verb + 1, fuel, x)
    ensures FoundAt(words, noun, verb, fuel, x)
  {
    var n: nat, v: nat :| n < 100 && v < 100 && x == n * 100 + v && !Before(n, v, noun, verb + 1) &&
      Attempt(words, n, v, fuel) == Success(GOAL) && AllMiss(words, noun, verb + 1, n, v, fuel);
    AllMissFirst(words, noun, verb, n, v, fuel);
  }

  /** When the search from (noun, verb) answers a number, it is 100 * noun + verb for a pair not
      before the start that reaches the goal, and every pair from the start up to it misses. */
  lemma {:induction false} SearchFinds(words: seq<int>, noun: nat, verb: nat, fuel: nat)
    requires noun <= 100 && verb <= 100
    ensures var r := SearchFrom(words, noun, verb, fuel);
            r.Success? && r.value.Some? ==> FoundAt(words, noun, verb, fuel, r.value.value)
    decreases 100 - noun, 100 - verb
  {
    var r := SearchFrom(words, noun, verb, fuel);
    if noun == 100 || !(r.Success? && r.value.Some?) {
    } else if verb == 100 {
      assert r == SearchFrom(words, noun + 1, 0, fuel);
      SearchFinds(words, noun + 1, 0, fuel);
      FoundNextNoun(words, noun, fuel, r.value.value);
    } else {
      SearchStep(words, noun, verb, fuel);
      if Attempt(words, noun, verb, fuel) == Success(GOAL) {
        FoundHere(words, noun, verb, fuel);
      } else {
        SearchFinds(words, noun, verb + 1, fuel);
        FoundNextVerb(words, noun, verb, fuel, r.value.value);
      }
    }
  }

  /** The pair (n, v), not before (noun, verb), panics with `e`, and every pair from (noun, verb) up
      to it misses: the search from (noun, verb) should panic with `e`. */
  ghost predicate PanicAt(words: seq<int>, noun: nat, verb: nat, fuel: nat, e: Error)
  {
    exists n: nat, v: nat :: n < 100 && v < 100 && !Before(n, v, noun, verb) &&
      Attempt(words, n, v, fuel) == Failure(e) && AllMiss(words, noun, verb, n, v, fuel)
  }

  /** A pair that panics panics at itself. */
  lemma PanicHere(words: seq<int>, noun: nat, verb: nat, fuel: nat)
    requires noun < 100 && verb < 100 && Attempt(words, noun, verb, fuel).Failure?
    ensures PanicAt(words, noun, verb, fuel, Attempt(words, noun, verb, fuel).error)
  {
    AllMissEmpty(words, noun, verb, fuel);
  }

  /** A panic from the first verb of the next noun is a panic from past the last verb of this one. */
  lemma PanicNextNoun(words: seq<int>, noun: nat, fuel: nat, e: Error)
    requires PanicAt(words, noun + 1, 0, fuel, e)
    ensures PanicAt(words, noun, 100, fuel, e)
  {
    var n: nat, v: nat :| n < 100 && v < 100 && !Before(n, v, noun + 1, 0) &&
      Attempt(words, n, v, fuel) == Failure(e) && AllMiss(words, noun + 1, 0, n, v, fuel);
    AllMissNextNoun(words, noun, n, v, fuel);
  }

  /** A panic from the next pair is a panic from a pair that misses. */
  lemma PanicNextVerb(words: seq<int>, noun: nat, verb: nat, fuel: nat, e: Error)
    requires noun < 100 && verb < 100 && Misses(words, noun, verb, fuel)
    requires PanicAt(words, noun, verb + 1, fuel, e)
    ensures PanicAt(words, noun, verb, fuel, e)
  {
    var n: nat, v: nat :| n < 100 && v < 100 && !Before(n, v, noun, verb + 1) &&
      Attempt(words, n, v, fuel) == Failure(e) && AllMiss(words, noun, verb + 1, n, v, fuel);
    AllMissFirst(words, noun, verb, n, v, fuel);
  }

  /** When the search from (noun, verb) panics, it panics as the first pair that does not run to
      an answer, every pair before that one missing. */
  lemma {:induction false} SearchPanics(words: seq<int>, noun: nat, verb: nat, fuel: nat)
    requires noun <= 100 && verb <= 100
    ensures var r := SearchFrom(words, noun, verb, fuel);
            r.Failure? ==> PanicAt(words, noun, verb, fuel, r.error)
    decreases 100 - noun, 100 - verb
  {
    var r := SearchFrom(words, noun, verb, fuel);
    if noun == 100 || r.Success? {
    } else if verb == 100 {
      assert r == SearchFrom(words, noun + 1, 0, fuel);
      SearchPanics(words, noun + 1, 0, fuel);
      PanicNextNoun(words, noun, fuel, r.error);
    } else {
      SearchStep(words, noun, verb, fuel);
      if Attempt(words, noun, verb, fuel).Failure? {
        PanicHere(words, noun, verb, fuel);
      } else {
        SearchPanics(words, noun, verb + 1, fuel);
        PanicNextVerb(words, noun, verb, fuel, r.error);
      }
    }
  }

  // ---------------------------------------------------------------- the examples of the tests

  /** Restoring 12 into the first operand of an add or a multiply at the start of a program of at
      most 12 words sends its first read past the end of memory. */
  lemma RestoredReadsPastEnd(words: seq<int>, fuel: nat)
    requires 4 <= |words| <= 12 && words[0] in {1, 2} && fuel >= 1
    ensures Attempt(words, 12, 2, fuel) == Failure(OutOfBounds(12))
  {
    var m := Patch(words, 12, 2).value;
    var s := Boot(m);
    DecodeWholeWord(m, 0);
    assert Parse(m, 0).value.a == 12;
    assert Step(s) == Fault(OutOfBounds(12));
    DriveOneStep(Step, s, fuel - 1);
  }

  /** The same from the program's text. */
  lemma RestoredTextReadsPastEnd(words: seq<int>, fuel: nat)
    requires 4 <= |words| <= 12 && words[0] in {1, 2} && fuel >= 1
    requires forall i :: 0 <= i < |words| ==> 0 <= words[i] < 100
    ensures Restored(Text.Format(words), fuel) == Failure(OutOfBounds(12))
  {
    Text.ParseFormat(words, I32_MIN, I32_MAX);
    RestoredReadsPastEnd(words, fuel);
  }

  lemma FirstExamplePanics(fuel: nat)
    requires fuel >= 1
    ensures Restored(Text.Format([1, 0, 0, 0, 99]), fuel) == Failure(OutOfBounds(12))
  {
    var w := [1, 0, 0, 0, 99];
    forall i | 0 <= i < |w| ensures 0 <= w[i] < 100 { }
    RestoredTextReadsPastEnd(w, fuel);
  }

  lemma SecondExamplePanics(fuel: nat)
    requires fuel >= 1
    ensures Restored(Text.Format([2, 3, 0, 3, 99]), fuel) == Failure(OutOfBounds(12))
  {
    var w := [2, 3, 0, 3, 99];
    forall i | 0 <= i < |w| ensures 0 <= w[i] < 100 { }
    RestoredTextReadsPastEnd(w, fuel);
  }

  lemma ThirdExamplePanics(fuel: nat)
    requires fuel >= 1
    ensures Restored(Text.Format([2, 4, 4, 5, 99, 0]), fuel) == Failure(OutOfBounds(12))
  {
    var w := [2, 4, 4, 5, 99, 0];
    forall i | 0 <= i < |w| ensures 0 <= w[i] < 100 { }
    RestoredTextReadsPastEnd(w, fuel);
  }

  lemma FourthExamplePanics(fuel: nat)
    requires fuel >= 1
    ensures Restored(Text.Format([1, 1, 1, 4, 99, 5, 6, 0, 99]), fuel) == Failure(OutOfBounds(12))
  {
    var w := [1, 1, 1, 4, 99, 5, 6, 0, 99];
    forall i | 0 <= i < |w| ensures 0 <= w[i] < 100 { }
    RestoredTextReadsPastEnd(w, fuel);
  }

  /** As written, `part_one` on each program of `test_other_inputs_part_one` (the texts that
      `Format` writes for these words) panics instead of giving 2, 2, 2 and 30: restored with
      noun 12, each program reads cell 12, past its end. */
  lemma OtherInputsPanic(fuel: nat)
    requires fuel >= 1
    ensures Restored(Text.Format([1, 0, 0, 0, 99]), fuel) == Failure(OutOfBounds(12))
    ensures Restored(Text.Format([2, 3, 0, 3, 99]), fuel) == Failure(OutOfBounds(12))
    ensures Restored(Text.Format([2, 4, 4, 5, 99, 0]), fuel) == Failure(OutOfBounds(12))
    ensures Restored(Text.Format([1, 1, 1, 4, 99, 5, 6, 0, 99]), fuel) == Failure(OutOfBounds(12))
  {
    FirstExamplePanics(fuel);
    SecondExamplePanics(fuel);
    ThirdExamplePanics(fuel);
    FourthExamplePanics(fuel);
  }

  lemma FirstExample()
    ensures Evaluate([1, 0, 0, 0, 99], 2) == Success(2)
  {
    var s := Boot([1, 0, 0, 0, 99]);
    var t := State([2, 0, 0, 0, 99], 4);
    assert Parse(s.memory, 0) == Success(Add(0, 0, 0));
    assert Step(s) == Perform(s, Add(0, 0, 0));
    assert s.memory[0 := 2] == t.memory;
    assert Step(s) == Continue(t);
    assert Step(t) == Stop;
    DriveOneStep(Step, s, 1);
    DriveOneStep(Step, t, 0);
  }

  lemma SecondExample()
    ensures Evaluate([2, 3, 0, 3, 99], 2) == Success(2)
  {
    var s := Boot([2, 3, 0, 3, 99]);
    var t := State([2, 3, 0, 6, 99], 4);
    assert Parse(s.memory, 0) == Success(Multiply(3, 0, 3));
    assert Step(s) == Perform(s, Multiply(3, 0, 3));
    assert s.memory[3 := 6] == t.memory;
    assert Step(s) == Continue(t);
    assert Step(t) == Stop;
    DriveOneStep(Step, s, 1);
    DriveOneStep(Step, t, 0);
  }

  lemma ThirdExample()
    ensures Evaluate([2, 4, 4, 5, 99, 0], 2) == Success(2)
  {
    var s := Boot([2, 4, 4, 5, 99, 0]);
    var t := State([2, 4, 4, 5, 99, 9801], 4);
    assert Parse(s.memory, 0) == Success(Multiply(4, 4, 5));
    assert Step(s) == Perform(s, Multiply(4, 4, 5));
    assert s.memory[5 := 9801] == t.memory;
    assert Step(s) == Continue(t);
    assert Step(t) == Stop;
    DriveOneStep(Step, s, 1);
    DriveOneStep(Step, t, 0);
  }

  lemma FourthExample()
    ensures Evaluate([1, 1, 1, 4, 99, 5, 6, 0, 99], 3) == Success(30)
  {
    var s := Boot([1, 1, 1, 4, 99, 5, 6, 0, 99]);
    var t := State([1, 1, 1, 4, 2, 5, 6, 0, 99], 4);
    var u := State([30, 1, 1, 4, 2, 5, 6, 0, 99], 8);
    assert Parse(s.memory, 0) == Success(Add(1, 1, 4));
    assert Step(s) == Perform(s, Add(1, 1, 4));
    assert s.memory[4 := 2] == t.memory;
    assert Step(s) == Continue(t);
    assert Parse(t.memory, 4) == Success(Multiply(5, 6, 0));
    assert Step(t) == Perform(t, Multiply(5, 6, 0));
    assert t.memory[0 := 30] == u.memory;
    assert Step(t) == Continue(u);
    assert Step(u) == Stop;
    DriveOneStep(Step, s, 2);
    DriveOneStep(Step, t, 1);
    DriveOneStep(Step, u, 0);
  }

  /** Run as they are, without the restore, the programs of `test_other_inputs_part_one` give the
      answers the test expects: 2, 2, 2 and 30, with any fuel that covers their few instructions. */
  lemma OtherInputsUnrestored(fuel: nat)
    requires fuel >= 3
    ensures Evaluate([1, 0, 0, 0, 99], fuel) == Success(2)
    ensures Evaluate([2, 3, 0, 3, 99], fuel) == Success(2)
    ensures Evaluate([2, 4, 4, 5, 99, 0], fuel) == Success(2)
    ensures Evaluate([1, 1, 1, 4, 99, 5, 6, 0, 99], fuel) == Success(30)
  {
    FirstExample();
    SecondExample();
    ThirdExample();
    FourthExample();
    DriveMoreFuel(Step, Boot([1, 0, 0, 0, 99]), 2, fuel);
    DriveMoreFuel(Step, Boot([2, 3, 0, 3, 99]), 2, fuel);
    DriveMoreFuel(Step, Boot([2, 4, 4, 5, 99, 0]), 2, fuel);
    DriveMoreFuel(Step, Boot([1, 1, 1, 4, 99, 5, 6, 0, 99]), 3, fuel);
  }
}
