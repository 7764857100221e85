/** The `run` loop all three machines share: call `next` until it reports a halt or panics. The loop
    is bounded by a step budget (`fuel`), since a machine that never halts has no result. */
module Machine {
  import opened Base
  import opened Primitives

  /** What one call of `next` does: go on with a new state, stop at `Halt`, or panic. */
  datatype Transition<S> = Continue(next: S) | Stop | Fault(error: Error)

  /** How a run ends: halted normally, or stopped by a panic or by the step budget. */
  datatype Finish<S> = Halted(state: S) | Failed(state: S, reason: Error)

  /** `run`: at most `fuel` steps of `step` from `s`. */
  function Drive<S>(step: S -> Transition<S>, s: S, fuel: nat): Finish<S>
    decreases fuel
  {
    if fuel == 0 then Failed(s, OutOfFuel)
    else
      match step(s)
      case Stop => Halted(s)
      case Fault(e) => Failed(s, e)
      case Continue(t) => Drive(step, t, fuel - 1)
  }

  /** One turn of the loop: a halt or a panic ends the run where it is, otherwise the run goes on
      from the new state with one step less. */
  lemma DriveOneStep<S>(step: S -> Transition<S>, s: S, n: nat)
    ensures step(s).Stop? ==> Drive(step, s, n + 1) == Halted(s)
    ensures step(s).Fault? ==> Drive(step, s, n + 1) == Failed(s, step(s).error)
    ensures step(s).Continue? ==> Drive(step, s, n + 1) == Drive(step, step(s).next, n)
  {
  }

  /** A run that ended before its budget ran out ends the same way with any larger budget. */
  lemma {:induction false} DriveMoreFuel<S>(step: S -> Transition<S>, s: S, fuel: nat, more: nat)
    requires Drive(step, s, fuel).Halted? || Drive(step, s, fuel).reason != OutOfFuel
    requires fuel <= more
    ensures Drive(step, s, more) == Drive(step, s, fuel)
    decreases fuel
  {
    if step(s).Continue? {
      DriveMoreFuel(step, step(s).next, fuel - 1, more - 1);
    }
  }

  /** Running m steps and then n more from where they left off is running m + n steps, for a
      machine whose own panics are never "out of fuel". */
  lemma {:induction false} DriveSplit<S>(step: S -> Transition<S>, s: S, m: nat, n: nat)
    requires forall t :: step(t).Fault? ==> step(t).error != OutOfFuel
    requires Drive(step, s, m).Failed? && Drive(step, s, m).reason == OutOfFuel
    ensures Drive(step, s, m + n) == Drive(step, Drive(step, s, m).state, n)
    decreases m
  {
    if m > 0 {
      DriveSplit(step, step(s).next, m - 1, n);
      assert m - 1 + n == m + n - 1;
    }
  }

  /** How a run ends: a normal halt leaves the machine at an instruction that stops it, and a panic
      other than the spent budget leaves it at the instruction that raised it. */
  lemma {:induction false} DriveEnds<S>(step: S -> Transition<S>, s: S, fuel: nat)
    ensures Drive(step, s, fuel).Halted? ==> step(Drive(step, s, fuel).state) == Stop
    ensures Drive(step, s, fuel).Failed? && Drive(step, s, fuel).reason != OutOfFuel ==>
              step(Drive(step, s, fuel).state) == Fault(Drive(step, s, fuel).reason)
    decreases fuel
  {
    if fuel > 0 && step(s).Continue? {
      DriveEnds(step, step(s).next, fuel - 1);
    }
  }

  /** A relation that every step keeps, and that is reflexive and transitive, holds between the
      first and the last state of every run. */
  lemma {:induction false} DriveKeeps<S>(step: S -> Transition<S>, rel: (S, S) -> bool, s: S, fuel: nat)
    requires forall t :: rel(t, t)
    requires forall a, b, c :: rel(a, b) && rel(b, c) ==> rel(a, c)
    requires forall t :: step(t).Continue? ==> rel(t, step(t).next)
    ensures rel(s, Drive(step, s, fuel).state)
    decreases fuel
  {
    if fuel > 0 && step(s).Continue? {
      var t := step(s).next;
      DriveKeeps(step, rel, t, fuel - 1);
      assert Drive(step, s, fuel) == Drive(step, t, fuel - 1);
      assert rel(s, t) && rel(t, Drive(step, t, fuel - 1).state);
    }
  }

  /** What `next` reports to `run`: `Some(())`, `None` at a halt, or a panic. */
  datatype Status = Running | Stopped | Crashed(error: Error)

  /** What `next` reports for a transition. */
  function StatusOf<S>(t: Transition<S>): Status
  {
    match t
    case Continue(_) => Running
    case Stop => Stopped
    case Fault(e) => Crashed(e)
  }

  /** The state after a transition: the new one, or the old one when nothing happened. */
  function StateAfter<S>(s: S, t: Transition<S>): S
  {
    if t.Continue? then t.next else s
  }

  /** Where a run stands after a call of `next` reported `status` with `n` steps of budget left. */
  function Pending<S>(step: S -> Transition<S>, status: Status, s: S, n: nat): Finish<S>
  {
    match status
    case Running => Drive(step, s, n)
    case Stopped => Halted(s)
    case Crashed(e) => Failed(s, e)
  }

  /** `Vec::pop` as the parts use it: the last output, `None` when there was none. */
  function Last(outputs: seq<int>): (r: Option<int>)
    ensures r.None? <==> outputs == []
    ensures r.Some? ==> r.value == outputs[|outputs| - 1]
  {
    if outputs == [] then None else Some(outputs[|outputs| - 1])
  }

  /** The addressing-mode digit of parameter `offset` of an instruction word: digit offset + 1,
      counting from 0 at the right. The source computes `(word / 10.pow(offset + 1)) % 10`, which
      `ModeAsWritten` shows is the same. */
  function Mode(word: int, offset: nat): int
  {
    DigitAt(word, offset + 1)
  }

  lemma ModeAsWritten(word: int, offset: nat)
    ensures Mode(word, offset) == Rem(Quot(word, Pow(10, offset + 1)), 10)
  {
    DigitAtPower(word, offset + 1);
  }

  /** The instruction word with opcode `code` and parameter modes m1, m2, m3. */
  function Word(code: nat, m1: nat, m2: nat, m3: nat): int
  {
    code + 100 * m1 + 1000 * m2 + 10000 * m3
  }

  /** The opcode is the word's last two digits and the mode of parameter k its digit k + 2. */
  lemma ModeDigits(code: nat, m1: nat, m2: nat, m3: nat)
    requires code < 100 && m1 < 10 && m2 < 10 && m3 < 10
    ensures Rem(Word(code, m1, m2, m3), 100) == code
    ensures Mode(Word(code, m1, m2, m3), 1) == m1
    ensures Mode(Word(code, m1, m2, m3), 2) == m2
    ensures Mode(Word(code, m1, m2, m3), 3) == m3
  {
    var w := Word(code, m1, m2, m3);
    var w1 := Quot(w, 10);
    var w2 := Quot(w1, 10);
    var w3 := Quot(w2, 10);
    var w4 := Quot(w3, 10);
    assert w2 == m1 + 10 * m2 + 100 * m3 && w3 == m2 + 10 * m3 && w4 == m3;
    assert Mode(w, 1) == DigitAt(w1, 1) == DigitAt(w2, 0);
    assert Mode(w, 2) == DigitAt(w1, 2) == DigitAt(w2, 1) == DigitAt(w3, 0);
    assert Mode(w, 3) == DigitAt(w1, 3) == DigitAt(w2, 2) == DigitAt(w3, 1) == DigitAt(w4, 0);
  }
}
