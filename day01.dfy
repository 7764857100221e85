/** The fuel arithmetic of src/bin/01.rs: each line of the input is the mass of one module;
    `part_one` adds up the fuel each mass needs directly, `part_two` also counts the fuel that the
    fuel itself needs. Both are expressions over the lines, so they are functions here; the sums
    are on unbounded integers (an overflowing i32 or u32 sum is not modelled). */
module Day01 {
  import opened Base
  import opened Primitives
  import Text

  /** `n / 3 - 2` on an i32, the division truncating toward zero: a third of the mass, rounded
      toward zero, less two. */
  function DirectFuel(mass: int): (r: int)
    ensures mass >= 0 ==> 3 * (r + 2) <= mass < 3 * (r + 3)
    ensures mass < 0 ==> 3 * (r + 1) < mass <= 3 * (r + 2)
  {
    Quot(mass, 3) - 2
  }

  /** `fuel`: the fuel for a mass, then the fuel for that fuel, and so on, until
      `(w / 3).checked_sub(2)` leaves u32 (it is then `None`, and adds nothing). The whole is at most
      half the mass, so the u32 additions never overflow, and it is 0 exactly for the masses below 9. */
  function Fuel(w: nat): (r: nat)
    ensures r <= w / 2
    ensures r == 0 <==> w < 9
    decreases w
  {
    if w / 3 < 2 then 0
    else
      var f := w / 3 - 2;
      f + Fuel(f)
  }

  function Sum(xs: seq<int>): int
  {
    if xs == [] then 0 else xs[0] + Sum(xs[1..])
  }

  /** `l.parse().unwrap()` on every line, in order, for the integer type lo ..= hi: the lines are
      not trimmed, and the first one that does not parse panics. */
  function ParseLines(lines: seq<string>, lo: int, hi: int): (r: Result<seq<int>>)
    requires lo <= 0 <= hi
    ensures r.Success? ==>
              |r.value| == |lines| &&
              forall i :: 0 <= i < |lines| ==> Text.ParseInteger(lines[i], lo, hi) == Some(r.value[i])
    ensures r.Failure? ==>
              r.error.ParseError? && r.error.token in lines &&
              Text.ParseInteger(r.error.token, lo, hi).None?
    ensures (forall i :: 0 <= i < |lines| ==> Text.ParseInteger(lines[i], lo, hi).Some?) ==> r.Success?
  {
    if lines == [] then Success([])
    else
      match Text.ParseInteger(lines[0], lo, hi)
      case None => Failure(ParseError(lines[0]))
      case Some(v) =>
        var rest :- ParseLines(lines[1..], lo, hi);
        Success([v] + rest)
  }

  function DirectFuels(masses: seq<int>): seq<int>
  {
    seq(|masses|, i requires 0 <= i < |masses| => DirectFuel(masses[i]))
  }

  function TotalFuels(masses: seq<nat>): seq<int>
  {
    seq(|masses|, i requires 0 <= i < |masses| => Fuel(masses[i]))
  }

  /** `part_one`: the masses as i32, the sum of their direct fuel. It panics exactly when some
      line is not an i32 (`PartOneOfMasses` gives the sum on the success path). */
  function PartOne(text: string): (r: Result<int>)
    ensures r.Failure? ==>
              r.error.ParseError? && r.error.token in Text.Lines(text) &&
              Text.ParseInteger(r.error.token, I32_MIN, I32_MAX).None?
    ensures (forall line :: line in Text.Lines(text) ==> Text.ParseInteger(line, I32_MIN, I32_MAX).Some?) ==>
              r.Success?
  {
    var masses :- ParseLines(Text.Lines(text), I32_MIN, I32_MAX);
    Success(Sum(DirectFuels(masses)))
  }

  /** `part_two`: the masses as u32, the sum of their total fuel. It panics exactly when some
      line is not a u32 (`PartTwoOfMasses` gives the sum on the success path). */
  function PartTwo(text: string): (r: Result<int>)
    ensures r.Failure? ==>
              r.error.ParseError? && r.error.token in Text.Lines(text) &&
              Text.ParseInteger(r.error.token, 0, U32_MAX).None?
    ensures (forall line :: line in Text.Lines(text) ==> Text.ParseInteger(line, 0, U32_MAX).Some?) ==>
              r.Success?
  {
    var masses :- ParseLines(Text.Lines(text), 0, U32_MAX);
    assert forall i :: 0 <= i < |masses| ==> masses[i] >= 0;
    Success(Sum(TotalFuels(masses)))
  }

  // ---------------------------------------------------------------- properties

  /** More mass never needs less fuel. */
  lemma {:induction false} FuelMonotone(a: nat, b: nat)
    requires a <= b
    ensures Fuel(a) <= Fuel(b)
    decreases b
  {
    if a / 3 >= 2 {
      FuelMonotone(a / 3 - 2, b / 3 - 2);
    }
  }

  /** The total fuel of a mass of at least 6 is its direct fuel plus the total fuel of that
      fuel, so never less than the direct fuel. */
  lemma FuelCoversDirect(w: nat)
    requires w >= 6
    ensures DirectFuel(w) >= 0
    ensures Fuel(w) == DirectFuel(w) + Fuel(DirectFuel(w))
    ensures DirectFuel(w) <= Fuel(w)
  {
  }

  /** `test_part_two_fuel`: a module of mass 100756 needs 50346 fuel in all. */
  lemma LargeModuleFuel()
    ensures Fuel(100756) == 50346
  {
    assert Fuel(2) == 0;
    assert Fuel(12) == 2 + Fuel(2);
    assert Fuel(43) == 12 + Fuel(12);
    assert Fuel(135) == 43 + Fuel(43);
    assert Fuel(411) == 135 + Fuel(135);
    assert Fuel(1240) == 411 + Fuel(411);
    assert Fuel(3728) == 1240 + Fuel(1240);
    assert Fuel(11192) == 3728 + Fuel(3728);
    assert Fuel(33583) == 11192 + Fuel(11192);
    assert Fuel(100756) == 33583 + Fuel(33583);
  }

  /** A module of mass 1969 needs 654 fuel directly and 966 in all. */
  lemma SmallModuleFuel()
    ensures DirectFuel(1969) == 654
    ensures Fuel(1969) == 966
  {
    assert Fuel(5) == 0;
    assert Fuel(21) == 5 + Fuel(5);
    assert Fuel(70) == 21 + Fuel(21);
    assert Fuel(216) == 70 + Fuel(70);
    assert Fuel(654) == 216 + Fuel(216);
    assert Fuel(1969) == 654 + Fuel(654);
  }

  /** A text with one mass per line, each line ending in a line break. */
  function Render(masses: seq<int>): string
  {
    Text.Join(seq(|masses|, i requires 0 <= i < |masses| => Text.ShowInt(masses[i])) + [[]], '\n')
  }

  /** The lines that all parse, as the values they parse to. */
  lemma {:induction false} ParseLinesAccepts(lines: seq<string>, lo: int, hi: int, values: seq<int>)
    requires lo <= 0 <= hi && |lines| == |values|
    requires forall i :: 0 <= i < |lines| ==> Text.ParseInteger(lines[i], lo, hi) == Some(values[i])
    ensures ParseLines(lines, lo, hi) == Success(values)
  {
    if lines != [] {
      ParseLinesAccepts(lines[1..], lo, hi, values[1..]);
      assert [values[0]] + values[1..] == values;
    }
  }

  /** Rendering masses and reading them back gives the masses. */
  lemma ReadRendered(masses: seq<int>, lo: int, hi: int)
    requires lo <= 0 <= hi
    requires forall i :: 0 <= i < |masses| ==> lo <= masses[i] <= hi
    ensures ParseLines(Text.Lines(Render(masses)), lo, hi) == Success(masses)
  {
    var lines := seq(|masses|, i requires 0 <= i < |masses| => Text.ShowInt(masses[i]));
    forall i | 0 <= i < |lines|
      ensures '\n' !in lines[i] && lines[i][|lines[i]| - 1] != '\r'
      ensures Text.ParseInteger(lines[i], lo, hi) == Some(masses[i])
    {
      Text.ParseShowInt(masses[i], lo, hi);
    }
    Text.LinesOfText(lines);
    ParseLinesAccepts(lines, lo, hi, masses);
  }

  /** `part_one` on rendered i32 masses is the sum of their direct fuel. */
  lemma PartOneOfMasses(masses: seq<int>)
    requires forall i :: 0 <= i < |masses| ==> I32_MIN <= masses[i] <= I32_MAX
    ensures PartOne(Render(masses)) == Success(Sum(DirectFuels(masses)))
  {
    ReadRendered(masses, I32_MIN, I32_MAX);
  }

  /** `part_two` on rendered u32 masses is the sum of their total fuel. */
  lemma PartTwoOfMasses(masses: seq<nat>)
    requires forall i :: 0 <= i < |masses| ==> masses[i] <= U32_MAX
    ensures PartTwo(Render(masses)) == Success(Sum(TotalFuels(masses)))
  {
    ReadRendered(masses, 0, U32_MAX);
  }

  /** The masses whose fuel `test_part_one` and `test_part_two` add up. */
  const EXAMPLE: seq<nat> := [1969, 100756]

  /** The example's direct fuel adds up to 654 + 33583, the sum `test_part_one` expects; by
      `PartOneOfMasses` that is `part_one` of the text holding these masses one per line. */
  lemma ExampleDirectFuels()
    ensures Sum(DirectFuels(EXAMPLE)) == 654 + 33583
  {
    SmallModuleFuel();
    var d := DirectFuels(EXAMPLE);
    assert d[0] == DirectFuel(1969) && d[1] == DirectFuel(100756);
    SumPair(d);
  }

  /** The example's total fuel adds up to 50346 + 966, the sum `test_part_two` expects; by
      `PartTwoOfMasses` that is `part_two` of the same text. */
  lemma ExampleTotalFuels()
    ensures Sum(TotalFuels(EXAMPLE)) == 50346 + 966
  {
    SmallModuleFuel();
    LargeModuleFuel();
    var t := TotalFuels(EXAMPLE);
    assert t[0] == Fuel(1969) && t[1] == Fuel(100756);
    SumPair(t);
  }

  lemma SumPair(xs: seq<int>)
    requires |xs| == 2
    ensures Sum(xs) == xs[0] + xs[1]
  {
    assert Sum(xs[1..]) == xs[1] + Sum(xs[1..][1..]);
  }

  /** For any masses, `part_two`'s total is never below `part_one`'s: a mass below 6 needs negative
      direct fuel and no total fuel. */
  lemma {:induction false} DirectBelowTotal(masses: seq<nat>)
    ensures Sum(DirectFuels(masses)) <= Sum(TotalFuels(masses))
  {
    if masses != [] {
      if masses[0] >= 6 {
        FuelCoversDirect(masses[0]);
      }
      DirectBelowTotal(masses[1..]);
      assert DirectFuels(masses)[1..] == DirectFuels(masses[1..]);
      assert TotalFuels(masses)[1..] == TotalFuels(masses[1..]);
    }
  }
}
