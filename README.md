# Intcode and rocket fuel, in Dafny

A model of the Intcode machine of an Advent of Code 2019 solution set, in its three successive versions,
and of the fuel arithmetic of day 1.

- `src/bin/09.rs` is the complete machine. It has:
  - 64-bit words;
  - memory that reads as 0 past its end and grows when written past its end;
  - position, immediate and relative parameter modes, the last against a `base` register;
  - opcodes 1 to 9 and 99;
  - one fixed input value and a list of outputs.
- `src/bin/05.rs` is the day 5 machine: 32-bit words, modes 0 and 1, opcodes 1 to 8 and 99. Reads outside memory panic.
- `src/bin/02.rs` is the first machine: whole-word opcodes 1, 2 and 99, all operands positional. Around it are the
  `part_one` restore (cells 1 and 2 set to 12 and 2) and the `part_two` search for the noun and verb that make the
  program answer 19690720.
- `src/bin/01.rs` holds the fuel a module needs: directly (`mass / 3 - 2`), and counting the fuel for the fuel.

Each machine has:
- a value `State` that holds the fields of its `Computer`;
- pure functions for the reading operations. `Get`/`Read`, `ParseLoc` and `Parse` decode one instruction. `Store` is
  the effect of `set`. `Step` is the effect of `next`. `Execute` runs to a halt, a panic or the end of a fuel budget;
- a `class Computer` with the same fields. Its methods `Set`, `Next` and `Run` change it in place, as the source
  does, and each method is proved to leave exactly the state its function describes.

A panic is a `Failure` or `Fault` carrying the reason. `Machine.Drive` is the run loop shared by the three machines.
`Text` models the standard-library string work the programs rely on: `split(',')`, `trim()`, `lines()` and integer
`parse`. It also has a decimal printer, used to state the tests' inputs as text.

## Model

| member | source | states |
|---|---|---|
| Primitives.Rem | src/bin/09.rs:131 | `%` truncates toward zero: the remainder has the sign of the dividend and is smaller than the divisor |
| Primitives.QuotRem | src/bin/09.rs:154 | truncating `/` and `%` recombine: `a == (a / b) * b + a % b` |
| Primitives.AsUsize | src/bin/09.rs:156 | `as usize` is the value modulo 2^64: at most 2^64 - 1, unchanged when in range, plus 2^64 when negative |
| Primitives.Pow | src/bin/09.rs:154 | a power of a positive base is positive |
| Primitives.DigitAtPower | src/bin/09.rs:154 | the n-th decimal digit, taken ten at a time, is `(word / 10^n) % 10` |
| Machine.DriveOneStep | src/bin/09.rs:63-66 | one more unit of fuel: a halt stops the run, a panic ends it, anything else carries on from the next state |
| Machine.DriveMoreFuel | src/bin/09.rs:63-66 | a run that ended before its fuel ran out ends the same way with any larger budget |
| Machine.DriveSplit | src/bin/09.rs:63-66 | running m + n steps is running m steps and then n more from where they stopped |
| Machine.DriveKeeps | src/bin/09.rs:63-66 | a reflexive, transitive relation that every step keeps holds between the first and the last state of a run |
| Machine.DriveEnds | src/bin/09.rs:63-68 | a run that halts stops at a state whose next step is the halt; a run that panics stops at the state whose next step is that panic |
| Machine.Last | src/bin/09.rs:6 | `outputs.pop()`: `None` exactly for no outputs, else the last one |
| Machine.ModeAsWritten | src/bin/09.rs:154 | a parameter's mode is `(word / 10^(offset + 1)) % 10`, as the source computes it |
| Machine.ModeDigits | src/bin/09.rs:131-154 | for a word built as `m3 m2 m1 code`, `% 100` gives the code and the mode digits give m1, m2 and m3 |
| Text.Split | src/bin/09.rs:47-48 | `split(',')`: at least one piece, no piece holds a comma, and joining the pieces with commas gives the text back |
| Text.SplitJoin | src/bin/09.rs:47-48 | splitting comma-joined pieces that hold no comma gives the pieces back |
| Text.Trim | src/bin/09.rs:49 | `trim()`: the result neither starts nor ends with white space |
| Text.TrimStrips | src/bin/09.rs:49 | `trim()` keeps one contiguous slice of its text and removes only white space before and after it |
| Text.TrimPadded | src/bin/09.rs:49 | white space around a piece that neither starts nor ends with white space trims to that piece |
| Text.TrimUnspaced | src/bin/09.rs:49 | a string without white space is its own trim |
| Text.ParseInteger | src/bin/09.rs:49 | `parse::<i64>()` and the other integer types: an accepted string is an optional sign and digits, its value in the type's range, and a minus only in a signed type |
| Text.ParseShowInt | src/bin/09.rs:49 | parsing the decimal form of a number in range gives that number |
| Text.ShowInt | src/bin/09.rs:204 | a decimal form is non-empty digits with a leading minus only for a negative number |
| Text.Collect | src/bin/09.rs:49-50 | `collect` of `Result`s, as the `unwrap`s do: all values, one per result, or a failure that is one of the results |
| Text.CollectFirst | src/bin/09.rs:49-50 | a failed collection fails with the first failing result: every result before it succeeded |
| Text.CollectValues | src/bin/09.rs:49-50 | when the collection succeeds, the i-th result is the i-th value |
| Text.ParseTokens | src/bin/09.rs:47-50 | `unwrap` on each trimmed piece. On success there is one value per piece, each in range. On failure, the panic names a piece that does not parse |
| Text.ParseTokensCharacterized | src/bin/09.rs:47-50 | reading the pieces succeeds exactly when every trimmed piece parses, and the i-th value is what the i-th piece parses to |
| Text.ParseProgram | src/bin/09.rs:46-50 | `Computer::new`'s memory: on success non-empty and every word in range |
| Text.ParseFormat | src/bin/09.rs:46-50 | the comma-separated decimal text of a non-empty list of words in range reads back as those words |
| Text.ParseFormatLine | src/bin/09.rs:46-50 | the same text ended by a line break, as an input file is, reads back as the same words |
| Text.Lines | src/bin/01.rs:4 | `lines()`: no line holds a line break |
| Text.LinesOfText | src/bin/01.rs:4 | the text of lines, each ended by a line break, splits back into those lines |
| Day09.ParseLoc | src/bin/09.rs:146-161 | the only way `parse_loc` fails is a mode other than 0, 1 and 2 |
| Day09.Parse | src/bin/09.rs:129-144 | `parse` fails only on an unknown opcode or an unknown mode; reading past the end is not a failure, and a halt is only ever read from inside memory |
| Day09.Destination | src/bin/09.rs:176-180 | `set` has no place to write exactly for an immediate location, and that is the "destination is not a pointer" panic |
| Day09.Read | src/bin/09.rs:165 | `memory.get(index).get_or_insert(&0)`: a cell inside memory reads as itself, and only a cell inside memory can read as anything but 0 |
| Day09.Get | src/bin/09.rs:163-173 | `get`: an immediate is its value; a position or relative location reads the cell at its address, 0 past the end |
| Day09.Write | src/bin/09.rs:181-187 | a write past the end grows memory to `index + 1` cells. The written cell holds the value, cells it did not touch keep theirs, and new cells are 0 |
| Day09.Store | src/bin/09.rs:175-189 | `set` never shrinks memory and never grows it past 2^63 cells |
| Day09.Step | src/bin/09.rs:71-126 | `next` keeps the input and never shrinks memory. It adds at most one output and never changes earlier outputs. A panic is never a lack of fuel, and it stops only at an ip inside memory |
| Day09.Perform | src/bin/09.rs:71-126 | the `match` of `next`: it stops exactly on `Halt`, and it panics only for an instruction that writes, when its destination is an immediate or too far out |
| Day09.Execute | src/bin/09.rs:63-68 | `run`'s loop: a run that halts ends at a state where `next` answers `None`; a run that panics ends at the state whose `next` panics that way |
| Day09.Report | src/bin/09.rs:2-14 | the body of both parts: a text that does not parse is that panic. A run that halts answers its last output, `None` for none, and a run that panics is that panic. An answer only comes from a halted run |
| Day09.Computer.constructor | src/bin/09.rs:46-60 | a new machine holds the program, with ip, base, input 0 and no outputs |
| Day09.Computer.New | src/bin/09.rs:46-60 | `Computer::new` panics exactly when the text's words do not parse as i64, with that panic; otherwise it builds the booted program |
| Day09.Computer.Set | src/bin/09.rs:175-189 | `set` in place leaves the memory `Store` describes, its recursion included, and the other fields unchanged; a panic leaves memory as it was |
| Day09.Computer.Next | src/bin/09.rs:71-126 | `next` in place: the machine becomes the state `Step` gives, and the status says whether it goes on, halts or panics |
| Day09.Computer.Dispatch | src/bin/09.rs:72-124 | each arm of the `match` in place is the transition `Perform` gives for that opcode |
| Day09.Computer.Run | src/bin/09.rs:63-68 | the `while let` loop leaves the machine in the state `Execute` gives and returns `memory[0]` as `Answer` does |
| Day09.RunWithInput | src/bin/09.rs:2-14 | building, setting the input, running and popping the last output is `Report` |
| Day09.PartOne | src/bin/09.rs:2-7 | `part_one` is `Report` with input 1 |
| Day09.PartTwo | src/bin/09.rs:9-14 | `part_two` is `Report` with input 2 |
| Day09Properties.ReadPastEnd | src/bin/09.rs:165-170 | a position or relative read past the end of memory gives 0 |
| Day09Properties.StoreThenGet | src/bin/09.rs:163-189 | after `set`, `get` of the same location gives the value stored, and a location with another address reads as before |
| Day09Properties.StoreFrame | src/bin/09.rs:175-189 | `set` changes the stored address and no other address, memory read as 0 past its end |
| Day09Properties.StoreFails | src/bin/09.rs:175-189 | `set` panics exactly for an immediate location, or for an address past the end that memory cannot grow to |
| Day09Properties.ParseLocCharacterized | src/bin/09.rs:146-161 | a parameter decodes exactly when its mode digit is 0, 1 or 2. It decodes as position, immediate or relative on the next word. An unknown mode panics with that digit |
| Day09Properties.ParseUnknownOpcode | src/bin/09.rs:142 | a word whose last two digits are no opcode panics with those digits |
| Day09Properties.ParseThreeOperands | src/bin/09.rs:132-139 | add, multiply, less-than and equals decode their three parameters, or panic with the mode digit of the first parameter, in order, whose mode is not 0, 1 or 2 |
| Day09Properties.ParseTwoOperands | src/bin/09.rs:136-137 | the two jumps decode their two parameters, or panic with the first bad mode digit |
| Day09Properties.ParseOneOperand | src/bin/09.rs:134-140 | input, output and adjust-base decode their one parameter, or panic with its bad mode digit |
| Day09Properties.ParseKnownOpcode | src/bin/09.rs:129-144 | every known opcode decodes to its instruction with its parameters in order, or panics with the mode digit of the first parameter whose mode is not 0, 1 or 2 |
| Day09Properties.NegativeWordFails | src/bin/09.rs:131 | a negative instruction word has a remainder of 0 or less, so it is always an unknown opcode |
| Day09Properties.WritingInstruction | src/bin/09.rs:73-118 | an instruction that writes panics exactly when its destination cannot be written. Otherwise it moves ip by 2 or 4 and changes only the destination cell |
| Day09Properties.ArithmeticStores | src/bin/09.rs:73-80 | add and multiply store the sum or the product of their two operands |
| Day09Properties.ComparisonStoresBit | src/bin/09.rs:103-118 | less-than and equals store 1 when the comparison holds and 0 when it does not |
| Day09Properties.InputStoresInput | src/bin/09.rs:81-84 | input stores the input value |
| Day09Properties.OutputAppendsOne | src/bin/09.rs:85-88 | output appends its operand to the outputs and changes nothing else but ip |
| Day09Properties.JumpsOnlyMoveIp | src/bin/09.rs:89-102 | a jump changes only ip: the target as usize when taken, else ip + 3 |
| Day09Properties.AdjustBaseMovesBase | src/bin/09.rs:119-122 | adjust-base adds its operand to `base` and moves ip by 2 |
| Day09Properties.HaltStops | src/bin/09.rs:63-123 | `Halt` stops the run at once, and `run` then answers `memory[0]` |
| Day09Properties.JumpToNegativeFails | src/bin/09.rs:91-131 | a jump to a negative target lands past the end of memory, which reads as 0, an unknown opcode |
| Day09Properties.RunKeeps | src/bin/09.rs:63-68 | over a whole run the input stays, memory only grows and stays below 2^63 cells, and outputs are only appended to |
| Day09Examples.DecodeLargeOutput | src/bin/09.rs:204 | `104,X,99` starts with an output of the immediate X |
| Day09Examples.LargeOutput | src/bin/09.rs:204-207 | the program `104,1125899906842624,99` halts after printing 1125899906842624 alone |
| Day09Examples.LargeOutputReported | src/bin/09.rs:204-207 | from its text, that program's last output is 1125899906842624 |
| Day09Examples.OnePass | src/bin/09.rs:209-211 | one pass of the self-printing program prints the next word of itself and counts it |
| Day09Examples.QuineFrom | src/bin/09.rs:209-211 | from the top of any pass the self-printing program halts after the remaining passes |
| Day09Examples.Quine | src/bin/09.rs:209-215 | the self-printing program of `test_part_one` halts with its own sixteen words as its outputs |
| Day05.ParseLoc | src/bin/05.rs:138-152 | `parse_loc` fails only by reading past the end or on a mode other than 0 and 1 |
| Day05.Get | src/bin/05.rs:154-164 | `get` panics exactly for a position past the end, naming it; an immediate is its value and a position its cell |
| Day05.Parse | src/bin/05.rs:122-136 | `parse` fails only by reading past the end, on an unknown opcode or on an unknown mode |
| Day05.Store | src/bin/05.rs:166-180 | a `set` that returns leaves memory the same length |
| Day05.Step | src/bin/05.rs:67-119 | `next` keeps the input and the length of memory. It adds at most one output and never changes earlier outputs |
| Day05.Perform | src/bin/05.rs:67-119 | the `match` of `next`: it stops exactly on `Halt`. A panic is a read past the end, an immediate destination, or a write past the end. Going on keeps the input and the length of memory |
| Day05.Execute | src/bin/05.rs:59-64 | `run`'s loop: a run that halts ends at a state where `next` answers `None`; a run that panics ends at the state whose `next` panics that way |
| Day05.Report | src/bin/05.rs:2-14 | the body of both parts: a text that does not parse is that panic. A run that halts answers its last output, `None` for none, and a run that panics is that panic. An answer only comes from a halted run |
| Day05.Computer.constructor | src/bin/05.rs:44-56 | a new machine holds the program, with ip 0, input 0 and no outputs |
| Day05.Computer.New | src/bin/05.rs:44-56 | `Computer::new` panics exactly when the words do not parse as i32, with that panic |
| Day05.Computer.Set | src/bin/05.rs:166-180 | `set` in place leaves the memory `Store` describes and the other fields unchanged |
| Day05.Computer.Next | src/bin/05.rs:67-119 | `next` in place: the machine becomes the state `Step` gives |
| Day05.Computer.Dispatch | src/bin/05.rs:69-117 | each arm of the `match` in place is the transition `Perform` gives |
| Day05.Computer.Assignment | src/bin/05.rs:70-115 | the writing arms read their operands in order and store through `set` as `Perform` says |
| Day05.Computer.Branch | src/bin/05.rs:86-99 | the jump arms in place move ip as `Jump` says, reading the target only when the jump is taken |
| Day05.Computer.Run | src/bin/05.rs:59-64 | the `while let` loop leaves the state `Execute` gives and answers `memory[0]` |
| Day05.RunWithInput | src/bin/05.rs:2-14 | building, setting the input, running and popping the last output is `Report` |
| Day05.PartOne | src/bin/05.rs:2-7 | `part_one` is `Report` with input 1 |
| Day05.PartTwo | src/bin/05.rs:9-14 | `part_two` is `Report` with input 5 |
| Day05Properties.GetFails | src/bin/05.rs:154-164 | `get` panics exactly for a position past the end, naming it; an immediate gives its value |
| Day05Properties.StoreFails | src/bin/05.rs:166-180 | `set` returns exactly for a position inside memory; an immediate is a panic, and a position past the end never returns |
| Day05Properties.StoreThenGet | src/bin/05.rs:154-180 | after `set`, `get` of that location gives the value, and any other location reads as before |
| Day05Properties.StoreFrame | src/bin/05.rs:166-180 | `set` changes exactly the destination cell |
| Day05Properties.ParseLocCharacterized | src/bin/05.rs:138-152 | inside memory, a parameter decodes exactly when its mode digit is 0 or 1, as position or immediate on the next word |
| Day05Properties.ParseLocPastEnd | src/bin/05.rs:142-143 | a parameter past the end of memory panics on that index, before its mode is looked at |
| Day05Properties.ParsePastEnd | src/bin/05.rs:123 | an ip past the end of memory panics on the ip |
| Day05Properties.ParseUnknownOpcode | src/bin/05.rs:134 | a word whose last two digits are no opcode panics with those digits |
| Day05Properties.ParseThreeOperands | src/bin/05.rs:125-132 | add, multiply, less-than and equals decode their three parameters, or panic with the mode digit of the first parameter whose mode is not 0 or 1 |
| Day05Properties.ParseTwoOperands | src/bin/05.rs:129-130 | the two jumps decode their two parameters, or panic with the first bad mode digit |
| Day05Properties.ParseOneOperand | src/bin/05.rs:127-128 | input and output decode their one parameter, or panic with its bad mode digit |
| Day05Properties.ParseKnownOpcode | src/bin/05.rs:122-136 | a known opcode whose parameters lie inside memory decodes to its instruction, or panics with the mode digit of the first parameter whose mode is not 0 or 1 |
| Day05Properties.ParseTruncated | src/bin/05.rs:138-143 | a known opcode whose parameters run past the end of memory panics |
| Day05Properties.OperandsReadInOrder | src/bin/05.rs:71-109 | the two operands are read left to right, and the first one to fail decides the panic |
| Day05Properties.WritingInstruction | src/bin/05.rs:70-115 | a writing instruction panics exactly when an operand or the destination fails. Otherwise it moves ip by 2 or 4 and changes exactly the destination cell |
| Day05Properties.ArithmeticStores | src/bin/05.rs:70-77 | add and multiply store the sum or the product of their operands |
| Day05Properties.ComparisonStoresBit | src/bin/05.rs:100-115 | less-than and equals store 1 when the comparison holds and 0 when it does not |
| Day05Properties.InputStoresInput | src/bin/05.rs:78-81 | input stores the input value |
| Day05Properties.OutputAppendsOne | src/bin/05.rs:82-85 | output appends its operand, or panics exactly when that read does |
| Day05Properties.JumpsOnlyMoveIp | src/bin/05.rs:86-99 | a jump changes only ip, and panics exactly when the condition, or the target of a taken jump, cannot be read |
| Day05Properties.HaltStops | src/bin/05.rs:59-116 | `Halt` stops the run at once, and `run` answers `memory[0]` |
| Day05Properties.JumpToNegativeFails | src/bin/05.rs:88-123 | a jump to a negative target lands past the end of memory, and the next decode panics on it |
| Day05Properties.RunKeeps | src/bin/05.rs:59-64 | over a whole run the input and the length of memory stay, and outputs are only appended to |
| Day05Properties.Echo | src/bin/05.rs:67-85 | `3,0,4,0,99` stores its input in cell 0, prints it and halts |
| Day05Properties.EchoReported | src/bin/05.rs:9-14 | `part_two` on the text of that program reports 5 |
| Day05Properties.WritePastEnd | src/bin/05.rs:172-178 | an add into the cell just past the end of memory is a `set` that never returns |
| Day02.Parse | src/bin/02.rs:79-87 | `parse` fails only by reading past the end or on a word other than 1, 2 and 99 |
| Day02.ParseLoc | src/bin/02.rs:89-94 | `parse_loc` panics exactly when its cell is past the end, naming it; otherwise a word that fits `usize` is itself the address |
| Day02.Get | src/bin/02.rs:96-106 | `get` of a position panics exactly past the end, naming it, and otherwise gives that cell |
| Day02.Store | src/bin/02.rs:108-122 | a `set` that returns keeps the length of memory |
| Day02.Step | src/bin/02.rs:62-76 | `next` keeps the length of memory and never fails for lack of fuel |
| Day02.Perform | src/bin/02.rs:62-76 | the `match` of `next`: it stops exactly on `Halt`, a panic is a read or write past the end, and going on moves ip by 4 and keeps the length of memory |
| Day02.Execute | src/bin/02.rs:56-59 | `run`'s loop: a run that halts ends at a state where `next` answers `None`; a run that panics ends at the state whose `next` panics that way |
| Day02.Patch | src/bin/02.rs:4-15 | `memory[1] = noun; memory[2] = verb` succeeds exactly on three or more cells; it sets those two and keeps the rest, and otherwise panics on the first missing index |
| Day02.Attempt | src/bin/02.rs:3-6 | restoring and running a program of fewer than three words panics on the first missing index |
| Day02Properties.AttemptRestores | src/bin/02.rs:13-16 | on three or more words, an attempt runs the program with cells 1 and 2 set to the noun and the verb and every other cell kept |
| Day02.SearchStep | src/bin/02.rs:13-18 | one pair of the search: a panic ends it, the goal answers `noun * 100 + verb`, any other answer moves on |
| Day02.SearchFrom | src/bin/02.rs:11-18 | an answer found from a pair on is `noun * 100 + verb` of that pair or a later one, so below 10000 |
| Day02.Search | src/bin/02.rs:9-22 | `part_two`: a text that does not parse is that panic, and an answer lies between 0 and 9999 |
| Day02.Computer.constructor | src/bin/02.rs:43-53 | a new machine holds the program with ip 0 |
| Day02.Computer.New | src/bin/02.rs:43-53 | `Computer::new` panics exactly when the words do not parse as i32 |
| Day02.Computer.Set | src/bin/02.rs:108-122 | `set` in place leaves the memory `Store` describes |
| Day02.Computer.Next | src/bin/02.rs:62-76 | `next` in place: the machine becomes the state `Step` gives |
| Day02.Computer.Run | src/bin/02.rs:56-59 | the `while let` loop leaves the state `Execute` gives and answers `memory[0]` |
| Day02.RunRestored | src/bin/02.rs:3-16 | building, patching and running is `Attempt` on the parsed words |
| Day02.PartOne | src/bin/02.rs:2-7 | `part_one` is the run restored with 12 and 2 |
| Day02.PartTwo | src/bin/02.rs:9-22 | the two nested loops with their early return compute `Search` |
| Day02Properties.DecodeWholeWord | src/bin/02.rs:79-94 | the word itself is the opcode. 99 halts. 1 and 2 take the next three words as addresses, or panic at the end of memory. Any other word panics |
| Day02Properties.ArithmeticInstruction | src/bin/02.rs:65-122 | add and multiply panic exactly when an address is past the end, the first one deciding. Otherwise they write the sum or product to the third address, change no other cell and move ip by 4 |
| Day02Properties.HaltStops | src/bin/02.rs:56-73 | `Halt` stops the run, and `run` answers `memory[0]` |
| Day02Properties.RunKeeps | src/bin/02.rs:56-59 | a run keeps the length of memory |
| Day02Properties.PositionalWord | src/bin/02.rs:81-84 | the words 1, 2 and 99 are their own opcode with all three modes 0 |
| Day02Properties.ParseLocAgrees | src/bin/02.rs:89-94 | a positional parameter decodes the same on day 2 and day 5 |
| Day02Properties.ParseAgrees | src/bin/02.rs:79-87 | the words 1, 2 and 99 decode the same on day 2 and day 5 |
| Day02Properties.PerformAgrees | src/bin/02.rs:64-74 | executing a decoded instruction gives the same transition on day 2 and day 5 |
| Day02Properties.Day05Extends | src/bin/02.rs:62-76 | on the words 1, 2 and 99 the day 5 machine takes the day 2 step, whatever its input and outputs |
| Day02Properties.SearchMisses | src/bin/02.rs:9-22 | the search answers `None` exactly when every remaining pair runs to an answer other than the goal |
| Day02Properties.SearchFinds | src/bin/02.rs:11-18 | an answer is `noun * 100 + verb` for a pair at or after the start that reaches the goal, and every pair between the start and it misses |
| Day02Properties.SearchPanics | src/bin/02.rs:16 | a panic is the panic of a pair at or after the start that does not run to an answer, and every pair between the start and it misses |
| Day02Properties.OtherInputsPanic | src/bin/02.rs:142-151 | as written, `part_one` panics on each program of `test_other_inputs_part_one` |
| Day02Properties.RestoredReadsPastEnd | src/bin/02.rs:4-6 | restoring noun 12 into a program of at most 12 words that starts with add or multiply makes its first read panic on index 12 |
| Day02Properties.OtherInputsUnrestored | src/bin/02.rs:142-151 | unrestored, those programs answer 2, 2, 2 and 30, as the test expects |
| Day01.DirectFuel | src/bin/01.rs:6 | `n / 3 - 2` with `/` truncating: for a mass of 0 or more, `3 * (r + 2) <= mass < 3 * (r + 3)`, and rounded toward zero for a negative one |
| Day01.Fuel | src/bin/01.rs:11-17 | `fuel` of a mass is at most half of it, so the u32 additions cannot overflow, and it is 0 exactly for masses below 9 |
| Day01.ParseLines | src/bin/01.rs:4-23 | `parse().unwrap()` on every line: on success one value per line, each what its line parses to; a panic names a line that does not parse; if every line parses it succeeds |
| Day01.PartOne | src/bin/01.rs:1-9 | `part_one` panics only on a line that does not parse as i32, naming it, and succeeds when every line does |
| Day01.PartTwo | src/bin/01.rs:19-27 | `part_two` panics only on a line that does not parse as u32, naming it, and succeeds when every line does |
| Day01.FuelMonotone | src/bin/01.rs:11-17 | more mass never needs less fuel |
| Day01.FuelCoversDirect | src/bin/01.rs:6-17 | from mass 6 on, the whole fuel is the direct fuel plus the fuel of that fuel, so never less than the direct fuel |
| Day01.LargeModuleFuel | src/bin/01.rs:51-54 | `fuel(100756) == 50346` |
| Day01.SmallModuleFuel | src/bin/01.rs:6-14 | mass 1969 needs 654 directly and 966 in all |
| Day01.ParseLinesAccepts | src/bin/01.rs:4-5 | lines that all parse give exactly their values, in order |
| Day01.ReadRendered | src/bin/01.rs:4-5 | the text of masses in range, one per line, reads back as those masses |
| Day01.PartOneOfMasses | src/bin/01.rs:1-9 | `part_one` of such a text in i32 range is the sum of `mass / 3 - 2` over the masses |
| Day01.PartTwoOfMasses | src/bin/01.rs:19-27 | `part_two` of such a text in u32 range is the sum of the total fuel of the masses |
| Day01.ExampleDirectFuels | src/bin/01.rs:40-41 | the example masses need 654 + 33583 fuel directly |
| Day01.ExampleTotalFuels | src/bin/01.rs:46-47 | the example masses need 50346 + 966 fuel in all |
| Day01.DirectBelowTotal | src/bin/01.rs:1-27 | for any masses, the sum `part_two` computes is never below the sum `part_one` computes |

## Left out

- Running to completion: `run` loops until `Halt` or a panic. The model runs for a `fuel` budget of steps, and a
  run that uses it up ends in `Failed(_, OutOfFuel)`. No instruction produces that last state; `OutOfFuel` only
  marks a run that was cut short.
- Word overflow: i64 (09.rs) and i32 (05.rs, 02.rs) additions and multiplications are on unbounded integers. The
  wrap or panic of an overflowing `+` or `*`, of `base +=`, of `instruction_pointer + offset` and of 01.rs's i32 sum
  is not modelled. Parsing does check each word's range. `Day01.Fuel` proves that the u32 sums of `fuel` cannot
  overflow for one mass. The sum over many masses is unbounded.
- Allocation: a write far past the end makes `resize` allocate up to 2^63 cells in the model. A real `Vec` would
  fail to allocate long before that. Writes at 2^63 and above are `AddressOverflow` panics. `index + 1`
  overflowing at 2^64 - 1 falls in that range.
- The `set` recursion of 05.rs and 02.rs: `resize(index, 0)` followed by the same `set` never finds the cell, so
  the call does not return (in practice the stack overflows). The model reports it as the panic `WriteDiverges`.
- The `Relative` locations of 05.rs and 02.rs: no `parse_loc` there ever builds one, so those arms of `get` and
  `set` are unreachable and not modelled.
- The offset range check of `parse_loc` in 09.rs and 05.rs: every call passes 1, 2 or 3. The model takes
  `1 <= offset < 10` as the function's precondition.
- Text: `trim` and `lines` treat only ASCII white space and `\n` / `\r\n`. Unicode white space is not modelled.
  `parse` accepts an optional `+` or `-` and decimal digits, as the integer `FromStr` does. Its error kinds are
  folded into one `ParseError` naming the piece.
- `main`, `read_file`, the `solve!` macro and the file-based tests (`test_part_one` and `test_part_two` of 05.rs and
  02.rs, which read example files that are not part of this model) are left out. They are I/O.
- `Day02.Search` builds one program from the text and restores a copy per attempt. The source's `Computer::new`
  re-parses the same text per attempt, which gives the same words each time.
- `Day01.ExampleDirectFuels` and `Day01.ExampleTotalFuels` state the sums of the example masses. Their link to the
  text of the example file is `Day01.PartOneOfMasses` and `Day01.PartTwoOfMasses`, for any text that lists those
  masses one per line.

## Findings

| source | as written | input that shows it | evidently intended | confidence | as-written member | corrected member |
|---|---|---|---|---|---|---|
| src/bin/02.rs:142-151 | `test_other_inputs_part_one` calls `part_one`, which first sets `memory[1] = 12` and `memory[2] = 2`. That makes each of the four short programs read cell 12, past its end, and panic | `part_one("1,0,0,0,99")`, and the three other programs of that test | the four programs run as they are, answering 2, 2, 2 and 30 | not executed | Day02Properties.OtherInputsPanic | Day02Properties.OtherInputsUnrestored |
| src/bin/05.rs:174-178 | when writing past the end, `set` resizes memory to `index` cells and retries. The cell `index` still does not exist, so the recursion never ends | `1101,1,1,5,99` (add 1 and 1 into cell 5 of a 5-cell memory) | grow memory to `index + 1` cells and store, as src/bin/09.rs:185 does | not executed | Day05Properties.WritePastEnd | Day09Properties.StoreThenGet |
