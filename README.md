# Advent of Code 2017 puzzle solutions, modelled in Dafny

This project models the Rust solutions to days 1 to 21 of Advent of Code 2017
(days 7 and 12 excepted) together with the shared knot hash of
`utils/src/knot_hash.rs`, and proves what each program computes. Each source
file becomes one Dafny module:

| module | source | what it holds |
|---|---|---|
| `KnotHash`, `Day10` | `utils/src/knot_hash.rs`, `day-10/src/main.rs` | the knot hash: wrapping reversals of a ring, rounds, the XOR fold into 16 bytes and the hex digest; the day-10 copy of the loop is proved to compute the same sparse hash |
| `Day01` | `day-01/src/part1.rs`, `part2.rs` | the captcha sums, as a comparison of the input with a rotation of itself |
| `Day02` | `day-02/src/part1.rs`, `part2.rs` | the spreadsheet checksums (largest minus smallest, and the first dividing pair) |
| `Day03` | `day-03/src/lib.rs` | the spiral walk: a class whose `Mov` updates direction and ring size |
| `Day04` | `day-04/src/main.rs` | passphrases without repeated words or anagrams |
| `Day05` | `day-05/src/main.rs` | the jump maze, on an array changed in place |
| `Day06`, `Repetition` | `day-06/src/main.rs` | memory-bank redistribution and the search for the first repeated configuration |
| `Day08Comparison`, `Day08Instruction` | `day-08/src/comparison.rs`, `instruction.rs`, `main.rs` | register conditions and `inc`/`dec` instructions, their text form and their execution against the register file |
| `Day09` | `day-09/src/main.rs` | the recursive group reader, proved against a flat scan |
| `Day11` | `day-11/src/main.rs` | the hex-grid walk |
| `Day13` | `day-13/src/main.rs` | the firewall: parsing, trip severity and the smallest safe delay |
| `Day14` | `day-14/src/main.rs` | the disk grid built from knot hashes, used squares, and regions found by flood fill |
| `Day15` | `day-15/src/main.rs` | the dueling generators, a class with a `Next` method, and the judge |
| `Day16` | `day-16/src/main.rs` | the dance: spin, exchange and partner moves, and the cycle shortcut over many rounds |
| `Day17` | `day-17/src/main.rs` | the spinlock buffer and the value after 0 |
| `Day18Instructions`, `Day18` | `day-18/src/instructions.rs`, `main.rs` | the sound program: instructions, their text form, and the run to the first recovered sound |
| `Day19` | `day-19/src/main.rs` | the maze walk that collects letters |
| `Day20Vectors`, `Day20Particle`, `Day20` | `day-20/src/vectors/mod.rs`, `particle.rs`, `main.rs` | vectors, particles and their text form, the slowest particle, and collisions |
| `Day21Grid`, `Day21Patterns`, `Day21` | `day-21/src/grid.rs`, `Patterns.rs`, `main.rs` | square pixel grids (flips, variations, split and merge, text form), the rule book, and the enhancement rounds |
| `Text`, `Wrappers`, `Arith`, `Counting` | — | Rust's `str` API as the programs use it (`trim`, `split`, `split_whitespace`, `lines`, `parse`), `Option`/`Result`, and small arithmetic and counting facts |

How the model is built:

- A panic that depends on the input is an error value. This covers an `unwrap` of a failed parse, a `panic!` on an unknown token, an index out of range and a `usize` underflow. The member returns `None`, `Err` or `Panicked` there, and its contract says exactly when that happens.
- Loops that update state step by step are methods with loop invariants. Each is proved equal to a function, and the properties are proved about that function. Examples are the knot-hash rounds, the jumps of day 5, the bank cycles of day 6, the flood fill of day 14, the collision rounds of day 20 and the grid builders of day 21.
- State the source updates in place is kept in place here too. The day-3 walker and the day-15 generators are classes. The day-8 register files are a class whose map fields the methods reassign. The jump list of day 5, the banks of day 6 and the knot-hash ring are arrays.
- Day 8 and day 20 read their input with regular expressions. The model reads the grammar each pattern describes by hand and proves that printing a value and reading it back gives the value.
- The knot hash does not reject input lengths longer than the ring. The model follows the code: the swaps of such a length are made as the loop makes them, around the ring.
- Integers are unbounded. The source's `u32`, `i32`, `i64` and `usize` overflow is not modelled, except for the `usize` underflows that the programs actually reach: day-19 moves off the grid and the day-20 list length.

## Model

| member | source | states |
|---|---|---|
| KnotHash.Range | utils/src/knot_hash.rs:26 | the vector collected from `lo .. hi` has hi − lo elements (none when hi ≤ lo), element i being lo + i |
| KnotHash.SwapAtPermutes | utils/src/knot_hash.rs:36 | a swap permutes the list |
| KnotHash.SwapAtIndex | utils/src/knot_hash.rs:36 | a swap exchanges the two cells and leaves every other cell as it was |
| KnotHash.SwapAllPermutes | utils/src/knot_hash.rs:35-37 | any sequence of swaps permutes the list |
| KnotHash.At | utils/src/knot_hash.rs:36 | a wrapped index is inside the ring |
| KnotHash.WindowSwaps | utils/src/knot_hash.rs:35-37 | a length L gives L / 2 swaps, swap j exchanging offsets j and L − 1 − j from the position, all inside the ring |
| KnotHash.RoundsNext | utils/src/knot_hash.rs:32-42 | one more round runs the lengths once more from the position and skip the last round ended with |
| KnotHash.SparseHash | utils/src/knot_hash.rs:21-45 | the in-place loops compute the rounds over the range; the result is as long as the range, a permutation of it, and the range itself for 0 rounds |
| KnotHash.RunRounds | utils/src/knot_hash.rs:32-42 | the outer loop leaves the list as the rounds from position 0 and skip 0 leave it |
| KnotHash.Round | utils/src/knot_hash.rs:33-41 | one pass over the lengths moves list, position and skip as the round's steps do |
| KnotHash.Reverse | utils/src/knot_hash.rs:35-37 | the swap loop of one length makes exactly the window's swaps |
| KnotHash.StepsPermute | utils/src/knot_hash.rs:33-41 | a round permutes the list |
| KnotHash.RoundsPermute | utils/src/knot_hash.rs:32-42 | any number of rounds permutes the list |
| KnotHash.SparseSpecPermutes | utils/src/knot_hash.rs:21-45 | the sparse hash is a permutation of the range |
| KnotHash.ModInjective | utils/src/knot_hash.rs:36 | two offsets below the ring length wrap to different cells |
| KnotHash.SwapsWindow | utils/src/knot_hash.rs:35-37 | after the first k swaps of a window no longer than the ring, its first and last k cells hold each other's old values and every other cell is unchanged |
| KnotHash.StepReverses | utils/src/knot_hash.rs:35-39 | for a length L no longer than the ring, one step reverses the cells at (position + i) % len, i < L, and leaves every other cell unchanged |
| KnotHash.StepShortLength | utils/src/knot_hash.rs:35 | lengths 0 and 1 swap nothing |
| KnotHash.StepsCursor | utils/src/knot_hash.rs:39-40 | after a round the position is inside the ring and the skip has grown by the number of lengths |
| KnotHash.RoundsCursor | utils/src/knot_hash.rs:29-42 | the position stays inside the ring and the skip grows by exactly one per length processed, never reset between rounds |
| KnotHash.ParseAsChars | utils/src/knot_hash.rs:48-53 | the character codes in order, then exactly 17, 31, 73, 47, 23 |
| KnotHash.ParseAsCharsInjective | utils/src/knot_hash.rs:48-53 | different inputs give different length lists |
| KnotHash.XorBelow | utils/src/knot_hash.rs:13 | XOR of two k-bit numbers has k bits |
| KnotHash.XorFoldByte | utils/src/knot_hash.rs:13 | folding bytes by XOR gives a byte |
| KnotHash.Chunks16 | utils/src/knot_hash.rs:11 | pieces of 1 to 16 elements, length / 16 of them when the length is a multiple of 16 |
| KnotHash.Chunks16Exact | utils/src/knot_hash.rs:11 | chunk j of a multiple-of-16 list is elements 16 j to 16 j + 15 |
| KnotHash.Hex2 | utils/src/knot_hash.rs:15 | `{:02x}` of a byte is two lowercase hex digits |
| KnotHash.Hex2RoundTrip | utils/src/knot_hash.rs:15 | reading the two digits back in base 16 gives the byte |
| KnotHash.HexOfChunks | utils/src/knot_hash.rs:10-17 | two lowercase hex digits per chunk |
| KnotHash.SparseBytes | utils/src/knot_hash.rs:7 | every number of a sparse hash of 0 .. 256 is a byte |
| KnotHash.DenseHex | utils/src/knot_hash.rs:7-17 | the dense hash of 16 chunks of 16 is exactly 32 lowercase hex digits |
| KnotHash.Hash | utils/src/knot_hash.rs:4-18 | the knot hash of any input is exactly 32 characters from 0-9a-f |
| Day10.ComputeSparseHash | day-10/src/main.rs:33-57 | the program's own loops compute the same sparse hash as the shared knot hash, for every range, round count and length list |
| Day10.RoundOfLengths | day-10/src/main.rs:45-53 | one pass over the lengths moves list, position and skip as the round's steps do |
| Day10.ReverseSubList | day-10/src/main.rs:47-49 | the swap loop of one length makes exactly the window's swaps |
| Day10.ParseFields | day-10/src/main.rs:61 | one number per field |
| Day10.ParseFieldsSpec | day-10/src/main.rs:60-62 | parsing succeeds exactly when every field is a `usize`, and then yields each field's number in order; a non-numeric field panics |
| Day10.ParseAsNumbersOfJoin | day-10/src/main.rs:60-62 | numbers printed and joined by commas parse back to themselves |
| Day10.CheckSum | day-10/src/main.rs:10-13 | panics exactly when the lengths do not parse or the range holds fewer than two numbers (element 1 does not exist); otherwise the product of elements 0 and 1 after one round |
| Day10.KnotHashDigest | day-10/src/main.rs:16-30 | the program's knot hash is the shared one: the XOR fold of the 64-round sparse hash over the character codes and the suffix, 32 hex digits |
| Day10.SplitSample | day-10/src/main.rs:78 | "3,4,1,5" splits into four fields |
| Day10.ParseFieldsSample | day-10/src/main.rs:78 | the four fields read as 3, 4, 1, 5 |
| Day10.ParseSample | day-10/src/main.rs:78 | "3,4,1,5" reads as the lengths 3, 4, 1, 5 |
| Day10.SampleStep1 | day-10/src/main.rs:78 | length 3 on 0 1 2 3 4 gives 2 1 0 3 4, position 3 |
| Day10.SampleStep2 | day-10/src/main.rs:78 | length 4 then gives 4 3 0 1 2, position 3 |
| Day10.SampleStep3 | day-10/src/main.rs:78 | length 1 swaps nothing and moves to position 1 |
| Day10.SampleStep4 | day-10/src/main.rs:78 | length 5 then gives 3 4 2 1 0, position 4 |
| Day10.SamplePrefixes | day-10/src/main.rs:78 | the sample round knots 0 .. 5 into 3 4 2 1 0 |
| Day10.CheckSumSample | day-10/src/main.rs:78 | the sparse hash of the sample is 3 4 2 1 0, so the check sum is 3 × 4 = 12 |
| Day10.CheckSumOfSampleText | day-10/src/main.rs:76-79 | `check_sum(0 .. 5, "3,4,1,5")` is 12: the text reads as the lengths 3, 4, 1, 5 and the first two values of their sparse hash multiply to 12, the value `CheckSum` returns |
| Day01.Contribution | day-01/src/part1.rs:38-47 | a pair of characters adds nothing when they differ, the digit when they match, and panics exactly when they match and are not a digit |
| Day01.Pairs | day-01/src/part2.rs:40 | `zip` pairs the characters up to the shorter list, each pair contributing as above |
| Day01.TotalNone | day-01/src/part1.rs:35-49 | the fold panics exactly when one of its contributions does |
| Day01.TotalAppend | day-01/src/part1.rs:35-49 | the fold over two runs of contributions is the sum of the two folds |
| Day01.TotalSnoc | day-01/src/part1.rs:35-49 | one more step of the fold adds one more contribution |
| Day01.Rotate | day-01/src/part2.rs:36-38 | the list rotated by k: the character at each place is the one k places round |
| Day01.RotationPanics | day-01/src/part1.rs:40-44 | summing the list against its rotation by k panics exactly when a character equal to the one k places round is not a digit |
| Day01.NextDigitCaptcha | day-01/src/part1.rs:25-52 | the fold with `last_character` seeded by the last character gives part 1's answer, 0 for at most one byte |
| Day01.ContributionSymmetric | day-01/src/part1.rs:38-47 | a pair contributes the same whichever way round |
| Day01.RotateBack | day-01/src/part1.rs:29-39 | the character compared with each one is the one before it, the first with the last |
| Day01.RotateAhead | day-01/src/part1.rs:2 | rotating by one pairs each character with the next, the last with the first |
| Day01.NextDigitSumNext | day-01/src/part1.rs:29-49 | comparing each digit with the one before it, as the fold does, sums the same as comparing it with the next one, as the puzzle asks |
| Day01.PairsBackAhead | day-01/src/part1.rs:35-49 | the pairs with the previous character are the pairs with the next one moved round by one place |
| Day01.TotalRotate | day-01/src/part1.rs:35-49 | moving the last contribution to the front does not change the sum |
| Day01.NextDigitShort | day-01/src/part1.rs:25-27 | an input of at most one byte gives 0 |
| Day01.NextDigitPanics | day-01/src/part1.rs:40-44 | part 1 panics exactly when a character equal to the one before it (the first: to the last) is not a digit |
| Day01.HalfOffset | day-01/src/part2.rs:34 | part 2 looks half the byte length round, never more than the number of characters |
| Day01.HalfwayRotation | day-01/src/part2.rs:34-38 | the second half followed by the first half is the input rotated by that offset |
| Day01.HalfOffsetAscii | day-01/src/part2.rs:28-34 | for ASCII input with an even byte length the offset is half the characters |
| Day01.HalfwayShape | day-01/src/part2.rs:28-32 | an odd byte length is rejected, exactly, and an empty input gives 0 |
| Day01.HalfwayTotal | day-01/src/part2.rs:33-56 | otherwise part 2 is the sum over the input paired with its rotation by the offset, and panics exactly when that sum does |
| Day01.HalfwayPanics | day-01/src/part2.rs:45-49 | part 2 panics exactly when a character equal to the one half-way round is not a digit |
| Day01.NextDigitFrom | day-01/src/part1.rs:28-49 | part 1 on at least two characters is the sum against the rotation by all but one |
| Day01.AsciiHalf | day-01/src/part2.rs:28-34 | an ASCII input of even length passes the length check and is compared half-way round |
| Day01.HalfwayFrom | day-01/src/part2.rs:33-56 | part 2 on a non-empty ASCII input of even length is the sum of its characters against the ones half-way round, or the non-digit panic |
| Day01.PairsAppend | day-01/src/part2.rs:40 | zipping joined lists pairs each part with its counterpart |
| Day01.NextDigitSamples | day-01/src/part1.rs:6-9 | 1122 gives 3, 1111 gives 4, 1234 gives 0, 91212129 gives 9 |
| Day01.HalfwaySample1 | day-01/src/part2.rs:8 | 1212 gives 6 |
| Day01.HalfwaySample2 | day-01/src/part2.rs:9 | 1221 gives 0 |
| Day01.HalfwaySample3 | day-01/src/part2.rs:10 | 123425 gives 4 |
| Day01.HalfwaySample4 | day-01/src/part2.rs:11 | 123123 gives 12 |
| Day01.HalfwaySample5 | day-01/src/part2.rs:12 | 12131415 gives 4 |
| Day01.HalfwayTwice | day-01/src/part2.rs:34-54 | half-way round the matches pair up: the sum over the list is twice the sum of its first half against its second |
| Day01.SwappedHalves | day-01/src/part2.rs:36-54 | a list `a + b` compared with `b + a` sums `a` against `b` twice, or panics when that sum does |
| Day01.PairsSwap | day-01/src/part2.rs:45 | pairing two lists either way round gives the same contributions, `a == b` being symmetric |
| Day02.CellsSpec | day-02/src/part1.rs:50-58 | the cells are the row's words read in order as `u32`s, and reading fails exactly when some word is not a `u32` |
| Day02.SmallestSpec | day-02/src/part1.rs:47-53 | the smallest cell is a cell of the row and no cell is below it |
| Day02.LargestSpec | day-02/src/part1.rs:48-54 | the largest cell is a cell of the row and no cell is above it |
| Day02.SpreadRow | day-02/src/part1.rs:46-65 | `checksum_row` of part 1, lowering `min` from `u32::MAX` and raising `max` from 0 cell by cell, gives the spread of the row or panics |
| Day02.SpreadOf | day-02/src/part1.rs:46-65 | the spread is the largest minus the smallest cell, and fails when the cells do not read |
| Day02.StepExtremes | day-02/src/part1.rs:53-54 | one more cell lowers the smallest and raises the largest as `cmp::min` and `cmp::max` do |
| Day02.SpreadPanics | day-02/src/part1.rs:56-62 | part 1 panics exactly on a row with no words or with a word that is not a `u32` |
| Day02.SpreadBounds | day-02/src/part1.rs:64 | `max - min` never underflows: it is the largest cell minus the smallest, both cells of the row, and every cell lies between them |
| Day02.Judge | day-02/src/part2.rs:58-62 | a pair divides when one value is the quotient times the other; `first % second` is tried first, so a zero second value panics; equal positive values divide with quotient 1 |
| Day02.JudgePositive | day-02/src/part2.rs:58-62 | with positive values a pair never panics, divides exactly when one value divides the other, and then its quotient, at least 1, takes the smaller value to the larger |
| Day02.QuotientRow | day-02/src/part2.rs:44-67 | `checksum_row` of part 2 reads all cells first, then tries the pairs `i < j` in order and returns the first quotient, panicking when none divides |
| Day02.ScanEntries | day-02/src/part2.rs:53-66 | the nested loops over the pairs return what the scan of the pairs does |
| Day02.ScanFromSpec | day-02/src/part2.rs:53-66 | the scan from a pair returns a quotient exactly when the first pair from there that does not pass on divides with that quotient |
| Day02.FirstAtStart | day-02/src/part2.rs:53-62 | when the pair `(i, j)` is not passed over (it divides, or divides by zero), a first dividing pair from `(i, j)` on can only be `(i, j)` itself |
| Day02.RowEnd | day-02/src/part2.rs:53-54 | past the last pair of row `i` the scan goes on at `(i + 1, i + 2)` |
| Day02.NoPairsLeft | day-02/src/part2.rs:53-66 | no pair is left once fewer than two entries remain |
| Day02.SkipNeither | day-02/src/part2.rs:58-62 | a pair where neither value divides the other is passed over |
| Day02.Rows | day-02/src/part1.rs:27-41 | the rows read are the lines before the first empty one, none of them empty |
| Day02.Scores | day-02/src/part1.rs:39 | one score per row |
| Day02.ScoresAt | day-02/src/part1.rs:39 | the k-th score is that of the k-th row |
| Day02.SpreadChecksum | day-02/src/part1.rs:22-44 | `main` of part 1 adds the spread of each row up to the first empty line |
| Day02.QuotientChecksum | day-02/src/part2.rs:20-42 | `main` of part 2 adds the quotient of each row up to the first empty line |
| Day02.SumNext | day-02/src/part1.rs:39 | one more row either panics or adds its score |
| Day02.ChecksumPrefix | day-02/src/part1.rs:27-41 | the scores of all the rows give the checksum, and a row that panics makes it panic |
| Day02.SumPanics | day-02/src/part1.rs:39 | the sum panics exactly when one of the scores does |
| Day02.SumAppend | day-02/src/part1.rs:39 | without panics the sum of two runs of scores is the total of their sums |
| Day02.ChecksumStops | day-02/src/part1.rs:36-38 | nothing after the first empty line is read |
| Day02.ChecksumPanics | day-02/src/part1.rs:27-41 | the checksum panics exactly when a row before the first empty line does |
| Day02.RowOf | day-02/src/part1.rs:50-51 | a row of `u32` words joined by spaces reads as those values |
| Day02.SpreadSample1 | day-02/src/part1.rs:9-13 | `5 1 9 5` spreads 8 |
| Day02.SpreadSample2 | day-02/src/part1.rs:10-14 | `7 5 3` spreads 4 |
| Day02.SpreadSample3 | day-02/src/part1.rs:11-15 | `2 4 6 8` spreads 6 |
| Day02.SheetOfThree | day-02/src/part1.rs:27-41 | a sheet of three non-empty rows scores as the three rows do |
| Day02.SpreadSampleSheet | day-02/src/part1.rs:7-17 | the sample sheet of part 1 has checksum 18 |
| Day02.QuotientSample1 | day-02/src/part2.rs:8-12 | `5 9 2 8` gives 4 |
| Day02.QuotientSample2 | day-02/src/part2.rs:9-13 | `9 4 7 3` gives 3 |
| Day02.QuotientSample3 | day-02/src/part2.rs:10-14 | `3 8 6 5` gives 2 |
| Day02.QuotientSampleSheet | day-02/src/part2.rs:6-16 | the sample sheet of part 2 has checksum 9 |
| Day02.ZeroFirst | day-02/src/part2.rs:58-59 | a zero cell followed by a non-zero one divides with quotient 0 |
| Day02.ZeroSecond | day-02/src/part2.rs:58 | a zero cell after a non-zero one panics on `first % 0` |
| Day03.Toward | day-03/src/lib.rs:73-87 | left/right/down/up move one square along one axis |
| Day03.Spiral.constructor | day-03/src/lib.rs:16-18 | the walk starts going right (Direction's default) with ring size 0 |
| Day03.Spiral.Mov | day-03/src/lib.rs:22-58 | one mov: at the edge of the ring the direction turns counter-clockwise, only the right-edge turn grows the ring, then one square in the new direction |
| Day03.MovedAdjacent | day-03/src/lib.rs:22-58 | each move reaches a square adjacent along one axis; the ring grows by at most one |
| Day03.StartOnRing | day-03/src/lib.rs:4-18 | the default start (origin, going right, ring 0) is on its ring |
| Day03.MovedOnRing | day-03/src/lib.rs:22-58 | every move keeps the walk on the side of its ring it travels along |
| Day03.OnRingInSquare | day-03/src/lib.rs:22-58 | a walk on its ring stays inside the square of half-side grid_size |
| Day03.Neighbours | day-03/src/lib.rs:60-71 | a square has eight neighbours |
| Day03.NeighboursSpec | day-03/src/lib.rs:60-71 | the neighbours are exactly the eight touching squares, pairwise distinct |
| Day04.CountValid | day-04/src/main.rs:12-14 | the count of accepted lines is at most the number of lines |
| Day04.NoOfValid | day-04/src/main.rs:11-15 | `no_of_valid` counts at most one per line of the input |
| Day04.CountValidBounds | day-04/src/main.rs:11-15 | every line is counted exactly when every line is accepted, and none exactly when none is |
| Day04.CountValidAppend | day-04/src/main.rs:12-14 | counting two blocks of lines adds their counts |
| Day04.HasNoDuplicates | day-04/src/main.rs:18-32 | `has_no_duplicates` holds exactly when the whitespace-separated words are pairwise distinct |
| Day04.Insert | day-04/src/main.rs:42-43 | a character put in its place keeps the word sorted and adds exactly one occurrence of it |
| Day04.SortChars | day-04/src/main.rs:42-45 | sorting gives the word's characters in ascending order, each as often as in the word |
| Day04.SortedFirst | day-04/src/main.rs:43 | the first character of a sorted word is its least |
| Day04.SortedUnique | day-04/src/main.rs:42-45 | two sorted words with the same characters are the same word |
| Day04.SortCharsAnagram | day-04/src/main.rs:42-47 | the sorted forms of two words agree exactly when the words are anagrams |
| Day04.Keys | day-04/src/main.rs:41-45 | the sorted form of each word, in order |
| Day04.KeysDistinct | day-04/src/main.rs:41-52 | the sorted forms are pairwise distinct exactly when no word is an anagram of another |
| Day04.HasNoAnagrams | day-04/src/main.rs:35-55 | `has_no_anagrams` holds exactly when no word is an anagram of another |
| Day04.NoAnagramsDistinct | day-04/src/main.rs:18-55 | a passphrase that passes part 2 passes part 1 |
| Day04.EmptyValid | day-04/src/main.rs:31-54 | a passphrase without words passes both checks |
| Day04.CounterInputJoined | day-04/src/main.rs:68 | the counter sample is its four lines, each ended by a line feed |
| Day04.CounterInputLines | day-04/src/main.rs:12 | the counter sample splits into four lines, the final line feed adding none |
| Day04.SampleCounter | day-04/src/main.rs:61-71 | two of the four sample lines are `aa bb` |
| Day04.WordsOfLine | day-04/src/main.rs:23-41 | the words of a line of lower-case words joined by single spaces are those words |
| Day04.SampleDistinct1 | day-04/src/main.rs:75 | `aa bb cc dd ee` has no repeated word |
| Day04.SampleDistinct2 | day-04/src/main.rs:76 | `aa bb cc dd aa` repeats a word |
| Day04.SampleDistinct3 | day-04/src/main.rs:77 | `aa bb cc dd aaa` has no repeated word |
| Day04.NotAnagram | day-04/src/main.rs:42-47 | words in which a character occurs a different number of times are not anagrams |
| Day04.NoAnagramsOfLine | day-04/src/main.rs:41 | a line of words joined by spaces has anagrams exactly when its words do |
| Day04.SampleAnagrams1 | day-04/src/main.rs:82 | `abcde fghij` has no anagrams |
| Day04.Reordered | day-04/src/main.rs:83 | five characters in another order are an anagram |
| Day04.SampleAnagrams2 | day-04/src/main.rs:83 | `abcde xyz ecdab` has an anagram |
| Day04.SampleAnagrams3 | day-04/src/main.rs:84 | `a ab abc abd abf abj` has no anagrams |
| Day04.SampleAnagrams4 | day-04/src/main.rs:85 | `iiii oiii ooii oooi oooo` has no anagrams |
| Day04.SampleAnagrams5 | day-04/src/main.rs:86 | `oiii ioii iioi iiio` has an anagram |
| Day05.Modifiers | day-05/src/main.rs:63-75 | `increment` adds one; `increment_or_decrement` moves every offset by exactly one, down from 3 and up below it, so an offset of 2 or 3 stays within 2..3 and none at most 3 rises above 3 |
| Day05.NoOfJumps | day-05/src/main.rs:34-61 | `no_of_jumps` panics on a word that is not an `i32` and otherwise counts the steps of the run from the first offset |
| Day05.RunJumps | day-05/src/main.rs:40-60 | the loop over the offsets, changed in place, counts the steps of the run: each step jumps by the offset, applies the modifier to it, and the run ends when the jump lands below 0 or past the end |
| Day05.NewArray | day-05/src/main.rs:35-38 | the collected vector holds the offsets read, in order |
| Day05.JumpsStep | day-05/src/main.rs:44-54 | a step inside the list to a target not below 0 adds one to the count and continues from the target with the offset modified |
| Day05.JumpsMoreFuel | day-05/src/main.rs:43-58 | a run that ends within a bound ends the same with any larger one, takes at most that many steps, and takes at least one exactly when it starts inside the list |
| Day05.SampleSplit | day-05/src/main.rs:84 | the example `0 3 0 1 -3` splits into its five words |
| Day05.SampleParse | day-05/src/main.rs:84 | the example's words read as the offsets 0, 3, 0, 1, -3 |
| Day05.SampleRead | day-05/src/main.rs:35-38 | the example's text reads as its offsets |
| Day05.SampleIncrementRun | day-05/src/main.rs:26-33 | with `increment` the example leaves the list after 5 steps |
| Day05.SampleIncrement | day-05/src/main.rs:82-87 | `no_of_jumps` on the example with `increment` is 5 |
| Day05.SampleIncrementOrDecrementLast | day-05/src/main.rs:69-95 | the last five steps of the example with `increment_or_decrement`, from offsets 2 3 0 1 -2 at index 3 |
| Day05.SampleIncrementOrDecrementRun | day-05/src/main.rs:90-95 | with `increment_or_decrement` the example leaves the list after 10 steps |
| Day05.SampleIncrementOrDecrement | day-05/src/main.rs:90-95 | `no_of_jumps` on the example with `increment_or_decrement` is 10 |
| Day06.MaxByIndex | day-06/src/main.rs:48-61 | returns the first index holding the largest value (0 when every value is 0 or there are none) |
| Day06.MaxIndexUnique | day-06/src/main.rs:48-61 | that index is unique |
| Day06.FirstMax | day-06/src/main.rs:48-61 | the first index of the largest value |
| Day06.SampleMaxByIndex | day-06/src/main.rs:68-71 | for [0, 3, 1, 2, 3] the answer is exactly 1 |
| Day06.DealCount | day-06/src/main.rs:31-38 | dealing n blocks one at a time from `start`, wrapping, gives each bank n / L and one more to the first n % L from start |
| Day06.DealTotal | day-06/src/main.rs:34-38 | dealing n blocks adds n to the total |
| Day06.CountStep | day-06/src/main.rs:34-38 | the next block goes to bank start+k mod L |
| Day06.RedistributeTotal | day-06/src/main.rs:27-38 | a cycle keeps the number of banks and of blocks |
| Day06.RedistributeCount | day-06/src/main.rs:27-38 | the fullest bank is emptied and each bank gets its share dealt from the one after it |
| Day06.CyclesTotal | day-06/src/main.rs:22-39 | every configuration has as many banks and blocks as the first |
| Day06.Cycle | day-06/src/main.rs:27-38 | the in-place cycle leaves Redistribute of the old banks |
| Day06.DealOut | day-06/src/main.rs:31-38 | the inner loop deals n blocks from `first`, wrapping |
| Day06.HowManyCycles | day-06/src/main.rs:10-46 | panics exactly on unreadable input or no banks; Done is the first repeat count c (or c − j) within fuel; OutOfFuel means fuel+1 configurations all differ |
| Day06.ParseBanks | day-06/src/main.rs:13-15 | the banks are the whitespace-separated words read as numbers; when some word is not a number it panics (None) |
| Repetition.SeenNext | day-06/src/main.rs:22-25 | recording a new configuration keeps the map exactly the configurations seen with their cycle |
| Repetition.SeenDifferent | day-06/src/main.rs:22-45 | the map shows all configurations different; a configuration found is the first repeat, of the cycle it maps to |
| Repetition.FirstRepeatUnique | day-06/src/main.rs:20-45 | the first repeat is unique |
| Repetition.IteratePeriodic | day-06/src/main.rs:41-45 | after a repeat the run loops with period c − j |
| Day06.SampleCycles | day-06/src/main.rs:73-86 | 0 2 7 0: after 5 cycles the configuration after 1 comes back, none earlier |
| Day06.SampleAnswers | day-06/src/main.rs:73-86 | the sample reads as [0,2,7,0]; its only first repeat is (5,1); with fuel ≥ 5 the run does not run out |
| Day06.Deal | day-06/src/main.rs:31-38 | dealing blocks one at a time round the ring from a start index keeps the number of banks |
| Day06.Redistribute | day-06/src/main.rs:27-38 | one cycle (the fullest bank emptied, its blocks dealt from the next bank on) keeps the number of banks |
| Day06.SampleRead | day-06/src/main.rs:73-79 | the sample `0 2 7 0` reads as the four banks 0, 2, 7, 0 |
| Day06.SampleStep | day-06/src/main.rs:73-87 | each cycle of the sample takes one listed configuration to the next |
| Day06.SampleState | day-06/src/main.rs:73-87 | the sample after `k` cycles is the `k`-th listed configuration |
| Day06.SampleThird | day-06/src/main.rs:73-87 | the first five configurations of the sample are told apart by their third bank |
| KnotHash.SwapAt | utils/src/knot_hash.rs:36 | `Vec::swap` keeps the length of the list |
| KnotHash.SwapAll | utils/src/knot_hash.rs:35-37 | the swaps of one reversal, made in order, keep the length of the list |
| KnotHash.Step | utils/src/knot_hash.rs:33-41 | one input length (reversal, then moving on by length plus skip) keeps the length of the list |
| KnotHash.Steps | utils/src/knot_hash.rs:33-41 | one round over all the lengths keeps the length of the list |
| KnotHash.Rounds | utils/src/knot_hash.rs:32-42 | the rounds, cursor and skip carried from one to the next, keep the length of the list |
| KnotHash.Bytes | utils/src/knot_hash.rs:10-13 | the numbers of a sparse hash over bytes are those bytes, each below 256 |
| Day16.ParseThree | day-16/src/main.rs:26-40 | three comma-separated pieces that each parse give the three instructions in order |
| Day16.DanceOne | day-16/src/main.rs:55-71 | a dance of one move is that move |
| Day16.DanceThree | day-16/src/main.rs:55-71 | a dance of three moves applies them in order, stopping at the first that fails |
| Day16.PositionAt | day-16/src/main.rs:67-68 | the position of a program is the first index where it occurs |
| Day16.SearchNew | day-16/src/main.rs:52-89 | a round that gives an order not seen before records it and goes on |
| Day16.SearchRepeat | day-16/src/main.rs:52-89 | a round that gives an order seen before ends the search with the cycle shortcut |
| Day16.SearchFour | day-16/src/main.rs:52-89 | four different orders followed by the first again: the fifth round takes the shortcut |
| Text.TrimSpec | day-16/src/main.rs:27 | `str::trim` leaves no whitespace at either end, and leaves a text with none there unchanged |
| Text.SplitJoin | day-16/src/main.rs:27 | `str::split` on a separator gives back the pieces that were joined by it |
| Text.WordsJoin | day-06/src/main.rs:13 | `split_whitespace` gives back the non-empty words joined by whitespace |
| Text.LinesJoin | day-04/src/main.rs:12 | `str::lines` gives back lines joined by line feeds |
| Text.ParseIntToString | day-13/src/main.rs:20 | parsing the decimal text of a number in range gives the number back |
| Text.ParseAll | day-05/src/main.rs:37 | parsing every word gives one number per word, each the parse of its word, or fails exactly when some word does not parse |
| Wrappers.Collect | day-18/src/instructions.rs:6 | parsing every line with `unwrap` and collecting succeeds exactly when every line parses, with the values in line order; otherwise it stops at a failing line (the panic) |
| Day08Comparison.ParseOperator | day-08/src/comparison.rs:39-53 | anything but the six symbols is an error carrying the text |
| Day08Comparison.OperatorRoundTrip | day-08/src/comparison.rs:26-53 | every operator printed reads back as itself, and every text read as an operator is that operator's printed form |
| Day08Comparison.Get | day-08/src/comparison.rs:89 | a register's stored value, and 0 for a register never written |
| Day08Comparison.CheckNegations | day-08/src/comparison.rs:88-99 | `!=` holds exactly when `==` fails, `>` exactly when `<=` fails, `<` exactly when `>=` fails |
| Day08Comparison.CheckAbsent | day-08/src/comparison.rs:89 | a register never written compares as though it held 0 |
| Day08Comparison.Captures | day-08/src/comparison.rs:55-58 | a match of `^([a-z]+) ([^\s]+) (-?[0-9]+)$` splits the text into a lower-case name, a token without whitespace and a number, joined by single spaces |
| Day08Comparison.FromStr | day-08/src/comparison.rs:61-74 | the trimmed text that does not match is an error; a comparison read has a name as register and an `i32` value |
| Day08Comparison.CapturesOf | day-08/src/comparison.rs:55-58 | `register op value` matches with exactly those three captures |
| Day08Comparison.NumberOf | day-08/src/comparison.rs:57-80 | a printed `i32` matches `-?[0-9]+` |
| Day08Comparison.TrimmedOf | day-08/src/comparison.rs:65 | a printed comparison has nothing to trim |
| Day08Comparison.FromStrOfCaptures | day-08/src/comparison.rs:64-70 | a trimmed text that matches, with an operator and an `i32` that parse, reads as that comparison |
| Day08Comparison.FromStrOf | day-08/src/comparison.rs:61-74 | `register op value` with a name, an operator and an `i32` reads as that comparison |
| Day08Comparison.FromStrShow | day-08/src/comparison.rs:61-80 | a comparison printed by its `Debug` form reads back as itself |
| Day08Comparison.SampleLessEq | day-08/src/main.rs:51-54 | `abc <= -32` reads as register `abc`, `<=`, -32 |
| Day08Comparison.SampleEq | day-08/src/main.rs:56-59 | `fdsf == 123` reads as register `fdsf`, `==`, 123 |
| Day08Instruction.ParseOperation | day-08/src/instruction.rs:14-24 | `inc` and `dec` exactly, in both directions; anything else is an error carrying the text |
| Day08Instruction.ValueCaptures | day-08/src/instruction.rs:37 | the tail `value if condition`: a number, then ` if `, then a condition without a line feed |
| Day08Instruction.IfTail | day-08/src/instruction.rs:37 | ` if (.*)$` matches exactly when the text starts with `if ` and the rest holds no line feed |
| Day08Instruction.Captures | day-08/src/instruction.rs:35-39 | a match of `^([a-z]+) ([^\s]+) (-?[0-9]+) if (.*)$` splits the line into a name, a token, a number and a condition |
| Day08Instruction.JoinFour | day-08/src/instruction.rs:37 | the four captures joined with their separators give the line back |
| Day08Instruction.FromStr | day-08/src/instruction.rs:41-57 | a trimmed line that does not match is `Err(())`; an instruction read has a name as register and an `i32` value |
| Day08Instruction.CapturesOf | day-08/src/instruction.rs:35-39 | `register op value if condition` matches with exactly those four captures |
| Day08Instruction.SplitFour | day-08/src/instruction.rs:37 | the line is the register, a space and the rest |
| Day08Instruction.ValueCapturesOf | day-08/src/instruction.rs:37 | `value if condition` splits into exactly those two parts |
| Day08Instruction.NoSpace | day-08/src/instruction.rs:37 | names, tokens and numbers hold no space, so the match splits at the right spaces |
| Day08Instruction.FromStrOfCaptures | day-08/src/instruction.rs:45-52 | a trimmed line that matches, with parts that parse, reads as that instruction |
| Day08Instruction.OperationRoundTrip | day-08/src/instruction.rs:14-24 | `inc` and `dec` read back as themselves |
| Day08Instruction.FromStrOf | day-08/src/instruction.rs:41-57 | `register op value if condition` with well-formed parts reads as that instruction |
| Day08Instruction.FromStrShow | day-08/src/instruction.rs:41-57 | every instruction with name registers and `i32` values, printed, reads back as itself |
| Day08Instruction.ShowNoLineFeed | day-08/src/comparison.rs:76-80 | a printed condition holds no line feed, so `.*` takes all of it |
| Day08Instruction.ShowTrimmed | day-08/src/instruction.rs:45 | a printed instruction has nothing to trim |
| Day08Instruction.SampleDec | day-08/src/main.rs:64-70 | `b dec 30 if cat < 1` reads as the expected instruction |
| Day08Instruction.SampleDecShown | day-08/src/main.rs:64-70 | that instruction prints as `b dec 30 if cat < 1` |
| Day08Instruction.SampleInc | day-08/src/main.rs:72-78 | `x inc -30 if dog > -30` reads as the expected instruction |
| Day08Instruction.SampleIncShown | day-08/src/main.rs:72-78 | that instruction prints as `x inc -30 if dog > -30` |
| Day08Instruction.StepSpec | day-08/src/instruction.rs:67-84 | a false condition changes nothing; a true one sets the register (0 when absent) up or down by the value and its highest value to the larger of the old highest and the new value; no other register changes, and no highest value goes down or falls below its register |
| Day08Instruction.HighestBound | day-08/src/instruction.rs:67-84 | after a run, every value any register held after any prefix of the program is at most its recorded highest value |
| Day08Instruction.HighestAttained | day-08/src/instruction.rs:76-82 | from empty maps, every recorded highest value is a value the register actually held after some prefix of the program |
| Day08Instruction.RegisterFile.constructor | day-08/src/main.rs:19-20 | both maps start empty |
| Day08Instruction.RegisterFile.Execute | day-08/src/instruction.rs:67-84 | `execute` updates both maps as one step does and keeps them consistent |
| Day08Instruction.RegisterFile.ExecuteAll | day-08/src/main.rs:22-26 | each instruction executed in turn leaves the maps the run of the program gives |
| Day08Instruction.SampleRun | day-08/src/main.rs:43-91 | the sample program ends with `a` = 1 and `c` = -10, with highest values 1 and 10 |
| Day08Instruction.SampleLargest | day-08/src/main.rs:93-101 | the largest register at the end is 1 and the largest value ever held is 10 |
| Day08Instruction.ParseEach | day-08/src/main.rs:22-24 | each line's `parse::<Instruction>()` result, in order |
| Day08Instruction.RunLines | day-08/src/main.rs:22-26 | the loop runs exactly when every line of the text reads, and then leaves the register and highest maps consistent |
| Day08Instruction.RunLinesOf | day-08/src/main.rs:22-26 | a text whose lines read as a program runs that program from empty maps |
| Day08Instruction.FromStrTrim | day-08/src/instruction.rs:45 | two lines that trim to the same text read the same |
| Day08Instruction.FromStrPadded | day-08/src/instruction.rs:45 | a printed instruction behind leading whitespace reads back as itself |
| Day08Instruction.ExampleShown1 | day-08/src/main.rs:44 | the first instruction of `TEST_INPUT` prints as its first line |
| Day08Instruction.ExampleShown2 | day-08/src/main.rs:45 | the second instruction prints as its second line |
| Day08Instruction.ExampleShown3 | day-08/src/main.rs:46 | the third instruction prints as its third line |
| Day08Instruction.ExampleShown4 | day-08/src/main.rs:47 | the fourth instruction prints as its fourth line |
| Day08Instruction.ExampleRead1 | day-08/src/main.rs:44 | `b inc 5 if a > 1` reads as the first instruction |
| Day08Instruction.ExampleRead2 | day-08/src/main.rs:45 | the indented `a inc 1 if b < 5` reads as the second |
| Day08Instruction.ExampleRead3 | day-08/src/main.rs:46 | the indented `c dec -10 if a >= 1` reads as the third |
| Day08Instruction.ExampleRead4 | day-08/src/main.rs:47 | the indented `c inc -20 if c == 10` reads as the fourth |
| Day08Instruction.ParseFour | day-08/src/main.rs:86-89 | four lines that each read give the program of their instructions |
| Day08Instruction.ExampleSplit | day-08/src/main.rs:43-47 | `lines()` cuts `TEST_INPUT` into its four lines, indentation kept |
| Day08Instruction.SampleExample | day-08/src/main.rs:81-101 | `test_example` from its text: the run ends with `a` = 1 and `c` = -10, highest values 1 and 10, so the largest register is 1 and the largest value ever held is 10 |
| Day09.Skip | day-09/src/main.rs:18 | a `!` moves past itself and the character it cancels, or to the end when there is none |
| Day09.Totals | day-09/src/main.rs:32-42 | `total_score` panics exactly when the input does not start with `{`; otherwise the outermost group scores at least 1 |
| Day09.ReadGroup | day-09/src/main.rs:12-29 | `read_group` scores its group at its depth plus its nested groups' scores, adds the garbage characters it reads, and stops after its `}` or at the end of the input, agreeing with the character-by-character reading |
| Day09.TotalScore | day-09/src/main.rs:32-42 | the score and the garbage count of the whole input, or the panic |
| Day09.GarbageBound | day-09/src/main.rs:23 | the garbage counted is at most the characters left |
| Day09.GarbageRun | day-09/src/main.rs:19-23 | inside garbage, a run without `!` and `>` is counted whole, `<`, `{` and `}` included, and adds no score |
| Day09.GarbageOnly | day-09/src/main.rs:32-42 | a single group holding only garbage without `!` and `>` scores 1 and counts every garbage character |
| Day09.NoGarbage | day-09/src/main.rs:20-23 | with no `<` ahead and outside garbage nothing more is counted |
| Day09.ScoreEmpty | day-09/src/main.rs:51 | `{}` scores 1 |
| Day09.ScoreNested | day-09/src/main.rs:52 | `{{{}}}` scores 6 |
| Day09.ScoreSiblings | day-09/src/main.rs:53 | `{{},{}}` scores 5 |
| Day09.ScoreMixed | day-09/src/main.rs:54 | `{{{},{},{{}}}}` scores 16 |
| Day09.ScoreGarbageOnly | day-09/src/main.rs:55 | `{<a>,<a>,<a>,<a>}` scores 1 |
| Day09.ScoreGarbageGroups | day-09/src/main.rs:56 | `{{<ab>},{<ab>},{<ab>},{<ab>}}` scores 9 |
| Day09.ScoreCancelled | day-09/src/main.rs:57 | `{{<!!>},{<!!>},{<!!>},{<!!>}}` scores 9 |
| Day09.ScoreCancelledClose | day-09/src/main.rs:58 | `{{<a!>},{<a!>},{<a!>},{<ab>}}` scores 3 |
| Day09.GarbageEmpty | day-09/src/main.rs:72 | `{<>}` counts 0 garbage characters |
| Day09.GarbageRandom | day-09/src/main.rs:73 | `{<random characters>}` counts 17 |
| Day09.GarbageOpens | day-09/src/main.rs:74 | `{<<<<>}` counts 3 |
| Day09.GarbageCancelledClose | day-09/src/main.rs:75 | `{<{!>}>}` counts 2 |
| Day09.GarbageCancelledBang | day-09/src/main.rs:76 | `{<!!>}` counts 0 |
| Day09.GarbageCancelledBoth | day-09/src/main.rs:77 | `{<!!!>>}` counts 0 |
| Day09.GarbageMixed | day-09/src/main.rs:78 | `{<{o"i!a,<{i<a>}` counts 10 |
| Day11.ParseMoveShow | day-11/src/main.rs:37-45 | each of the six move names reads back as its move, and only those six names read as moves |
| Day11.Step | day-11/src/main.rs:37-45 | n, s, ne, sw, nw and se move by (0,+1), (0,−1), (+1,+1), (−1,−1), (−1,0) and (+1,0) |
| Day11.ParseMoves | day-11/src/main.rs:34-45 | the moves are read name by name, and an unknown name anywhere panics (None exactly when some name is unknown) |
| Day11.EndAppend | day-11/src/main.rs:34-51 | the position after two blocks of moves is the sum of their displacements |
| Day11.EndOrder | day-11/src/main.rs:34-54 | the final position does not depend on the order of two blocks of moves |
| Day11.WalkSpec | day-11/src/main.rs:34-51 | the fold ends at the sum of the moves and its maximum is the largest distance over the positions after each move (0 for none) |
| Day11.DistanceSpec | day-11/src/main.rs:33-56 | `distance` panics exactly on an unknown move; `distance_now` is the distance of the final position and `max_distance` is at least it; with the hex distance, no path to the final position is shorter than `distance_now` |
| Day11.EmptyPanics | day-11/src/main.rs:34-44 | an empty input is one empty name and panics |
| Day11.NormsAgree | day-11/src/main.rs:47-54 | the source's max(abs x, abs y) never exceeds the hex distance and equals it unless x and y have opposite signs |
| Day11.NormAtMostMoves | day-11/src/main.rs:32-33 | no sequence of moves ends further (in hex distance) than its length |
| Day11.ShortestPath | day-11/src/main.rs:32-33 | a path of exactly hex-distance moves reaches every hex |
| Day11.HexNormFewest | day-11/src/main.rs:32-33 | the hex distance is the least number of moves reaching a hex |
| Day11.SampleDistance1 | day-11/src/main.rs:64 | `ne,ne,ne` is 3 away under both measures |
| Day11.SampleDistance2 | day-11/src/main.rs:65 | `ne,ne,sw,sw` is 0 away under both measures |
| Day11.SampleDistance3 | day-11/src/main.rs:66 | `ne,ne,s,s` is 2 away under both measures |
| Day11.SampleDistance4 | day-11/src/main.rs:67 | `se,sw,se,sw,sw` is 3 away under both measures |
| Day11.AsWrittenTooShort | day-11/src/main.rs:47-54 | `nw,n` is reported 1 away by the source's formula, but every path to (−1, 1) has at least 2 moves and the hex distance is 2 |
| Day13.ParseLayer | day-13/src/main.rs:17-27 | a line read as a layer has two `u32` parts and a depth above 1; anything else panics |
| Day13.ParseLayers | day-13/src/main.rs:16-28 | the lines read in order, one layer each, panicking exactly when some line does |
| Day13.MakeFirewall | day-13/src/main.rs:14-29 | `make_firewall` of the trimmed input gives only layers of depth above 1 with `u32` fields |
| Day13.TwoParts | day-13/src/main.rs:19 | `index: depth` splits at `": "` into its two texts |
| Day13.FieldOf | day-13/src/main.rs:20 | an indented number is trimmed and read as the number |
| Day13.FieldsOf | day-13/src/main.rs:18-21 | `index: depth` after any indentation reads as its two numbers |
| Day13.ParseLayerShow | day-13/src/main.rs:17-27 | a layer of depth above 1, printed after any indentation, reads back as itself |
| Day13.ShallowPanics | day-13/src/main.rs:24 | a line with depth 0 or 1 panics |
| Day13.OnePartPanics | day-13/src/main.rs:23 | a line without `": "` is one part and panics |
| Day13.SeveritySnoc | day-13/src/main.rs:33-48 | the severity of one more layer adds index times depth when that layer catches |
| Day13.TripSeverityIs | day-13/src/main.rs:32-48 | `trip_severity` is the flag "some layer catches at this delay" and the sum of index times depth over the layers that catch |
| Day13.CaughtPeriodic | day-13/src/main.rs:36-43 | a scanner returns to the top every `depth * 2 - 2` picoseconds: a layer that catches at a delay catches one cycle later too |
| Day13.CaughtAtNoCost | day-13/src/main.rs:43-44 | being caught at layer 0 sets the flag but adds no severity, so part 2 tests the flag and not the severity |
| Day13.WorkoutFirewallDelay | day-13/src/main.rs:53-61 | the delay returned is the least at which no layer catches; `None` only when every delay below the bound is caught |
| Day13.AlwaysCaught | day-13/src/main.rs:53-61 | layers `0: 2` and `1: 2` catch at every delay, so the loop of `workout_firewall_delay` need not end |
| Day13.SampleInputLines | day-13/src/main.rs:69-74 | the trimmed sample holds its four lines |
| Day13.SampleLayerRead | day-13/src/main.rs:70-73 | each sample line reads as its layer |
| Day13.SampleFirewallRead | day-13/src/main.rs:69-76 | the sample reads as the layers 0: 3, 1: 2, 4: 4, 6: 4 |
| Day13.ParseLayersOf | day-13/src/main.rs:16-28 | lines each read as a layer are read as those layers |
| Day13.SampleSeverity | day-13/src/main.rs:78-82 | leaving at once, the sample is caught at layers 0 and 6 for a severity of 24 |
| Day13.SampleDelay | day-13/src/main.rs:84-88 | every delay below 10 is caught and 10 is not, so the least safe delay is 10 |
| Day14.HexValue | day-14/src/main.rs:20 | a lowercase hex digit reads, with `to_digit(16)`, as its value below 16 |
| Day14.Nibble | day-14/src/main.rs:22-25 | a digit sets four cells |
| Day14.NibbleValue | day-14/src/main.rs:22-25 | the four cells are the digit's bits, most significant first (8, 4, 2, 1) |
| Day14.RowBits | day-14/src/main.rs:19-28 | four cells per digit |
| Day14.RowBitsCell | day-14/src/main.rs:19-28 | digit k of the hash fills cells 4k .. 4k + 3 with its bits, most significant first |
| Day14.RowSpec | day-14/src/main.rs:11-32 | a row has exactly 128 cells: the 32 hex digits of the hash of "input-row" times four bits |
| Day14.CreateRow | day-14/src/main.rs:11-32 | the array filled in place is the row of the hash of "input-row", every other cell false |
| Day14.FillRow | day-14/src/main.rs:18-28 | the loop over the digits sets exactly the bits of each digit, in order |
| Day14.RowBitsSnoc | day-14/src/main.rs:19-28 | one more digit adds its four bits after the others |
| Day14.SetNibble | day-14/src/main.rs:20-27 | one digit's cells become its bits and the cells after them stay false |
| Day14.GridSpec | day-14/src/main.rs:35-41 | 128 rows of 128 cells |
| Day14.NumberOfSquaresUsed | day-14/src/main.rs:44-54 | the count is the number of set cells over rows 0 .. 127, at most 128 × 128 |
| Day14.SumCountsBound | day-14/src/main.rs:45-53 | n rows of 128 cells hold at most 128 n set cells |
| Day14.TrueSet | day-14/src/main.rs:90 | the set cells are exactly the cells of the grid that are true |
| Day14.ClearNeighbours | day-14/src/main.rs:57-79 | (x, y) ends false and exactly the set cells 4-connected to it through set cells are cleared, every other cell unchanged; the recursion terminates because each call starts with fewer set cells |
| Day14.ClearIfSet | day-14/src/main.rs:61-78 | one neighbour check clears the neighbour (and its region) only if set, never sets a cell, and keeps the progress of the call |
| Day14.ProgressStep | day-14/src/main.rs:61-78 | a finished call at a set neighbour keeps what the enclosing call has cleared within the region |
| Day14.ProgressDone | day-14/src/main.rs:57-79 | once the four neighbours are checked the call has cleared a closed part of the region |
| Day14.CreateGrid | day-14/src/main.rs:35-41 | the grid's set cells are exactly those of the 128 rows |
| Day14.GridSpecRow | day-14/src/main.rs:38 | row x of the grid is `create_row(input, x)` |
| Day14.SetRow | day-14/src/main.rs:38 | storing a row changes that row only |
| Day14.ClearedComponent | day-14/src/main.rs:57-79 | the cells one call clears from a set cell form its region: connected to it and closed under adjacency |
| Day14.RegionStep | day-14/src/main.rs:90-93 | clearing from a set cell adds its region as a new region |
| Day14.NumberOfRegions | day-14/src/main.rs:83-98 | the count is the number of 4-connected regions of set cells of `create_grid(input)`: the cleared regions are disjoint, each closed and connected, and together cover every set cell |
| Day14.ScanPast | day-14/src/main.rs:88-95 | once the scan has passed a cell no set cell remains before it |
| Day15.Gen | day-15/src/main.rs:49 | one step of a generator lands below the modulus 2^31 - 1 |
| Day15.ProductFits | day-15/src/main.rs:27-49 | the product of a previous value and a factor that fit 32 bits never overflows the `u64` multiplication |
| Day15.NextSpec | day-15/src/main.rs:46-54 | a value `next` returns is below the modulus and a multiple of `multiple_of` |
| Day15.NextSpecFirst | day-15/src/main.rs:48-53 | `next` returns the value of the first step that is a multiple of `multiple_of`, skipping every earlier step |
| Day15.NextSpecNone | day-15/src/main.rs:48-51 | when no step within the bound is a multiple, nothing is returned |
| Day15.NextUnfiltered | day-15/src/main.rs:38-53 | without a filter (`multiple_of` of 1) `next` is exactly one step |
| Day15.NextMoreFuel | day-15/src/main.rs:48-51 | a value found within some steps is the value found with any larger bound |
| Day15.Generator.constructor | day-15/src/main.rs:37 | the factor and the multiple are kept and the seed becomes the previous value |
| Day15.Generator.NewA | day-15/src/main.rs:38 | generator A: factor 16807, multiple 4 when asked for and 1 otherwise |
| Day15.Generator.NewB | day-15/src/main.rs:39 | generator B: factor 48271, multiple 8 when asked for and 1 otherwise |
| Day15.Generator.Next | day-15/src/main.rs:46-54 | the do-while loop returns the first step that is a multiple and leaves that value as the previous one; the factor and the multiple do not change |
| Day15.AdvanceSnoc | day-15/src/main.rs:49 | n + 1 steps are one step after n steps |
| Day15.Outputs | day-15/src/main.rs:61-62 | the first `n` values of a generator, when they exist, are `n` values |
| Day15.Matches | day-15/src/main.rs:63-64 | the count of agreeing pairs is at most the number of pairs |
| Day15.Judge | day-15/src/main.rs:61-64 | a count exists exactly when both generators give their values, and it is at most the number of pairs |
| Day15.Duel | day-15/src/main.rs:61-64 | the pair-by-pair count of the zipped generators is at most `range` |
| Day15.DuelJudge | day-15/src/main.rs:61-64 | counting pair by pair, as `zip` and `take` do, equals counting over the two generators' value sequences |
| Day15.MatchesCons | day-15/src/main.rs:63-64 | the count is the first pair's agreement plus the count over the rest |
| Day15.MatchingLower16 | day-15/src/main.rs:58-65 | `matching_lower_16` counts, among the first `range` pairs of values, those whose lowest 16 bits agree; the generators keep their factor and multiple |
| Day15.NextPair | day-15/src/main.rs:61 | one item of `zip`: A's next value, then B's; the pair exists exactly when both do |
| Day15.OutputsUnfiltered | day-15/src/main.rs:76-82 | without a filter the i-th value is the (i + 1)-th step |
| Day15.StepBy | day-15/src/main.rs:49 | a step whose product has quotient q and remainder v by the modulus gives v |
| Day15.SampleStepsA | day-15/src/main.rs:76-78 | generator A from seed 65 steps to 1092455, 1181022009, 245556042, 1744312007, 1352636452 |
| Day15.SampleStepsB | day-15/src/main.rs:80-82 | generator B from seed 8921 steps to 430625591, 1233683848, 1431495498, 137874439, 285222916 |
| Day15.FiveOutputs | day-15/src/main.rs:76-82 | without a filter the first five values are the first five steps |
| Day15.SampleUnfiltered | day-15/src/main.rs:75-83 | both sample generators without a filter give the expected first five values |
| Day15.NextBy | day-15/src/main.rs:48-53 | a step whose value is a multiple is the value `next` returns; any other step is skipped and the search goes on from its value |
| Day15.OutputsOf | day-15/src/main.rs:61-62 | values that `next` returns one after another, each from the one before it, are the generator's first values |
| Day15.SampleFilteredA | day-15/src/main.rs:87-89 | generator A from seed 65, keeping multiples of 4, gives 1352636452, 1992081072, 530830436, 1980017072, 740335192 |
| Day15.SampleFilteredB | day-15/src/main.rs:91-93 | generator B from seed 8921, keeping multiples of 8, gives 1233683848, 862516352, 1159784568, 1616057672, 412269392 |
| Day15.SampleFiltered | day-15/src/main.rs:86-93 | with the filters both sample generators give the five values the test expects |
| Day15.LowerOf | day-15/src/main.rs:59-63 | the lowest 16 bits of a value are its remainder by 2^16 |
| Day15.MatchesFive | day-15/src/main.rs:63-64 | the count over five pairs is the sum of their agreements |
| Day15.SampleJudge | day-15/src/main.rs:61-64 | of the first five unfiltered sample pairs exactly one agrees in its lowest 16 bits |
| Day16.ParseIndex | day-16/src/main.rs:29 | a `usize` operand reads exactly when the text is a decimal `usize` |
| Day16.ParseChar | day-16/src/main.rs:101 | a `char` operand reads exactly when the text is one character |
| Day16.GetParts | day-16/src/main.rs:98-106 | the text after the letter split on `/`: succeeds exactly when there are two pieces or more and the first two parse, giving those two; later pieces are never read |
| Day16.ParseInstruction | day-16/src/main.rs:27-39 | an empty text or a first letter other than s, x, p panics; `s` reads a spin of the number after it, `x` an exchange of two positions, `p` a partner move of two characters |
| Day16.ParseEach | day-16/src/main.rs:27-40 | every piece's result, in order |
| Day16.ParsePieces | day-16/src/main.rs:26-41 | one instruction per comma-separated piece of the trimmed text, each the parse of its piece; a single bad piece makes the parse panic |
| Day16.ParseShow | day-16/src/main.rs:27-39 | every instruction written as `sN`, `xA/B` or `pA/B` reads back as itself |
| Day16.ParseShowSpin | day-16/src/main.rs:29 | `sN` reads back as the spin |
| Day16.ParseShowExchange | day-16/src/main.rs:30-33 | `xA/B` reads back as the exchange |
| Day16.ParseShowPartner | day-16/src/main.rs:34-37 | `pA/B` reads back as the partner move |
| Day16.Rotated | day-16/src/main.rs:58-61 | a rotation keeps the length |
| Day16.Swap | day-16/src/main.rs:64 | the two positions exchanged, every other position unchanged |
| Day16.Position | day-16/src/main.rs:67-68 | the first position holding the character, `None` exactly when it is absent |
| Day16.Move | day-16/src/main.rs:56-71 | a move that does not panic keeps the length of the line |
| Day16.SpinMovesLast | day-16/src/main.rs:57-62 | a spin of n ≤ length moves the last n programs to the front, in order |
| Day16.PartnerSwapsNames | day-16/src/main.rs:66-70 | in a line of distinct programs, a partner move exchanges the two named programs and keeps the others in place |
| Day16.MovePermutes | day-16/src/main.rs:56-71 | every move only reorders the programs |
| Day16.DancePermutes | day-16/src/main.rs:55-72 | a whole round only reorders the programs |
| Day16.IndexOf | day-16/src/main.rs:76-78 | the first round an order was seen in |
| Day16.RunFixedCorrect | day-16/src/main.rs:44-95 | the corrected shortcut ends in the order that `limit` full rounds of the dance give |
| Day16.SearchFixedCorrect | day-16/src/main.rs:53-91 | from any round, the corrected loop ends in the order of `limit` rounds |
| Day16.CycleCase | day-16/src/main.rs:78-88 | at the first repeat the corrected jump lands on the order of `limit` rounds |
| Day16.CycleJump | day-16/src/main.rs:81-83 | the target round is inside the history and its order is that of `limit` rounds |
| Day16.RoundsShortcut | day-16/src/main.rs:81-83 | an order first seen after a rounds that comes back after b: `limit` rounds end where a + (limit − b) % (b − a) rounds do |
| Day16.CyclePanics | day-16/src/main.rs:76-88 | as written the shortcut panics for "abc" with no instructions and a limit of 2, where two rounds give "abc" |
| Day16.SpinInPlace | day-16/src/main.rs:57-62 | popping the last program and inserting it at the front, `number` times, is the spin (panics on an empty line) |
| Day16.RotatedStep | day-16/src/main.rs:59-60 | one pop and insert rotates one further |
| Day16.ApplyMove | day-16/src/main.rs:56-71 | one pass of the instruction loop applies the move in place |
| Day16.DanceInPlace | day-16/src/main.rs:55-72 | the instruction loop is one round of the dance |
| Day16.FindKey | day-16/src/main.rs:85-86 | finds a key with the target value, `None` exactly when there is none |
| Day16.RunInstructions | day-16/src/main.rs:44-95 | the loop with the map of known orders computes the run as written, shortcut included |
| Day16.CycleBeginning | day-16/src/main.rs:76-78 | the round the map holds for an order seen before is the round it was first seen in |
| Day16.LookUpShortcut | day-16/src/main.rs:78-88 | the `Some(cycle_beginning)` arm computes the shortcut as written |
| Day16.KnownLookup | day-16/src/main.rs:76-86 | after the overwrite the only key with a target round is that round's order, and none has the round the cycle began in |
| Day16.ParseSample | day-16/src/main.rs:112-128 | "s1,x3/4,pe/b" reads as spin 1, exchange 3/4, partner e/b |
| Day16.SamplePieces | day-16/src/main.rs:112 | the sample splits into its three pieces |
| Day16.SampleRound | day-16/src/main.rs:127-139 | the sample round: spin one, swap the last two, swap e and b |
| Day16.SampleRound1 | day-16/src/main.rs:130-133 | one round takes abcde to baedc |
| Day16.SampleRound2 | day-16/src/main.rs:135-138 | the next takes baedc to ceadb |
| Day16.SampleRound3 | day-16/src/main.rs:142-149 | the next takes ceadb to ecbda |
| Day16.SampleRound4 | day-16/src/main.rs:142-149 | the next takes ecbda back to abcde |
| Day16.RunSampleShort | day-16/src/main.rs:127-139 | one and two rounds of the sample give baedc and ceadb |
| Day16.RunSampleCycle | day-16/src/main.rs:141-149 | 1234 rounds by the shortcut give ceadb: the fifth round repeats the first |
| Day16.ShortcutSample | day-16/src/main.rs:81-88 | the shortcut over the four sample orders picks ceadb for 1234 rounds |
| Day16.SpinSample | day-16/src/main.rs:114-124 | spinning abcde by 3 gives cdeab |
| Day17.Insert | day-17/src/main.rs:29 | `Vec::insert`: one more element, the value at the index, the elements before it unchanged and those after it moved one place on |
| Day17.NextPosition | day-17/src/main.rs:13-28 | the insert index `(position + step) % len + 1` is between 1 and the length |
| Day17.Spin | day-17/src/main.rs:24-30 | after n inserts the buffer holds n + 1 values and the current position is within it, past index 0 once anything was inserted |
| Day17.NextValue | day-17/src/main.rs:23-33 | `next_value`, inserting into a growing buffer, returns the value after the last one inserted once `limit` values are in |
| Day17.InsertDistinct | day-17/src/main.rs:29 | inserting a value that is not yet there keeps the values distinct |
| Day17.InsertKeeps | day-17/src/main.rs:29 | inserting keeps every value already there |
| Day17.SpinValues | day-17/src/main.rs:24-30 | after n inserts the buffer holds each of 0 ..= n exactly once and nothing else |
| Day17.SpinZeroFirst | day-17/src/main.rs:24-29 | 0 stays at index 0, since every insert index is at least 1 |
| Day17.SpinLast | day-17/src/main.rs:28-29 | the current position holds the last value inserted |
| Day17.NextFollowsLimit | day-17/src/main.rs:7-32 | part 1's answer is the value that follows `limit` round the buffer, wherever `limit` is found |
| Day17.AfterZeroFollows | day-17/src/main.rs:7 | the value at index 1 (0 itself while alone) is the value that follows 0 round the buffer |
| Day17.AfterZeroStep | day-17/src/main.rs:13-16 | an insert changes the value after 0 exactly when it lands at index 1 |
| Day17.FirstValue | day-17/src/main.rs:8-20 | `first_value`, following only the position with the length equal to the value about to be inserted, returns the value after 0 in `next_value`'s buffer after `limit - 1` inserts, and 0 for a limit of 0 |
| Day17.FirstValueOneShort | day-17/src/main.rs:7-12 | with a limit of 1 `first_value` answers 0, though after one insert the value after 0 is 1 |
| Day17.FirstValueFixed | day-17/src/main.rs:7-20 | with the range `1 ..= limit`, the value that follows 0 once `limit` values are in |
| Day17.SampleThree | day-17/src/main.rs:27-32 | with a step of 3 three inserts give `0 2 3 1` at position 2: part 1 gives 1 and the value after 0 is 2 |
| Day18Instructions.GetRegister | day-18/src/instructions.rs:16-18 | the stored value of the register, or 0 for a register never written |
| Day18Instructions.ParseRegisterName | day-18/src/instructions.rs:21-27 | accepted exactly when the trimmed input is one UTF-8 byte long, which is then the name; otherwise the error carries the input |
| Day18Instructions.ByteLenOne | day-18/src/instructions.rs:22 | a string one UTF-8 byte long is one ASCII character |
| Day18Instructions.RegisterNameOfChar | day-18/src/instructions.rs:21-27 | any ASCII character that is not whitespace names a register |
| Day18Instructions.ValueFromStr | day-18/src/instructions.rs:39-45 | an `i64` literal is a number; otherwise a one-byte trimmed text is a register; anything else is an error |
| Day18Instructions.ValueOfLetter | day-18/src/instructions.rs:39-45 | a letter is a register, not a number |
| Day18Instructions.Get | day-18/src/instructions.rs:49-54 | a register reads the register file (0 if unset), a literal is itself |
| Day18Instructions.ParseOp | day-18/src/instructions.rs:82-95 | a word is an op code exactly when it is one of the seven names |
| Day18Instructions.ParseRegisterValuePair | day-18/src/instructions.rs:69-71 | succeeds exactly when the register name and the value both parse, giving the instruction of the requested op |
| Day18Instructions.InstructionFromStr | day-18/src/instructions.rs:76-101 | fewer than two words is an error; a parsed instruction's op is the first word; every op but `snd` and `rcv` needs exactly three words; an unknown op code is an error |
| Day18Instructions.FromWords | day-18/src/instructions.rs:79-100 | the same, once the line is split into words |
| Day18Instructions.ParseEach | day-18/src/instructions.rs:6 | every line's result, in order |
| Day18Instructions.ParseLines | day-18/src/instructions.rs:5-7 | one instruction per line of the trimmed text, each the parse of its line; a single bad line makes the parse panic |
| Day18.Rem | day-18/src/main.rs:42 | `%` on `i64` truncates: the remainder has the sign of the dividend and is smaller than the divisor in magnitude |
| Day18.QuotRem | day-18/src/main.rs:42 | the truncated quotient and remainder put the dividend back together |
| Day18.Combine | day-18/src/main.rs:39-42 | the closures of set, add, mul and mod; only `mod` by 0 panics |
| Day18.UpdateRegister | day-18/src/main.rs:15-23 | the register is set to the closure of its old value (0 when absent) and the operand, every other register unchanged; panics exactly when the closure does |
| Day18.Exec | day-18/src/main.rs:35-49 | a counter outside the program panics; `rcv` of a non-zero register stops with the last sound; every instruction but `jgz` moves to the next; `snd` records the sound and changes no register |
| Day18.Updated | day-18/src/main.rs:39-46 | an arithmetic instruction either panics or moves to the next instruction with the same last sound |
| Day18.FindFirstRecovered | day-18/src/main.rs:26-53 | the loop updating counter, sound and registers in place computes the run, within the fuel bound |
| Day18.RunMoreFuel | day-18/src/main.rs:34-50 | more fuel does not change a run that ended |
| Day18.RunNext | day-18/src/main.rs:34-50 | an instruction that continues leaves the rest of the run to the next state |
| Day18.SampleExec | day-18/src/main.rs:154-165 | each of the first eleven instructions of the sample run moves to the next listed state |
| Day18.RunThrough | day-18/src/main.rs:34-50 | a run through a chain of states ending in a recovery recovers that sound |
| Day18.SampleStates | day-18/src/main.rs:154-165 | the twelve states of the sample run |
| Day18.SampleLast | day-18/src/main.rs:161 | the twelfth instruction, `rcv a` with a = 1, recovers 4 |
| Day18.SampleFromStart | day-18/src/main.rs:191-197 | the sample recovers 4 within 12 instructions |
| Day18.SampleRecovers | day-18/src/main.rs:191-197 | with any fuel of at least 12 the sample recovers 4 |
| Day19.GetTile | day-19/src/main.rs:62-65 | the character at the position inside the maze, a space anywhere outside it |
| Day19.Next | day-19/src/main.rs:70-75 | one cell on in the direction; a step up from row 0 or left from column 0 is the `usize` underflow panic |
| Day19.TravelShape | day-19/src/main.rs:67-86 | every straight run that does not panic takes at least one step, passes only path tiles, stops on the first space or `+`, reports whether it was a `+`, and appends the letters it passed in order |
| Day19.RunShapeStep | day-19/src/main.rs:78-84 | a step onto a path tile in front of such a run extends it |
| Day19.TravelTo | day-19/src/main.rs:67-86 | conversely, a run whose tiles up to k - 1 cells on are path tiles and whose tile k cells on is a space or a `+` stops there after k steps with those letters |
| Day19.Turn | day-19/src/main.rs:43-56 | at a `+` a vertical walk turns left exactly when the tile to its left is not a space, else right; a horizontal walk turns up exactly when the tile above is not a space, else down; peeking left of column 0 or above row 0 panics |
| Day19.FirstIndex | day-19/src/main.rs:36 | the index of the first occurrence of the character, absent exactly when the row lacks it |
| Day19.WalkDone | day-19/src/main.rs:42-59 | a finished walk took at least one more step, kept the letters it had and added only letters after them |
| Day19.LettersAheadAreLetters | day-19/src/main.rs:82-83 | only tiles other than `|`, `-`, `+` and space are collected |
| Day19.WalkMoreFuel | day-19/src/main.rs:42-57 | a walk that ended within some runs ends the same with more |
| Day19.TravelInPlace | day-19/src/main.rs:67-86 | `travel`, updating the position, the steps and the letters one step at a time, ends as the straight run does |
| Day19.RunMaze | day-19/src/main.rs:27-60 | `run_maze` panics on an empty input or a top row without `|`, and otherwise walks from that `|` downwards run by run, turning at each `+`, and returns the letters and steps of the walk |
| Day19.TravelOn | day-19/src/main.rs:78-84 | a step onto a path tile continues the run from there, collecting the tile when it is a letter |
| Day19.TravelStop | day-19/src/main.rs:80-81 | a step onto a space or a `+` ends the run there |
| Day19.SampleRun1 | day-19/src/main.rs:92-98 | the sample's first run goes down from (5, 0) to the `+` at (5, 5), collecting `A` in 5 steps |
| Day19.SampleRun2 | day-19/src/main.rs:92-98 | the second run goes right to (8, 5), collecting `B`, at 8 steps |
| Day19.SampleRun3 | day-19/src/main.rs:92-98 | the third run goes up to (8, 1), at 12 steps |
| Day19.SampleRun4 | day-19/src/main.rs:92-98 | the fourth run goes right to (11, 1), at 15 steps |
| Day19.SampleRun5 | day-19/src/main.rs:92-98 | the fifth run goes down to (11, 5), collecting `C`, at 19 steps |
| Day19.SampleRun6 | day-19/src/main.rs:92-98 | the sixth run goes right to (14, 5), at 22 steps |
| Day19.SampleRun7 | day-19/src/main.rs:92-98 | the seventh run goes up to (14, 3), collecting `D`, at 24 steps |
| Day19.SampleRun8 | day-19/src/main.rs:92-98 | the last run goes left, collecting `E` and `F`, and leaves the path at (0, 3) after 38 steps |
| Day19.WalkOn | day-19/src/main.rs:42-57 | a run that stops on a `+`, with its turn, continues the walk from the corner in the new direction |
| Day19.WalkEnd | day-19/src/main.rs:42-59 | a run that stops on a space ends the walk with its letters and steps |
| Day19.SampleTurns | day-19/src/main.rs:43-56 | the turns the sample walk takes at its seven corners |
| Day19.SampleWalkFrom6 | day-19/src/main.rs:92-98 | the sample walk from its seventh run ends with `ABCDEF` in 38 steps |
| Day19.SampleWalkFrom1 | day-19/src/main.rs:92-98 | the sample walk from its second run ends with `ABCDEF` in 38 steps |
| Day19.SampleWalkFrom3 | day-19/src/main.rs:92-98 | the sample walk from its fourth run ends with `ABCDEF` in 38 steps |
| Day19.SampleWalk | day-19/src/main.rs:92-98 | the whole sample walk collects `ABCDEF` in 38 steps |
| Day19.SampleRowsClean | day-19/src/main.rs:32 | the sample's rows hold no line break |
| Day19.SampleLines | day-19/src/main.rs:32 | the sample text splits into the six rows of the maze |
| Day19.SampleRunMaze | day-19/src/main.rs:100-106 | `run_maze` on the sample text gives `ABCDEF` and 38 |
| Day20Vectors.Abs | day-20/src/vectors/mod.rs:18 | the absolute value of a component is the component or its negation |
| Day20Vectors.Manhattan | day-20/src/vectors/mod.rs:17-18 | the distance from the origin is never negative, is 0 exactly at the origin, and bounds every component's absolute value |
| Day20Vectors.AddLaws | day-20/src/vectors/mod.rs:21-27 | component-wise addition is commutative and associative, has the origin as identity, and adding a negation undoes it |
| Day20Vectors.ManhattanTriangle | day-20/src/vectors/mod.rs:17-27 | the distance of a sum is at most the sum of the distances |
| Day20Vectors.LessEqOrder | day-20/src/vectors/mod.rs:7 | the derived ordering (x, then y, then z) is a total order |
| Day20Vectors.FromStr | day-20/src/vectors/mod.rs:35-69 | a trimmed text not starting with `<` or not ending with `>` is an error in that order; a vector read was bracketed, had exactly three comma-separated pieces inside, and its components are those pieces read as `i32`s |
| Day20Vectors.InnerOf | day-20/src/vectors/mod.rs:46-50 | the pieces between the brackets of `<px,py,pz>` are the three texts |
| Day20Vectors.BracketsTrimmed | day-20/src/vectors/mod.rs:39 | a text from `<` to `>` has nothing to trim |
| Day20Vectors.FromStrInner | day-20/src/vectors/mod.rs:52-66 | a bracketed text with three pieces that parse reads as those components |
| Day20Vectors.FromStrOf | day-20/src/vectors/mod.rs:35-69 | `<px,py,pz>` with `i32` pieces reads as the vector |
| Day20Vectors.ComponentOf | day-20/src/vectors/mod.rs:49 | a printed `i32` holds no comma and reads back as itself |
| Day20Vectors.FromStrShow | day-20/src/vectors/mod.rs:35-69 | every vector of `i32`s, written `<x,y,z>`, reads back as itself |
| Day20Vectors.SampleComponents | day-20/src/vectors/mod.rs:49 | ` 4`, `3` and `-1` read as 4, 3 and -1 |
| Day20Vectors.SampleVector | day-20/src/main.rs:78-82 | `< 4,3,-1>` reads as (4, 3, -1) |
| Day20Particle.Step | day-20/src/particle.rs:15-18 | a step adds the acceleration to the velocity, then the new velocity to the position; the acceleration stays |
| Day20Particle.StepsUniform | day-20/src/particle.rs:15-18 | without acceleration a particle moves by its velocity on every step |
| Day20Particle.DigitRun | day-20/src/particle.rs:23 | the run of decimal digits `\d+` at the start of a text, and no more |
| Day20Particle.Expect | day-20/src/particle.rs:23 | a literal character of the pattern matches exactly when the text starts with it |
| Day20Particle.AfterNumber | day-20/src/particle.rs:23 | `-?\d+` consumes at least one character |
| Day20Particle.AfterComponent | day-20/src/particle.rs:23 | `\s*-?\d+` followed by the separator consumes at least one character |
| Day20Particle.AfterVector | day-20/src/particle.rs:23 | a vector `<\s*-?\d+,\s*-?\d+,\s*-?\d+>` consumes at least one character |
| Day20Particle.Vector | day-20/src/particle.rs:23 | a captured vector is the front of the text, the rest following it |
| Day20Particle.AfterVectorSuffix | day-20/src/particle.rs:23 | what follows a matched vector is a suffix of the text |
| Day20Particle.AfterNumberSuffix | day-20/src/particle.rs:23 | what follows a matched number is a suffix of the text |
| Day20Particle.FromStr | day-20/src/particle.rs:27-49 | a trimmed line that does not match is the "not detected" error; otherwise the first of position, velocity and acceleration that fails to parse is the error, and when all three parse the particle holds them |
| Day20Particle.AfterNumberOf | day-20/src/particle.rs:23 | a printed number matches `-?\d+` |
| Day20Particle.AfterComponentOf | day-20/src/particle.rs:23 | a printed number and its separator match one component |
| Day20Particle.AfterBlankComponentOf | day-20/src/particle.rs:23 | whitespace, a printed number and its separator match one component |
| Day20Particle.AfterVectorOf | day-20/src/particle.rs:23 | a written vector matches the vector pattern up to what follows |
| Day20Particle.VectorOf | day-20/src/particle.rs:23 | a written vector is captured whole |
| Day20Particle.VectorTextValue | day-20/src/particle.rs:33-35 | a captured vector written with whitespace after its bracket reads as that vector |
| Day20Particle.FieldOf | day-20/src/particle.rs:23 | the separator `,\s*v=` or `,\s*a=` is matched |
| Day20Particle.FieldsOf | day-20/src/particle.rs:23 | the written velocity and acceleration are matched and captured |
| Day20Particle.CapturesOf | day-20/src/particle.rs:21-25 | a written particle matches, with its three vectors as the captures |
| Day20Particle.TextTrimmed | day-20/src/particle.rs:31 | a written particle has nothing to trim |
| Day20Particle.FromStrText | day-20/src/particle.rs:27-49 | a written particle of `i32` components, with any whitespace the pattern allows, reads back as itself |
| Day20Particle.FromStrOfCaptures | day-20/src/particle.rs:31-44 | a trimmed line that matches, with three vectors that parse, reads as the particle of those vectors |
| Day20Particle.FromStrIndented | day-20/src/particle.rs:31 | leading whitespace is trimmed before the match |
| Day20Particle.FromStrShow | day-20/src/particle.rs:27-49 | `p=<x,y,z>, v=<x,y,z>, a=<x,y,z>` reads back as the particle |
| Day20.ParseEach | day-20/src/main.rs:19 | each line's result, in order |
| Day20.Slowest | day-20/src/main.rs:23-29 | panics exactly on an empty list; otherwise the index of a particle whose acceleration has the least distance, the first such one |
| Day20.StepAll | day-20/src/main.rs:42 | every particle stepped, in place, in order |
| Day20.Insert | day-20/src/main.rs:45 | the particle placed before the first one whose position is not below its own, keeping every particle |
| Day20.SortByPosition | day-20/src/main.rs:45 | sorting keeps the number of particles |
| Day20.InsertSorted | day-20/src/main.rs:45 | inserting into a list sorted by position keeps it sorted and adds only that particle |
| Day20.SortByPositionSpec | day-20/src/main.rs:45 | `sort_by_key` on the position sorts and only reorders the particles |
| Day20.RunEnd | day-20/src/main.rs:55-57 | the run of particles from an index on that share one position, and the first that does not |
| Day20.RemoveRun | day-20/src/main.rs:54-59 | the removals at one index remove at least two particles |
| Day20.RemovePass | day-20/src/main.rs:48-61 | a pass without a collision leaves the particles alone; one with a collision removes at least two; the `len() - 1` underflow on a list emptied during the pass panics |
| Day20.RemovePassCollided | day-20/src/main.rs:48-61 | a pass only removes particles: each one removed shared its position with another particle of the list |
| Day20.RemoveRunCollided | day-20/src/main.rs:54-58 | the removals at one index take only particles at that index's position, of which there were at least two, and raise no position's count |
| Day20.RemovesCollidedTrans | day-20/src/main.rs:48-61 | removals that each take only collided particles, one after the other, take only collided particles of the first list |
| Day20.CountAtSort | day-20/src/main.rs:45 | sorting keeps the number of particles at every position |
| Day20.RoundCollided | day-20/src/main.rs:39-61 | every particle a round destroys shared its position, after the step, with another particle |
| Day20.PassSkipsSlid | day-20/src/main.rs:48-61 | on two pairs at two positions, `[a, a, b, b]`, the pass removes the first pair, skips the particle that slid into its place and leaves the second pair, still at one position |
| Day20.RoundSkipsSlid | day-20/src/main.rs:39-61 | a round over two pairs that land at two positions leaves the second pair in place |
| Day20.RemoveAll | day-20/src/main.rs:48-61 | the pass with the index kept after a removal: without a collision nothing changes, with one at least two particles go |
| Day20.RemoveAllDistinct | day-20/src/main.rs:48-61 | on a sorted list, that pass removes exactly the collided particles: every particle removed shared its position, every particle kept was alone at its position, and the list left is sorted with pairwise distinct positions |
| Day20.RoundFixed | day-20/src/main.rs:39-61 | a round with the corrected pass keeps at most the particles it had |
| Day20.RoundFixedDistinct | day-20/src/main.rs:39-61 | a corrected round destroys exactly the particles that collided: every particle destroyed shared its position after the step, every particle left was alone at its position after the step, and no two left share a position |
| Day20.RemoveAllPairs | day-20/src/main.rs:48-61 | the corrected pass removes both pairs of `[a, a, b, b]` |
| Day20.Round | day-20/src/main.rs:39-61 | a round without a collision keeps every particle; one with a collision removes at least two |
| Day20.Collisions | day-20/src/main.rs:35-65 | the number of particles left is at most the number at the start |
| Day20.ParticlesLeftAfterCollisions | day-20/src/main.rs:32-66 | `particles_left_after_collisions` stops after 100 rounds in a row without a collision and returns the number of particles left, or panics |
| Day20.StepEach | day-20/src/main.rs:42 | the in-place loop steps every particle |
| Day20.RemoveCollisions | day-20/src/main.rs:48-61 | the `for` loop with its `remove`s does what one pass does |
| Day20.RemoveRunAt | day-20/src/main.rs:55-58 | the inner `while` loop and the `remove(i)` after it remove exactly the particles that share the position at `i`, and that particle |
| Day20.SortOrdered | day-20/src/main.rs:45 | sorting a list already in order changes nothing |
| Day20.LoneParticle | day-20/src/main.rs:32-66 | a lone particle is never destroyed |
| Day20.AnnihilationPanics | day-20/src/main.rs:48 | two particles at one place destroy each other, and the next round panics on `len() - 1` of the empty list |
| Day20.Indent | day-20/src/main.rs:73-74 | the lines after the first, indented as in the sample text |
| Day20.TrimJoin | day-20/src/main.rs:19 | joined lines that do not start or end with whitespace are not trimmed |
| Day20.IndentClean | day-20/src/main.rs:19 | indented lines hold no line break |
| Day20.LinesIndented | day-20/src/main.rs:19 | the lines of trimmed indented text are the indented lines |
| Day20.ParseEachOk | day-20/src/main.rs:19 | lines that each read as a particle give those particles |
| Day20.ParseIndented | day-20/src/main.rs:18-20 | particles written one per line, every line after the first indented, are read back in order |
| Day20.FirstLine | day-20/src/main.rs:73 | the first line of the two-particle sample is the text of its first particle |
| Day20.SecondLine | day-20/src/main.rs:74 | the second line is the text of its second particle |
| Day20.ParseTexts | day-20/src/main.rs:18-20 | two written particles on two lines, the second indented, are read back |
| Day20.SampleParse | day-20/src/main.rs:84-91 | the two-particle sample parses to the expected particles |
| Day20.SampleSlowest | day-20/src/main.rs:94-100 | the slowest particle of the sample is the first |
| Day20.StepMoving | day-20/src/particle.rs:15-18 | an unaccelerated particle moves by its velocity |
| Day20.RemovePassDistinct | day-20/src/main.rs:48-61 | a pass over particles with no neighbours at one position removes nothing |
| Day20.RoundOrdered | day-20/src/main.rs:39-61 | a round over particles that stay in order needs no reordering |
| Day20.RoundApart | day-20/src/main.rs:39-61 | a round in which the particles stay apart removes none |
| Day20.FourFirstRound | day-20/src/main.rs:104-107 | after the collision sample's first step no particles meet |
| Day20.RoundThreeMeet | day-20/src/main.rs:48-61 | a round in which the first three of four sorted particles meet leaves only the fourth |
| Day20.FourSecondRound | day-20/src/main.rs:104-107 | in the second round three of the sample's particles meet at the origin |
| Day20.CollisionsRound | day-20/src/main.rs:38-63 | one round of the loop, then the rest from its result |
| Day20.OneLeftAfterTwoRounds | day-20/src/main.rs:35-65 | a swarm where nothing meets in the first round and all but one meet in the second leaves one particle |
| Day20.SampleCollisions | day-20/src/main.rs:103-113 | the collision sample leaves one particle |
| Day20.CollisionLine1 | day-20/src/main.rs:104 | the first line of the collision sample is the text of its first particle |
| Day20.CollisionLine2 | day-20/src/main.rs:105 | the second line, without its indentation, is the text of the second particle |
| Day20.CollisionLine3 | day-20/src/main.rs:106 | the third line, without its indentation, is the text of the third particle |
| Day20.CollisionLine4 | day-20/src/main.rs:107 | the fourth line, without its indentation, is the text of the fourth particle |
| Day20.LineShaped | day-20/src/main.rs:19 | a written particle starts with `p`, ends with `>` and holds no line break |
| Day20.LineRead | day-20/src/main.rs:19 | a written particle, on its own or indented, reads back as itself |
| Day20.ParseEachFour | day-20/src/main.rs:19 | four lines that each read as a particle give the four particles in order |
| Day20.ParseFour | day-20/src/main.rs:18-20 | four particle lines, the later three indented, parse as the particles the lines read as |
| Day20.SampleCollisionsParse | day-20/src/main.rs:104-107 | `parse` reads the collision sample's text as its four particles |
| Day20.SampleCollisionsParsed | day-20/src/main.rs:109-112 | `particles_left_after_collisions(&parse(INPUT))` on the sample text gives 1 |
| Day21Grid.NumberOfOn | day-21/src/grid.rs:15-20 | the count is the number of on cells of the grid |
| Day21Grid.Reversed | day-21/src/grid.rs:31 | `reverse` puts element \|s\| − 1 − i at i |
| Day21Grid.Flip | day-21/src/grid.rs:29-33 | flipping keeps the number of rows and keeps a square grid square |
| Day21Grid.FlipFlip | day-21/src/grid.rs:29-33 | flipping twice gives the grid back |
| Day21Grid.Transpose | day-21/src/grid.rs:44-54 | `symmetric` keeps the number of rows and the length of every row |
| Day21Grid.TransposeSquare | day-21/src/grid.rs:44-54 | on a square grid `symmetric` is the transpose: cell (i, j) of the result is cell (j, i) |
| Day21Grid.TransposeTranspose | day-21/src/grid.rs:44-54 | transposing a square grid twice gives it back |
| Day21Grid.Symmetric | day-21/src/grid.rs:44-54 | the copy overwritten cell by cell is the transpose |
| Day21Grid.Rotate | day-21/src/grid.rs:63-67 | a transpose then a flip keeps the number of rows |
| Day21Grid.RotateSquare | day-21/src/grid.rs:66-67 | on a square grid, transpose then flip is a quarter turn anticlockwise |
| Day21Grid.RotateTwice | day-21/src/grid.rs:62-69 | two quarter turns are a half turn |
| Day21Grid.HalfTurnTwice | day-21/src/grid.rs:62-69 | two half turns give the grid back |
| Day21Grid.HalfTurnsTwo | day-21/src/grid.rs:61-69 | four quarter turns give the grid back |
| Day21Grid.Turn | day-21/src/grid.rs:62-69 | k quarter turns keep the number of rows |
| Day21Grid.RotateFour | day-21/src/grid.rs:61 | after four rounds the turning grid is the start again |
| Day21Grid.VariationsFrom | day-21/src/grid.rs:62-69 | k rounds push 2 k grids |
| Day21Grid.VariationsStep | day-21/src/grid.rs:62-69 | one round pushes the transpose, then the quarter turn the next round starts from |
| Day21Grid.Variations | day-21/src/grid.rs:57-72 | the loop pushes exactly the transposes and turns of the four rounds, in order |
| Day21Grid.VariationsFromLast | day-21/src/grid.rs:62-69 | the last grid of k rounds is k quarter turns of the start |
| Day21Grid.VariationsFromSquare | day-21/src/grid.rs:62-69 | every variation of a square grid is square of the same size |
| Day21Grid.VariationsSquare | day-21/src/grid.rs:57-72 | a square grid has 8 variations, all square of its size, and the last is the grid itself |
| Day21Grid.Tile | day-21/src/grid.rs:87-97 | a tile is a square of side `step` |
| Day21Grid.TileAt | day-21/src/grid.rs:86-101 | tile (i, j) is a square of the split's side |
| Day21Grid.SplitSpec | day-21/src/grid.rs:75-108 | the split is square: size / step rows of size / step tiles |
| Day21Grid.TileCells | day-21/src/grid.rs:87-97 | the two innermost loops collect the tile's cells row by row |
| Day21Grid.TileRow | day-21/src/grid.rs:83-103 | one pass of the inner `while` builds one row of tiles, left to right |
| Day21Grid.Split | day-21/src/grid.rs:75-108 | the grid cut into 2 × 2 tiles when its size is even, 3 × 3 otherwise, row of tiles by row of tiles |
| Day21Grid.FlattenChunks | day-21/src/grid.rs:120-122 | concatenating consecutive width-w slices of a row gives the row |
| Day21Grid.MergeRow | day-21/src/grid.rs:118-124 | one merged row is row r of every tile of the tile row, concatenated |
| Day21Grid.Merge | day-21/src/grid.rs:111-129 | `merge` builds one grid row per tile row and tile-row index |
| Day21Grid.SplitMergeable | day-21/src/grid.rs:111-114 | the split of a square grid can be merged, with the split's tile side |
| Day21Grid.MergedRowsOfSplit | day-21/src/grid.rs:116-126 | tile row a of the split gives back rows a·step .. a·step + step − 1 of the grid |
| Day21Grid.MergeSplit | day-21/src/grid.rs:111-129 | merging the split of a square grid gives the grid back |
| Day21Grid.MergedRowOfSplit | day-21/src/grid.rs:118-124 | row r of tile row a of the split is grid row a·step + r |
| Day21Grid.ParseRow | day-21/src/grid.rs:148-156 | a row reads exactly when all its characters are `#` or `.`, `#` as on; otherwise the error names a character of the row that is neither |
| Day21Grid.ParseRows | day-21/src/grid.rs:147-159 | the rows read exactly when each does, in order |
| Day21Grid.FirstBadRow | day-21/src/grid.rs:162-171 | the first row whose length differs from the number of rows, if any |
| Day21Grid.FromStrSpec | day-21/src/grid.rs:143-174 | an accepted text gives a non-empty square grid |
| Day21Grid.RowsAccepted | day-21/src/grid.rs:147-171 | the rows pass both loops exactly when they are made of `#` and `.` and as long as there are rows |
| Day21Grid.FromStrAccepts | day-21/src/grid.rs:143-174 | `from_str` accepts exactly the trimmed texts whose `/`-separated rows are made of `#` and `.` and are as long as there are rows |
| Day21Grid.FromStr | day-21/src/grid.rs:143-174 | the row-by-row loops with early returns compute the text's grid or its first error |
| Day21Grid.ReadRow | day-21/src/grid.rs:148-158 | the cell loop reads one row or returns its first bad character |
| Day21Grid.CheckRows | day-21/src/grid.rs:162-171 | the check loop finds the first row of the wrong length |
| Day21Grid.ParseRowSnoc | day-21/src/grid.rs:150-156 | one more good character adds one cell |
| Day21Grid.ParseRowPrefix | day-21/src/grid.rs:154 | the first bad character is the error of the row |
| Day21Grid.ParseRowsSnoc | day-21/src/grid.rs:147-159 | one more good row adds its cells |
| Day21Grid.ParseRowsPrefix | day-21/src/grid.rs:154 | a bad row after good ones is the error of the text |
| Day21Grid.RowString | day-21/src/grid.rs:188-190 | a row is written one character per cell, `#` for on |
| Day21Grid.RowStrings | day-21/src/grid.rs:181-191 | every row written in order |
| Day21Grid.DebugFmt | day-21/src/grid.rs:177-195 | `Debug` writes every row, a `/` before all but the first |
| Day21Grid.WriteRow | day-21/src/grid.rs:188-190 | the cell loop appends the row's text |
| Day21Grid.DebugStringSnoc | day-21/src/grid.rs:181-191 | one more row adds a `/` and its text (no `/` before the first) |
| Day21Grid.ParseRowString | day-21/src/grid.rs:150-190 | reading a written row gives the row back |
| Day21Grid.FromStrDebug | day-21/src/grid.rs:143-195 | reading back what `Debug` writes gives every non-empty square grid back |
| Day21Grid.DebugStringTrimmed | day-21/src/grid.rs:147 | `Debug`'s text has no surrounding whitespace and no `/` inside a row |
| Day21Grid.ParseRowsStrings | day-21/src/grid.rs:147-159 | reading written rows gives them back |
| Day21Grid.JoinChars | day-21/src/grid.rs:147 | rows of `#` and `.` joined by `/` contain no whitespace |
| Day21Grid.SampleFromStr | day-21/src/grid.rs:229-241 | "##./.#./#.." reads as rows `##.`, `.#.`, `#..` |
| Day21Grid.SampleNumberOfOn | day-21/src/grid.rs:244-248 | that grid has 4 cells on |
| Day21Grid.SampleText | day-21/src/grid.rs:229-241 | `Debug` writes that grid as "##./.#./#.." |
| Day21Grid.DebugTwo | day-21/src/grid.rs:177-195 | a grid of two rows is written as the two rows with a `/` between |
| Day21Grid.DebugThree | day-21/src/grid.rs:177-195 | a grid of three rows is written as its rows with `/` between |
| Day21Grid.DebugFour | day-21/src/grid.rs:177-195 | a grid of four rows is written as its rows with `/` between |
| Day21Grid.RowTexts2 | day-21/src/grid.rs:188-190 | the two-cell rows of the tests are written as their texts |
| Day21Grid.RowTexts3 | day-21/src/grid.rs:188-190 | the three-cell rows of the tests are written as their texts |
| Day21Grid.RowTexts4 | day-21/src/grid.rs:188-190 | the four-cell rows of the tests are written as their texts |
| Day21Grid.ReadTwo | day-21/src/grid.rs:143-174 | two rows of two, written with a `/` between, read back as that grid |
| Day21Grid.ReadThree | day-21/src/grid.rs:143-174 | three rows of three read back as that grid |
| Day21Grid.ReadFour | day-21/src/grid.rs:143-174 | four rows of four read back as that grid |
| Day21Grid.SampleSize | day-21/src/grid.rs:250-261 | `test_size`: the default grid has size 3, and "##/.#" reads as a grid of size 2 |
| Day21Grid.TransposeThree | day-21/src/grid.rs:44-54 | the transpose of a 3 × 3 grid, cell by cell |
| Day21Grid.FlipThree | day-21/src/grid.rs:29-33 | flipping three rows reverses them |
| Day21Grid.ReadStart | day-21/src/grid.rs:265 | "#.#/..#/#.." reads as the start grid of the tests |
| Day21Grid.ReadVar7 | day-21/src/grid.rs:266 | "#../..#/#.#" reads as the expected grid of `test_flip` |
| Day21Grid.ReadVar1 | day-21/src/grid.rs:277 | "#.#/.../##." reads as the expected grid of `test_symmetric` |
| Day21Grid.ReadVar2 | day-21/src/grid.rs:288 | "##./.../#.#" reads as the expected grid of `test_rotate` |
| Day21Grid.SampleFlip | day-21/src/grid.rs:263-272 | `test_flip`: both texts read, and flipping the start grid gives the expected one |
| Day21Grid.SampleSymmetric | day-21/src/grid.rs:274-283 | `test_symmetric`: both texts read, and `symmetric` of the start grid gives the expected one |
| Day21Grid.SampleRotate | day-21/src/grid.rs:285-294 | `test_rotate`: both texts read, and the quarter turn `variations` makes (`symmetric`, then `flip`) gives the expected grid |
| Day21Grid.StartTurns | day-21/src/grid.rs:61-69 | each round from the start grid: its transpose, then the quarter turn the next round starts from, back to the start after four |
| Day21Grid.VariationsCons | day-21/src/grid.rs:62-69 | one round pushes the transpose and the quarter turn ahead of what the later rounds push |
| Day21Grid.VariationsTwo | day-21/src/grid.rs:62-69 | two rounds push two transposes and two quarter turns ahead of what the later rounds push |
| Day21Grid.VariationsLastTwo | day-21/src/grid.rs:62-69 | the last two rounds push exactly their two transposes and two quarter turns |
| Day21Grid.StartVariationsLate | day-21/src/grid.rs:62-69 | the last two rounds from the start grid push its last four variations |
| Day21Grid.StartVariations | day-21/src/grid.rs:57-72 | the eight variations of the start grid, in the order pushed |
| Day21Grid.DedupUnchanged | day-21/src/grid.rs:308-309 | `dedup` leaves a list unchanged exactly when no element equals the next |
| Day21Grid.StartNeighbours | day-21/src/grid.rs:302-313 | neighbouring variations of the start grid differ |
| Day21Grid.DedupApartEight | day-21/src/grid.rs:308-309 | `dedup` keeps eight values each unlike the next |
| Day21Grid.SampleVariations | day-21/src/grid.rs:296-320 | `test_variation`: 8 variations, none removed by `dedup`, the last one the start grid |
| Day21Grid.SplitThree | day-21/src/grid.rs:75-108 | a 3 × 3 grid splits into itself alone |
| Day21Grid.SplitFour | day-21/src/grid.rs:75-108 | a 4 × 4 grid splits into its four 2 × 2 corners, row of tiles by row of tiles |
| Day21Grid.SplitTwoByTwo | day-21/src/grid.rs:75-108 | a 4 × 4 grid splits into the 2 × 2 tiles at rows and columns 0 and 2 |
| Day21Grid.TileTwo | day-21/src/grid.rs:87-97 | a 2 × 2 tile is the two-cell slices of two rows |
| Day21Grid.ReadSquare3 | day-21/src/grid.rs:324 | "..#/#.#/..." reads as the 3 × 3 grid of `test_split` |
| Day21Grid.ReadSquare4 | day-21/src/grid.rs:330 | ".#.#/#..#/##.#/#..." reads as the 4 × 4 grid of `test_split` |
| Day21Grid.ReadTile00 | day-21/src/grid.rs:335 | ".#/#." reads as the expected tile |
| Day21Grid.ReadTile01 | day-21/src/grid.rs:336 | ".#/.#" reads as the expected tile |
| Day21Grid.ReadTile10 | day-21/src/grid.rs:339 | "##/#." reads as the expected tile |
| Day21Grid.ReadTile11 | day-21/src/grid.rs:340 | ".#/.." reads as the expected tile |
| Day21Grid.ReadTiles | day-21/src/grid.rs:335-340 | the four tile texts read as the expected tiles |
| Day21Grid.SampleSplit | day-21/src/grid.rs:322-344 | `test_split`: the 3 × 3 grid splits into itself, the 4 × 4 grid into the four expected tiles |
| Day21Grid.SampleMerge | day-21/src/grid.rs:346-353 | `test_merge`: merging the split of the 4 × 4 grid gives it back |
| Day21Patterns.Apply | day-21/src/Patterns.rs:12-14 | the output of the rule for the grid when there is one, otherwise the grid itself |
| Day21Patterns.Default | day-21/src/Patterns.rs:17-21 | the default patterns have no rules, so they leave every grid as it is |
| Day21Patterns.ParseGrids | day-21/src/Patterns.rs:30-34 | when every part reads, one non-empty square grid per part |
| Day21Patterns.ParseLine | day-21/src/Patterns.rs:30-41 | a line that reads gives a non-empty square input and output; a line that does not split into exactly two parts is an error |
| Day21Patterns.ParseEach | day-21/src/Patterns.rs:29-34 | every line's result, in order |
| Day21Patterns.InsertAllAt | day-21/src/Patterns.rs:43-45 | after inserting a list of keys, a key is present when it was or is in the list, and an inserted key holds the new value |
| Day21Patterns.BuildMapSnoc | day-21/src/Patterns.rs:29-46 | one more line's keys extend the map of the earlier lines |
| Day21Patterns.LastListWith | day-21/src/Patterns.rs:29-46 | the last key list holding a key, if any |
| Day21Patterns.BuildMapMaps | day-21/src/Patterns.rs:29-46 | a key is in the map exactly when some list holds it, and maps to the value of the last list holding it |
| Day21Patterns.KeysWith | day-21/src/Patterns.rs:43 | each rule inserts the variations of its input |
| Day21Patterns.Outputs | day-21/src/Patterns.rs:41 | the output of each rule, in order |
| Day21Patterns.LastRuleFor | day-21/src/Patterns.rs:29-46 | the last rule having a grid among its input's variations, if any |
| Day21Patterns.BuildMaps | day-21/src/Patterns.rs:29-46 | a grid is a key exactly when it is a variation of some rule's input, and maps to the output of the last such rule: a later line overrides an earlier one |
| Day21Patterns.BuildHasInputs | day-21/src/Patterns.rs:43-45 | every square rule input maps to its output unless a later rule has it as a variation |
| Day21Patterns.SelfVariant | day-21/src/grid.rs:61-69 | a square grid is among its own variations |
| Day21Patterns.SquareVariants | day-21/src/Patterns.rs:43 | on square grids the variations inserted are those `variations` computes |
| Day21Patterns.BuildSnoc | day-21/src/Patterns.rs:43-45 | one more rule inserts its variations over the earlier map |
| Day21Patterns.FromStrBadLine | day-21/src/Patterns.rs:36-38 | a line that does not split into exactly two parts makes the whole parse fail |
| Day21Patterns.InsertEach | day-21/src/Patterns.rs:43-45 | the insert loop puts every variation into the map with the same output |
| Day21Patterns.InsertRule | day-21/src/Patterns.rs:40-45 | a parsed line inserts every variation of its input with its output |
| Day21Patterns.FromStr | day-21/src/Patterns.rs:26-49 | the loop over the trimmed text's lines, inserting in place, computes the rules' map or the first line's error |
| Day21Patterns.InsertLines | day-21/src/Patterns.rs:29-48 | the line loop returns the first error or the map of all the rules |
| Day21Patterns.InsertLine | day-21/src/Patterns.rs:30-45 | one pass either ends with that line's error or adds its rule |
| Day21Patterns.FromLinesAll | day-21/src/Patterns.rs:48 | when every line parsed the map is built from all the rules |
| Day21Patterns.FromStrStep | day-21/src/Patterns.rs:29-46 | a failing line ends the parse with its error; a good one adds its rule and its variations |
| Day21.ApplyTiles | day-21/src/main.rs:25-31 | every tile replaced by `apply`, the layout kept |
| Day21.Enhance | day-21/src/main.rs:23-32 | a round that does not panic had a grid that splits and tiles that merge |
| Day21.Iterate | day-21/src/main.rs:19-36 | the loop replaces the grid `no` times by split, apply, merge |
| Day21.Round | day-21/src/main.rs:23-32 | one pass of the loop is one split-apply-merge round |
| Day21.IterateAdd | day-21/src/main.rs:11-14 | a rounds then b more rounds are a + b rounds, as `main` runs 5 then 13 |
| Day21.EnhanceNoRules | day-21/src/main.rs:23-32 | a round in which no tile has a rule leaves a square grid as it is |
| Day21.IterateDefault | day-21/src/main.rs:19-36 | with the default (empty) patterns every round leaves a square grid unchanged |
| Day21.FlattenLength | day-21/src/grid.rs:120-122 | concatenating pieces of width w gives \|ss\| · w cells |
| Day21.MergeUniform | day-21/src/grid.rs:111-129 | merging k × k square tiles of side m gives a square grid of side k · m |
| Day21.EnhanceGrows | day-21/src/main.rs:23-32 | when every tile has a rule one cell wider, a square grid of side n becomes one of side n / step · (step + 1) (3 → 4, 4 → 6, 6 → 9) |

## Left out

- Reading standard input, `include_str!` and printing are left out. Each model starts from the text the program reads; for days 1 and 2 that is the line with its newline already removed by `input.pop()`.
- `day-03/src/main.rs` computes its distance with `f32` square roots. It is not part of this model; `Day03` models the walk and its neighbours from `day-03/src/lib.rs`.
- Day 7 and day 12 are not part of this model.
- Part 2 of day 18, `run_threads`, is not part of this model: it runs two programs on threads that talk over channels.
- `Display` and `Debug` implementations are only modelled where a round trip needs them. `Day20Vectors.Show` writes `<x,y,z>` where the source's `Debug` writes `<x, y, z>`. The `Display` of the day-21 patterns walks a `HashMap` in no fixed order and is left out.
- Integer widths are not modelled: the `u32` sums of days 1, 2, 6, 9 and 13, the `i32` values of days 3, 5, 8, 11 and 20, the `i64` registers of day 18 and the `usize` positions of day 17 and the `u32` step count `steps_taken` of day 19 are unbounded here.
- Day05.NoOfJumps: runs at most `fuel` jumps and answers `OutOfFuel` beyond them, since the source's loop has no bound. The same holds for Day05.RunJumps and Day05.Jumps.
- Day06.HowManyCycles: runs at most `fuel` cycles. The source's loop always ends, but the model does not prove a bound for it.
- Day13.WorkoutFirewallDelay: tries at most `fuel` delays. The source's loop runs forever when every delay is caught; `Day13.AlwaysCaught` gives a firewall for which that happens.
- Day15.Generator.Next: takes at most `fuel` steps to find a multiple and answers `None` beyond them. The same bound is carried by Day15.NextSpec, Day15.Outputs, Day15.Duel, Day15.MatchingLower16 and Day15.NextPair.
- Day15.Generator.constructor: requires a factor of at most `u32::MAX`. The source's factor is a `u64`, and only 16807 and 48271 are ever passed.
- Day20Particle.FromStr: the pattern's `\d` matches every Unicode decimal digit (general category Nd), as the `regex` crate's `\d` does; the model's digit test accepts only `0` to `9`. On a line such as `p=<٣,0,0>, v=<0,0,0>, a=<0,0,0>` (an Arabic-Indic three), the source matches the pattern and then fails in `V3::from_str` with a component error, where the model answers `NotDetected`. Both are errors; only the error differs.
- Day20Particle.DigitRun: counts the ASCII digits `0` to `9` only, for the same reason.
- Day18.FindFirstRecovered: runs at most `fuel` instructions, since the source's loop need not end. The same holds for Day18.Run.
- Day19.RunMaze: walks at most `fuel` straight runs, since a path can close on itself. The same holds for Day19.Walk and Day19.RunMazeSpec.
- KnotHash.SparseHash: requires a non-empty range whenever there is a length to apply. With an empty range the source's `% len` divides by zero. The same precondition is on KnotHash.SparseSpec and Day10.ComputeSparseHash.
- The concrete answers that need many rounds are not proved. These are the answers of day 15's `test_part_1` and `test_part_2` (588 and 309 matching pairs, over 40 million and 5 million pairs of values), one billion dances of day 16, `next_value(3, 2017) == 638` of day 17, the day-14 grid of `flqrgnkx` (8108 squares and 1242 regions) and the reference knot-hash digests. Each other test of a modelled operation is proved from the text or value the test starts from, except the tests named in the next two lines.
- The day-18 program of `test_parse` and `test_first_recovered` is written out by hand as its instructions, `Day18.Sample`. The model proves `find_first_recovered` on it (4), but not that `instructions::parse(INPUT)` reads the test's text as that program.
- Day21Patterns.FromStr: `test_patterns_parse` of day 21, 12 keys after reading two rules, is not proved. Nor is `test_example`, 12 cells on after two rounds from the default grid. Each needs every variation of both rules built and compared, which the verifier does not finish within its limits here.
- Day21Grid.SampleRotate: `test_rotate` calls `rotate90`, which grid.rs does not define. The model proves the expected grid for the quarter turn `variations` makes, `symmetric` then `flip`.

## Findings

| source | as written | input that shows it | evidently intended | confidence | as-written member | corrected member |
|---|---|---|---|---|---|---|
| day-16/src/main.rs:76-88 | `known.insert` overwrites the round an order was first seen at, so when the rounds left are a whole number of cycles, no round in the map equals `target_index` and the `unwrap` panics | programs `abc`, no instructions, limit 2: the order after round 1 is the one after round 0, so the map now holds round 1 only, `remaining` is 0, and the lookup of round 0 finds nothing | keep the first round of each order, or look the target up among the orders in the order they were seen | high (not executed) | Day16.CyclePanics | Day16.RunFixedCorrect |
| day-11/src/main.rs:47-54 | the distance of `(x, y)` is `max(abs x, abs y)` | `nw,n` ends at `(-1, 1)`, which is reported 1 step away but needs 2 moves | `max(abs x, abs y, abs(x - y))`, the number of moves on this hex grid | high (not executed) | Day11.AsWrittenTooShort | Day11.HexNormFewest |
| day-17/src/main.rs:7-20 | `first_value` loops over `1 .. limit`, which is `limit - 1` inserts, while its doc promises the value after 0 once `limit` values are in | limit 1, any step: it answers 0, but after one insert the value after 0 is 1 | loop over `1 ..= limit` | medium (not executed) | Day17.FirstValueOneShort | Day17.FirstValueFixed |
| day-20/src/main.rs:48-61 | after the removals at index `i`, the `for` loop goes on to `i + 1`, so the particle that slid into place `i` is never compared with the one after it | two pairs at two positions, `[a, a, b, b]`: the pass removes the first pair, `b` slides to index 0, the loop moves to index 1, where no pair follows, and both `b` stay though they share a position | stay at `i` after a removal, so that exactly the particles that share a position are removed | high (not executed) | Day20.PassSkipsSlid | Day20.RoundFixedDistinct |
