# A Dafny model of HEDB

HEDB is an encrypted database extension split over two zones: the integrity zone holds the
database and only ciphertext, the privacy zone holds the keys and computes. This project models
the parts of it whose correctness is not visible in one function, and the TPC-H generator that
comes with it, and proves what they are for.

`dafny verify dfyconfig.toml` checks every file.

| files | what they model |
|---|---|
| `ExprSyntax`, `ExprConvert`, `ExprEval`, `ExprCorrect`, `ExprMeaning` | the infix-to-postfix translation in one zone, the stack machine in the other, and what a text means to the two |
| `ShmProtocol`, `ShmInvariant`, `ShmSafety`, `ShmLock`, `ShmService` | the shared-memory protocol: a lock, a handshake, a bitmap of regions, one child per region, one mailbox per region, and what clients get from it |
| `Like` | SQL `LIKE` |
| `ModArith`, `Ring`, `DbgenRandom` | the two random generators and their skip-ahead |
| `DbgenRows`, `DbgenColumns`, `ChunkAlgebra`, `DbgenChunks`, `DbgenGen`, `DbgenKeys`, `DbgenWide` | table rows as functions of the streams, their columns, splitting for any generator, splitting for these tables, the generator itself, exactly when a table splits, and orders at large scales |
| `PartSupp` | the keys that tie parts, suppliers, line items, orders and customers |
| `Octets`, `RrFormat`, `RrRecord`, `RrReplay`, `RrRoundTrip`, `RrStrings`, `Desenitizer` | the record/replay log: its bytes, its writer and its two readers |
| `KleeIr`, `KleeExecutor` | seed-driven path conditions |
| `DecryptPool`, `DecryptProgress` | the parallel decryption threads |
| `Timestamp`, `Base64`, `Bulk`, `GcmIv` | the year of a timestamp, base64, chunked aggregates, the IV counter |
| `Options` | optional values |

## Findings

Eleven promises hold only under a condition the code does not check. Each is stated with that
condition, and with an input that breaks it.

- An expression with `n` operands is computed faithfully if and only if every `-` follows a numeral,
  it has at most 15 operands and operators, it nests at most 16 deep, and `n` is at most 8
  (`ExprCorrect.FaithfulExactly`). After a `)` the `-` is taken for a unary minus
  (`ExprCorrect.MinusAfterParenFails`); a ninth operand overruns the operand arrays
  (`ExprCorrect.NineOperandsFail`).
- A `-` in front of an expression is read as usual, as belonging to the first operand, if and only
  if a single operand follows it (`ExprMeaning.LeadingMinusExactly`): it negates the value of
  everything after it (`ExprMeaning.LeadingMinus`), so `-1+2` is the negated sum
  (`ExprMeaning.MinusOnePlusTwo`).
- Translating such an expression reads the byte below the operator stack if and only if it is an
  operator applied to another operator's result on its left, without parentheses around either
  (`ExprCorrect.ReadsBelowExactly`); `1+2+3` does (`ExprCorrect.SumOfThreeReadsBelow`). The result
  does not depend on that byte (`ExprConvert.ConvertExpr`).
- A region is given to one client only if and only if the bitmap has a clear bit when the server
  scans it (`ShmSafety.ExclusiveIffNotFull`); seventeen clients suffice to break it
  (`ShmSafety.SeventeenClientsCanShare`).
- A client waiting for the lock can still take it if and only if no client has given up in the
  handshake (`ShmLock.CanTakeExactly`). One that has keeps the lock for good
  (`ShmLock.AbandonedLock`), and three steps from the initial state lead there (`ShmLock.GivingUp`).
- The desenitizer stops at the end of a run's log whatever its uninitialised memory holds, if and
  only if the log's last chunk is full or has at least four bytes left (`Desenitizer.StopsExactly`);
  27414 comparisons leave one byte (`Desenitizer.OneByteLeft`).
- The bulk average is defined if and only if there are at least two items and the first is not zero
  (`Bulk.AvgBulk`).
- Replaying the operations of a recorded run answers every one as recorded if and only if each asks
  what was recorded and the first recorded response is not 10086, which the search for a log takes
  for a mismatch (`RrRoundTrip.ReplayRun`, `RrRoundTrip.RecordAndReplay`,
  `RrRoundTrip.MismatchCodeIsLost`). The operators of the privacy zone return 0, -1 or an error of
  the cipher library, whose errors are negative; none of them returns 10086.
- Making the same calls again does that if and only if, at every substring and concatenation, the
  region of the recording and the buffer of the replay held the same `order` words, which copying a
  string does not write (`RrStrings.ReplaySameCalls`). A substring recorded in a region where an
  addition came before is refused in the replay's zeroed buffer (`RrStrings.StaleWordIsRefused`).
- Orders generated in steps are the serial output over every number of processes if and only if the
  scale is below 30000 (`DbgenWide.ProgramSplitsExactly`): from there on two keys come from a 64-bit
  generator that the skip routines do not know. The reference commands for orders at scale 30000
  (tests/tpch/dbgen/reference/cmd_base_sf30000:6-10) are steps of such a load
  (`DbgenWide.ReferenceOrdersFail`). Nothing but those keys goes wrong (`DbgenKeys.SplitsExactly`).
  At those scales an order names a customer, and a line item a part, if and only if its word is not
  -2^63 (`PartSupp.OrderHasCustomer`, `PartSupp.LineItemHasPartSupp`, `PartSupp.LeastWordHasNoPart`).
- A caller of the decryption pool that fails returns without waiting. The next caller's wait still
  leaves it its own bytes if they overlap no job that was pending when it came
  (`DecryptPool.CallerHasItsBytes`); with the same variable on both stacks it can return with the
  first caller's byte (`DecryptPool.StrayOverwrites`).

## Reading the model

- The operators of expressions, the request handler, the operators of the symbolic machine and the
  expression simplifier are parameters: the results hold for any of them. For expressions `+` is
  taken to commute, because the machine adds its operands in the other order than it pops them.
- Integer widths are written out where they matter: the 31-bit and 64-bit generators, the unsigned
  words of the year formula, `int8_t` operand codes, the 32-bit sums.
- Ciphertexts stand for their plaintexts where only the values matter (`Bulk`, `DecryptPool`), and
  are opaque bytes where the bytes matter (`RrFormat`).
- Shifts and masks of disjoint bits are written as multiplications, divisions and sums.
- Uninitialised memory is a parameter (`Junk`), and a length no C program can use ends in a value of
  its own (`Undefined`, `Overflow`).
- In `RrReplay`, `RrRoundTrip` and `Desenitizer` the ghost parameter `e` of a method is any entry;
  the contract says what happens if that entry comes next in the file.
- A lemma whose name ends in `Is` spells a definition out in literal terms, so that the results above
  it can be read without that definition.
- The pool has ten slots in the code and any positive number in `DecryptProgress`.
- A `hide` statement keeps definitions a proof does not need away from the solver.

## Model

| member | source | states |
|---|---|---|
| `ExprConvert.RemoveSpace` | src/integrity_zone/udf/enc_float4.cpp:239-251 | the blanks are removed in place and the other characters keep their order |
| `ExprConvert.ReadNumeral` | src/integrity_zone/udf/enc_float4.cpp:270-345 | the scan reads exactly the maximal digit run and its decimal value |
| `ExprConvert.Converter.PopWhileYields` | src/integrity_zone/udf/enc_float4.cpp:297-305 | popping before an operator is the specification's whatever byte lies below the stack, stops at a full queue, and reads that byte exactly when it empties the stack |
| `ExprConvert.Converter.PushOp` | src/integrity_zone/udf/enc_float4.cpp:270-345 | pushing fails exactly on a full stack |
| `ExprConvert.Converter.ReadOperand` | src/integrity_zone/udf/enc_float4.cpp:270-345 | an operand is queued as an `int8_t` unless the queue is full |
| `ExprConvert.Converter.PopToParen` | src/integrity_zone/udf/enc_float4.cpp:270-345 | a `)` pops to its `(`, or is mismatched, or overflows the queue |
| `ExprConvert.Converter.ReadSymbol` | src/integrity_zone/udf/enc_float4.cpp:270-345 | one symbol on the two arrays does what it does to their abstract contents |
| `ExprConvert.Converter.PopAll` | src/integrity_zone/udf/enc_float4.cpp:270-345 | the end of the text empties the stack or finds an unclosed parenthesis |
| `ExprConvert.ConvertExpr` | src/integrity_zone/udf/enc_float4.cpp:270-345 | the two-array loop refines the conversion function on every text, with its three failures, whatever byte lies below the stack, and tells exactly which texts read it |
| `ExprEval.EvalExpr` | src/privacy_zone/plain_ops/plain_float_ops.c:69-127 | the array machine refines the stack semantics on every byte string, out-of-range accesses included |
| `ExprCorrect.ReadsExpr` | src/integrity_zone/udf/enc_float4.cpp:253-345 | from any state the stack shields, reading an expression queues its postfix form but for the pending operators |
| `ExprCorrect.ConvertsToPostfix` | src/integrity_zone/udf/enc_float4.cpp:253-345 | the whole text becomes the postfix form of its parse tree |
| `ExprCorrect.PostfixPushesValue` | src/privacy_zone/plain_ops/plain_float_ops.c:69-127 | the postfix form of a tree pushes exactly the tree's value, on any stack with room |
| `ExprCorrect.TranslationPreservesValue` | src/privacy_zone/plain_ops/plain_float_ops.c:69-127 | translating and running yields the parse tree's value, one value on the stack and no write past a buffer, for any operators with commuting `+`; which trees there are is `ExprMeaning.GrammarExactly` |
| `ExprCorrect.EvalText` | src/integrity_zone/udf/enc_float4.cpp:347-380 | the pipeline from text with blanks and an operand array to the value, with the overrun of a ninth operand |
| `ExprCorrect.CopyOperands` | src/integrity_zone/udf/enc_float4.cpp:369-371 | the operands fill the eight entries in order, and a ninth overruns them |
| `ExprCorrect.ReadsBelowExactly` | src/integrity_zone/udf/enc_float4.cpp:297-305 | the byte below the operator stack is read if and only if an operator's left operand is an operator's result |
| `ExprCorrect.SumOfThreeReadsBelow` | src/integrity_zone/udf/enc_float4.cpp:297-305 | `1+2+3` reads it |
| `ExprCorrect.ConvertCounts` | src/integrity_zone/udf/enc_float4.cpp:270-345 | each `-` after a `)` costs the output one binary operator |
| `ExprCorrect.BadMinusLosesOperands` | src/integrity_zone/udf/enc_float4.cpp:270-345 | with such a `-` the value differs for some operators and operands |
| `ExprCorrect.TooDeepOverflows` | src/integrity_zone/udf/enc_float4.cpp:270-345 | a text nested deeper than the stack overruns it |
| `ExprCorrect.FaithfulExactly` | src/integrity_zone/udf/enc_float4.cpp:253-380 | the pipeline is right for all operators and all values of `n` operands if and only if the four conditions hold |
| `ExprCorrect.MinusAfterParenFails` | src/integrity_zone/udf/enc_float4.cpp:270-345 | `(1)-2` is a text that fails |
| `ExprCorrect.NineOperandsFail` | src/integrity_zone/udf/enc_float4.cpp:369-371 | `9` with nine operands meets the other conditions and fails |
| `ExprMeaning.GrammarExactly` | src/integrity_zone/udf/enc_float4.cpp:253-345 | the parse trees are exactly those of the grammar by characters: sums of products of powers of atoms, `+ -` and `* / %` from the left and `^` from the right |
| `ExprMeaning.Grouping` | src/integrity_zone/udf/enc_float4.cpp:253-345 | for each of the 36 pairs of operators and any three operands, which of the two goes first in a text without parentheses, said in the characters |
| `ExprMeaning.ParensGroup` | src/integrity_zone/udf/enc_float4.cpp:253-345 | parentheses on either side decide instead |
| `ExprMeaning.LeadingMinus` | src/integrity_zone/udf/enc_float4.cpp:253-345 | a `-` in front negates the value of the whole expression after it |
| `ExprMeaning.LeadingMinusExactly` | src/integrity_zone/udf/enc_float4.cpp:253-345 | that is the usual reading, for all operators and operands, if and only if a single operand follows |
| `ExprMeaning.MinusOnePlusTwo` | src/integrity_zone/udf/enc_float4.cpp:253-345 | `-1+2` is the negated sum |
| `ExprMeaning.MinusAfterParen` | src/integrity_zone/udf/enc_float4.cpp:253-345 | `(1)-2` is the negated second operand |
| `ExprMeaning.ParensDecide` | src/integrity_zone/udf/enc_float4.cpp:253-345 | any text at all, unless it overruns a buffer, is mismatched, unclosed or converted exactly as its parentheses say |
| `ExprMeaning.OthersIgnored` | src/integrity_zone/udf/enc_float4.cpp:270-345 | a character that is no digit, operator or parenthesis changes nothing |
| `ExprMeaning.ToInt8Is` | src/integrity_zone/udf/enc_float4.cpp:270-345 | an operand is cast to the signed byte with the same value modulo 256 |
| `ExprMeaning.ZeroEnds` | src/privacy_zone/plain_ops/plain_float_ops.c:69-127 | what follows a zero byte is not run |
| `ExprMeaning.StepDefined` | src/privacy_zone/plain_ops/plain_float_ops.c:69-127 | a step stays inside the arrays if and only if its operand exists and the stack has what it takes |
| `ExprMeaning.UnknownCode` | src/privacy_zone/plain_ops/plain_float_ops.c:69-127 | a code that is no operator leaves the lower of two operands |
| `ShmInvariant.HandshakeKeepsInv` | src/integrity_zone/interface/cvm_interface.cpp:46-90 | every client step of GET and FREE keeps the invariant |
| `ShmInvariant.MailKeepsInv` | src/integrity_zone/interface/interface.cpp:42-126 | every client step on its mailbox keeps it |
| `ShmInvariant.ServerKeepsInv` | src/privacy_zone/ops_server.cpp:258-299 | every server step keeps it, unless it scans a full bitmap |
| `ShmInvariant.ChildKeepsInv` | src/privacy_zone/ops_server.cpp:190-256 | every child step keeps it |
| `ShmInvariant.RunKeepsInv` | src/privacy_zone/ops_server.cpp:258-299 | it holds in every state of every run, for any number of clients |
| `ShmLock.MutualExclusion` | src/utils/sync.cpp:8-25 | at most one client is between taking and releasing the lock, in every run, full bitmap or not |
| `ShmSafety.AssertsHold` | src/integrity_zone/interface/cvm_interface.cpp:46-90 | both status assertions and the bitmap assertion hold whenever reached |
| `ShmSafety.RegionsAreExclusive` | src/integrity_zone/interface/cvm_interface.cpp:46-74 | no two clients ever hold the same region |
| `ShmSafety.OneChildPerBit` | src/privacy_zone/ops_server.cpp:258-299 | a set bit has exactly one live child and a clear one none, outside the steps that change it |
| `ShmSafety.ChildActsOnlyWhenTold` | src/privacy_zone/ops_server.cpp:190-256 | a child works on a region only while it is SENT and leaves only on EXIT |
| `ShmSafety.ServedExactlyOnce` | src/privacy_zone/ops_server.cpp:215-252 | the requests served in a region are those posted, once each and in order |
| `ShmSafety.RepliesAreAnswers` | src/integrity_zone/interface/interface.cpp:64-126 | every reply is the handler's answer to its own request, and every recorded buffer is what the handler made of it; which requests get a reply and a recording is `ShmService.RepliedExactly` and `ShmService.RecordedExactly` |
| `ShmSafety.RecordsOwnRequest` | src/integrity_zone/interface/interface.cpp:64-126 | the buffer given to the recorder holds the answer, and the posted request if and only if the handler has left that alone |
| `ShmLock.AbandonedLock` | src/integrity_zone/interface/cvm_interface.cpp:53-64 | after a timeout the lock stays taken in every later state of every run and nobody else gets it |
| `ShmLock.GivingUp` | src/integrity_zone/interface/cvm_interface.cpp:46-64 | a run of two clients from the initial state in which one times out |
| `ShmLock.LetGo` | src/integrity_zone/interface/cvm_interface.cpp:46-90 | from every state in which the holder has not given up, finitely many steps of the holder, the server and one child release the lock and move nobody else |
| `ShmLock.CanTakeExactly` | src/integrity_zone/interface/cvm_interface.cpp:46-90 | in every state of every run, a client waiting for the lock can still take it if and only if no client has timed out |
| `ShmSafety.FullGetShares` | src/privacy_zone/ops_server.cpp:267-285 | a GET on a full bitmap hands out a region that has an owner |
| `ShmSafety.ExclusiveIffNotFull` | src/privacy_zone/ops_server.cpp:267-285 | a GET keeps the regions exclusive if and only if a bit is clear |
| `ShmSafety.SeventeenClientsCanShare` | src/privacy_zone/ops_server.cpp:267-285 | a run of seventeen clients from the initial state reaches two holders of one region |
| `ShmService.StepRecords` | src/integrity_zone/interface/interface.cpp:64-126 | a step gives the recorder the buffer exactly when it is the client's own, its request answered and record mode on, and returns an answer exactly after that |
| `ShmService.RecordedExactly` | src/integrity_zone/interface/interface.cpp:64-126 | in every state of every run the recorder has been given, in order and once each, the buffers of the requests answered in record mode, and nothing else |
| `ShmService.RepliedExactly` | src/integrity_zone/interface/interface.cpp:64-126 | in every state of every run a client has one reply for each request it posted, in that order, but for the open one |
| `ShmService.RegionGiven` | src/integrity_zone/interface/cvm_interface.cpp:46-74 | from every state with the lock free and a clear bit, a client can get the region of the first clear bit, with a child of its own |
| `ShmService.RequestServed` | src/integrity_zone/interface/interface.cpp:42-126 | from every state with the server at rest, a client with a region can post any request and get the handler's answer to it, recorded or not, while nobody else moves |
| `ShmService.RegionTakenBack` | src/integrity_zone/interface/cvm_interface.cpp:76-90 | a client can give its region back: its bit is then clear, its owner gone and its child dead |
| `Like.MatchesIffLike` | src/privacy_zone/plain_ops/plain_text_ops.c:18-157 | character-by-character matching holds exactly when the text splits into pieces that fit the pattern's tokens |
| `Like.MatchText` | src/privacy_zone/plain_ops/plain_text_ops.c:18-157 | the code with its shortcuts returns 1 for LIKE and 0 otherwise, on every text and pattern, and terminates |
| `Like.SearchText` | src/privacy_zone/plain_ops/plain_text_ops.c:44-113 | the loop after a `%`, with collapsed wildcards and the first-character filter, finds a match if there is one |
| `Like.LikeAtoms` | src/privacy_zone/plain_ops/plain_text_ops.c:18-157 | the empty pattern, `%`, `_`, an escaped and an ordinary character, and a lone backslash, for every text |
| `Like.LikeConcat` | src/privacy_zone/plain_ops/plain_text_ops.c:18-157 | a text is like two patterns in a row if and only if it can be cut into a part like the first and a part like the second |
| `DbgenRandom.NextRandInvertible` | tests/tpch/dbgen/rnd.c:170-182 | a step is undone by a multiplication, so a nonzero seed stays nonzero |
| `DbgenRandom.StepsInRange` | tests/tpch/dbgen/rnd.c:170-182 | the seed stays in 1..2^31-2 for ever |
| `DbgenRandom.StepsIsPower` | tests/tpch/dbgen/speed_seed.c:94-109 | n steps multiply the seed by the n-th power of the multiplier |
| `DbgenRandom.ProductFits` | tests/tpch/dbgen/speed_seed.c:112-136 | no product exceeds a signed 64-bit word |
| `DbgenRandom.NthElement` | tests/tpch/dbgen/speed_seed.c:112-136 | the logarithmic skip of a seed is that many single steps, a negative count is none, and any 64-bit word is taken for the 31-bit generator's |
| `DbgenRandom.AdvanceRand64` | tests/tpch/dbgen/rng64.c:103-140 | the bitwise skip is that many steps of the 64-bit generator modulo 2^64 |
| `DbgenRandom.Draw64InRange` | tests/tpch/dbgen/rng64.c:64-90 | a 64-bit draw lies in its range if and only if its word is not -2^63, whose absolute value overflows, for the ranges the tables use |
| `DbgenRows.UnifInRange` | tests/tpch/dbgen/rnd.c:193-229 | a draw lies between its bounds; `DbgenRows.UnifExactly` says which one it is |
| `DbgenRows.UnifExactly` | tests/tpch/dbgen/rnd.c:193-229 | a draw is `r` if and only if its seed lies in the `r - lo`-th of the equal shares of 0..2^31-2 |
| `DbgenRows.UnifWraps` | tests/tpch/dbgen/rnd.c:193-229 | the draw from 0..2^31-1, whose range wraps, is the share of the seed counted downwards from zero |
| `DbgenRows.UsageWithinBoundary` | tests/tpch/dbgen/rnd.h:58-108 | no row draws more from a stream than its boundary, and what is written comes from streams that are rounded up or drawn from exactly that often |
| `DbgenRows.MovedKeysTell` | tests/tpch/dbgen/build.c:180-185 | written customer keys are equal only for drawn keys at most one apart |
| `DbgenRows.MovedKeyIs` | tests/tpch/dbgen/build.c:180-185 | a key that is a multiple of three moves up by one, the largest one down, and no other moves |
| `DbgenColumns.SeedTableIs` | tests/tpch/dbgen/rnd.h:58-108 | draws per row and table of each of the 48 streams |
| `DbgenColumns.TableSizes` | tests/tpch/dbgen/driver.c:179-196 | the number of rows each table is written with at every scale |
| `DbgenColumns.StepWrites` | tests/tpch/dbgen/driver.c:420-445 | how many rows a step writes, the remainder with the last, and the number each begins with |
| `DbgenColumns.DrawIs` | tests/tpch/dbgen/rnd.c:170-229 | the k-th draw of a stream is an even share of the seed k + 1 steps on |
| `DbgenColumns.Draw64Is` | tests/tpch/dbgen/rng64.c:64-90 | a 64-bit draw is a remainder of the absolute value of the signed word, with the least word by itself |
| `DbgenColumns.KeyDrawIs` | tests/tpch/dbgen/build.c:176-179 | keys come from the 64-bit generator from scale 30000 on and from the other below |
| `DbgenColumns.JulianCounts` | tests/tpch/dbgen/bm_utils.c:253-286 | day by day through the leap years from 1992 to 1999 |
| `DbgenColumns.ReturnedExactly` | tests/tpch/dbgen/build.c:246-248 | a line has a return flag if and only if it was received by 17 June 1995 |
| `DbgenColumns.SupplierColumns` | tests/tpch/dbgen/build.c:313-357 | from which draw of which stream, within which bounds, each column comes |
| `DbgenColumns.CustomerColumns` | tests/tpch/dbgen/build.c:100-124 | the same for customers |
| `DbgenColumns.PartColumns` | tests/tpch/dbgen/build.c:271-311 | the same for parts |
| `DbgenColumns.PsuppColumns` | tests/tpch/dbgen/build.c:301-309 | the same for the partsupp rows of a part |
| `DbgenColumns.OrderColumns` | tests/tpch/dbgen/build.c:148-200 | the same for orders, with their lines or alone |
| `DbgenColumns.LineColumns` | tests/tpch/dbgen/build.c:200-262 | the same for the lines of an order |
| `DbgenColumns.FlagsAre` | tests/tpch/dbgen/build.c:246-250 | a return flag is drawn for the lines received in time and for no other |
| `DbgenColumns.AddressIs` | tests/tpch/dbgen/bm_utils.c:178-196 | length and characters of a random string |
| `DbgenColumns.SupplierIs` | tests/tpch/dbgen/build.c:58-63 | the supplier of a part's partsupp row by the formula of clause 4.2.3 of the TPC-H specification |
| `DbgenGen.SeedTable.RowStart` | tests/tpch/dbgen/rnd.c:105-113 | every usage count is zero and the streams stay |
| `DbgenGen.SeedTable.DssRandom` | tests/tpch/dbgen/rnd.c:96-103 | the k-th draw since the row started is the stream's k-th value after the one at row start; it lies in its bounds, in the share of the range that the seed has of 0..2^31-2, and counts once |
| `DbgenGen.SeedTable.DssRandom64` | tests/tpch/dbgen/rng64.c:64-90 | so is a draw of the 64-bit generator, by absolute value and remainder |
| `DbgenGen.SeedTable.KeyRandom` | tests/tpch/dbgen/build.c:176-179 | a key column draws from the generator its scale selects |
| `DbgenGen.SeedTable.RowStop` | tests/tpch/dbgen/rnd.c:115-144 | every stream of the table and its child skips to its boundary, the others stay |
| `DbgenGen.SeedTable.ARnd` | tests/tpch/dbgen/bm_utils.c:178-196 | a string takes one draw for its length and one for every five characters |
| `DbgenGen.SeedTable.Permute` | tests/tpch/dbgen/permute.c:95-113 | the shuffle takes one draw per element |
| `DbgenGen.SeedTable.DbgText` | tests/tpch/dbgen/text.c:285-343 | a text takes an offset and a length; the first one of a process also builds the pool, which moves stream 5 only |
| `DbgenGen.SeedTable.BuildPool` | tests/tpch/dbgen/text.c:300-336 | building the pool happens once, and leaves every stream but 5 alone |
| `DbgenGen.SeedTable.GenPhone` | tests/tpch/dbgen/build.c:80-96 | a phone number takes three draws |
| `DbgenGen.SeedTable.MkPsupp` | tests/tpch/dbgen/build.c:301-309 | the partsupp rows of a part and their draws |
| `DbgenGen.SeedTable.MkSupp` | tests/tpch/dbgen/build.c:313-357 | the row as a function of the streams at row start, and the exact draws per stream |
| `DbgenGen.SeedTable.MkCust` | tests/tpch/dbgen/build.c:100-124 | the same for customers |
| `DbgenGen.SeedTable.MkPart` | tests/tpch/dbgen/build.c:271-311 | the same for parts with their four partsupp rows, together or the rows alone |
| `DbgenGen.SeedTable.MkOrder` | tests/tpch/dbgen/build.c:148-269 | the same for orders with one to seven lines, some with a return-flag draw, at every scale, together or the lines alone |
| `DbgenGen.SeedTable.MoveKey` | tests/tpch/dbgen/build.c:180-185 | the loop ends, and moves a key that is a multiple of three up by one, the largest one down |
| `DbgenGen.SeedTable.AdvanceStream` | tests/tpch/dbgen/speed_seed.c:70-83 | one stream skips, the others stay |
| `DbgenGen.SeedTable.SdPart` | tests/tpch/dbgen/speed_seed.c:159-171 | skipping advances each part stream by the calls of that many rows |
| `DbgenGen.SeedTable.SdLine` | tests/tpch/dbgen/speed_seed.c:173-198 | the same for line items, with the order streams they share |
| `DbgenGen.SeedTable.SdOrder` | tests/tpch/dbgen/speed_seed.c:200-217 | the same for orders |
| `DbgenGen.SeedTable.SdPsupp` | tests/tpch/dbgen/speed_seed.c:219-232 | the same for partsupp |
| `DbgenGen.SeedTable.SdCust` | tests/tpch/dbgen/speed_seed.c:234-245 | the same for customers |
| `DbgenGen.SeedTable.SdSupp` | tests/tpch/dbgen/speed_seed.c:247-261 | the same for suppliers |
| `DbgenGen.SeedTable.SetState` | tests/tpch/dbgen/bm_utils.c:559-588 | the rows per step and the remainder, and the streams after skipping the earlier steps |
| `DbgenGen.SeedTable.GenRow` | tests/tpch/dbgen/driver.c:307-360 | one turn of the loop: the row of the streams, which all end exactly at the row boundary but the text pool's |
| `DbgenGen.SeedTable.GenTbl` | tests/tpch/dbgen/driver.c:283-368 | the rows, and the streams at the next row's boundary, for every table choice and scale |
| `DbgenGen.SeedTable.Partial` | tests/tpch/dbgen/driver.c:420-445 | step `s` writes exactly the rows of its number range from the streams its skips lead to, for every table choice and scale |
| `DbgenChunks.SkipMatchesBoundary` | tests/tpch/dbgen/speed_seed.c:159-261 | the constants of the skip routines agree with the boundaries of the seed table |
| `DbgenChunks.SkipIsGenerate` | tests/tpch/dbgen/speed_seed.c:159-261 | skipping rows moves every drawn stream as generating them does, at every scale, but for the two key streams of large ones |
| `DbgenChunks.RowAgree` | tests/tpch/dbgen/build.c:100-357 | a row depends on the drawn streams only |
| `ChunkAlgebra.FirstChunksAreSerial` | tests/tpch/dbgen/driver.c:420-445 | the first chunks are a prefix of the serial output, for any generator whose skip agrees with generation |
| `DbgenChunks.TableChunksAreSerial` | tests/tpch/dbgen/driver.c:420-445 | for every table choice, scale, process count and seed table the chunks put together are the serial output, but for orders and line items from scale 30000 on |
| `DbgenGen.LoadInSteps` | tests/tpch/dbgen/driver.c:775-799 | all steps, each in a process with the initial seeds, write their chunks, and these are what one process writes if no row draws from the 64-bit generator |
| `DbgenWide.SplitFails` | tests/tpch/dbgen/driver.c:420-445 | orders from scale 30000 on: the chunks differ from the serial output whenever the customer key written after skipping a step's rows is not the one written after generating them |
| `DbgenWide.ProgramSplitsExactly` | tests/tpch/dbgen/driver.c:420-445 | with the program's seeds, supported scales and numbers of processes that fit an `int`, orders split right over every number of processes if and only if the scale is below 30000 |
| `DbgenWide.KeyLostAfter100` | tests/tpch/dbgen/rnd.h:100-100 | the program's customer key is another one after skipping a hundred orders than after generating them, at every scale |
| `DbgenWide.ReferenceOrdersFail` | tests/tpch/dbgen/reference/cmd_base_sf30000:6-10 | these steps do not give the serial output |
| `DbgenWide.UnskippedSplits` | tests/tpch/dbgen/driver.c:420-445 | one process, or more processes than rows, give the serial output at every scale |
| `DbgenKeys.CoreSplits` | tests/tpch/dbgen/speed_seed.c:159-261 | for every table choice and scale, all other streams stand at each row of a chunk where they stand in the serial run |
| `DbgenKeys.RowsTellKeys` | tests/tpch/dbgen/build.c:148-269 | rows made from the same other streams are equal if and only if their written keys are |
| `DbgenKeys.SplitsExactly` | tests/tpch/dbgen/driver.c:420-445 | for every table choice, scale, process count and seed table, the chunks put together are the serial output if and only if their written keys are |
| `PartSupp.SuppliersDistinct` | tests/tpch/dbgen/build.c:58-63 | the four suppliers of every part are different and within 1..S |
| `PartSupp.PsuppKeysUnique` | tests/tpch/dbgen/build.c:301-309 | the partsupp keys written for a part are unique |
| `PartSupp.InPartSuppIs` | tests/tpch/dbgen/build.c:301-309 | a pair is a partsupp key if and only if the part exists and one of its four rows begins with the supplier |
| `PartSupp.LineItemHasPartSupp` | tests/tpch/dbgen/build.c:217-224 | at every scale a line item's (part, supplier) pair is a partsupp row if and only if its part key is not drawn from the word -2^63 |
| `PartSupp.PartKeyInRange` | tests/tpch/dbgen/build.c:218-221 | the part key lies in 1..P under the same condition |
| `PartSupp.LeastWordHasNoPart` | tests/tpch/dbgen/build.c:218-221 | a stream value after which a line item names a part that does not exist |
| `PartSupp.OrderHasCustomer` | tests/tpch/dbgen/build.c:176-185 | at every scale no order names a customer whose number is a multiple of three, and it names a customer if and only if its key is not drawn from the word -2^63 |
| `RrRecord.Rrprintf` | src/integrity_zone/record_replay/rr_utils.cpp:15-47 | packing concatenates the pieces, unpacking cuts the buffer into pieces of the given sizes |
| `RrRecord.Recorder.GetWriteBuffer` | src/integrity_zone/record_replay/recorder.cpp:30-44 | room at the cursor, growing the file by one chunk of zeros when needed, never by more than the cursor will reach |
| `RrRecord.Recorder.Put` | src/integrity_zone/record_replay/recorder.cpp:54-65 | reserving and packing appends the pieces |
| `RrRecord.Recorder.PutItems` | src/integrity_zone/record_replay/recorder.cpp:126-130 | the second part of a bulk entry |
| `RrRecord.Recorder.Record` | src/integrity_zone/record_replay/recorder.cpp:46-226 | each answered request appends exactly its entry, ENC and DEC nothing, and zeros follow |
| `RrFormat.PiecesLength` | src/integrity_zone/record_replay/recorder.cpp:46-226 | the length each branch reserves is the length of what it writes |
| `RrFormat.PiecesUnique` | src/integrity_zone/record_replay/rr_utils.cpp:15-47 | sizes and bytes determine the pieces |
| `RrFormat.EntryBytes` | src/integrity_zone/record_replay/recorder.cpp:46-226 | the bytes of an entry, field by field, for each of the layouts |
| `RrFormat.LayoutOf` | src/include/defs.h:39-72 | which operations have which layout |
| `RrFormat.EveryOp` | src/include/defs.h:39-72 | every operation but expression evaluation has a request of some layout |
| `RrFormat.IntBytesIs` | src/integrity_zone/record_replay/rr_utils.cpp:15-47 | integers are stored least significant byte first, modulo 2^32 |
| `RrReplay.MatchesExactly` | src/integrity_zone/record_replay/replayer.cpp:101-289 | two requests of one operation match if and only if all bytes of all operands agree, or the sizes of both strings of a comparison |
| `RrReplay.AnsweredIs` | src/integrity_zone/record_replay/replayer.cpp:101-289 | a request that matches an entry becomes the recorded request, results and all; a string comparison keeps its strings and takes the recorded result |
| `RrReplay.OperandsKeep` | src/privacy_zone/desenitizer.cpp:366-534 | a request stripped of its results has the same operation and matches the request it came from |
| `RrReplay.File.ReadParts` | src/integrity_zone/record_replay/replayer.cpp:33-41 | reading a block and unpacking it finds the pieces that were packed |
| `RrReplay.ReplayCmp` | src/integrity_zone/record_replay/replayer.cpp:101-118 | comparisons match by both operands, give the recorded result and pass over the entry |
| `RrReplay.ReplayCalc` | src/integrity_zone/record_replay/replayer.cpp:150-168 | so does arithmetic; what a match and an answer are is `RrReplay.MatchesExactly` and `RrReplay.AnsweredIs` |
| `RrReplay.ReplayYear` | src/integrity_zone/record_replay/replayer.cpp:271-289 | so does the year of a timestamp |
| `RrReplay.ReplayConcat` | src/integrity_zone/record_replay/replayer.cpp:223-250 | so does concatenation, by sizes first and bytes next |
| `RrReplay.ReplayBulk` | src/integrity_zone/record_replay/replayer.cpp:119-149 | a two-part entry is compared item by item and passed over whole |
| `RrReplay.ReplayStrCmp` | src/integrity_zone/record_replay/replayer.cpp:172-193 | string comparisons match by operand sizes only |
| `RrReplay.ReplaySubstring` | src/integrity_zone/record_replay/replayer.cpp:194-222 | substrings match by string, start and length |
| `RrReplay.ReplayRequest` | src/integrity_zone/record_replay/replayer.cpp:16-306 | another operation raises an error, other operands give 10086, and a match gives the recorded response and the recorded request, results and all, with the cursor on the next entry |
| `RrRoundTrip.Replayer.Open` | src/integrity_zone/record_replay/replayer.cpp:327-340 | the first log whose first entry matches and was not answered with 10086 answers, or -1 if none does; the buffer then keeps the results of the last entry that matched |
| `RrRoundTrip.Replayer.Replay` | src/integrity_zone/record_replay/replayer.cpp:314-342 | ENC and DEC bypass the log, every other request goes to the open log or opens one |
| `RrRoundTrip.RecordRun` | src/integrity_zone/record_replay/recorder.cpp:30-226 | a run leaves its entries in order and then zeros, exactly to the end of the last chunk reached |
| `RrRoundTrip.ReplayRun` | src/integrity_zone/record_replay/replayer.cpp:16-342 | every step is answered with the recorded response and the recorded request, a string comparison with the recorded result, on the entry boundary each time, if and only if every step asks what was recorded and the first recorded response is not 10086 |
| `RrRoundTrip.RecordAndReplay` | src/integrity_zone/record_replay/replayer.cpp:314-342 | recording any run and replaying the same operations gives every recorded request and response back under the same condition, and not without it |
| `RrRoundTrip.MismatchCodeIsLost` | src/integrity_zone/record_replay/replayer.cpp:327-340 | a run of one comparison that breaks the condition |
| `RrRoundTrip.TriedIs` | src/integrity_zone/record_replay/replayer.cpp:327-340 | after a search through the logs the buffer holds what the last entry that matched has left |
| `RrStrings.MadeAgain` | src/integrity_zone/include/request.hpp:12-17 | the same call made again asks the same if and only if the order words it is compared by are the same |
| `RrStrings.ReplaySameCalls` | src/integrity_zone/interface/interface.cpp:66-117 | the same calls, recorded and replayed, are all answered as recorded if and only if the region and the buffer held the same order words at every substring and concatenation |
| `RrStrings.StaleWordIsRefused` | src/integrity_zone/interface/interface.cpp:42-52 | a substring recorded in a used region is refused in the zeroed buffer |
| `Desenitizer.Retrieve` | src/privacy_zone/desenitizer.cpp:366-534 | the second reader recovers the same operation, operands that match the recorded ones, and both strings of a comparison, and consumes the same bytes as the replayer |
| `Desenitizer.RetrieveItems` | src/privacy_zone/desenitizer.cpp:393-406 | the items of a bulk entry, or an overrun of the buffer |
| `Desenitizer.RetrievePair` | src/privacy_zone/desenitizer.cpp:383-392 | both operands of a fixed-size entry, which is passed over whole |
| `Desenitizer.RetrieveBulk` | src/privacy_zone/desenitizer.cpp:393-406 | a two-part entry: its size and all its items |
| `Desenitizer.RetrieveStrCmp` | src/privacy_zone/desenitizer.cpp:462-476 | both strings of a comparison |
| `Desenitizer.RetrieveSubstring` | src/privacy_zone/desenitizer.cpp:477-491 | string, start and length of a substring |
| `Desenitizer.RetrieveConcat` | src/privacy_zone/desenitizer.cpp:492-506 | both strings of a concatenation |
| `Desenitizer.RetrieveYear` | src/privacy_zone/desenitizer.cpp:517-525 | the timestamp of a year |
| `Desenitizer.ReadLog` | src/privacy_zone/desenitizer.cpp:540-596 | every recorded request in its place, with its operation and operands, then the stop at the tail: at its end if nothing is left, at the zeros if four bytes are |
| `Desenitizer.RecordAndRead` | src/privacy_zone/desenitizer.cpp:540-596 | the same on the log of any run, whose tail is the rest of its last chunk |
| `Desenitizer.RecordedIs` | src/integrity_zone/record_replay/recorder.cpp:46-226 | the log of a run holds what it asked but encryptions and decryptions, in order |
| `Desenitizer.TailExactly` | src/privacy_zone/desenitizer.cpp:366-379 | the stop does not depend on uninitialised memory if and only if the tail is not 1 to 3 bytes |
| `Desenitizer.StopsExactly` | src/privacy_zone/desenitizer.cpp:366-379 | the runs whose log it reads to a clean stop: those that leave none or at least four bytes of the last chunk |
| `Desenitizer.OneByteLeft` | src/privacy_zone/desenitizer.cpp:366-379 | a run that leaves one byte, and memory with which the reader exits |
| `KleeExecutor.Executor.AddConstraint` | scripts/klee_scripts/klee_mod/Executor.cpp:1211-1244 | a constraint the seed meets is added without abort or patch; one it violates aborts or patches |
| `KleeExecutor.Executor.Fork` | scripts/klee_scripts/klee_mod/Executor.cpp:1013-1132 | exactly one successor, the seed's, and a constraint that holds for the inputs going the same way |
| `KleeExecutor.Executor.ExecuteReg` | scripts/klee_scripts/klee_mod/Executor.cpp:2536-2653 | writing a built expression to a register follows every input's concrete value |
| `KleeExecutor.Executor.ExecuteBit` | scripts/klee_scripts/klee_mod/Executor.cpp:2655-2745 | the same for comparison results |
| `KleeExecutor.Executor.ExecuteBr` | scripts/klee_scripts/klee_mod/Executor.cpp:2173-2199 | a branch keeps the symbolic state in step with every input that meets the constraints |
| `KleeExecutor.Executor.Execute` | scripts/klee_scripts/klee_mod/Executor.cpp:2536-2745 | so does every other instruction |
| `KleeExecutor.Explore` | scripts/klee_scripts/klee_mod/Executor.cpp:1013-1132 | no abort, no patched seed, the seed meets all constraints, another input meets them if and only if it takes the same branches, and then the registers hold what it computes |
| `DecryptPool.RunInv` | src/privacy_zone/ops_server.cpp:50-125 | the invariant of slots, jobs and memory in every interleaving, also when callers return without waiting |
| `DecryptPool.WaitReturnsSequential` | src/privacy_zone/ops_server.cpp:108-125 | when the wait returns every job since the last wait has run once, and memory is the sequential build's if their destinations are disjoint |
| `DecryptPool.BatchesInOrder` | src/privacy_zone/ops_server.cpp:70-125 | so across any sequence of batches whose jobs have disjoint destinations |
| `DecryptPool.CallerHasItsBytes` | src/privacy_zone/enc_ops/enc_int_ops.cpp:16-23 | whatever others left behind, the wait leaves a caller the bytes of each job that overlaps none pending when it came |
| `DecryptPool.StraysWerePending` | src/privacy_zone/enc_ops/enc_int_ops.cpp:20-22 | the jobs left behind are exactly those that had not finished |
| `DecryptPool.StrayOverwrites` | src/privacy_zone/enc_ops/enc_int_ops.cpp:16-23 | a run in which such a job overwrites the next caller's byte before its wait returns |
| `DecryptPool.FilledSlotIsFree` | src/privacy_zone/ops_server.cpp:76-100 | no slot is overwritten while its job is pending or its worker busy |
| `DecryptPool.SequentialIs` | src/privacy_zone/ops_server.cpp:50-68 | the sequential build byte by byte: each job over what was there |
| `DecryptProgress.WaitCanReturn` | src/privacy_zone/ops_server.cpp:70-125 | from every reachable state the dispatcher and the workers alone can bring the wait to its return, with the memory of the sequential build of the same jobs |
| `DecryptProgress.SlotFinishes` | src/privacy_zone/ops_server.cpp:50-68 | a worker with a job can finish it while everything else stays |
| `DecryptProgress.DispatcherMoves` | src/privacy_zone/ops_server.cpp:70-125 | with no slot busy the dispatcher comes closer to the next job sent, or to the return, at every step |
| `Timestamp.DayIsFloor` | src/privacy_zone/plain_ops/plain_timestamp_ops.c:34-38 | the day is the floor of the quotient, for negative timestamps too |
| `Timestamp.ShiftIs` | src/privacy_zone/plain_ops/plain_timestamp_ops.c:47-51 | no unsigned word overflows in the first half |
| `Timestamp.YearOfIs` | src/privacy_zone/plain_ops/plain_timestamp_ops.c:52-57 | nor in the second |
| `Timestamp.ExtractYearExactly` | src/privacy_zone/plain_ops/plain_timestamp_ops.c:26-58 | the result is `y` if and only if the day lies in the Gregorian year `y`, counted year by year; other days give -1 |
| `Timestamp.CalendarIs` | src/privacy_zone/plain_ops/plain_timestamp_ops.c:26-58 | 1 January 2000 is Julian day 2451545, and years have the days of the Gregorian calendar |
| `Timestamp.FirstYear` | src/privacy_zone/plain_ops/plain_timestamp_ops.c:26-58 | exactly the microseconds of the first 366 days are in 2000, and of the 365 before in 1999 |
| `Base64.EncodedLength` | src/utils/base64.cpp:56-95 | the length is 4 * ceil(n / 3) |
| `Base64.FullGroup` | src/utils/base64.cpp:59-73 | the shifts and masks give the four digits of three bytes |
| `Base64.LastGroup` | src/utils/base64.cpp:74-92 | the last one or two bytes give their digits and pads |
| `Base64.ToBase64` | src/utils/base64.cpp:56-95 | the encoder computes the groups of section 4 of RFC 4648 |
| `Base64.SkipNonB64` | src/utils/base64.cpp:98-104 | the skip stops at a digit, a NUL or the end of the count |
| `Base64.DecodeGroup` | src/utils/base64.cpp:124-146 | the inner loop reads four characters, ends at blanks and dark characters, and counts pads |
| `Base64.FromBase64` | src/utils/base64.cpp:107-159 | the decoder refines the decoding function on every text |
| `Base64.RoundTrip` | src/utils/base64.cpp:107-159 | decoding gives every byte sequence back, with any blanks between and around the groups |
| `Base64.EncodeDecode` | src/utils/base64.cpp:56-159 | decoding what was encoded gives it back |
| `Base64.AlphabetIs` | src/utils/base64.cpp:43-49 | the digits are the 64 characters of table 1 of RFC 4648 |
| `Base64.ClassesAre` | src/utils/base64.cpp:23-41 | which characters are digits, pads and blanks to the decoder |
| `Base64.TestVectors` | src/utils/base64.cpp:56-95 | the encodings of `f`, `fo`, `foo` and `foobar` in section 10 of RFC 4648 |
| `Base64.ShortGroup` | src/utils/base64.cpp:107-159 | a group cut off by the end of the text gives no byte, one or two |
| `Base64.CutGroup` | src/utils/base64.cpp:107-159 | a blank or dark character inside a group: the bytes begun, and for a dark one the end |
| `Base64.PadEnds` | src/utils/base64.cpp:107-159 | a group that begins with a pad ends the text |
| `Bulk.PlainSumBulk` | src/privacy_zone/plain_ops/plain_int_ops.c:63-71 | the sum modulo 2^32 |
| `Bulk.WrapIs` | src/privacy_zone/plain_ops/plain_int_ops.c:63-71 | the 32-bit result is the signed word with the same value modulo 2^32 |
| `Bulk.Store` | src/integrity_zone/udf/enc_int4.cpp:270-272 | the carried total grows by the item |
| `Bulk.Flush` | src/integrity_zone/udf/enc_int4.cpp:273-278 | a request returns the carried total and leaves it in slot 0 |
| `Bulk.SumBulk` | src/integrity_zone/udf/enc_int4.cpp:251-285 | the chunked sum is the plain sum modulo 2^32 for every length; the requests hold 2 to 256 items, all but the last exactly 256, and each item is sent once, beside a carried total per request |
| `Bulk.AvgBulk` | src/integrity_zone/udf/enc_int4.cpp:287-340 | the average is the sum modulo 2^32 divided by the length towards zero, defined if and only if there are two items and the first is not zero |
| `Bulk.DivTruncates` | src/integrity_zone/udf/enc_int4.cpp:287-340 | division by a count goes towards zero |
| `GcmIv.Increment` | src/privacy_zone/crypto.cpp:41-51 | the loop computes the next counter in place |
| `GcmIv.NextValue` | src/privacy_zone/crypto.cpp:41-51 | the next counter is one more modulo 256^n, big-endian |
| `GcmIv.Cipher.Encrypt` | src/privacy_zone/crypto.cpp:71-87 | an encryption uses the counter's successor, which becomes the counter |
| `GcmIv.EncryptMany` | src/privacy_zone/crypto.cpp:71-87 | within one thread, the n-th encryption uses the first vector plus n modulo 2^96, and up to 2^96 vectors are all different |

## Left out

- `DbgenGen.SeedTable.GenTbl`: the nation and region tables, which are not split, and update sets.
- `DbgenGen.SeedTable.BuildPool`: the sentences of the text pool; how many draws they take is a parameter.
- `DbgenWide.ProgramSplitsExactly`: line items generated alone, whose written key stream is moved by a number of draws that depends on the orders; `DbgenKeys.SplitsExactly` covers them.
- `DbgenGen.SeedTable.MkSupp`: the columns a row computes from its draws without drawing (names, prices, sparse keys, dates as text) are not part of the row.
- `DbgenGen.SeedTable.RowStop`: the option that records new boundaries (`set_seeds`) is off.
- `DbgenGen.SeedTable.DssRandom`: the double arithmetic is read exactly, without rounding.
- `DbgenRows.UsageWithinBoundary`: the number of colours is at most 92, as the distributions file has it.
- `RrRoundTrip.ReplayRun`: a request that does not ask what was recorded, in a run with a recorded response of -1 or 10086, which are the codes of a refusal.
- `RrRoundTrip.RecordAndReplay`: the log file is fresh, and expression evaluation, which is never recorded, is not a request of the model.
- `RrReplay.ReplayRequest`: the timing loop of performance replay and the operation named in error messages.
- `RrRecord.Recorder.GetWriteBuffer`: the file grows by one chunk only, so a part longer than 16 MiB is excluded; no request buffer holds one.
- `Desenitizer.ReadLog`: writing the test files from the requests that were read.
- `KleeExecutor.Explore`: memory, calls, switches, floating point and implied-value concretisation; the constraint set may rewrite itself as long as its meaning stays.
- `DecryptPool.WaitReturnsSequential`: the EXIT of worker threads when a child ends, and jobs of one caller with overlapping destinations.
- `ShmLock.CanTakeExactly`: runs that have scanned a full bitmap.
- `ShmSafety.RepliesAreAnswers`: requests with a type of zero or less are not handed to the handler and are answered with what the buffer held.
- `GcmIv.EncryptMany`: the counters of different threads, which start at random values under one key.
- `Bulk.AvgBulk`: the float aggregates, which have the same loops over another type.
- `Base64.RoundTrip`: blanks inside a group; the decoder takes them for the group's end (`Base64.CutGroup`).
- The shared-memory steps are sequentially consistent; barriers, mapping of memory and process creation are not modelled.
- AES-GCM itself, entropy, PostgreSQL glue, kernel drivers, scripts and the rest of KLEE.
