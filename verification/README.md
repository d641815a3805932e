# TomoKV: verified cores

A Dafny model of the parts of TomoKV whose correctness is hard to see by reading one function: the
shortest-double printer, the client-control protocol between I/O threads, the FUNCTION library
registry with its per-thread caches and dump format, the geo index, the command table, the benchmark's
reply counter, the metadata generator's flag order and the allocator's size classes. Every member has a
body and nothing is assumed. `dafny verify dfyconfig.toml` checks the project.

## What is modelled

**Numbers and their text.** `Powers`, `CachedPowers`, `Binary64`, `DigitGen`, `Grisu`, `DoubleText`,
`Decimal`, `ParseI64`, `Words`, `Options`. A double is a bit pattern with an exact real value; every 64-bit variable of the
printer is a number below 2^64, so that each assignment is also a proof that it does not overflow. All 87
rows of the cached power table are proved to be correctly rounded. The main result, `RedisDoubleText`, is
about every 64-bit pattern: the text of a finite double, read as a decimal number, is closer to that double
than to any other, spells the digits that the scaled boundaries determine, and has the form that their number and
power call for.

**Client control.** `ReplySuppression` is one connection with its reorder buffer: parsing, completion,
draining and moves between threads in any order, against the three-state automaton that CLIENT REPLY promises. `ClientLanes` is the
per-thread state of all connections with its counters, and its move between threads. `ClientScatter` is the
request and result protocol of CLIENT LIST, KILL and UNBLOCK over a network that delivers in any order.
`Clients` names connections.

**FUNCTION libraries.** `FunctionRegistry` is the locked registry. `FunctionSync` interleaves mutators with
threads that rebuild their tables. `FunctionDump` is the payload format, `Checksums` its checksum,
`FunctionRestore` the commands on top of it, with compilation as a parameter.

**Geo index.** `GeoHash`, `GeoCover`, `GeoSearch`, over exact reals. The reach of a search in degrees, the
shape test and the distance are functions of the centre.

**Command table.** `CommandIndex` is the open-addressed table, `CommandRegistry` boot and lookup, with the
packed-word comparison on real 32-bit words.

**Smaller cores.** `RespCounter`, `FlagOrder`, `SizeClass`.

## What turned out not to hold

- CLIENT REPLY SKIP does not always silence the next command. The armed gate
  (src/cmd/climon.cc:494-511) spends the SKIP as soon as it sees a frame, but the parser may then leave that
  frame in its buffer and parse it again: when dispatch is paused (src/core/io_loop.h:3634-3641), when an
  ordered local command or a blocking command finds older commands unretired (3745-3746, 3953), when an
  executor queue is full (4319-4328). The second time the frame is not marked and its reply is sent.
  `SkipCanBeLost` is such a run.
- Neither OFF nor SKIP always survives a move between threads. A thread copies the server's armed word at
  the top of a batch (src/core/io_loop.h:535-536) and installs connections that moved to it in the middle of
  one (609). Until its next batch, or the next CLIENT REPLY or RESET it runs, the copy may say that no reply
  mode is in use anywhere; a moved connection is then parsed without marks and drained by the sender that
  sends everything. `MoveUnmarked` is such a run of the threads and `OffCanBeLost` one of the connection.
- Nor do they always survive another thread's publication. The armed word is computed from four counters and
  then stored, without a lock (src/core/server.h:3263-3270). A thread that has read the reply counter as zero
  and stores the word after another one has run CLIENT REPLY OFF takes the bit away again, until some later
  publication. The owner copies that word at its next batch: from then on commands are not marked, and commands
  already marked are drained by the sender that does not look. `OverwriteUnmarked` is such a run of the
  threads; `OffCanBeOverwritten` and `MarkCanBeIgnored` are runs of the connection, without a move and without
  an abandoned frame.
- `WireIsPromised` is the exact condition for all of these together: the wire differs from the promise if and
  only if some command was parsed after its SKIP was spent, or was to be silenced and parsed while the owner's
  copy missed the bit, or was marked and drained while it did. `MarkReply` and `ReplySuppressed` say what
  happens in every state: the automaton's choice if the copied bit is set, and no suppression otherwise.
- The nine-cell cover misses one pair of points: a centre at longitude 180 exactly and a point exactly one
  cell width east of it, or the reverse, on grids of at least four columns (`SeamIsMissed`). `Covers` shows
  that everything else within reach is covered, and `StoredCovered` that no stored entry is ever in that
  position, so no search result is lost.
- RESTORE does not undo every DUMP. DUMP has no limit on the number of libraries but RESTORE refuses more
  than 4096 (`EncodedDecodes`), and the reply that carries the payload keeps its length in 32 bits
  (src/cmd/functions.cc:102-104), so that a payload of 2^32 bytes or more is cut. `RestoreOfDump` shows that
  RESTORE FLUSH reproduces the libraries if and only if the dump stays below both limits.
- A comment at src/cmd/functions.cc:595-596 says that a failed synchronisation leaves the stamp unset. The
  code leaves the old stamp. `CurrentStampIsCurrent` shows that this is harmless.
- For the smallest normal double the printer takes the narrow lower boundary although the spacing does not
  change there; for every other double the boundary is the halfway point (`HalfwayBelow`). The digits still
  round back.

## Model

| member | source | states |
|---|---|---|
| CachedPowers.TableIsValid | src/base/numeric.h:55-103 | each of the 87 rows is 10^k in 64 significant bits, off by at most half a unit, with rows 8 decades and 26 or 27 binary steps apart |
| Grisu.FpMultiply | src/base/numeric.h:117-122 | the rounded product is within half a unit of the exact one and fits 64 bits |
| Grisu.ProductAwayFromIntegers | src/base/numeric.h:133-134 | no product with the constant comes within 4/10000 of an integer |
| Grisu.FirstIndexRounded | src/base/numeric.h:133-136 | so every number within 4/10000 of the exact product gives the same starting row, and with it the product rounded to a double |
| Grisu.CachedPowIndex | src/base/numeric.h:126-143 | of the rows that scale the exponent into the window the least is taken, for every exponent of a double |
| Grisu.BelowStart | src/base/numeric.h:134-136 | every row below the starting row is below the window, so the scan only goes up |
| Grisu.Boundaries | src/base/numeric.h:165-179 | the value and both boundaries, aligned to one exponent, without losing a bit |
| Grisu.ScaleBoundaries | src/base/numeric.h:181-190 | after scaling, the integral part is under 10^10, the interval at least 768 units wide and the value inside it |
| DigitGen.WeedLastDigit | src/base/numeric.h:148-155 | no underflow, the digit stays a digit, and the remainder reached is the closest one within delta, the first of two |
| DigitGen.WeedingChooses | src/base/numeric.h:148-155 | the weeded number is inside the interval and the closest of all multiples inside it, the greater of two |
| DigitGen.ChosenOnce | src/base/numeric.h:148-155 | there is only one such number |
| DigitGen.IntegralDigits | src/base/numeric.h:192-216 | ends with that number at the coarsest unit with a multiple inside, or with exactly the integral part and a remainder above delta |
| DigitGen.FractionalDigits | src/base/numeric.h:218-233 | ends within 16 more digits, at most 18 in all, with that number at the first unit with a multiple above the open end; nothing overflows |
| Grisu.GeneratedRounds | src/base/numeric.h:181-234 | a number inside the narrowed scaled interval is, scaled back, nearest to the double |
| Binary64.BelowIsNext | src/base/numeric.h:167-168 | the neighbour below a double: smaller, and nothing lies in between |
| Binary64.HalfwayBelow | src/base/numeric.h:174-175 | the lower boundary is halfway to that neighbour if and only if the double is not the smallest normal one |
| Binary64.InsideRounds | src/base/numeric.h:167-177 | a real strictly between the boundaries is closer to the double than to any other |
| Grisu.Grisu2Digits | src/base/numeric.h:159-234 | for every positive finite double: at most 18 digits; digits times 10^k rounds back to it, is the closest number of its length to the scaled double between the narrowed boundaries, no shorter number lies above the lower one, and the scaling is by the least row |
| DoubleText.U64Digits | src/base/numeric.h:242-248 | writes the canonical numeral of any 64-bit value |
| DoubleText.LayoutDenotes | src/base/numeric.h:306-339 | all layouts denote exactly the digits times 10^k, with the sign |
| DoubleText.LayoutLength | src/base/numeric.h:300-304 | at most 26 characters |
| DoubleText.LayoutForm | src/base/numeric.h:300-339 | the characters: an exponent exactly when the digits neither end within seven zeros nor have a short or small fraction, a point and no exponent exactly in the second case, digits alone in the first, and where the point and the exponent stand |
| DoubleText.WriteLayout | src/base/numeric.h:293-340 | what is written into the buffer is that layout, with those characters |
| DoubleText.IntegralReadsBack | src/base/numeric.h:275-291 | an integral double reads back from its plain integer text |
| DoubleText.RedisDoubleText | src/base/numeric.h:264-341 | every 64-bit pattern: NaN and infinities spelled out, whole values up to 2^62 as integers, every other finite one as the digits the boundaries determine in the form they call for; every finite text reads back as the same double |
| DoubleText.TestsMean | src/base/numeric.h:275-279 | the integral path is taken exactly for whole values up to 2^62 |
| ParseI64.Parse | src/cmd/climon.cc:126-155 | accepts exactly the canonical spellings of 64-bit integers, the least one included, and returns the integer spelled |
| ParseI64.SpellInjective | src/cmd/climon.cc:126-155 | so every 64-bit integer is parsed back from its spelling |
| ReplySuppression.MarksKeepTheMode | src/cmd/climon.cc:547-597 | in every interleaving, while a marked command is unsent the mode is not ON |
| ReplySuppression.DrainKeepsDue | src/net/wb.h:320-365 | a drain loses and invents no reply, unless it is done by the plain sender and meets a mark |
| ReplySuppression.DrainExposes | src/net/wb.h:320-365 | in that case a marked command's reply is sent |
| ReplySuppression.ModeAgrees | src/cmd/climon.cc:973-1013 | in every interleaving without an escape the mode means what the protocol's mode means |
| ReplySuppression.LeakIsSent | src/cmd/climon.cc:494-511 | a leak leaves a reply that was never promised, whatever follows |
| ReplySuppression.WithheldUnanswered | src/cmd/climon.cc:494-511 | a command is marked only if its reply was not promised |
| ReplySuppression.WireIsPromised | src/cmd/climon.cc:494-511 | once drained, the wire holds exactly the promised replies if and only if nothing leaked: through a SKIP spent on an abandoned frame, a command parsed or a marked one drained while the owner's copy of the armed word missed the bit |
| ReplySuppression.WireIsPrefix | src/cmd/climon.cc:494-511 | before that it is a prefix of them |
| ReplySuppression.SkipCanBeLost | src/core/io_loop.h:3630-3641 | a run in which a skipped reply is sent |
| ReplySuppression.OffCanBeLost | src/core/io_loop.h:535-609 | a run in which a reply is sent after a move although OFF is in force |
| ReplySuppression.OffCanBeOverwritten | src/core/server.h:3263-3270 | a run in which a command is parsed unmarked although OFF is in force and nothing moved |
| ReplySuppression.MarkCanBeIgnored | src/core/server.h:3263-3270 | a run in which a marked command is answered although nothing moved |
| ReplySuppression.PromiseKept | src/cmd/climon.inc:26-29 | ON and RESET always answer, SKIP silences one command and only one, OFF silences every command up to the next ON or RESET |
| ReplySuppression.AnsweredAgain | src/cmd/climon.inc:26-29 | after ON or RESET every command is answered, up to the next OFF or SKIP |
| ReplySuppression.AnsweredAtFirst | src/cmd/climon.inc:26-29 | so is every command before the first OFF or SKIP |
| ReplySuppression.Connection.Dispatch | src/cmd/climon.cc:978-1012 | one parsed command is one step of the run, for ON, OFF, SKIP, RESET and any other |
| ReplySuppression.Connection.Retire | src/net/rob.h:724-741 | retires exactly the finished prefix, in order |
| ReplySuppression.Connection.Send | src/cmd/climon.cc:557-581 | one drain is one step of the run |
| ReplySuppression.Connection.ChangeOwner | src/net/conn.h:718-726 | an idle connection changes threads in one step of the run |
| ClientLanes.TallyIsCount | src/cmd/climon.inc:144-146 | the sums used below are numbers of connections |
| ClientLanes.NoUnderflow | src/cmd/climon.cc:296-310 | an entry that uses a feature keeps its thread's and the server's counter above zero |
| ClientLanes.Recount | src/cmd/climon.cc:1004-1010 | adjusting both counters by what one entry gained and lost keeps them equal to the counts |
| ClientLanes.RecountTransfer | src/cmd/climon.cc:285-358 | moving an entry between a thread and a transfer keeps them equal, transfer included |
| ClientLanes.Threads.StartMonitor | src/cmd/climon.cc:692-707 | sets the flag, keeps every counter exact, and a listening thread is in the mask |
| ClientLanes.Threads.StartTracking | src/cmd/tracking.cc:718-747 | likewise for tracking |
| ClientLanes.Threads.StopTracking | src/cmd/tracking.cc:707-714 | likewise, and drops an idle entry |
| ClientLanes.Threads.ReplyCommand | src/cmd/climon.cc:973-1013 | the mode follows the automaton, counters and the server's word change exactly when it enters or leaves ON, and the word is copied |
| ClientLanes.Threads.ReplySyntaxError | src/cmd/climon.cc:974-1003 | leaves an entry behind and changes no count |
| ClientLanes.Threads.ResetClient | src/cmd/climon.cc:428-457 | leaves every feature, through the drain state when commands are in flight |
| ClientLanes.Threads.MarkReply | src/cmd/climon.cc:494-511 | marks and moves the mode as the automaton's gate does if the cached bit is set, and does nothing otherwise; a mark is missed only by a thread that received a connection since it last copied the word, or copied it without the bit |
| ClientLanes.Threads.ReplySuppressed | src/cmd/climon.cc:547-551 | the suppressing sender exactly when the cached bit is set and the mode is not ON; the counter never changes the choice |
| ClientLanes.OverwriteUnmarked | src/core/server.h:3263-3270 | a run in which an older reading overwrites the bit and a connection with OFF in force is parsed unmarked and drained unsuppressed, without a move |
| ClientLanes.MoveUnmarked | src/core/io_loop.h:535-609 | a run of two threads in which a connection with OFF in force is parsed unmarked and drained unsuppressed |
| ClientLanes.Threads.FinishDrain | src/cmd/climon.cc:573-580 | the drain state ends in ON only when nothing is in flight |
| ClientLanes.Threads.Untrack | src/cmd/climon.cc:412-426 | a closed connection leaves no entry and no count |
| ClientLanes.Threads.CommitExtract | src/cmd/climon.cc:285-326 | the entry leaves the source whole; none of the three aborts is reachable |
| ClientLanes.Threads.Install | src/cmd/climon.cc:328-358 | the entry arrives whole; the insertion cannot find the id taken |
| ClientLanes.Threads.BeginPublish | src/core/server.h:3263-3268 | reads the counter |
| ClientLanes.Threads.EndPublish | src/core/server.h:3269 | stores what was read, whatever the counter is by then |
| ClientLanes.Threads.Refresh | src/cmd/climon.cc:187-190 | copies the server's word; the copy misses an armed connection of the thread only if an older reading had been stored |
| ClientScatter.TracksNoted | src/cmd/climon.cc:1130-1138 | one result more keeps `remaining` equal to what is under way and the sums equal to what arrived |
| ClientScatter.LastIsComplete | src/cmd/climon.cc:1136-1137 | with nothing under way every thread has answered as often as it was asked |
| ClientScatter.BeginHolds | src/cmd/climon.cc:896-932 | starting a command keeps the invariant; the connection cannot have another one pending |
| ClientScatter.KeepHolds | src/cmd/climon.cc:1130-1138 | a result that is not the last keeps the invariant |
| ClientScatter.FinishHolds | src/cmd/climon.cc:1104-1128 | the last result produces the reply the complete set of answers calls for |
| ClientScatter.ReplyFits | src/cmd/climon.cc:1104-1128 | an old-form KILL is told OK exactly if some thread killed, the other counts are added up from zero, and the lists are strung together in order of arrival |
| ClientScatter.Server.Begin | src/cmd/climon.cc:896-932 | one request to every target, under a fresh key |
| ClientScatter.Server.Serve | src/cmd/climon.cc:1072-1102 | a request becomes exactly one result |
| ClientScatter.Server.Receive | src/cmd/climon.cc:1130-1138 | every result finds its record, the abort is unreachable, and the command of a live connection is answered exactly once, after the last result and with the reply all answers call for |
| ClientScatter.Server.Finish | src/cmd/climon.cc:1104-1128 | the reply sent is the one these answers call for |
| FunctionRegistry.AdmittedWellformed | src/cmd/functions.cc:201-224 | an admitted library keeps function names unique across libraries |
| FunctionRegistry.VerdictMeans | src/cmd/functions.cc:201-224 | with REPLACE a library is refused exactly when a function of it belongs to another library; without, also when its name is taken, which is answered first |
| FunctionRegistry.AppendMeans | src/cmd/functions.cc:139-156 | without REPLACE libraries are added together exactly when all names and functions are new |
| FunctionRegistry.TableIsServed | src/cmd/functions.cc:590-602 | a thread's table is exactly what the libraries declare |
| FunctionRegistry.TableOrderFree | src/cmd/functions.cc:590-602 | so it does not depend on the order of the libraries |
| FunctionRegistry.SharedName | src/cmd/functions.cc:210-216 | finds a common function name exactly when there is one |
| FunctionRegistry.Registry.AddLocked | src/cmd/functions.cc:201-224 | adds or refuses for the right reason; a refusal changes nothing |
| FunctionRegistry.Registry.Remove | src/cmd/functions.cc:122-129 | removes and bumps, or neither |
| FunctionRegistry.Registry.ReplaceAll | src/cmd/functions.cc:139-156 | all libraries in order with exactly one bump, or no change to map and generation |
| FunctionRegistry.Registry.Snapshot | src/cmd/functions.cc:161-172 | every library once, with the generation they belong to |
| FunctionSync.EveryRun | src/cmd/functions.cc:574-607 | the invariant of every interleaving of mutators, threads and interpreter resets |
| FunctionSync.SyncIsLinearizable | src/cmd/functions.cc:574-607 | a successful call leaves the table of a generation that was current during the call |
| FunctionSync.CurrentStampIsCurrent | src/cmd/functions.cc:575-580 | a stamp equal to the generation belongs to the current libraries, even after failed calls |
| Checksums.ComputeChecksum | src/snapshot/format.h:97-101 | the loop computes the checksum |
| Checksums.ChecksumSteps | src/snapshot/format.h:97-101 | what one step does: exclusive or with the byte, then the multiplication, from the given offset |
| Checksums.ChecksumSeesByte | src/snapshot/format.h:97-101 | replacing one byte changes the checksum |
| FunctionDump.Dump | src/cmd/functions.cc:750-769 | writes the encoding |
| FunctionDump.DumpHead | src/cmd/functions.cc:750-769 | TOMOFUN1, the number of sources in four little-endian bytes, and the checksum of all that stands before it |
| FunctionDump.DumpSource | src/cmd/functions.cc:759-762 | each source stands behind its length in four little-endian bytes, one after the other |
| FunctionDump.ChangedIsRefused | src/cmd/functions.cc:771-780 | an accepted payload with one byte replaced, anywhere in it, is refused |
| FunctionDump.Decode | src/cmd/functions.cc:771-796 | reads what a payload means, with 32-bit positions that never overflow and reads in bounds |
| FunctionDump.ParseSound | src/cmd/functions.cc:783-790 | what is parsed is the only thing that could have been written |
| FunctionDump.ParseComplete | src/cmd/functions.cc:759-762 | what was written is parsed |
| FunctionDump.DecodedEncodes | src/cmd/functions.cc:771-796 | every accepted payload is the encoding of what was read from it |
| FunctionDump.EncodedDecodes | src/cmd/functions.cc:771-780 | a dump reads back exactly if and only if it holds at most 4096 libraries |
| FunctionRestore.Load | src/cmd/functions.cc:870-903 | a compiled source is added or refused, and every library stays what its source compiles to |
| FunctionRestore.DumpRegistry | src/cmd/functions.cc:750-769 | the payload of any registry, in any order of its libraries |
| FunctionRestore.Restore | src/cmd/functions.cc:798-838 | bad payload, bad library, refusal or success, with one bump on success and no change otherwise |
| FunctionRestore.ChangedDumpRefused | src/cmd/functions.cc:806-814 | RESTORE of such a payload changes nothing, whatever the policy |
| FunctionRestore.AppendRestores | src/cmd/functions.cc:798-838 | RESTORE APPEND succeeds exactly when everything in the payload is new |
| FunctionRestore.ReplaceRestores | src/cmd/functions.cc:798-838 | RESTORE REPLACE puts a library in unless a function of it belongs to another one |
| FunctionRestore.RestoreOfDump | src/cmd/functions.cc:798-838 | RESTORE FLUSH of the reply to DUMP reproduces the dumped libraries in any registry if and only if there are at most 4096 and the payload is shorter than 2^32 bytes |
| FunctionRestore.RestoredLength | src/cmd/functions.cc:798-838 | a payload that restores to some libraries is as long as a dump of them in any order |
| GeoHash.Separates | src/cmd/geo.cc:124-137 | interleaving can be undone |
| GeoHash.Interleaves | src/cmd/geo.cc:139-145 | every number is the interleaving of its halves |
| GeoHash.ScoreBits | src/cmd/geo.cc:136 | bit 2n of a score is bit n of the latitude, bit 2n+1 bit n of the longitude |
| GeoHash.EncodedCells | src/cmd/geo.cc:130-137 | a score names the cell of each coordinate among 2^26 equal ones, the far edge in the last |
| GeoHash.Spread26 | src/cmd/geo.cc:124-128 | the bit loop spreads all 26 bits |
| GeoHash.Separate | src/cmd/geo.cc:139-145 | the bit loop takes a 52-bit score apart |
| GeoHash.Encode | src/cmd/geo.cc:130-137 | the score of any valid coordinate, edges included, is below 2^52 |
| GeoHash.Decode | src/cmd/geo.cc:139-157 | the middle of the cell, whose own score is the score given |
| GeoHash.CellIsInterval | src/cmd/geo.cc:205-214 | the scores of one cell are exactly one aligned interval |
| GeoCover.ChooseStep | src/cmd/geo.cc:186-190 | the finest grid whose cells are as wide and as high as the reach |
| GeoCover.ColumnsNextTo | src/cmd/geo.cc:205-209 | two longitudes within a cell's width are in neighbouring columns around the globe, except across the seam |
| GeoCover.Covers | src/cmd/geo.cc:176-226 | a valid point within reach is covered if and only if the pair is not at the seam |
| GeoCover.SeamIsMissed | src/cmd/geo.cc:205-209 | the exception on every grid of four columns or more |
| GeoCover.StoredCovered | src/cmd/geo.cc:176-226 | every stored score within reach is covered |
| GeoCover.AddCell | src/cmd/geo.cc:205-219 | adds a neighbouring cell's interval once, with longitude wrapped |
| GeoCover.NeighborIntervals | src/cmd/geo.cc:176-226 | disjoint intervals below 2^52 that together are exactly the covered scores |
| GeoSearch.LowerBound | src/cmd/geo.cc:376-379 | the first entry at or above a score |
| GeoSearch.Scan | src/cmd/geo.cc:375-402 | each matching entry once, all of them unless ANY stopped early with exactly COUNT |
| GeoSearch.Sort | src/cmd/geo.cc:403-410 | the same entries: nearest first or farthest first, equally far ones by score |
| GeoSearch.RunSearch | src/cmd/geo.cc:354-418 | missing member exactly when absent; matches only, each once, all of them when COUNT does not cut; distances do not decrease, or do not increase when descending, equal ones by score; without ANY nothing nearer, or farther when descending, is left out |
| GeoSearch.NothingWithinReachIsMissed | src/cmd/geo.cc:354-418 | without COUNT every stored entry within reach that passes the shape test is returned |
| CommandIndex.Equal | src/cmd/commands.cc:63-70 | as long, and each byte the same or the other case of the same ASCII letter |
| CommandIndex.FreeSlotEnds | src/cmd/commands.cc:276-277 | a free slot on the probe path proves the name absent |
| CommandIndex.ProbeStops | src/cmd/commands.cc:144-145 | with fewer rows than slots every probe meets a free slot |
| CommandIndex.Insert | src/cmd/commands.cc:246-255 | terminates, and indexes the row exactly when no earlier row has its name |
| CommandIndex.Find | src/cmd/commands.cc:272-282 | the row a plain scan finds, or none |
| CommandRegistry.KeySpells | src/cmd/command.h:258-263 | equal packed words mean equal verbs up to case, for all bytes |
| CommandRegistry.HotAgrees | src/cmd/commands.cc:257-268 | the pinned row agrees with the table exactly when no row is the verb in another case |
| CommandRegistry.Registry.Boot | src/cmd/commands.cc:119-270 | succeeds exactly when already built, or on at most 255 valid rows with distinct names, a category row for each and no more, a metadata index and canonical hot verbs, and leaves a complete index |
| CommandRegistry.Registry.LookupRegistry | src/cmd/commands.cc:272-282 | equals a plain scan for every byte string, the empty one included |
| CommandRegistry.Registry.Lookup | src/cmd/command.h:273-298 | the shortcut equals the plain scan for every byte string |
| RespCounter.RunSplit | tools/benchtxn.cc:78-121 | feeding two chunks is feeding their concatenation |
| RespCounter.RunReply | tools/benchtxn.cc:78-124 | any reply, however nested, resolves exactly one outstanding frame |
| RespCounter.RunReplies | tools/benchtxn.cc:78-124 | a sequence of replies ends at stage 0 with nothing open and each reply counted |
| RespCounter.ExactAtEveryByte | tools/benchtxn.cc:66-69 | after every byte the count is the number of replies wholly received |
| RespCounter.BuildCommand | tools/benchtxn.cc:133-140 | writes an array of bulk strings |
| RespCounter.ReplyCounter.Feed | tools/benchtxn.cc:78-124 | consuming runs of bytes at once equals consuming them one by one |
| FlagOrder.Build | tools/gen_cmdmeta.py:104-118 | the edges are exactly the neighbours in the rows, and the counters count predecessors |
| FlagOrder.NoRanking | tools/gen_cmdmeta.py:120-123 | when no name is ready, no ranking makes every row increase |
| FlagOrder.FirstReady | tools/gen_cmdmeta.py:121-124 | the earliest name seen that is unplaced and waits for nothing |
| FlagOrder.OrderedUnion | tools/gen_cmdmeta.py:104-135 | terminates, places at each step the ready name that appeared first in the rows, and succeeds exactly when some order makes every row strictly increasing; the final check never fails |
| FlagOrder.MaskFor | tools/gen_cmdmeta.py:138-142 | the bits of exactly the row's names, as many as the row has, below 2^n for n names; nothing for an unknown name |
| FlagOrder.Render | src/cmd/cmdmeta.cc:118-125 | the names of the set bits, by ascending position, behind a count that is right if and only if no bit lies beyond the names |
| FlagOrder.RenderInvertsMask | src/cmd/cmdmeta.cc:118-125 | rendering a row's mask gives the row |
| FlagOrder.RoundTrip | tools/gen_cmdmeta.py:104-142 | order, mask and rendering together reproduce every row |
| SizeClass.GoodSizeLeast | src/base/alloc.h:48-55 | the least class that holds the request, for all requests up to 2^63, without overflow |
| SizeClass.Idempotent | src/base/alloc.h:48-55 | no request up to 2^63 is rounded beyond it, and a class is its own size |
| SizeClass.Constant | src/base/alloc.h:48-55 | every request between a request and its size has that size |
| SizeClass.Monotone | src/base/alloc.h:48-55 | larger requests get no smaller sizes |
| SizeClass.Waste | src/base/alloc.h:48-55 | above 128 less than a quarter of the request is wasted |

## Left out

- Parsing of doubles, long doubles and timeouts with the C library, and everything that depends on errno.
- Out-of-memory branches, and the Lua stamp above 2^53, which the interpreter keeps as a double.
- The Lua sandbox, sockets, TLS, signals, threads and the reorder buffer's atomics: a drain is one step here, and its borrowed values and segments are not modelled, only which replies are sent.
- Delivery of MONITOR lines, the routes that forward them after a move, and the tables of tracked keys and prefixes.
- The filters of CLIENT LIST and KILL and the text of their lines: a target's answer is arbitrary.
- Rounding in the geo computations, the trigonometry behind reach and distance, and which entries a COUNT without an order keeps.
- The arithmetic of the command hash: any function of the upper-cased bytes serves. The other columns of a command row are one validity flag; which names the generated category table holds and whether the metadata index can be built are given.
- FunctionSync.EveryRun: the table and stamp of a thread are values that steps change, because calls interleave; rebuilding the table is one step, since only its own thread sees it.
- RespCounter.RunReplies: lengths are unbounded integers; the C library's behaviour on numbers outside a long is not modelled.
- FlagOrder.Render: more than 64 names are printed here as well; the server's mask has 64 bits, which hold every mask of up to 64 names, and a shift beyond them is undefined there.
- Storage, transactions, replication of commands to executors, snapshots, streams and the remaining commands.
