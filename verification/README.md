# Packet filters, trace trees and trace streams: a verified model

The repository carries libpcap and blktrace among its external sources. This project models the
parts of them whose correctness is least visible in any one function and proves what they are
for.

**The packet filter compiler.** A filter is a formula over tests. `Bpf` is the reference
interpreter: accumulator, index register and sixteen scratch words of 32 bits, wrapping
arithmetic, forward jumps; `Words` says what its arithmetic comes to. `Arith` and `Registers` compile arithmetic operands into scratch
slots; `Wiring`, `Threads` and `Gencode` build the graph of test blocks by backpatching, with
unfilled successor pointers as list links; `Layout` turns the graph into a linear program with
8-bit jumps. `Compile` composes them: formula, graph and program agree on every packet.

**The optimizer's passes**, each with the theorem that says when it keeps the verdict of every packet:
`Levels`, `Dominators`, `Liveness` and `Reads` (the analyses, exact, and dead stores), `ValueNumbers`,
`Folding`, `Renumbering` and `Trimming` (value numbers, simplification and what is left of a
block), `EdgeFold` and `Threading` (redirected edges), `Crossing`, `Pullup` and `Rows` (tests moved
up a chain) and `Intern` (equal blocks shared). `Passes` runs the analyses and the passes that need
them one after the other; `Stateless` is about blocks that define what they read. `Stale`,
`Conflicts` and `Dependencies` are the graphs on which sweep, redirections and pull-ups go wrong.

**The red-black tree** with parent pointers: `RbShape` relates the fields of an array of nodes
to a tree seen from any of its nodes, `RbTree` has rotations and recolouring, `RbErase` removal,
`RbWalk` the walks. `RbIndex` and `TrackTree` are the two indexes blkparse keeps in such trees.

**The streams and protocols**: `Merge` (blkparse's merge of the per-CPU streams), `RingFilter`
(the change of a kernel filter under a ring that the kernel keeps filling), `Framing` and
`Entries` (blktrace's record framing and the counter shared by tracers and consumer) and
`Monitor` (blkiomon's matching of issues and completions). `LinkedLists` is shared by two of
them.

Objects that the program updates in place are classes with those fields, loops are loops with
invariants, and each method is tied to a specification function about which the results are
proved. `Blocks` and `Graph` connect the heap of blocks to a graph as a value, on which meaning
is defined. Blocks and tree nodes are named by numbers; lists threaded through them are links
between numbers.

## What the proofs brought to light

- `pcap_setfilter_linux_mmap` sets the number of frames still to be filtered in the program only
  when the kernel takes the new filter, and `pcap_setfilter_linux_common` does not clear it when
  the kernel refuses one. If an earlier count is still running, it runs out later and nobody
  filters any more. `RingFilter.RefusedExactly` says exactly when.
- In the hand-over itself a packet that has passed the old filter, but is not yet in the ring,
  can reach the callback unfiltered: overtaken by newer ones in a ring with room, or taking the
  place of the frame read next in a full one. `HandOverExactly` says that it is safe exactly when
  no packet is between filter and ring, or only one can be and the ring has room.
- `vstore` drops a move when source and target have the same number, also when that number is 0,
  which stands for every unknown value. `Folding.TransferDropped` says that this, and the same
  for loads and stores of slots, is right exactly for known values. `fold_edge` compares numbers
  in the same way; `EdgeFold.FoldExactly` says that it is right exactly where the test is settled
  by known values, and `Conflicts.UnknownFolds` is a graph on which a verdict changes.
- `opt_deadstores` drops a store and leaves its value number, so a block further on may drop the
  same store as made already. `Trimming.TrimmedKeepsVerdict` has the condition under which
  `opt_blk` keeps every verdict, and `Stale.StoreMissed` a graph on which it does not, though all
  blocks define what they read.
- `use_conflict` compares the atoms live out of a block where those live into it matter.
  `Conflicts.UseConflictMisses` has a graph on which `opt_j` thereby changes a verdict.
  `RedirectKeepsVerdict` has the comparison that is enough, `ConflictSees` says exactly when the
  one in the code implies it, and `HandOnExactly` that for all blocks this is so only where they
  define what they read. On such graphs redirections keep every verdict. For others even
  redirections that are right one by one can be wrong together, as `TwoRedirectionsMiss` shows:
  the sets are those from before the first.
- `or_pullup` and `and_pullup` do not look at data flow; a comparison of all atoms is compiled
  out. `Crossing.Crosses` has the condition under which a pull-up is right,
  `Dependencies.EveryFlowMatters` a changed verdict for each part of it.
- A failed write in `handle_list_file` also loses the piece of a record kept from before.

## Model

| member | source | states |
|---|---|---|
| `Compile.PcapCompile` | external/libpcap/gencode.c:395-455 | End to end without the optimizer, with a filter and without one: it succeeds exactly when the snapshot length is not 0 and every relation fits the sixteen scratch slots. The program, whose jumps all land inside it, then returns snaplen on exactly the packets the filter accepts and 0 on all others, from any machine state: judged test by test, the machine state handed on from one to the next, which for self-contained tests is the truth of the formula; without a filter it returns snaplen on every packet |
| `Compile.Parse` | external/libpcap/gencode.c:485-563 | The heap holds an acyclic graph that returns snaplen or 0 as the filter, judged test by test with the state handed on, comes out; for self-contained tests that is the formula |
| `Compile.Gen` | external/libpcap/gencode.c:485-563 | After the grammar actions for a filter the heap holds its leaves, wired by the threaded lists; only new objects were made and older ones are untouched |
| `Compile.WireRuns` | external/libpcap/gencode.c:485-563 | A run through leaves wired to two exits reaches the true exit iff the filter is judged true, in the state the tests leave |
| `Compile.WireForward` | external/libpcap/gencode.c:485-563 | Wired branches lead to later leaves or to an exit, so the graph is acyclic and no exit is open |
| `Compile.FinishParse` | external/libpcap/gencode.c:517-533 | The graph left has every open true exit at the snaplen return and every open false exit at the zero return, starting at the first leaf |
| `Compile.FinishedMeans` | external/libpcap/gencode.c:517-533 | The finished graph is ranked and its verdict is the judged filter, and the formula when the tests are self-contained |
| `Compile.JudgeIsHolds` | external/libpcap/gencode.c:485-563 | Judging the generated code short-circuit, state threaded through, gives the truth of the formula over the packet |
| `Compile.GenRelation` | external/libpcap/gencode.c:5154-5198 | The block made decides the possibly reversed relation of the two expression values; it fails exactly when the slots do not suffice |
| `Wiring.Sides` | external/libpcap/gencode.c:485-515 | The list invariant: the representative is in both lists with both exits open; any other leaf is linked exactly when its link side is open, in the list of that exit, and its other side is filled |
| `Wiring.WireCloses` | external/libpcap/gencode.c:485-515 | Filling the open exits of a filter gives the same wiring as building it with those exits |
| `Wiring.ListsDescend` | external/libpcap/gencode.c:485-515 | Both lists start at the representative and go through leaves of the filter in strictly falling order |
| `Threads.ChainsHold` | external/libpcap/gencode.c:485-515 | The links stored in the unfilled successors are exactly the two lists |
| `Threads.AndThreads` | external/libpcap/gencode.c:535-545 | Backpatching, flipping and merging as gen_and does turns the threads of the operands into those of the conjunction |
| `Threads.OrThreads` | external/libpcap/gencode.c:547-556 | The same for gen_or and the disjunction |
| `Threads.NotThreads` | external/libpcap/gencode.c:558-563 | Flipping the sense of the representative alone swaps the two lists |
| `Gencode.Backpatch` | external/libpcap/gencode.c:485-501 | Every link of the list is filled with the target, nothing else changes |
| `Gencode.Merge` | external/libpcap/gencode.c:503-515 | The last link of the first list leads to the second, nothing else changes |
| `Gencode.GenAnd` | external/libpcap/gencode.c:535-545 | The second block stands for the conjunction afterwards; leaves of other filters keep their links |
| `Gencode.GenOr` | external/libpcap/gencode.c:547-556 | The second block stands for the disjunction afterwards; leaves of other filters keep their links |
| `Gencode.GenNot` | external/libpcap/gencode.c:558-563 | The block stands for the negation afterwards |
| `Registers.Registers.AllocReg` | external/libpcap/gencode.c:5292-5308 | A slot that was not in use, unless all sixteen are; the search from curreg wraps around |
| `Registers.Registers.GenExpr` | external/libpcap/gencode.c:5027-5315 | Compiling an expression succeeds exactly when its need fits the free slots; the code leaves its 32-bit value in a new slot and changes no slot in use before |
| `Registers.Registers.GenLoad` | external/libpcap/gencode.c:5027-5152 | The load takes a new slot before giving the index slot back, and computes the indexed load at the link-layer offset |
| `Registers.Registers.GenArth` | external/libpcap/gencode.c:5256-5280 | The result slot holds the operation of both values; both operand slots are free again |
| `Arith.RelationDecides` | external/libpcap/gencode.c:5005-5198 | The code for both operands followed by the comparison decides the relation on the two 32-bit values, unsigned, for the direct and the subtracting form |
| `Arith.BinaryComputes` | external/libpcap/gencode.c:5005-5025 | Loading the right value into X and the left into A and applying the operation computes the tree in any slot outside those in use |
| `Layout.Converter.IcodeToFcode` | external/libpcap/optimize.c:1698-1722 | For every ranked graph the retry loop ends with a program of exactly the counted length that gives the same return value on every packet from every state; every jump in it goes forward, by at most 255 if it is conditional, to an instruction of the program |
| `Layout.Converter.Attempt` | external/libpcap/optimize.c:1698-1722 | An attempt either lays out all reachable blocks or adds one to exactly one of the long-jump flags, which are never cleared |
| `Layout.Converter.ConvertCodeR` | external/libpcap/optimize.c:1544-1695 | Blocks are laid out back to front, successors before the block, each once; a failure has set one long-jump flag |
| `Layout.Converter.CountStmts` | external/libpcap/optimize.c:1457-1467 | The count is the sum of the sizes of the unmarked reachable blocks, and those are marked afterwards |
| `Layout.Converter.Branch` | external/libpcap/optimize.c:1655-1695 | A displacement of at most 255 that lands on the target, directly or, exactly where it is 256 or more away, through one inserted JA; it fails exactly if that is so and the flag is down |
| `Layout.BlockRuns` | external/libpcap/optimize.c:1544-1695 | From the start of a block the program returns its constant or reaches the code of the successor the block chooses, in the state the block leaves |
| `Layout.LayoutKeepsVerdict` | external/libpcap/optimize.c:1544-1695 | A program in which every block is coded returns what the graph returns |
| `Layout.LiveKeepsMeaning` | external/libpcap/optimize.c:1410-1429 | Statements marked as no-ops can be left out |
| `Layout.LiveFilters` | external/libpcap/optimize.c:1410-1429 | Exactly those are, and the others stay in order |
| `Layout.SlackDrops` | external/libpcap/optimize.c:1698-1722 | The measure of the retry loop falls with each flag |
| `Graph.WalkMeasuresReach` | external/libpcap/optimize.c:1457-1467 | A marking walk, in either order of the successors, marks exactly what is reachable and tallies each block once |
| `Graph.RunIgnoresRank` | external/libpcap/optimize.c:146-174 | The verdict of a graph does not depend on the ranking that witnesses its being acyclic |
| `Levels.LevelFinder.FindLevels` | external/libpcap/optimize.c:146-174 | The lists by level hold exactly the reachable blocks, each once, each in the list of its height |
| `Levels.LowerLevels` | external/libpcap/optimize.c:146-174 | Every edge between reachable blocks strictly lowers the level; level 0 is exactly the returns |
| `Levels.HeightFits` | external/libpcap/optimize.c:146-174 | Levels stay below the number of blocks, so the array is large enough |
| `Dominators.DomFinder.FindDom` | external/libpcap/optimize.c:176-201 | The set of a reachable block is exactly the blocks on all paths from the root to it |
| `Dominators.EdomFinder.FindEdom` | external/libpcap/optimize.c:203-233 | The set of an edge is exactly the edges on all paths from the root through it |
| `Dominators.DominatesStep` | external/libpcap/optimize.c:176-233 | What dominates a place is the place and whatever dominates all places before it |
| `Dominators.ReachIsPaths` | external/libpcap/optimize.c:176-233 | Reachability by recursion and by paths agree |
| `Liveness.UdFinder.FindUd` | external/libpcap/optimize.c:374-393 | One sweep from the lowest level leaves the exact live-in and live-out sets of every reachable block |
| `Liveness.LiveSound` | external/libpcap/optimize.c:256-393 | Two states that agree on the atoms live into a block give the same verdict from there |
| `Liveness.LiveThrough` | external/libpcap/optimize.c:319-393 | They also agree behind the block on what is live out of it, and take the same branch |
| `Liveness.ComputeLocalUd` | external/libpcap/optimize.c:319-372 | The loop computes the definitions, uses and kills of a block |
| `Reads.UsesExact` | external/libpcap/optimize.c:252-291 | A statement reads an atom exactly if two states that differ in that alone can make a difference to the word it computes, unless it makes the same of everything |
| `Reads.TermUsesExact` | external/libpcap/optimize.c:252-291 | The same for tests, unless a constant decides them |
| `Reads.LocalUdExact` | external/libpcap/optimize.c:319-372 | The uses of a block are exactly the atoms some statement or the test reads with no definition before it, its kills exactly those defined before anything reads them |
| `Reads.LiveExactly` | external/libpcap/optimize.c:374-393 | An atom is live into a block exactly if there is a way from there to a block that reads it, past blocks that do not define it |
| `Liveness.OptDeadstores` | external/libpcap/optimize.c:845-887 | Exactly the dead stores are dropped: those overwritten unread, and those unread to the end whose atom is neither tested nor live out; in every state all atoms end as before but those whose last store was dropped, so every atom live out and the decision are unchanged |
| `Liveness.DeadStmt` | external/libpcap/optimize.c:845-867 | After a statement the table holds exactly the definitions still unread, and exactly the stores overwritten so far are gone |
| `Reads.DeadExactly` | external/libpcap/optimize.c:845-887 | A store is dropped exactly if every later statement that reads its atom finds another definition in between, and so do the test and whoever needs the atom behind the block |
| `Liveness.DeadstoresKeepVerdict` | external/libpcap/optimize.c:869-887 | Dropping dead stores from any number of blocks under the sets of find_ud keeps every verdict from every block |
| `ValueNumbers.Numbering.F` | external/libpcap/optimize.c:427-456 | Two calls give the same number exactly when the triples are the same, whatever the hash; the table only grows |
| `ValueNumbers.DenKeeps` | external/libpcap/optimize.c:427-456 | A number keeps the function of the packet it denotes while the table grows |
| `ValueNumbers.NumberedDenotes` | external/libpcap/optimize.c:670-843 | The number given to a statement denotes the word it computes, in every state the numbers describe |
| `ValueNumbers.StoreStep` | external/libpcap/optimize.c:458-465 | Recording the number keeps the numbers right about the state |
| `ValueNumbers.DropStep` | external/libpcap/optimize.c:458-465 | A statement whose number its atom has already can go when what it reads is known |
| `Folding.Folder.OptStmt` | external/libpcap/optimize.c:670-843 | The result does what the statement does when it reads known values, and the numbers stay right; constants are folded away, constant operands become part of the statement, units vanish, a transfer goes exactly when its number is there already; it fails exactly on a constant division by zero |
| `Folding.Folder.FoldOp` | external/libpcap/optimize.c:467-516 | Two constants become the load of a word that is what the operation makes of them, said on integers modulo 2^32 and on bits; the error is raised exactly for a zero divisor |
| `Words.AluMakes` | external/libpcap/optimize.c:467-516 | What each operation computes: sum, difference and product modulo 2^32, the quotient rounded down, every bit of a conjunction or disjunction from the bits of the operands, a shift to the left as a product with a power of two modulo 2^32, one to the right as a quotient by it |
| `Words.JsetMeans` | external/libpcap/optimize.c:651-654 | A test for bits holds exactly if the words have a bit in common |
| `Folding.SimplifiedMeans` | external/libpcap/optimize.c:670-843 | What alter does to a statement besides keeping its meaning: constant operands are not read any more, operations with a unit or a zero on the right are gone or a zero, and a transfer goes exactly if its number is there |
| `Folding.Folder.OptAluX` | external/libpcap/optimize.c:762-805 | The three ways an operation with X is simplified |
| `Folding.FoldZeroLeft` | external/libpcap/optimize.c:785-805 | With a zero accumulator the operation is a move of X or the constant 0 |
| `Folding.TransferDropped` | external/libpcap/optimize.c:458-465 | Dropping a statement whose atom already has its number, a transfer between registers, a load or a store of a slot, is right if and only if the number is a known value: all unknown values share the number 0 |
| `Renumbering.OptStmts` | external/libpcap/optimize.c:889-924 | The statements are numbered one from the other, each simplified when statements may be altered and none touched otherwise; it stops exactly at the division of a constant by the constant zero |
| `Renumbering.TrailMeans` | external/libpcap/optimize.c:889-924 | The numbers behind the block describe every state it leaves, and where only known transfers were dropped the new statements do what the old ones did |
| `Renumbering.TrailKnows` | external/libpcap/optimize.c:889-924 | Behind a block that reads no unknown atom everything it defines is known, no number is left that stands for nothing, and only known transfers were dropped |
| `Renumbering.OptBlk` | external/libpcap/optimize.c:889-937 | A whole block: its statements numbered and simplified as above, then all of them gone where the block returns, or keeps the numbers of both registers and nothing is read behind its test, and exactly the dead stores gone elsewhere; the number left for the operand of its test is that of the constant or of the index register. It fails only where statements may be altered and those of the block come to a division of a constant by the constant zero |
| `Renumbering.MergePreds` | external/libpcap/optimize.c:905-915 | On entry an atom has the number all predecessors agree on, and 0 where they differ |
| `Renumbering.FindInedges` | external/libpcap/optimize.c:1220-1242 | The in-edge lists hold exactly the edges from reachable blocks, each once |
| `Renumbering.OptBlks` | external/libpcap/optimize.c:1187-1200 | The sweep from the top level gives every reachable block on entry what all its predecessors agree on, does from there what opt_blk does to it, and leaves other blocks alone; if it fails, statements may be altered, and a reachable block whose predecessors have been numbered divides a constant by the constant zero |
| `Renumbering.SweepMeans` | external/libpcap/optimize.c:889-937 | For every reachable block: the numbers on entry, what opt_stmt has done statement by statement, what has gone after that, and the number of the operand |
| `Renumbering.HaltMeans` | external/libpcap/optimize.c:467-516 | A sweep that fails has come to a division of a constant by the constant zero in a reachable block |
| `Trimming.TrimmedKeepsVerdict` | external/libpcap/optimize.c:845-937 | Emptying blocks and dropping their dead stores behind opt_stmt, by the sets found before, keeps every verdict if the registers of emptied blocks held known values and in the graph that comes out nothing reads an atom past a block that has lost its last store of it |
| `Trimming.StaleExactly` | external/libpcap/optimize.c:845-919 | Where nothing was known on entry of the atoms that lose their last store, and no other store of them stays, the numbers at the end of a block are still right exactly if none of those atoms has a known number |
| `Stale.StoreMissed` | external/libpcap/optimize.c:845-919 | A graph of blocks that define what they read, none with a dead store, on which the sweep removes the store of the first block once its load is gone, drops the same store in the second since the number is still there, and a verdict changes |
| `Renumbering.NumbersSound` | external/libpcap/optimize.c:1187-1200 | If the blocks read known values only, every number on entry to and at the end of every reachable block is 0 or denotes a function of the packet, what each test reads is known, and every rewritten block does what it did |
| `Renumbering.NonzeroDenotes` | external/libpcap/optimize.c:418-456 | Each nonzero number denotes one function: in every run, in every block passed, an atom with that number holds its value on the packet |
| `Renumbering.EveryRunDescribed` | external/libpcap/optimize.c:889-924 | In every run from every described state, known numbers are right about the state at the start and the end of every block passed |
| `Renumbering.RewritesKeepVerdict` | external/libpcap/optimize.c:889-919 | Simplifying every block under its entry numbers keeps the verdict |
| `Renumbering.OptBlksKeepsVerdict` | external/libpcap/optimize.c:1187-1200 | The numbering sweep keeps the verdict of every packet from the root, in every state, where every block dropped known transfers only |
| `EdgeFold.FoldNames` | external/libpcap/optimize.c:957-988 | fold_edge names an outcome exactly when both blocks make the same test of the same number and the outcome of the one leaves only this for the other, as far as numbers can tell: equal numbers stand for equal words, and different constants for different ones |
| `EdgeFold.FoldSound` | external/libpcap/optimize.c:957-988 | If the other block took the given branch and the test skipped is settled, it comes out as the folded branch says, from different states even and for an equality with a different constant |
| `EdgeFold.FoldExactly` | external/libpcap/optimize.c:957-988 | Where fold_edge names one of two different branches, that is the branch the test takes in all states the numbers describe if and only if the test is settled: both words it compares are known, or the known one decides it whatever the other is |
| `EdgeFold.SettledConstant` | external/libpcap/optimize.c:957-988 | A test against a constant is settled exactly if the accumulator is known or the constant alone decides it, as 0 does at least and for bits in common and the largest word for greater |
| `Threading.DominatingTaken` | external/libpcap/optimize.c:203-233 | A run that takes an edge has taken every edge in its set, with that outcome |
| `Threading.Threader.OptJ` | external/libpcap/optimize.c:990-1024 | Only the given edge changes, to a lower block, by a way of which each step is what fold_edge names for a dominating edge, or at first a common branch target, and finds no conflict; afterwards no dominating edge would move it further without one, and a common branch target has been passed unless that conflicts. Where the folded tests are settled every run over the edge comes to the new target |
| `Threading.Threader.FindFold` | external/libpcap/optimize.c:1003-1024 | What it finds is what fold_edge names for a dominating edge, without a conflict; it finds nothing exactly when every dominating edge leaves the test open or leads to a conflict |
| `Threading.Threader.OptEdges` | external/libpcap/optimize.c:1202-1207 | The sweep over all edges ends, has moved each by such a way only, and leaves nothing to do for any: it leads to a return or no dominating edge moves it on without a conflict, and it stayed where it was only if its target could not be passed. Where the folded tests are settled every run over an edge comes to its new target; where tests read known values, every packet keeps its verdict from every state if each new target inherits the known values live into it, which is so whenever the blocks define what they read |
| `Threading.MovedFreely` | external/libpcap/optimize.c:941-1024 | After the sweep, an edge that has moved leads to a branch target of a test, and all atoms live out of that have the numbers they have at the start of the edge |
| `Threading.NothingLeft` | external/libpcap/optimize.c:1003-1024 | After the sweep, where an edge leads to a test whose outcome a dominating edge forces, an atom live out of the block behind that branch has another number than at the start of the edge |
| `Threading.CommonPassed` | external/libpcap/optimize.c:996-1001 | After the sweep, an edge to a test whose branches lead to one block, with the same numbers in what is live out of that, is not where it was |
| `Threading.RewiredKeepsVerdict` | external/libpcap/optimize.c:990-1024 | Any number of edges redirected on the sets of the first graph, in blocks that have lost the stores dead by the same sets, keep the verdict, in every block a run visits, in every state that holds the known values live there, if all of them carry those on |
| `Threading.RedirectKeepsVerdict` | external/libpcap/optimize.c:990-1024 | One redirection keeps the verdict from every block visited if the target inherits the known values live into it, whatever atoms its blocks read |
| `Threading.NumbersDecide` | external/libpcap/optimize.c:941-955 | Two states that hold the known values live into a block give the same verdict from there |
| `Threading.ConflictSees` | external/libpcap/optimize.c:941-955 | use_conflict guarantees that a target inherits the known values live into it if and only if all of those are also live out of it with the same numbers |
| `Threading.HandOnExactly` | external/libpcap/optimize.c:941-955 | All live-in atoms of all blocks are live out as well only in a graph whose blocks read no earlier values at all |
| `Stateless.RunAlike` | external/libpcap/optimize.c:941-955 | Blocks that define what they read give the same verdict from every two states |
| `Conflicts.UseConflictMisses` | external/libpcap/optimize.c:941-1024 | A graph with its numbers on which fold_edge moves an edge past a store, use_conflict finds nothing since the atom is live into the target only, no dominating edge moves it on, and the verdict has changed |
| `Conflicts.UnknownFolds` | external/libpcap/optimize.c:957-988 | A graph on which fold_edge takes one unsettled test of an unknown value for another, both having the number 0, and the verdict changes |
| `Conflicts.TwoRedirectionsMiss` | external/libpcap/optimize.c:1202-1207 | A graph with its exact edge dominators and two redirections, each of which keeps every verdict; the sweep makes both, has nothing more to do for any edge then, and a verdict has changed |
| `Passes.NumberingAnalyses` | external/libpcap/optimize.c:1187-1207 | The numbers of the first loop of opt_blks and the sets of find_edom are what the redirections rely on, and where blocks read known values only, so do the tests |
| `Passes.RedirectEdges` | external/libpcap/optimize.c:1187-1207 | opt_blks where statements stay, up to the pull-ups: levels, liveness, edge dominators, the sweep with its dead stores, and the redirections, on any graph. Exactly the dead stores go, only edges move after that, and at the end nothing is left to do for any edge; every packet keeps its verdict from every state if blocks read known values that the redirections carry on, always if they define what they read |
| `Passes.SimplifyBlocks` | external/libpcap/optimize.c:1187-1203 | opt_blks where statements may be altered: every reachable block is numbered, simplified and trimmed, or one is named that divides a constant by the constant zero; every packet keeps its verdict from every state if blocks read known values, as they do if they define what they read, and none reads in the new graph what another has lost |
| `Passes.NumberBlocks` | external/libpcap/optimize.c:1187-1200 | The sweep where statements stay: exactly the dead stores of the reachable blocks go, every packet keeps its verdict from every block and state, and the numbers are what the redirections rely on |
| `Pullup.Puller.Pullup` | external/libpcap/optimize.c:1027-1185 | The test moves where there is a place for it and nothing moves where there is none; the graph stays acyclic, and every packet keeps its verdict from every state if the test is independent of those it passes and of what is read behind them |
| `Rows.OrSite` | external/libpcap/optimize.c:1046-1076 | A place for or_pullup is exactly a row of tests dominated by its head, each going to the next by its false branch and all to one block by the true one, of which the first k and the last, but none in between, end with the number that the accumulator has on every edge into the head |
| `Rows.AndSite` | external/libpcap/optimize.c:1122-1152 | The same for and_pullup with the branches exchanged |
| `Rows.OrPulled` | external/libpcap/optimize.c:1084-1101 | Branch by branch: the last block of the row is put in front of the k-th, behind the one before that or, at the head, on all edges into it; all others stay as they are |
| `Rows.AndPulled` | external/libpcap/optimize.c:1160-1177 | The same for and_pullup with the branches exchanged |
| `Rows.OrIdle` | external/libpcap/optimize.c:1046-1076 | Without such a row or_pullup changes nothing |
| `Rows.AndIdle` | external/libpcap/optimize.c:1122-1152 | Neither does and_pullup |
| `Rows.ConditionsPulled` | external/libpcap/optimize.c:1105-1180 | On three tests of the bytes at 9, 10 and 9 again, joined by and, and_pullup moves the third in front of the second |
| `Pullup.OneSite` | external/libpcap/optimize.c:1027-1185 | There is at most one place for a pull-up at a block |
| `Pullup.PulledVerdict` | external/libpcap/optimize.c:1027-1185 | Moving an independent test forward along the chain keeps every verdict from every state |
| `Pullup.PulledThrough` | external/libpcap/optimize.c:1027-1185 | Before and after the move a run leaves the chain for the same block, in states that agree on what is live there |
| `Crossing.Crosses` | external/libpcap/optimize.c:1027-1185 | In a row of tests with a common exit the last may come first if it and the others do not read what the other side defines, what is read behind the common exit is defined by none of them, and what is read past the last test is not defined on both sides: a run leaves by the same way, in states that agree on what is read there |
| `Dependencies.EveryFlowMatters` | external/libpcap/optimize.c:1074-1098 | The condition of a pull-up holds exactly where data flows in none of five ways, and for each of them there is a graph, with its numbers and dominators, on which data flows in that way only, the pull-up is made, and the verdict changes: no part of the condition can be dropped |
| `Passes.PullupOnce` | external/libpcap/optimize.c:1027-1242 | With levels, dominators and the edges into the block found on the graph at hand, the test moves where there is a place for it and nothing moves where there is none; every packet keeps its verdict if the tests to be moved are independent, and always where blocks define what they read |
| `Pullup.MovedKeepsVerdict` | external/libpcap/optimize.c:1027-1185 | Runs from outside the chain and into its head come to the same verdict in the moved graph, from every state |
| `Pullup.MovedRanked` | external/libpcap/optimize.c:1027-1185 | The moved graph has a ranking |
| `Pullup.ChainRun` | external/libpcap/optimize.c:1027-1185 | A run that enters a chain goes on at the common exit if one of its tests fires in the state the earlier ones leave, and past the last one otherwise |
| `Pullup.DominatedEntry` | external/libpcap/optimize.c:1046-1080 | Whatever reachable block leads to a block that the head dominates has been reached from the head |
| `Pullup.RedirectInto` | external/libpcap/optimize.c:1093-1098 | The loop over the in-edges redirects exactly those edges |
| `Intern.Interner.InternBlocks` | external/libpcap/optimize.c:1366-1407 | It ends, every packet keeps its verdict from the root, and no two distinct reachable blocks with equal terminators, and the same successors unless they return, are left that have the same statements but for no-ops |
| `Intern.RoundKeepsVerdict` | external/libpcap/optimize.c:1391-1406 | A round of redirections to equal blocks keeps the verdict from every block |
| `Intern.RoundShrinks` | external/libpcap/optimize.c:1366-1407 | Each redirect moves a successor to a higher index, so the rounds come to an end |
| `Intern.NoneSame` | external/libpcap/optimize.c:1355-1407 | After a round without redirections no two reachable blocks return or test alike, lead to the same blocks and have the same statements but for no-ops |
| `Intern.EqSlist` | external/libpcap/optimize.c:1336-1353 | Equality of statement lists up to no-ops |
| `Intern.Interner.MarkCode` | external/libpcap/optimize.c:1317-1334 | Exactly the reachable blocks carry the current mark |
| `RbTree.RbRoot.Rotate` | external/blktrace/rbtree.c:25-69 | A rotation changes the shape at one node and keeps parent, child and colour fields consistent everywhere |
| `RbTree.RbRoot.InsertColor` | external/blktrace/rbtree.c:71-134 | From a red leaf with everything else in order the tree becomes red-black with the same nodes in order |
| `RbTree.RbRoot.EraseColor` | external/blktrace/rbtree.c:136-220 | From a tree that is one black short below one place the tree becomes red-black with the same nodes in order |
| `RbErase.Erase` | external/blktrace/rbtree.c:222-287 | Exactly the one node goes, the others keep their order, and the tree is red-black with consistent links |
| `RbErase.FindSuccessor` | external/blktrace/rbtree.c:231-238 | The node found is the leftmost of the right subtree |
| `RbShape.HeightBound` | external/blktrace/rbtree.c:25-287 | A red-black tree of n nodes is at most 2 log2(n + 1) high |
| `RbWalk.First` | external/blktrace/rbtree.c:289-311 | The first or last node in order, none for an empty tree |
| `RbWalk.Next` | external/blktrace/rbtree.c:313-351 | From each node to the next one in order, or the previous one, none at the end |
| `RbWalk.AlongInOrder` | external/blktrace/rbtree.c:289-351 | The two directions are in order and its reverse |
| `RbIndex.TraceInsert` | external/blktrace/blkparse.c:774-802 | The tree stays red-black and sorted by time, device and sequence, the new trace behind all that are not later |
| `RbIndex.InsertAll` | external/blktrace/blkparse.c:774-802 | Traces inserted one after the other into an empty tree are met by rb_first and rb_next in the stable sort of the order in which they came |
| `RbIndex.StableSortRight` | external/blktrace/blkparse.c:774-802 | That sort is sorted, a permutation, and leaves equal keys in the order in which they came |
| `RbIndex.SortedMeans` | external/blktrace/blkparse.c:785-796 | Sorted is that times never fall, nor devices at one time, nor sequence numbers on one device at one time |
| `RbIndex.FindPlace` | external/blktrace/blkparse.c:774-802 | The walk ends at the empty place with everything not later before it and everything later behind it |
| `RbIndex.Traverse` | external/blktrace/rbtree.c:289-331 | rb_first and rb_next meet every node once, in order |
| `TrackTree.Tracks.FindTrack` | external/blktrace/blkparse.c:908-925 | The search answers as the map from sectors to tracks does |
| `TrackTree.Tracks.TrackInsert` | external/blktrace/blkparse.c:880-906 | The map gains the sector, or nothing changes when it is taken |
| `TrackTree.Tracks.Track` | external/blktrace/blkparse.c:927-943 | The track of a sector, a new one exactly if there was none; all other sectors keep theirs |
| `TrackTree.Tracks.Complete` | external/blktrace/blkparse.c:1060-1092 | The sector has no track any more, and all others keep theirs |
| `TrackTree.Tracks.FrontMerge` | external/blktrace/blkparse.c:945-965 | The track behind the merged request moves to the new first sector, unless that has a track, which then stays; its old sector has none, and all others keep theirs |
| `TrackTree.Tracks.Replay` | external/blktrace/blkparse.c:880-965 | After any sequence of lookups, completions and front merges the tree finds for every sector the track a map would, also which of two tracks survives a merge |
| `TrackTree.TrackOf` | external/blktrace/blkparse.c:880-965 | After any sequence a sector has a track exactly if a lookup made one or a merge moved one there when it had none and no completion or merge has taken it away since, and it is that track |
| `TrackTree.TracksApart` | external/blktrace/blkparse.c:927-943 | Tracks are numbered as they are made, and no two sectors share one |
| `Merge.Merger.Sort` | external/blktrace/blkparse.c:2195-2213 | The stream goes into the list where its first trace belongs by time, behind the first stream unless it is earlier and before the others that are not earlier; the others keep their order |
| `Merge.Merger.Resort` | external/blktrace/blkparse.c:2171-2178 | The head finds its place again, and stays at the head unless its time is past that of the second |
| `Merge.Merger.Deq` | external/blktrace/blkparse.c:2180-2193 | The first trace of the head goes, an empty queue is refilled, and the list stays sorted by head time across the refill |
| `Merge.Merger.Prime` | external/blktrace/blkparse.c:2215-2295 | Traces are only moved from the file to the queue, in order, a batch of them or as many as there are |
| `Merge.Merger.Handle` | external/blktrace/blkparse.c:2356-2389 | What is handled, queued and still in the file stays the input; a trace later than the stopwatch stops the program |
| `Merge.Merger.DoFile` | external/blktrace/blkparse.c:2405-2427 | Records are handled in nondecreasing time, from each stream in its own order and at most once, none past the stopwatch, which starts at the first time of any stream; if no signal ends the program, exactly those of each stream that come before the stopwatch ends, and all if it does not go off |
| `Merge.UntilExactly` | external/blktrace/blkparse.c:2356-2370 | Those handled of a stream are exactly its traces that are not later than the end of the stopwatch |
| `Merge.EarliestOfAll` | external/blktrace/blkparse.c:2405-2412 | The first time is that of a trace, and no trace of any stream is before it |
| `LinkedLists.LinkedInsert` | external/blktrace/blkparse.c:2195-2213 | A node put into a linked list of distinct nodes |
| `LinkedLists.LinkedRemove` | external/blktrace/blkiomon.c:373-391 | A node taken out of one |
| `RingFilter.HandOverExactly` | external/libpcap/pcap-linux.c:2904-2937 | With any number of processors between filter and ring, in any order: the hand-over is safe under every later interleaving exactly when no packet is past the old filter and not yet in the ring, or when only one processor can be there at all and the ring has room |
| `RingFilter.OldPacketRace` | external/libpcap/pcap-linux.c:2904-2937 | In every other case, a run that hands an old packet over unfiltered: it is overtaken by enough new ones, or takes the place of a frame read from the full ring |
| `RingFilter.HandOverSafe` | external/libpcap/pcap-linux.c:2904-2937 | Under that condition no packet that passed only an older filter reaches the callback unfiltered, whatever kernel and program do |
| `RingFilter.RefusedExactly` | external/libpcap/pcap-linux.c:1486-1571 | When the kernel refuses the filter the program filters for good exactly if no count from an earlier hand-over is running |
| `RingFilter.GuardedForever` | external/libpcap/pcap-linux.c:2725-2741 | The guard on the count is kept by every step of every run |
| `RingFilter.Capture.ReadFrame` | external/libpcap/pcap-linux.c:2686-2744 | A read takes the frame at the offset, counts down, and turns the program's filter off at zero, as the abstract step does |
| `RingFilter.Capture.Scan` | external/libpcap/pcap-linux.c:2904-2937 | The count of free frames from the second one before the offset backwards, while the kernel goes on; exact when it does not |
| `RingFilter.Capture.SetFilter` | external/libpcap/pcap-linux.c:1486-1571 | The handle is left as the abstract hand-over says, with a count between the frames the program owned and the size of the ring, or as the refusal says |
| `RingFilter.Capture.SwitchSafely` | external/libpcap/pcap-linux.c:2904-2937 | On the concrete ring, with the scan interleaved with the kernel: under that condition no interleaving lets an old packet through |
| `RingFilter.Capture.RingFrame` | external/libpcap/pcap-linux.c:2481-2510 | The frame k places behind the offset is found to be the program's exactly if more than k packets wait, and to be the kernel's otherwise: the frames to be read are one run from the offset on |
| `Framing.PathHead.HandleListFile` | external/blktrace/blktrace.c:1175-1223 | However the data is cut into buffers, the output is records, one behind the other, as many as were counted, and the longest such prefix; the rest is kept and lacks part of a header or of what that announces |
| `Framing.WholeRecords` | external/blktrace/blktrace.c:1182-1205 | What is cut off is a sequence of records, each a header and as much as it announces, and what follows is not another |
| `Framing.LongestFront` | external/blktrace/blktrace.c:1182-1205 | No sequence of records at the front is longer |
| `Framing.PathHead.HandleBuffer` | external/blktrace/blktrace.c:1175-1223 | The same for one buffer, up to a failed write, which loses the kept piece with the records: afterwards the piece kept and the data are framed exactly if the write went well or there was nothing whole to write |
| `Framing.WholeAppend` | external/blktrace/blktrace.c:1175-1223 | Cutting off whole records and waiting for more comes to the same as having had all data at once |
| `Framing.SplitUnique` | external/blktrace/blktrace.c:1175-1223 | Whole records in front and no whole record behind determine the cut |
| `Framing.RestIncomplete` | external/blktrace/blktrace.c:1175-1223 | What is left holds no complete record |
| `Entries.AlwaysKeeps` | external/blktrace/blktrace.c:1035-1064 | In every interleaving of tracers and consumer the counter is the buffers queued or being handled less those queued but not yet counted |
| `Entries.StepKeeps` | external/blktrace/blktrace.c:1035-1252 | Every single step keeps that |
| `Entries.AfterTracers` | external/blktrace/blktrace.c:1708-1731 | Once the tracers have left and the consumer is idle the counter is the number of buffers queued |
| `Entries.FinishTracers` | external/blktrace/blktrace.c:1708-1731 | After any interleaving of tracers and consumer in which all tracers have left, the final loop leaves every buffer ever put on a queue handled exactly once, in the order of its queue |
| `Entries.TraceBufs.CleanTraceBufs` | external/blktrace/blktrace.c:1260-1264 | The final loop ends, with every buffer handled once in the order of its queue |
| `Entries.TraceBufs.ProcessTraceBufs` | external/blktrace/blktrace.c:1225-1252 | One sweep when nobody queues any more empties every queue in order |
| `Monitor.Blkiomon.DoTrace` | external/blktrace/blkiomon.c:393-428 | Table and counters change as the account does: the trace waits under a free key, an issue with its later completion is a match and both go, otherwise the younger stays and a mismatch is counted; the trace handed back is in no list and no other trace is written to |
| `Monitor.AllAccounted` | external/blktrace/blkiomon.c:393-428 | In the account of any run, traces entered = traces waiting + 2 matches + mismatches |
| `Monitor.EnterMeans` | external/blktrace/blkiomon.c:393-428 | In the fields of the traces: an issue and its later completion of one device, sector and action are a match and both go, otherwise the younger of the two waits and a mismatch is counted, and other devices, sectors and actions are not touched |
| `Monitor.KeysApart` | external/blktrace/blkiomon.c:365-391 | What waits for a device, sector and action after any run is what would if the run had been without all others |
| `Monitor.TableMeans` | external/blktrace/blkiomon.c:373-391 | The table has a key exactly if a stored trace has that device, sector and action |
| `Monitor.Blkiomon.FetchTrace` | external/blktrace/blkiomon.c:373-391 | The one stored trace with that device, sector and masked action leaves its chain; none is found exactly if the key is not in the table |
| `Monitor.Blkiomon.StoreTrace` | external/blktrace/blkiomon.c:365-371 | The trace is in the chain of its key afterwards and nothing else changes |
| `Monitor.Blkiomon.AllocTrace` | external/blktrace/blkiomon.c:337-347 | A vacant trace if there is one and a new one otherwise, in no list; the others stay where they were |
| `Monitor.Blkiomon.FreeTrace` | external/blktrace/blkiomon.c:349-357 | The trace goes to the vacant list exactly when that holds fewer than 256, and is in no list otherwise; all other traces stay where they are |
| `Monitor.Blkiomon.Replay` | external/blktrace/blkiomon.c:393-428 | After any run the hash table and the counters hold the account of the run, with at most one trace for a key; calls = stored + 2 matches + mismatches; table, vacant list and the trace at work never share a node |

## Left out

- The driver of the optimizer: `opt_loop` and `bpf_optimize` as one theorem. It runs passes on sets computed before other passes changed the graph, as the pull-ups on the dominators from before the redirections, and no measure of its rounds is visible.
- The peephole pass `opt_peep` and the removal of redundant roots.
- Division by zero and shifts by 32 or more have a fixed result in the interpreter, where the original leaves them to the filter machine; packet loads are total functions of size and offset.
- Threading.Threader.OptEdges: every verdict is kept where tests read known values and the new targets inherit the known values they read, always where blocks define what they read. Without these the code does change verdicts, as the members of `Conflicts` show.
- Threading.Threader.OptJ: that runs over the edge come to the new target is stated where the folded tests are settled, which `EdgeFold.FoldExactly` shows to be needed.
- Pullup.Puller.Pullup: for the in-edges and dominators of the graph at hand, and the verdict for independent tests, without which the code does change verdicts.
- Pullup.PulledVerdict: under the same condition, which is sufficient and each part of which is needed; it goes by the atoms read and defined, not by their values.
- Renumbering.OptBlksKeepsVerdict: where no transfer of an unknown value was dropped, which is right exactly then by `Folding.TransferDropped`; `NumbersSound` has it for all blocks that read known values.
- Renumbering.OptBlk: without `opt_peep`, which runs behind the statements of a block that is not emptied.
- Renumbering.OptBlks: without `opt_peep` in the same way.
- Trimming.TrimmedKeepsVerdict: the condition is sufficient; a value that is missed may still not change a verdict.
- Trimming.StaleExactly: where another store of the atom stays in the block, the two may leave the same word.
- Passes.RedirectEdges: without `opt_peep`, and without the pull-ups that follow in the same call on the dominators found before; `Passes.PullupOnce` has these on dominators of the graph at hand.
- Passes.SimplifyBlocks: without `opt_peep`; the verdict under the condition of `Trimming.TrimmedKeepsVerdict`, without which the code does change verdicts.
- Compile.FinishParse: without the variable-length link header prefix that the original may put in front, and without its check of the link type.
- Compile.GenRelation: without the checks of the protocol that loads from the network and transport headers conjoin in front.
- Registers.Registers.GenLoad: the link-layer form only; the network and transport forms add protocol checks in front.
- Registers.Registers.GenExpr: loads in that form only.
- Compile.PcapCompile: calls that switch the optimizer on, syntax errors and handles not activated.
- Block-local jumps, `gen_protochain`, the JSET shortcut, link types and the generators for hosts, ports and protocols. A one-block test is any code with a test.
- The yacc grammar, the lexer and `bpf_filter`, which is not part of this model; the interpreter here takes its place.
- ValueNumbers.Numbering.F: the hash is an arbitrary function, and the table is never full.
- RbTree.RbRoot.Rotate: nodes are indices into an array and the mirror images of the original are one text with a side as parameter.
- `rb_replace_node`, `trace_rb_find` and the eviction of traces in `trace_rb_insert_last`.
- TrackTree.Tracks.Replay: the times and the process data of a track; only its sector is kept.
- Merge.Merger.Prime: the parsing of files, notify records and read errors; a file is the sequence of its traces, and the rebasing of times is left out. The signal that ends the program is noticed at an arbitrary poll.
- blkparse's skip ranges, its statistics and its output.
- RingFilter.Capture.ReadFrame: one frame at a time, without the limit on packets, the break flag, the error returns and the version 3 reader.
- RingFilter.Capture.SetFilter: the draining of the socket when a filter is set, and the error returns, are not modelled.
- RingFilter.Capture.SwitchSafely: as many packets as processors may be between the kernel's filter and the ring; the program cannot see them, so the condition is one on the kernel's side.
- Framing.PathHead.HandleBuffer: a write does all or nothing, and growing a buffer takes the place of `realloc`. In `tb_combine` (external/blktrace/blktrace.c:1166) that call is given a pointer into the middle of an allocation once a combined buffer outgrows `buf_size`, so from there on the property is not the code's.
- Entries.AlwaysKeeps: mutexes are modelled as atomic steps, the wait for the signal as a state of the consumer; the flag that ends its loop is not a field, it may stop whenever it is not in the middle of a sweep.
- Monitor.Blkiomon.DoTrace: what a match adds to the statistics is left out; allocation never fails and gives a fresh number.
- Sockets, files, option parsing, devices and printing.
