# A model of mulation-bot and proofs about it

mulation-bot compiles every mutant of a program into one binary and selects one at run time.
Its report rests on a chain of claims: the instrumentation does not change the program, selecting
an id applies one mutant, the hit table names the mutants that tests reach, the catalog in the
binary is read back as written, and the runner counts what really happened. This project models
each link in Dafny and proves what it is for.

The modules, in the order of the chain:

| files | what they model |
|---|---|
| `IR`, `Semantics`, `Mutants`, `Readings` | a small SSA language with 32-bit-and-other-width wrapping arithmetic, trapping division, phis, calls, opaque effects with a trace, and a fuelled big-step semantics; what the interpreter does on whole programs; the mutation operators, and their names read as C operators on integers |
| `Rewrite`, `Fidelity`, `FirstOrder`, `Coverage`, `Queries`, `Ssa`, `Safety` | what the instrumented program is for any plan of ids, and the theorems about it: fidelity, baseline, first-order mutants, idle mutants, the ids it can ask about, well-formed SSA and what it is good for |
| `Insertion`, `Ordinals`, `Worklists`, `Ledgers`, `Sites`, `Literals`, `Pass`, `Records` | the pass itself: three worklists, in-place insertion and redirection, live ordinals, ids, records; it arrives at the plan that the theorems are about, and each record tells what its mutant does to the source |
| `Bits`, `Hash`, `Keys`, `Text`, `Seqs`, `Scalars` | hashes, keys, decimal text, lines, substring search |
| `HitTable`, `Runtime`, `Flush` | the lock-free table as interleaved atomic steps of any number of threads and for any hash function, the same code run by one thread on an array, the flush at exit and the reload of the log |
| `Report`, `Pool` | tally, score and gate; the worker pool under every schedule |
| `Suites`, `Campaign` | a test suite as a chain of processes and the hit log they leave behind; the campaign as a whole, with coverage pruning |
| `Escape`, `Catalog`, `Merge` | JSON escaping, the catalog printer and its hand-written parser, sections of several units, dedup-and-sort |
| `Diff`, `Ctest` | the git diff filter and the CTest scanner |
| `Builds`, `Toolchain` | a program linked from units that the pass has instrumented one by one; all of it in a row, from the sources through the pass, the catalog and the campaign to the report |
| `KnownIds`, `Counterexamples` | programs, instrumented by the pass, on which a promise fails, with the ids of their mutants computed |

Code that updates state in place is modelled by methods with loops (`Pass.Instrument`,
`Sites.InsertChain`, `Runtime.Process`, `Report.Tally`, `Catalog.ParseCatalog`, ...), each tied to
a function of its inputs or to an invariant; the theorems are about those functions. The pass edits
functions that are values of type `seq`, so an edit reassigns the function.

## Where the code and its promises differ

- `include/mulation/mulation.h` promises production-equivalent behaviour when no mutant is active.
  The mutated values are computed eagerly, so an instrumented `*` also evaluates an `sdiv` of its
  operands: with rhs 0, or MIN and -1, the instrumented program traps and the original does not.
  `Counterexamples.EagerDivisionTraps` gives such a program, and `Fidelity.BaselinePreserved` shows
  that exactly the runs that execute such a multiplication end with a trap at the first of them.
- For a run with a mutant selected the original operation is still evaluated, so a mutated `/` or
  `%` traps where the mutant alone would not. `Fidelity.Diverges` covers both cases.
- The value of "no mutant" is `(unsigned)-1`, an id like any other. The first mutant of a sum
  that opens the function `f` at line 1, column 1 of a file `xzvmuux.c` has it (`KnownIds.DifferenceId`), and the baseline of the
  instrumented program runs that mutant (`Counterexamples.NoMutantIdIsActive`).
- The hit log is written by an `atexit` handler, so a process that ends on a trap or a signal, or
  is killed at its time limit, logs nothing. The mutants that only such a process reaches count as
  not covered. In `Counterexamples.DeathTest` a suite kills such a mutant and the pruned campaign
  reports it as a survivor.
- The hit table gives up after 16 probes: a call drops its id exactly when all 16 slots of the
  window hold other ids (`Runtime.RecordExact`, and for threads `HitTable.FinishedCalls`). Seventeen
  ids of one home slot exist for every home (`Runtime.CollidingIds`), and the last of them is
  dropped (`Runtime.SeventeenthDropped`).
- For both reasons the log can miss a hit. `Suites.HitsAreCovered` says exactly which ids it names,
  and the pruned report is right if and only if every mutant whose hit was missed would have
  survived (`Campaign.PruningRightExactly`). Which hits are missed is known before any mutant is
  run, and when none is, the report is right (`Campaign.PruningSound`). It is right for every
  verdict on the processes if and only if those mutants show exactly what the baseline shows
  (`Campaign.PruningRightAlways`).
- The catalog parser restores `\n` and `\t` but turns `\r` into `r` and other escaped controls into
  `u00XX`; `Catalog.CatalogRoundTrip` gives the exact condition. Chunks of several units laid back
  to back in one section lose the first record of every unit but the first (`Catalog.BackToBack`).
- The diff parser takes an added line of text `++ b/...` for a file header. On the two-hunk diff of
  `Diff.AddedLineForgesHeader` the filter then drops the mutant on an added line and keeps one in a
  file that the diff does not touch. A diff is read correctly if and only if the current file is
  still its own at every hunk that has new lines (`Diff.ParseExact`).
- `score + 1e-9 < N` lets a score pass that is too low once a thousand million mutants are scored
  (`Report.GateSlack`).

## Model

| member | source | states |
|---|---|---|
| Fidelity.MutantFidelity | plugin/MulationPass.cpp:419-525 | for every program, plan, selected id, world, arguments and fuel: the instrumented run has the result and trace of the source with that id's operator, predicate or literal replaced, unless that run executes an operation that diverges by eager evaluation; then it traps with the trace of the first such operation |
| Fidelity.BaselinePreserved | plugin/MulationPass.cpp:435-457 | with an id selected that no site carries, the instrumented run is the original run, unless that run executes an instrumented multiply with rhs 0 or operands MIN, -1; then it traps with the trace of the first such multiply |
| Fidelity.UnusedIsSource | plugin/MulationPass.cpp:440-441 | an id that no site carries applies no mutant: the mutated source is the source |
| Mutants.SiteTrapsExactly | plugin/MulationPass.cpp:259-304 | a site traps eagerly where its own operation does not only for `*` with its `sdiv` alternative; no other alternative adds a trap |
| Mutants.BinNamesDistinct | plugin/MulationPass.cpp:227-304 | the alternatives of one operator have different names, so their keys differ |
| Mutants.PredNamesDistinct | plugin/MulationPass.cpp:137-225 | the alternatives of one predicate have different names although signed and unsigned predicates share names |
| Mutants.RelationalAlternatives | plugin/MulationPass.cpp:164-225 | an equality gets its negation and the two orderings that make it up; an ordering gets its boundary flip, which differs exactly on equal operands, its mirror image and equality |
| Readings.PredNameSays | plugin/MulationPass.cpp:137-162 | for every width and all words, the name of a predicate, read as a relation of C, decides the two words as the predicate does, on their signed or unsigned integers |
| Readings.BinNameSays | plugin/MulationPass.cpp:227-257 | for every width and all words, an operation that has a value computes what its name says in C: wrapped sum, difference and product, quotient rounded toward zero, remainder of that quotient, and, or bit by bit or on truth values |
| Readings.ArithmeticAlternatives | plugin/MulationPass.cpp:259-304 | by name, which operators replace which, with the kind of each; a division or remainder keeps the signedness of the one it replaces, and the one in place of a product is signed |
| Readings.QuotRem | plugin/MulationPass.cpp:259-304 | signed quotient and remainder belong together: quotient times divisor plus remainder is the dividend, and the quotient is rounded toward zero |
| Readings.DefinedExactly | plugin/MulationPass.cpp:259-304 | a signed division or remainder has a value exactly when the divisor is not 0 and the quotient is in the signed range of the width; an unsigned one, when the divisor is not 0; every other operation always |
| Readings.XorBits | runtime/mulation_runtime.c:18-23 | exclusive or, the operation without alternatives and the one in both hashes, differs bit by bit |
| Semantics.PhisAtOnce | plugin/MulationPass.cpp:449-457 | phis of a block read the registers of the edge, also those that another phi of the block is about to change |
| Semantics.EvalAllExact | plugin/MulationPass.cpp:419-525 | the operands of calls and effects keep their order, and all of them must have values |
| Semantics.CallerRuns | plugin/MulationPass.cpp:378-534 | a program of two functions with parameters, a loop whose phis swap, effects, a branch and a call is interpreted as the C program it stands for, for every count: its result and its whole trace |
| Semantics.AskRuns | runtime/mulation_runtime.c:74-77 | the answer to an effect is that of the world to the trace with the effect in it, and a world without one ends the run |
| FirstOrder.OneMutant | plugin/MulationPass.cpp:435-447 | with distinct ids, selecting the id of one alternative or literal changes that operator, predicate or literal in the source and nothing else |
| FirstOrder.InstrumentedIsMutant | plugin/MulationPass.cpp:419-525 | running the instrumented program with one listed id active is running that first-order mutant, up to traps of eager evaluation |
| Coverage.SameFn | runtime/mulation_runtime.c:74-77 | if a run never asked about the ids `a` and `b`, selecting `b` instead of `a` gives the identical run: result, trace, hits and operation profile |
| Queries.RewriteAsks | plugin/MulationPass.cpp:419-525 | an instrumented module asks only about the ids of its listed mutants and those the source asked about itself |
| Ssa.SingleDefsPreserved | plugin/MulationPass.cpp:435-457 | instrumentation defines no register twice |
| Ssa.UsesStayDominated | plugin/MulationPass.cpp:431-457 | every use in the instrumented function is still dominated by its definition, phis and terminators included |
| Safety.NeverStuck | plugin/MulationPass.cpp:431-457 | what dominance is for: a program with dominated uses, closed control flow and fitting calls never gets stuck on a register without a value, for all arguments, worlds, mutants and fuels |
| Safety.OutputNeverStuck | plugin/MulationPass.cpp:378-534 | the pass makes a well-formed program of a well-formed one, so its output never gets stuck either, whatever mutant is selected |
| Safety.SwapIsWellFormed | plugin/MulationPass.cpp:431-457 | a program with a loop and a call is well-formed |
| Insertion.LinkStep | plugin/MulationPass.cpp:437-444 | inserting copy, query and select at the insertion point of a site yields the function of the plan with one more id there |
| Insertion.RedirectStep | plugin/MulationPass.cpp:449-457 | replacing all uses outside the site's own chain yields the function of the plan with that site redirected |
| Insertion.CmpLitStep | plugin/MulationPass.cpp:514-521 | inserting the two instructions in front of a comparison and setting the operand yields the plan with that literal selected |
| Insertion.RetLitStep | plugin/MulationPass.cpp:514-521 | the same for the literal that a block returns |
| Ordinals.InstOrdinal | plugin/MulationPass.cpp:331-346 | the counting loop returns the number of instructions in front of the place, phis and terminators included |
| Ordinals.OrdinalsInOrder | plugin/MulationPass.cpp:331-346 | ordinals number the positions of a function one after the other through its blocks, and phis count |
| Ordinals.SiteOrdinalGrows | plugin/MulationPass.cpp:331-346 | later insertions never lower the ordinal of a site |
| Ordinals.SiteOrdinalIncreases | plugin/MulationPass.cpp:331-346 | of two sites of a function the later one has the larger ordinal, whatever has been inserted |
| Worklists.Collect | plugin/MulationPass.cpp:383-413 | the three worklists hold exactly the integer operations, the comparisons and the 0/1 literals of comparisons and returns, in program order, without those of `mulation_active` |
| Ledgers.LaterKeyDiffers | plugin/MulationPass.cpp:348-357 | a key taken at a later place differs from every recorded key, although ordinals are taken while the function grows |
| Ledgers.EnterLive | plugin/MulationPass.cpp:331-357 | a record whose key carries the ordinal of the function as it stands keeps all recorded ordinals those of the moment they were taken |
| Ledgers.AddEntry | plugin/MulationPass.cpp:446-447 | one more record with a new key keeps the ledger: one entry per instrumented alternative or literal, described by its key, keys pairwise different |
| Sites.InsertLink | plugin/MulationPass.cpp:436-447 | one round of the alternatives loop: the key carries the ordinal of the function as it stands, the record is that of the key, and the function grows by that link |
| Sites.InsertChain | plugin/MulationPass.cpp:419-458 | all alternatives of a site and the redirection of its uses, with live keys |
| Sites.InstrumentSite | plugin/MulationPass.cpp:419-499 | the body of the bins and cmps loops keeps the state of the pass, and skips exactly the sites without alternatives or location |
| Sites.KeyIsNew | plugin/MulationPass.cpp:437 | the key of the next alternative differs from all keys so far |
| Literals.InsertCmpLit | plugin/MulationPass.cpp:501-525 | one literal of a comparison: key with the ordinal before the insertion, record, new function |
| Literals.InsertRetLit | plugin/MulationPass.cpp:501-525 | one returned literal |
| Literals.InstrumentLit | plugin/MulationPass.cpp:501-525 | the body of the lits loop keeps the state of the pass |
| Pass.InstrumentSites | plugin/MulationPass.cpp:419-499 | each of the first two loops instruments exactly its worklist |
| Pass.InstrumentLits | plugin/MulationPass.cpp:501-525 | the third loop selects exactly the literals of its worklist |
| Pass.Instrument | plugin/MulationPass.cpp:378-534 | the whole pass returns the instrumented module of a plan that covers every eligible site and literal and no other, and one record per mutant, in the order of the three worklists, with pairwise different keys; the ordinal in each key is the number of instructions in front of the site in the function with exactly the insertions of the earlier records carried out |
| Records.RecordTells | plugin/MulationPass.cpp:431-525 | for every record the pass emits: selecting it replaces one instruction or return of the source, at the record's file, line and column, and nothing else; the record's operator, read as C, is what stands there, its replacement is what comes in, and its kind fits; for literals, 0 and 1 |
| Records.InstRecorded | plugin/MulationPass.cpp:383-488 | which instructions get records: in every function but `mulation_active`, those with a location; a comparison 3 for its predicate and one for each operand that is a constant 0 or 1 of a width up to 64 other than 1; an arithmetic operation 2, a bitwise or logical and or or 1, xor none |
| Records.ReturnRecorded | plugin/MulationPass.cpp:398-525 | a return gets a record exactly when it has a location and returns such a constant, in every function but `mulation_active` |
| Pass.CompleteFits | plugin/MulationPass.cpp:378-534 | the plans of the pass are those for which the fidelity theorems hold |
| Pass.CollisionsOnly | plugin/MulationPass.cpp:348-357 | with colon-free function names two mutants of a module share an id only when FNV-1a maps two different key texts to it |
| Pass.DistinctRecords | plugin/MulationPass.cpp:446 | records with different ids make all ids of the program different |
| Pass.NoZeroIds | plugin/MulationPass.cpp:41 | no mutant has id 0, which marks an empty slot |
| Pass.BaselineRuns | plugin/MulationPass.cpp:378-534 | with an id selected that no record carries, such as the reserved one, the output of the pass behaves as the source, up to a trap at the first instrumented multiply with bad operands |
| Pass.OutputIsSsa | plugin/MulationPass.cpp:378-534 | every function of the output has single definitions and dominated uses if the source function has |
| Builds.ProgramBuilt | plugin/MulationPass.cpp:558-566 | what the pass guarantees of every unit holds of the linked program: the plans fit, and the records are those of its listed mutants and no other |
| Builds.RecordRuns | plugin/MulationPass.cpp:378-534 | in a linked program with distinct ids the id of a record activates that record's mutant and no other, up to eager traps |
| Builds.PlainRuns | plugin/MulationPass.cpp:378-534 | with an id that no record of any unit carries it behaves as the source, up to the traps of multiplications |
| Pass.RecordedMutantRuns | plugin/MulationPass.cpp:378-534 | the output of the pass with the id of a record active behaves as the source with that record's mutant applied, up to a trap at the first operation that diverges by eager evaluation |
| Keys.KeyTextInjective | plugin/MulationPass.cpp:348-357 | a key is determined by its text, read from the right; only the file name may contain colons |
| Keys.KeyTextExample | plugin/MulationPass.cpp:348-357 | the parts of a key text and their order, on line 31, column 9 and ordinal 12 |
| Hash.ComputeFnv1a | plugin/MulationPass.cpp:35-42 | the loop computes FNV-1a over the bytes, with 0 replaced by 1 |
| Hash.OneByteChanges | plugin/MulationPass.cpp:35-42 | inputs that differ in one byte have different raw hashes, and equal results only when both are 1 |
| KnownIds.DifferenceId | plugin/MulationPass.cpp:35-42 | computed round by round, the key text `xzvmuux.c:1:1:f:0:AOR:+:-` has the id 0xFFFFFFFF |
| Hash.HitHashBijective | runtime/mulation_runtime.c:18-23 | the mixer is a bijection on 32-bit words; its inverse is given |
| HitTable.NeighbouringSlots | runtime/mulation_runtime.c:25-31 | the window of an id is 16 neighbouring slots of 65536, from its hash modulo 65536 upward and on from slot 0 |
| HitTable.StepKeeps | runtime/mulation_runtime.c:25-41 | every atomic operation of every thread keeps the table invariant |
| HitTable.Safe | runtime/mulation_runtime.c:25-41 | over every schedule the invariant holds and slots only go from 0 to an id and then stay |
| HitTable.TableSafety | runtime/mulation_runtime.c:25-41 | at any time an id is in at most one slot, behind a window full of other ids, was passed in, and the counter plus pending increments is the number of used slots |
| HitTable.NoDuplicates | runtime/mulation_runtime.c:29-40 | two slots with one id are one slot |
| HitTable.CasBound | runtime/mulation_runtime.c:30-40 | a call does at most 16 compare-and-swaps, whatever the other threads do |
| HitTable.CanReturn | runtime/mulation_runtime.c:29-40 | no call is ever stuck: from every state that meets the invariant a thread returns by its own steps alone, at most 16 compare-and-swaps and one increment |
| HitTable.EveryCallCanReturn | runtime/mulation_runtime.c:29-40 | in particular after every schedule of any number of threads |
| HitTable.FinishedCalls | runtime/mulation_runtime.c:29-40 | under every schedule, after a call its id is in the table if and only if its window is not full of other ids, and a full window holds 16 different ones |
| HitTable.NoneDropped | runtime/mulation_runtime.c:29-40 | if at most 16 different ids are ever passed in, none is dropped under any schedule |
| HitTable.AllReturned | runtime/mulation_runtime.c:29-40 | when no call is under way, an id that was passed in is in the table exactly when its window is not full of others |
| Runtime.Process.constructor | runtime/mulation_runtime.c:60-72 | the selected id and the logging flag from the two environment variables; an empty or missing variable selects no mutant |
| Runtime.Process.RecordHit | runtime/mulation_runtime.c:25-41 | the probe loop on the array leaves the table of the specification and counts iff a slot was claimed |
| Runtime.Process.MulationActive | runtime/mulation_runtime.c:74-77 | records the id, then answers whether it is the selected one |
| Runtime.Undisturbed | runtime/mulation_runtime.c:25-41 | a call that meets no other thread, run through the protocol step by step, leaves the table that the method leaves |
| Runtime.RecordMeans | runtime/mulation_runtime.c:25-41 | a call adds at most its own id, in an empty slot, and keeps every other slot and the placement of all ids |
| Runtime.RecordExact | runtime/mulation_runtime.c:29-40 | a call drops its id if and only if its whole window holds other ids |
| Runtime.LoggedWereHit | runtime/mulation_runtime.c:25-41 | the table of a process holds only ids it was given |
| Runtime.FewAreKept | runtime/mulation_runtime.c:25-41 | a process given at most 16 different ids has all of them in its table |
| Runtime.SeventeenthDropped | runtime/mulation_runtime.c:30 | of seventeen different ids with one home the last is dropped |
| Runtime.CollidingIds | runtime/mulation_runtime.c:18-29 | such ids exist for every home |
| Flush.FlushSnapshot | runtime/mulation_runtime.c:51-56 | a flush scan interleaved with recorders writes no id twice, every id recorded before it began, and only ids in the table when it ends |
| Flush.FlushHits | runtime/mulation_runtime.c:43-58 | the text written is one decimal line per used slot, in slot order |
| Flush.LoadHitlog | runner/main.cpp:142-152 | the loop returns the set of the numbers of all nonempty lines |
| Flush.ReloadUnion | runner/main.cpp:142-152 | loading any concatenation of complete flushes gives the union of their ids |
| Suites.IdSurvivesEnvironment | runner/main.cpp:339 | an id written as decimal text selects the same id in the process |
| Text.NumberRead | runtime/mulation_runtime.c:60-64 | what `strtoul` makes of white space, a sign, decimal digits and other text: saturation at 2^64 - 1, negation modulo 2^64 |
| Suites.CommandRuns | runner/main.cpp:339-354 | the command starts the processes that the suite asks for one after the other, each in its own world and from an empty trace, with the mutant selected, until it asks for none or its limit is reached |
| Suites.ShownExactly | runner/main.cpp:339-354 | the suite sees the result and the trace of each process, in order |
| Suites.HitsAreCovered | runtime/mulation_runtime.c:43-71 | an id is covered if and only if it is in the table of some process that ends by exiting |
| Suites.FewHitsNoDrops | runtime/mulation_runtime.c:25-71 | the log misses no hit when every process that asks exits and asks about at most 16 different nonzero ids |
| Suites.UncoveredIsIdle | runner/main.cpp:312-318 | when the log misses no hit, a mutant that is not covered changes no process of the suite, in a suite whose later processes may depend on what earlier ones showed |
| Suites.UnhitIsIdle | runtime/mulation_runtime.c:74-77 | a mutant that no baseline process asked about changes no process of the suite, whatever the log says |
| Suites.ThreadedFlush | runtime/mulation_runtime.c:25-58 | whatever the schedule of the recording threads and of the flush, a hit is logged unless its window is full of other ids, and always with at most 16 different ids |
| Suites.ThreadedCoverage | runner/main.cpp:281-294 | so the log of processes whose threads recorded under any schedules misses no hit when each that asks exits and asks about at most 16 different ids |
| Campaign.Partition | runner/main.cpp:312-318 | the loop splits the mutants into skipped and run, in order; nothing is skipped without coverage or with an empty log |
| Campaign.PruningExact | runner/main.cpp:312-393 | for every oracle and covered set: the pruned report equals the full one if and only if every skipped mutant would have survived |
| Campaign.GreenExactly | runner/main.cpp:262-269 | with and without coverage, there is a report if and only if the suite accepts what the processes without a mutant show |
| Campaign.ReportMeans | runner/main.cpp:281-398 | mutant by mutant: it is skipped exactly when coverage is on, the log is not empty and does not name it, and it is listed as a survivor exactly when it is run and the suite accepts; every mutant counts once |
| Campaign.PruningRightExactly | runner/main.cpp:281-393 | with any covered set, the pruned campaign reports what the full one reports if and only if every mutant whose hit the log misses would have survived |
| Campaign.PruningRightAlways | runner/main.cpp:281-393 | the pruned report is right for every verdict that accepts the baseline if and only if every mutant whose hit the log misses shows exactly what the baseline shows |
| Campaign.RunCampaign | runner/main.cpp:262-393 | the runner from baseline to report computes the campaign of the specification, on the log of the processes that exit, and makes a report exactly when the suite passes without a mutant |
| Campaign.PruningSound | runner/main.cpp:312-318 | when the log misses no hit and the reserved id was not asked about, the campaign with pruning reports the counts, score and survivors of the campaign without it |
| Campaign.ThreadedPruningSound | runner/main.cpp:281-318 | the same for the log of processes whose threads recorded under any schedules |
| Campaign.KillLost | runner/main.cpp:312-318 | a mutant that the suite kills and that is not covered is reported as a survivor, and the report differs from the full one |
| Campaign.AnySchedule | runner/main.cpp:363-375 | with any jobs option and any complete schedule the outcomes are those of that report |
| Toolchain.CatalogOfPass | runner/catalog.cpp:190-205 | what the pass puts into the sections of the units of a binary is read out of it record for record |
| Toolchain.MutantsOfPass | runner/main.cpp:229 | what the runner then has are records the pass emitted, one per id, in report order |
| Toolchain.EachMutant | runner/main.cpp:229 | all of them, when the ids tell the records apart |
| Toolchain.StatusOfMutant | runner/main.cpp:339-354 | for a program of any number of units, the status the runner sees for a record is the status of the suite on that first-order mutant, when no process diverges by eager evaluation |
| Toolchain.HitsOfPass | plugin/MulationPass.cpp:419-525 | every hit of a suite run on an instrumented program is the id of a record or one the source asks about |
| Toolchain.GreenSource | runner/main.cpp:262-269 | when no record has the reserved id and no multiplication traps eagerly, the campaign on the instrumented binary makes a report if and only if the suite passes on the source |
| Toolchain.EndToEnd | runner/main.cpp:229-398 | for a program linked from any number of units, with distinct ids, none reserved, no eager trap, a suite that is green on the source and a log that misses no hit: the pruned campaign on the instrumented binary reports what running the suite on every first-order mutant of the source reports |
| Toolchain.BuildAndRun | runner/main.cpp:229-398 | the pass and a section for every unit, the reader, the merge and the campaign in a row give the report of the specification on the linked output of the pass; without eager traps there is one if and only if there are mutants and the suite passes on the source |
| Counterexamples.EagerDivisionTraps | plugin/MulationPass.cpp:276 | a function returns 0 for arguments (5, 0), and what the pass makes of it traps with no mutant active: the promise of the header fails |
| Counterexamples.NoMutantIdIsActive | runtime/mulation_runtime.c:9 | the pass gives a mutant of a function that adds the id 0xFFFFFFFF; the baseline of 5 + 3 then returns 2, while an id that nobody asks about gives the 8 of the source |
| Counterexamples.DeathTest | runtime/mulation_runtime.c:70 | on a program with a death test, as the pass instruments it, the pruned campaign reports a mutant as a survivor that the suite kills |
| Counterexamples.InstrumentProduct | plugin/MulationPass.cpp:378-534 | the pass, run on that function, makes the code that traps |
| Counterexamples.InstrumentSum | plugin/MulationPass.cpp:378-534 | the pass, run on that function, emits a record with id 0xFFFFFFFF and makes the code that returns 2 |
| Counterexamples.RunDeathTest | runner/main.cpp:229-398 | the tools in a row on the death test: the pruned report lists a mutant among the uncovered survivors that the suite kills, and differs from the full one |
| Report.Tally | runner/main.cpp:377-391 | the loop counts kills (with timeouts), survivors and timeouts, and lists the survivors in order |
| Report.Summarize | runner/main.cpp:393-398 | the report: timeouts taken out of the kills, skipped mutants counted as survived |
| Report.OutcomeMeans | runner/main.cpp:338-355 | the outcome stored for a mutant says how its run ended, and at which place |
| Report.Conservation | runner/main.cpp:296-398 | kills are the places whose run fails or crashes, timeouts those that time out, survivors those that pass plus the skipped mutants, and the three add up to the number of mutants |
| Report.ScoreMeans | runner/main.cpp:394-398 | score times the number of runs that do not time out plus skipped mutants is 100 times the number of runs that fail or crash; the score is 100 exactly when nothing survives, and 0 exactly when something is scored and nothing is killed |
| Report.PassingExact | runner/main.cpp:384-390 | the survivor list holds each mutant that passes as often as it is run, and no other |
| Report.PassingSplit | runner/main.cpp:384-390 | and in the order in which they were run: the survivors of one list after another are those of the first, then those of the second |
| Report.GateOfReport | runner/main.cpp:452-456 | on the report of a campaign: without `--min-score` the gate never fails; with it, by the counts of kills, passes and skipped mutants, and when nothing is scored only above 100 |
| Report.GateExact | runner/main.cpp:452-456 | over exact reals the gate fails the campaign iff (N*denom - 100*killed) * 10^9 > denom |
| Report.GateMeansRatio | runner/main.cpp:452-456 | for 0 < denom < 10^9 that is 100*killed < N*denom |
| Report.GateSlack | runner/main.cpp:452 | beyond that it is not: a concrete score too low that passes |
| Pool.StepKeeps | runner/main.cpp:332-361 | claim, run and store of any worker keep the pool invariant |
| Pool.PoolSizeExact | runner/main.cpp:306-366 | the number of workers: the jobs, at least 1 and at most the number of mutants |
| Pool.ClaimedOnce | runner/main.cpp:334-355 | under every schedule the claims are 0, 1, 2, ... and an outcome is stored once, by the claimer |
| Pool.ScheduleIndependence | runner/main.cpp:363-375 | after the joins the outcomes are those of a single worker, for any number of workers and any schedule |
| Pool.Terminates | runner/main.cpp:333-337 | every step of every schedule spends one unit of a measure, and at 0 all workers have exited |
| Pool.StepsFromStart | runner/main.cpp:332-375 | the workers have exited exactly after 3 steps per mutant and 1 per worker |
| Pool.CanJoin | runner/main.cpp:332-375 | from every state that meets the invariant the pool can go on until all workers have exited |
| Pool.PoolCanJoin | runner/main.cpp:363-375 | in particular after every schedule, and then 3 steps per mutant and 1 per worker have been taken |
| Pool.Work | runner/main.cpp:332-364 | the loop of a single worker stores the outcome of every mutant |
| Escape.JsonEscape | runner/catalog.cpp:14-46 | the loop computes the escaping of every character in order |
| Escape.HexDigitExact | runner/catalog.cpp:35-38 | the two digits of an escaped control are lower-case hexadecimal |
| Escape.EscapeIsValid | runner/catalog.cpp:14-46 | a decoder for the strings of section 7 of RFC 8259 gives back every string; it rejects raw controls and bare quotes, so the output holds none |
| Escape.NoRawControls | runner/catalog.cpp:35-38 | the output holds no control character |
| Escape.EscapeInjective | plugin/MulationPass.cpp:44-76 | different strings are escaped differently |
| Escape.UnescapeEscaped | runner/catalog.cpp:104-120 | the runner's scanner stops at the closing quote of every escaped value and returns it up to `\r` and other controls |
| Escape.LossyExact | runner/catalog.cpp:106-114 | it returns the value itself iff the string has no controls other than newline and tab |
| Escape.ScannersAgree | runner/catalog.cpp:97-121 | on those strings it agrees with the RFC decoder |
| Catalog.ToNdjson | plugin/MulationPass.cpp:536-556 | the loop prints one line per record |
| Catalog.LookupNum | runner/catalog.cpp:123-131 | the first match of a key is the field itself, whatever the escaped strings in front of it hold |
| Catalog.LookupStr | runner/catalog.cpp:97-103 | the same for string fields |
| Catalog.FieldUint | runner/catalog.cpp:123-131 | a 32-bit number field of a printed record is read back, whatever the escaped strings in front of it hold |
| Catalog.JsonStringField | runner/catalog.cpp:97-121 | the search and the copying loop return the unescaped text behind the first match |
| Catalog.ParsePrinted | runner/catalog.cpp:141-148 | a printed record is read back, up to characters that the scanner cannot restore |
| Catalog.ParseCatalog | runner/catalog.cpp:133-154 | the loop over lines returns the records of all lines that are records |
| Catalog.ParseOfPrint | runner/catalog.cpp:133-154 | exactly what parsing makes of every printed list |
| Catalog.CatalogRoundTrip | runner/catalog.cpp:133-154 | parse(print(recs)) == recs if and only if all ids are nonzero, all files nonempty and all strings plain |
| Catalog.ReadSections | runner/catalog.cpp:190-205 | the joining loop parses all sections, each followed by a newline |
| Catalog.SeparateSections | runner/catalog.cpp:202-205 | sections of one unit each are read in full |
| Catalog.BackToBack | plugin/MulationPass.cpp:558-566 | NUL-terminated chunks laid back to back are read as all records of the first and all but the first record of each later nonempty one |
| Merge.MergeMutants | runner/catalog.cpp:226-246 | the loops compute the sorted list of first records |
| Merge.MergeMeans | runner/catalog.cpp:226-246 | the result is sorted, has the union of the ids once each, and keeps each id's first record |
| Merge.MergeOrder | runner/catalog.cpp:236-244 | of two records of the result, the earlier one has the same file or one lexicographically below; in one file its line is not larger, and on one line its id is smaller |
| Text.StrLessExact | runner/catalog.cpp:236-244 | `<` on strings means a proper prefix, or a smaller character where the strings first differ |
| Merge.MergeCanonical | runner/catalog.cpp:226-246 | when equal ids carry equal records the result depends only on the set of records, not on groups, order or repetition |
| Diff.PathMatchMeans | runner/diff.cpp:7-20 | a mutant's path matches iff it equals the diff's path or is that path behind a directory and a separator |
| Diff.ParseGitDiffText | runner/diff.cpp:22-56 | the loop over lines returns the ranges of all hunks with the current file |
| Diff.HeaderRead | runner/diff.cpp:35-52 | a rendered hunk header is read back, with an omitted count of 1 and no range for a count of 0, whatever its heading |
| Diff.ParseRendered | runner/diff.cpp:22-56 | every rendered diff without context lines is read as the ranges of its hunks, each charged to the file that is current at its header as body lines beginning `+++ b/` move it |
| Diff.ParseExact | runner/diff.cpp:22-56 | these are the new-side ranges of the diff, deleted files contributing none, if and only if at every hunk with new lines the current file is the path of its own file |
| Diff.FilterByDiff | runner/diff.cpp:85-97 | the nested loops keep, in order, the mutants in some range |
| Diff.FilterMeans | runner/diff.cpp:85-97 | on every rendered diff the filter keeps the mutants in the charged ranges; when no body line moves a hunk, these are exactly the mutants on new-side lines of files their path matches |
| Diff.AddedLineForgesHeader | runner/diff.cpp:28-31 | on a whole rendered diff of two hunks with an added line `++ b/b.c` the filter drops the mutant on an added line and keeps one in a file that the diff does not touch |
| Ctest.ParseCommandPaths | runner/catalog.cpp:48-95 | the scanner ends on every input and returns the strings of all command arrays as the specification reads them |
| Ctest.CommandsRead | runner/catalog.cpp:48-95 | on rendered `"command"` arrays between clear segments it returns exactly the rendered strings that are not empty, each as often as it was rendered |
| Ctest.DropEmptySplit | runner/catalog.cpp:88-90 | and in the order they were rendered |
| Ctest.ClearSegments | runner/catalog.cpp:52 | a segment is clear when it has no key and does not end in all of one but its last quote |

## Left out

- The LLVM library: debug locations (`locOf` and `skipPath` are the optional `loc` field of an instruction), attributes, pass registration, declarations and intrinsics, constant folding in `IRBuilder`, poison and `nsw` flags; instructions other than integer operations, comparisons, selects and calls are opaque effects.
- Shifts, floating-point and vector operations: they have no alternatives, so they are effects; `Xor` is kept as an operation without alternatives.
- The dynamic check in the lits loop that an operand is still a constant: in the model it is proved to be one.
- Functions without a name: LLVM makes the names of named functions distinct, and `Pass.Instrument` requires that all names are.
- In-place aliasing of LLVM values: the pass works on functions as values, and an instruction is found again by the register it defines.
- Pass.RecordedMutantRuns: covers runs within a fuel bound, for every bound; a run that never ends is a run out of fuel for all of them.
- HitTable.Safe: steps are sequentially consistent; weak memory orders are not modelled, and calls with id 0 are excluded, which `Pass.NoZeroIds` justifies.
- Runtime.Process.constructor: does not model the truncation of the log path to 1023 bytes or a log that cannot be opened.
- Flush.ReloadUnion: does not model file appends of several processes that interleave inside a flush.
- Pool.StepKeeps: the counter is unbounded, so its wrap-around at the width of `size_t` is not modelled; progress output is left out.
- Report.GateExact: arithmetic is exact; IEEE rounding of the score is not modelled, nor is overflow of the `int` counters.
- Builds.ProgramBuilt: linking is concatenation, with calls numbered in the linked program; the linker's choice among several copies of one inline function is not modelled.
- Suites.HitsAreCovered: a process ends by returning, by a trap or by its time limit; one that calls `_exit`, or `exit` inside an effect, is not distinguished from a trap.
- Campaign.RunCampaign: `run_command` is a deterministic function of the selected id, so the coverage run has the status of the baseline; time limits are fuel.
- Merge.MergeMutants: `std::sort` is an insertion sort; with unique ids every correct sort gives the same list.
- Diff.ParseRendered: paths that git quotes or ends with a tab are not rendered, nor are body lines that begin `@@ `, which git never prints.
- Option parsing, the compiler wrapper, ELF headers, directory reads, the sidecar file, console and JSON report output, process control: input and output without core logic.
