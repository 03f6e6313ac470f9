# Verified model of the LS runtime's regex engine and its neighbours

A Dafny model of `runtime/ls_regex.c` (a regex compiler to a small bytecode, three executors for it, a tiered
search in front of them, a lazily filled handle and an LRU cache of handles), with the stateful kernels beside it:
the substring search, the allocation tracker, the profiler, the decimal formatter, and the type checker's hash
indexes and `has_drop` worklist. `dafny verify dfyconfig.toml` checks all of it.

## How the model is laid out

| Layer | Modules | What is proved |
|---|---|---|
| Bytecode and reference | `Machine`, `ByteTests`, `Backtracking` | the byte and position tests spelled out in characters; paths of (pc, position), captures as a function of the path, naive priority backtracking that never re-enters a configuration |
| Pike VM | `Pike`, `PikeVm` | the breadth-first VM with its shared visited set is that backtracking matcher; the array code (flag counters, block reversals, 512-slot lists) is the breadth-first VM |
| Compiler | `Regex`, `Limits`, `Compiler` | the emitter that shifts and copies bodies in place produces exactly `Program(e)`, or refuses; what it accepts, counted on the pattern |
| Meaning of code | `ParseTree`, `CodeMeaning`, `ParseRuns`, `Preference`, `PatternMeaning`, `LoopRank`, `Spans` | runs of `Program(e)` are the parses of `e`, one to one in span, captures and priority; where unbounded repetitions read, the answer is the parse preferred to all others; and what that comes to on the text for sets, words, repetition, alternatives and groups |
| One-pass walk | `FirstSet`, `OnePassWalk`, `HaltingWalk`, `Agreement`, `OnePassVm` | exact first sets; exactly which programs the single-thread walk comes to an end on; exactly which it is right on |
| Transition table | `Dfa`, `DfaWalk` | every filled cell is the uncached step; exactly which programs filling a cell comes to an end on, and which the table is right on |
| Deciding the conditions | `Reaching`, `Deciding` | the exact conditions of the fast engines as executable checks on the first-set tables |
| Search and handle | `StrFind`, `Search`, `Handle`, `EndToEnd`, `PatternCache` | the tiers skip nothing; lazy captures are invisible; answers are the leftmost, preferred parse; a cached handle lives for 31 more calls |
| Side conditions | `Counterexamples` | programs the compiler emits on which an engine's side condition fails |
| has_drop worklist | `Ownership`, `DropGraph`, `DropRing`, `HasDrop` | the theory of ownership and its fixpoints; the member graph; the index ring; the worklist itself |
| Other kernels | `Probing`, `TypeTable`, `MemCheck`, `Profiler`, `Format` | see the table |

The reference answer at one start position is `Backtracking.FirstMatch`: follow the preferred branch first, never
enter a (pc, position) pair twice on one path. `Backtracking.FirstMatchSpec` says what that means without the
algorithm: it answers if and only if an accepting path exists, and no accepting path without repetition precedes it.

A pattern is a `Regex`. `ParseTree.Yield` says which trees are parses of it and what each leaves behind (position
and all capture slots), and `ParseTree.Prefers` orders the parses: left alternative first, a greedy repetition takes
before it skips, a lazy one skips before it takes, earlier choices before later ones. Neither mentions bytecode.

## Where the code does not meet the plain claim

* **The classifier alone does not make one-pass right.** The walk commits on the next byte although the other branch
  could stop right there: `a(?:bc)?` on "abd" (`Counterexamples.OptionalDisagrees`). `Agreement.AgreementIsSafety`
  gives the exact condition, `Safe`, for every accepted program whose walk always ends, `(^a|b)` and the like
  included: a statement about the program alone, at every SPLIT the walk can come to, for every byte before and after,
  and the instructions passed since the last byte was read.
* **The table passes a leading `^` wherever control meets it.** `(?:^a)+` is eligible and branches back to it, so
  "aa" differs from the walk (`Counterexamples.LoopedDisagrees`). `DfaWalk.DfaAgreementExact` gives the exact
  condition, `NeverReturns`: no walk of the program goes back to pc 1 and on to MATCH.
* **The walk need not come to an end.** `()*` is accepted by the classifier and the walk goes round for ever on every
  text (`Counterexamples.EmptyLoopNeverHalts`). `HaltingWalk.HaltsExactly` gives the exact condition, `Loops`, on the
  program alone: from its start, and whatever bytes come before and after, the walk can get to a spot that lies on a
  cycle of steps that read nothing. It covers every
  well-formed program, `^+` included; word tests, which the classifier refuses, count as position tests there.
  An epsilon cycle alone is not enough: `b(?:^)*` has one, and its walk always ends (`Counterexamples.LateNeverLoops`).
* **Nor need filling a table cell.** A comment bounds the table's run by the text (`runtime/ls_regex.c:2903-2908`), but
  the loop that resolves a cell has no bound of its own and goes round on `()*` as well
  (`Counterexamples.EmptyLoopNeverSettles`). `Dfa.TableHaltsExactly` gives the exact condition, `TableHalts`: no pair of pc
  and next byte that the table comes to is led back to by steps that read nothing.
* **The has_drop worklist misses arrays.** A comment says that flags flow along direct members only
  (`src/checker.c:1457-1467`), but `type_owns_heap_for_enum` looks through a fixed array at its element
  (`src/checker_decl.c:436-442`) and arrays get no edge. In

      struct S { array(Str, 2) d }    struct U { array(E, 2) es }    enum E { A(S) }

  only `Str` is flagged at first, because the scan at a declaration does not look into arrays
  (`src/checker_decl.c:382-409`), and structs are registered before enums (`src/checker.c:1517-1518`): the worklist marks
  S and E and leaves U unmarked (`Ownership.ArrayMissed`). `Ownership.MarkedIsLeast` gives the exact condition,
  `AllInTime`, on the declarations, their order and the first flags. A chain goes from a type that is flagged or owns
  heap at first from member to container; it is in time if it follows the registry order up to its last array and
  takes direct members only from there on. The result is the least fixpoint if and only if wherever a chain leads, one
  in time leads. Nothing is ever marked without need; without arrays, or with members registered before their
  containers, every chain is in time.
* **The substring search can read past the haystack.** For a one-byte needle and a start beyond the end the length
  handed to `memchr` wraps around (`runtime/builtins.c:200-203`). `StrFind.Find` says so exactly: it does if and only
  if the needle has one byte, the haystack is not empty and ends before the start. The other paths take such a start
  for no match.

`Deciding` turns the four engine conditions into checks that can be executed on the tables the compiler builds anyway
(`IsSafe`, `GoesForEver`, `TableEnds`, `NeverComesBack`), each equivalent to the condition stated over all traces.

## Model

| member | source | states |
|---|---|---|
| ByteTests.SetsTaken | runtime/ls_regex.c:2211-2232 | for all flags and bytes: `\d` takes the ten digits, `\w` letters, digits and `_`, `\s` space, tab, newline, vertical tab, form feed and return, each capital form the rest, and `.` all but newline, or all under dotall |
| ByteTests.CharTaken | runtime/ls_regex.c:2205-2210 | a character takes itself, and under ignorecase the other case of its letter, and nothing else |
| ByteTests.ClassTaken | runtime/ls_regex.c:2214-2225 | a class takes its members, a capital counting as its small letter under ignorecase, and a negated class the rest |
| ByteTests.AnchorsHold | runtime/ls_regex.c:2026-2062 | where `^`, `$`, `\A`, `\Z`, `\b` and `\B` hold, in positions and the characters on both sides |
| Backtracking.FirstMatchSpec | runtime/ls_regex.c:1929-2089 | any accepting path from a start, loops included, makes the reference answer, and no repetition-free accepting path precedes its answer in branch priority |
| Backtracking.BacktrackIsFirst | runtime/ls_regex.c:1991-2047 | taking A before B and refusing re-entry loses nothing: every repetition-free accepting extension forces an answer that it does not precede |
| Backtracking.PriorityIsTotal | runtime/ls_regex.c:1991-2047 | two accepting runs from one start are equal or one precedes the other, so "first" names one run |
| Backtracking.CutLoops | runtime/ls_regex.c:1940-1942 | every accepting path can be shortened to an accepting one that repeats no configuration |
| Pike.ExecIsFirstMatch | runtime/ls_regex.c:2104-2284 | the breadth-first VM with one shared visited set per position picks exactly the backtracking matcher's path, for all programs with at most 512 consuming instructions, all texts and starts |
| Pike.ExecSound | runtime/ls_regex.c:2104-2284 | with no bound on threads: whatever the VM returns is a genuine accepting path from the start |
| Pike.ClosureOnTrack | runtime/ls_regex.c:1929-2089 | a closure step keeps a prefix of the preferred run at its priority place among the new threads, though sharing `vis` drops other threads |
| Pike.AdvanceOnTrack | runtime/ls_regex.c:2156-2280 | reading one byte with all threads keeps that prefix, every thread ahead of it being before it in priority |
| Pike.ClosureRoom | runtime/ls_regex.c:2068-2084 | the list never drops a thread while it has room for every unvisited consuming instruction |
| PikeVm.ExecRange | runtime/ls_regex.c:2104-2284 | `vm_exec_range` on arrays: its success and saved slots are those of the breadth-first VM's path, and the slots are left alone on failure |
| PikeVm.ThreadsAreTidy | runtime/ls_regex.c:2186-2271 | at every position of the main loop the thread list holds one thread per pc, each at a consuming instruction, its saved offsets -1 or not beyond the position; `ExecRange` keeps its list equal to this one |
| Pike.ThreadsApart | runtime/ls_regex.c:2186-2271 | at every position the threads wait there and no two share a pc |
| Pike.SlotsBehind | runtime/ls_regex.c:1946-1952 | no run has saved an offset beyond where it is |
| PikeVm.AddThread | runtime/ls_regex.c:1929-2089 | `add_thread`: appends exactly the closure's threads with their slots in rising-priority order, marks exactly the pcs it visited, reports MATCH with its captures |
| PikeVm.AddSplit | runtime/ls_regex.c:1996-2017 | SPLIT pushes A's block then B's and swaps the blocks, giving the closure of both branches in priority order |
| PikeVm.SwapBlocks | runtime/ls_regex.c:1996-2017 | reversing the whole and then each part exchanges two adjacent blocks and touches nothing around them |
| PikeVm.RestoreOrder | runtime/ls_regex.c:2242-2272 | reversing the array and then each per-thread block turns the blocks as pushed into one list in exact rising priority |
| PikeVm.AdvanceAll | runtime/ls_regex.c:2186-2271 | one position of the main loop: the next list holds exactly the advanced threads, cut off after the first match |
| PikeVm.Visited.Clear | runtime/ls_regex.c:1866-1881 | bumping the generation empties the set, also when the counter wraps to zero |
| PikeVm.Visited.Set | runtime/ls_regex.c:1882-1883 | marking adds exactly one pc to the set the generations represent |
| PikeVm.ReverseRange | runtime/ls_regex.c:1900-1908 | reverses the range in place and keeps everything outside it |
| Regex.CodeContained | runtime/ls_regex.c:448-525 | every branch of a piece's code lands inside that piece or right behind it |
| Regex.CodeMoves | runtime/ls_regex.c:448-525 | moving code and retargeting what points at or past its start gives the code for the new place |
| Compiler.Builder.FixupAfterShift | runtime/ls_regex.c:448-491 | the shift fix-up rewrites each target by the rule for moved and unmoved instructions, skipping the gap |
| Compiler.Builder.FixupAfterCopy | runtime/ls_regex.c:504-525 | the copy fix-up moves targets that point into the copied range (its end included) and leaves everything before the copy alone |
| Compiler.ShiftedCode | runtime/ls_regex.c:448-491 | after the in-place shift by one, the body is its own code at the next pc and all code before it is unchanged |
| Compiler.CopiedCode | runtime/ls_regex.c:504-525 | after the copy fix-up the copy is the body's code at its new place |
| Compiler.Builder.ApplyQuantifier | runtime/ls_regex.c:601-656 | on any settled prefix, `? * +` and their lazy forms turn the body's code in place into the quantified code, or refuse, and do not refuse while there is room |
| Compiler.Builder.ApplyCount | runtime/ls_regex.c:670-755 | `{n,m}` and `{n,}` by body copies, the wrapped first copy of `{0,m}` included, give the counted code, or refuse, and do not refuse below the size limit |
| Compiler.Builder.PatchJumps | runtime/ls_regex.c:1136-1141 | back-patching makes the jump behind every alternative land behind the last one |
| Compiler.Builder.EmitAlternatives | runtime/ls_regex.c:1056-1162 | each `\|` shifts the alternative before it; the result is the nested SPLIT code, within the 64-jump table, or a refusal |
| Compiler.Builder.EmitExpr | runtime/ls_regex.c:1045-1054 | the depth guard is balanced and refuses only at nesting 256 |
| Compiler.Builder.EmitConcat | runtime/ls_regex.c:1030-1039 | pieces in a row emit the code of their concatenation |
| Compiler.Builder.EmitPiece | runtime/ls_regex.c:977-1026 | an atom with its quantifier, `{0}` erasing the body and bounds above 255 refused |
| Compiler.Builder.EmitAtom | runtime/ls_regex.c:821-975 | one-instruction atoms and groups, SAVE slots around a group, groups above 16 refused |
| Compiler.Compile | runtime/ls_regex.c:1679-1743 | the emitter yields exactly `Program(e)` or refuses; it never refuses a pattern with groups 1 to 16, at most 64 bars in a chain, counts up to 255, parentheses less than 256 deep and at most 2039 instructions counted out, and accepts none outside the first four limits or above 2048 instructions |
| Compiler.FitsCounted | runtime/ls_regex.c:1078-1090 | the side condition on groups, chains and counts is those three limits, counted on the tree |
| Compiler.NestIsParens | runtime/ls_regex.c:1045-1054 | expressions open at once are one more than the parentheses nested when the pattern is written out |
| Compiler.ModestFits | runtime/ls_regex.c:1679-1743 | a pattern within the five limits always fits |
| Compiler.ProgramSlots | runtime/ls_regex.c:348-355 | every SAVE of a compiled program is inside the slot vector, and slot 0 is written by the first instruction only |
| ParseTree.MeaningIsParsing | runtime/ls_regex.c:601-755 | the relational meaning of a pattern (which states a match can lead to) is what its parse trees yield |
| ParseTree.PreferenceIsTotal | runtime/ls_regex.c:601-656 | of two different parses from one state, one is preferred |
| ParseTree.PreferenceIsStrict | runtime/ls_regex.c:601-656 | and not the other way round as well |
| CodeMeaning.Through | runtime/ls_regex.c:601-755 | any run that enters a pattern's code and ends outside it splits into the trace of a parse and a run from right behind the code |
| CodeMeaning.Sound | runtime/ls_regex.c:601-755 | a run that stays inside the code is the trace of a parse, with its end position and captures, for every construct, epsilon loops and `{n,m}` copies included |
| ParseRuns.Complete | runtime/ls_regex.c:601-755 | every parse has a run through the emitted code that ends right behind it with the parse's captures |
| Preference.Preferred | runtime/ls_regex.c:601-755 | if a parse is preferred, its run takes the first-operand branch where the two runs part: SPLIT operand order implements greedy, lazy and alternation |
| PatternMeaning.RunMatchesPattern | runtime/ls_regex.c:1679-1743 | every accepting run of a compiled program is the run of a parse, with its span and every capture slot |
| PatternMeaning.PatternMatchRuns | runtime/ls_regex.c:1679-1743 | every parse of the pattern is an accepting run of the compiled program, with the same captures |
| PatternMeaning.PreferredRunsFirst | runtime/ls_regex.c:1679-1743 | of two whole parses, the preferred one is the run that comes first in VM priority |
| PatternMeaning.BestIsUnique | runtime/ls_regex.c:2104-2284 | there is at most one best parse, so the answer is determined |
| LoopRank.RanksFall | runtime/ls_regex.c:601-755 | where what is repeated without bound cannot match without reading, the emitted code has a rank that falls along every step that reads nothing |
| LoopRank.ParseIsSimple | runtime/ls_regex.c:1940-1942 | then no run of a parse meets a configuration twice, so the visited set rules no parse out |
| LoopRank.AnswerIsForemost | runtime/ls_regex.c:2104-2284 | then the answer is stated on trees alone: none exactly when there is no parse, else span and captures of the parse preferred to all others |
| LoopRank.LoopsReadCanWalk | runtime/ls_regex.c:1534-1573 | and every such program the classifier accepts can be walked to an end |
| Spans.SetsFound | runtime/ls_regex.c:2211-2232 | `\d` compiled finds one digit at s, or nothing exactly when there is none, whatever the flags; and so for `\D \w \W \s \S .` |
| Spans.OneByte | runtime/ls_regex.c:2186-2235 | a one-byte pattern finds the byte at s exactly when its test takes it, group 0 being that byte |
| Spans.AnchorFound | runtime/ls_regex.c:2026-2062 | an anchor finds the empty span exactly where it holds |
| Spans.CharsFound | runtime/ls_regex.c:1030-1039 | characters in a row find exactly that word at s |
| Spans.StarFound | runtime/ls_regex.c:601-656 | `i*` on any one-byte test takes the whole run of bytes that pass, `i*?` none |
| Spans.PlusFound | runtime/ls_regex.c:601-656 | `i+` needs one byte and takes the whole run, `i+?` takes one |
| Spans.OptFound | runtime/ls_regex.c:601-656 | `i?` takes a byte if one passes, `i??` none |
| Spans.CountFound | runtime/ls_regex.c:670-755 | `i{n,m}` and `i{n,}` find nothing on a run shorter than n, else take as much of it as the bound allows, and the lazy forms n |
| Spans.AltFound | runtime/ls_regex.c:1056-1162 | `a\|b` finds what `a` finds, captures included, and what `b` finds only where `a` finds nothing, for all patterns whose loops read |
| Spans.GroupFound | runtime/ls_regex.c:821-975 | a group around a pattern captures the whole match, start in the even slot and end in the odd one |
| Spans.RowFound | runtime/ls_regex.c:821-975 | of two groups in a row the second starts where the first ends, and together they are the whole match |
| PatternMeaning.FirstMatchIsBest | runtime/ls_regex.c:2104-2284 | the reference matcher on a compiled program answers if and only if the pattern matches there, and with the best parse's run |
| PatternMeaning.VmMatchesPattern | runtime/ls_regex.c:2104-2284 | compilation and Pike VM together: for every pattern with at most 512 consuming instructions, every text and start, the VM's answer is the best parse's span and captures, or nothing when there is no match |
| FirstSet.ComputeFirst | runtime/ls_regex.c:1418-1473 | `re_first_set` with its shared `seen` array, on programs with loops: exactly the bytes that can start, and exactly whether MATCH is reachable without reading |
| FirstSet.Collector.Collect | runtime/ls_regex.c:1418-1473 | one recursive visit adds exactly the bytes of what it newly reached, and what it newly reached is closed up to what was seen before |
| FirstSet.GrownIsReach | runtime/ls_regex.c:1418-1473 | a visit that starts from nothing seen reaches exactly the epsilon-reachable instructions |
| FirstSet.IsOnePass | runtime/ls_regex.c:1534-1573 | accepts exactly the programs without word tests whose SPLITs have branches with disjoint first bytes and neither both reading and able to end |
| FirstSet.BuildTables | runtime/ls_regex.c:1586-1615 | the per-SPLIT tables hold the exact first sets of both branches |
| Agreement.AgreementIsSafety | runtime/ls_regex.c:2341-2479 | for every accepted program whose walk always ends, anchors anywhere: the walk equals the first match, path and captures, on all texts and starts if and only if the program is `Safe` |
| Agreement.UnsafeDisagrees | runtime/ls_regex.c:2369-2392 | for every such program that is not `Safe`, a text and a start on which walk and first match differ |
| Agreement.SafeAgrees | runtime/ls_regex.c:2369-2392 | for every accepted `Safe` program, on any text and start where the walk ends it is the first match |
| OnePassWalk.PathsAreSimple | runtime/ls_regex.c:2341-2479 | without epsilon cycles no run meets a configuration twice |
| HaltingWalk.HaltsExactly | runtime/ls_regex.c:2341-2479 | for every well-formed program: the walk ends on all texts and starts if and only if no spot (pc, byte before, byte after) that the start leads to lies on a cycle of steps that read nothing |
| HaltingWalk.LoopsForEver | runtime/ls_regex.c:2341-2479 | for every program with such a spot, a text and a start from which the walk never ends |
| HaltingWalk.HaltsUnlessRepeats | runtime/ls_regex.c:2341-2479 | on one text the walk ends if and only if no configuration comes back |
| HaltingWalk.PickIsStep | runtime/ls_regex.c:2355-2475 | a step of the walk depends on the pc and the bytes on both sides of the position only |
| HaltingWalk.RankedNeverLoops | runtime/ls_regex.c:2341-2479 | a program without epsilon cycles never loops |
| OnePassVm.ExecOnePass | runtime/ls_regex.c:2341-2479 | on any program and text where the walk ends: returns 1 exactly when it ends at MATCH, and then the slots are the captures of a genuine accepting run |
| OnePassVm.ChooseIsSide | runtime/ls_regex.c:2369-2392 | looking the next byte up in the two tables picks the branch the program can go on with |
| Dfa.CheckEligible | runtime/ls_regex.c:1665-1675 | accepts exactly the one-pass, single-line programs of bounded length whose `^` and `\A` sit at pc 1 |
| Dfa.Resolve | runtime/ls_regex.c:2789-2862 | where following instructions without reading comes to an end, the loop stops there: a consuming pc, accept or dead |
| Dfa.Step | runtime/ls_regex.c:2872-2900 | cached or not, a transition is the uncached step; its cell holds it afterwards, no other cell changes, and the table stays sound |
| Dfa.ExecDfa | runtime/ls_regex.c:2909-2926 | where resolving always ends, the loop over transitions ends at the position the uncached transitions end at, and the table stays sound |
| Dfa.TableHaltsExactly | runtime/ls_regex.c:2789-2862 | resolving ends at every (pc, next byte) the table can come to if and only if none of them is led back to by steps that read nothing |
| Dfa.RankedTableHalts | runtime/ls_regex.c:2789-2862 | so it does on every program without epsilon cycles |
| DfaWalk.DfaDropsAnchor | runtime/ls_regex.c:2830-2853 | on every text the table answers exactly as the walk of the program with its leading anchor turned into a jump |
| DfaWalk.DfaAgreementExact | runtime/ls_regex.c:2909-2926 | table and walk give the same span on all texts, from every start the search tries, if and only if no walk to MATCH returns to the leading anchor |
| Agreement.GuardedIsSafe | runtime/ls_regex.c:2369-2392 | with `^` and `\A` in front only: when every way from a SPLIT to MATCH without reading goes through `\Z`, or `$` in a single-line pattern, a program whose walk always ends is `Safe` |
| Deciding.IsSafeDecides | runtime/ls_regex.c:1586-1615 | an executable check on the first-set tables holds exactly for `Safe` programs |
| Deciding.TableEndsDecides | runtime/ls_regex.c:2789-2862 | an executable check holds exactly for the programs on which resolving always ends |
| Deciding.NeverComesBackDecides | runtime/ls_regex.c:2830-2853 | an executable check holds exactly for the programs on which table and walk agree |
| Deciding.GoesForEverDecides | runtime/ls_regex.c:2341-2479 | an executable check holds exactly for the programs on which the walk need not end |
| Reaching.CloseIsReach | runtime/ls_regex.c:1418-1473 | adding successors until none are new finds exactly the nodes that a chain of successors leads to |
| DfaWalk.NoBranchNoReturn | runtime/ls_regex.c:2830-2853 | a program with no branch to a leading anchor meets that condition |
| Counterexamples.OptionalIsCompiled | runtime/ls_regex.c:601-624 | the first of these programs is what `a(?:bc)?` compiles to |
| Counterexamples.LoopedIsCompiled | runtime/ls_regex.c:601-656 | the second is what `(?:^a)+` compiles to |
| Counterexamples.EmptyLoopIsCompiled | runtime/ls_regex.c:601-656 | and the third is what `()*` compiles to |
| Counterexamples.OptionalDisagrees | runtime/ls_regex.c:2369-2392 | `a(?:bc)?` is accepted by the classifier, the walk fails on "abd", and the first match there is "a", span 0 to 1 |
| Counterexamples.LoopedDisagrees | runtime/ls_regex.c:2830-2853 | `(?:^a)+` is eligible, and on "aa" table and walk differ |
| Counterexamples.EmptyLoopCycles | runtime/ls_regex.c:1534-1573 | `()*` is accepted by the classifier and has an epsilon cycle |
| Counterexamples.EmptyLoopNeverHalts | runtime/ls_regex.c:2341-2479 | on it the walk never ends, on any text from any start |
| Counterexamples.EmptyLoopLoops | runtime/ls_regex.c:2341-2479 | so it is a program that loops, by the check on the program |
| Counterexamples.EmptyLoopNeverSettles | runtime/ls_regex.c:2903-2908 | `()*` is eligible for the table, and resolving from its first pc never ends, whatever the next byte |
| Counterexamples.LateIsCompiled | runtime/ls_regex.c:1679-1743 | that program is what `b(?:^)*` compiles to |
| Counterexamples.LateNeverLoops | runtime/ls_regex.c:2341-2479 | `b(?:^)*` is accepted, has an epsilon cycle, and its walk always ends: never looping asks less of a program than having no such cycle |
| StrFind.Find | runtime/builtins.c:195-240 | for any start: reads past the haystack if and only if the needle has one byte and a non-empty haystack ends before the start; otherwise the least index at or after max(start, 0) where the needle occurs, else -1, on the empty, single-byte, short-haystack and table paths |
| StrFind.FindPastTheEnd | runtime/builtins.c:200-203 | looking for "a" in "a" from 2 on reads past the end |
| StrFind.MemChr | runtime/builtins.c:200-203 | the first of count bytes that equals b, or a read past the haystack when they are not all in it, a negative count being a huge one |
| StrFind.ShiftSkipsNothing | runtime/builtins.c:225-239 | a shift no longer than the table allows for the byte behind the window passes no occurrence |
| StrFind.BuildShifts | runtime/builtins.c:225-227 | the table holds, for every byte, a shift from 1 to needle length + 1 bounded by every occurrence of that byte |
| Search.BuildPrefilter | runtime/ls_regex.c:1169-1239 | collects the maximal literal prefix up to its limit, knows whether it is the whole pattern, else the first-byte set |
| Search.DetectAnchor | runtime/ls_regex.c:1251-1264 | absolute anchor, line-start anchor or none, from the instruction behind the opening SAVE |
| Search.NextStart | runtime/ls_regex.c:2652-2679 | the literal tier goes to the next occurrence, the first-byte tier to the next byte of the set, and both pass over only starts from which no run accepts |
| Search.AnchoredDeadRange | runtime/ls_regex.c:2596-2649 | no run of an anchored program accepts from a start where its anchor cannot hold |
| Search.SkipDead | runtime/ls_regex.c:2575-2695 | leaving out such starts does not change what trying every start would find, for any engine |
| Search.WholeSearch | runtime/ls_regex.c:3052-3096 | for a whole-literal program the substring search is the naive search, captures included |
| Search.SearchIsLeftmost | runtime/ls_regex.c:2575-2695 | trying every start finds a match no later than any accepting run |
| Handle.Handle.constructor | runtime/ls_regex.c:1679-1743 | the analyses of a compiled program, an empty sound transition table, and zeroed slots |
| Handle.Handle.TryAt | runtime/ls_regex.c:2503-2530 | one start with any engine reports that engine's match and its slots |
| Handle.Handle.SearchAtStart | runtime/ls_regex.c:2605-2624 | absolute anchor: one attempt equals trying every start |
| Handle.Handle.SearchLineStarts | runtime/ls_regex.c:2627-2650 | line-start anchor: line starts alone equal trying every start |
| Handle.Handle.SearchAnywhere | runtime/ls_regex.c:2652-2695 | prefiltered starts equal trying every start, and leave exactly the match's slots, or all unset |
| Handle.Handle.Exec | runtime/ls_regex.c:3052-3096 | `__ls_regex_exec`: the engine's answer at the first start that matches, all slots in place; the number returned is one more than the number of groups, half the slots of the answer, or 0 without a match |
| Handle.Handle.ExecDfa | runtime/ls_regex.c:3019-3050 | `__ls_regex_exec_dfa`: the same number, and the same slots as seen by the caller, captures pending |
| Handle.Handle.FillCaptures | runtime/ls_regex.c:2992-3017 | a pending refill happens once and changes nothing the caller can see |
| Handle.Handle.CapStart | runtime/ls_regex.c:3112-3120 | the start the eager exec would have left, -1 outside 0..16 |
| Handle.Handle.CapLen | runtime/ls_regex.c:3122-3130 | the length the eager exec would have left, -1 when unset or outside 0..16 |
| Handle.Replay | runtime/ls_regex.c:2992-3050 | over any interleaving of eager and lazy execs and capture reads, every result is what an eager handle tells, every exec tells one more than the number of groups or 0, and there is at most one refill per exec |
| Handle.TableIsWalk | runtime/ls_regex.c:2928-2990 | the span read off the table is group 0 of the walk the refill makes |
| Handle.AnswerIsLeftmost | runtime/ls_regex.c:3019-3096 | when the engine the handle picked is exact on its program, an exec answers the naive leftmost search with first-match captures |
| EndToEnd.HandleAnswersPattern | runtime/ls_regex.c:3019-3096 | pattern to answer: an exec on a compiled handle reports nothing when the pattern matches nowhere from start on, else the best parse's captures at the leftmost position that matches |
| EndToEnd.CompiledIsSane | runtime/ls_regex.c:1679-1743 | what the emitter yields meets what the handle asks of a program, given only that the walk always ends where it is licensed, and that the table's resolving ends and its walks do not return to the leading anchor where it is |
| EndToEnd.LoopsReadIsSane | runtime/ls_regex.c:1679-1743 | where what is repeated without bound cannot match without reading, only the condition on the leading anchor is left, and only where the table is used |
| PatternCache.Cache.Cached | runtime/ls_regex.c:1785-1811 | a hit returns the handle of that key and frees nothing; a miss compiles and replaces only the least recently used; keys and stamps stay distinct and every handle is its key's |
| PatternCache.Cache.Survives | runtime/ls_regex.c:1785-1811 | a handle just returned is still held and not freed after any 31 further calls |
| PatternCache.Replaced | runtime/ls_regex.c:1799-1810 | replacing the least stamp frees only a handle that all 31 others are newer than, and ages the rest by one at most |
| HasDrop.World.Propagate | src/checker.c:1510-1624 | the worklist terminates, and its flags are exactly one sweep over the registry in order, arrays looked into, spread along direct members to the end; they are the least fixpoint if and only if `AllInTime`, on the declarations, their order and the first flags |
| HasDrop.World.Eval | src/checker.c:1481-1506 | sets and reports a type's flag exactly when it was set or a member owns heap, through nested arrays too, or is an enum's own box |
| Ownership.OwnsInnermost | src/checker_decl.c:429-446 | whether a member comes to own heap hangs on the flag of the struct or enum under its arrays |
| Ownership.MarkedIsLeast | src/checker.c:1510-1624 | for all registries and first flags: the result is the least set above them closed under heap ownership, arrays included, if and only if every chain from member to container has one with the same end that follows the registry order up to its last array |
| Ownership.MarkedIsInTime | src/checker.c:1510-1624 | exactly the first flags and the registered types that a chain in time leads to are marked |
| Ownership.MarkedIsNeeded | src/checker.c:1448-1456 | whatever the order, no flag is set that the least fixpoint does not set, and the result is closed under direct members |
| Ownership.HeapIsMarked | src/checker_decl.c:429-446 | a closure, however deep in arrays, or an enum in itself marks the type that holds it, whatever the first flags |
| Ownership.HeaplessIsUnmarked | src/checker_decl.c:429-446 | a type all of whose members are without heap at the bottom of their arrays stays unmarked unless it was flagged at first |
| Ownership.ArrayFreeIsLeast | src/checker.c:1457-1467 | without array members every chain is in time, so the result is the least fixpoint |
| Ownership.MembersFirstIsLeast | src/checker.c:1510-1624 | so it is, arrays or not, when no type is registered before one it contains |
| Ownership.ArrayMissed | src/checker.c:1517-1518 | the three declarations above, structs before enums: U is left unmarked though the element type of its array is marked, and not every chain is in time |
| Ownership.SpreadIsLeast | src/checker.c:1605-1618 | following direct members for as many sweeps as there are types reaches the least set closed under them |
| Ownership.LeastIsUnique | src/checker.c:1448-1456 | the least fixpoint is unique, so where the result is one it does not depend on the order |
| DropGraph.BuildIndex | src/checker.c:1520-1535 | the pointer index sends every registered type to its place |
| DropGraph.CollectEdges | src/checker.c:1545-1583 | exactly the "t is a direct member of u" pairs of registered types, boxes of an enum in itself left out |
| DropGraph.PackRows | src/checker.c:1585-1595 | counting, prefix sums and filling put every edge in its own cell of its own row, and nothing else there |
| DropRing.Ring.Push | src/checker.c:1597-1613 | the n+1-slot ring appends at the tail and never overflows while each index is queued once at most |
| DropRing.Ring.Pop | src/checker.c:1605-1606 | and takes the head, wrapping around |
| TypeTable.Registry.Register | src/checker.c:410-450 | the array takes every entry, the index keeps the first of a name across growth, and load stays under 70 percent |
| TypeTable.Registry.Find | src/checker.c:452-466 | for any hash function the probe returns what the first-match scan of the array returns |
| TypeTable.Registry.FindLinear | src/checker.c:566-578 | the fallback scan is that first match |
| TypeTable.FirstMatchIsFirst | src/checker.c:552-578 | which is the entry of least index with that name, or nothing exactly when there is none |
| TypeTable.RegisterImpl | src/checker.c:499-516 | a new impl goes to the end of the registry with its index there, the index still keeping the first of a name |
| TypeTable.FindImpl | src/checker.c:530-550 | the index of the first impl with that name, -1 exactly when there is none |
| Probing.EndDecides | runtime/memcheck.c:159-179 | where a probe ends decides membership: an entry there is the key's, an empty slot there means it is absent |
| Probing.WriteUpdates | runtime/memcheck.c:159-179 | writing where the probe ended updates the represented map at that key and breaks no other probe |
| Probing.Rehash | runtime/memcheck.c:181-202 | growth keeps the represented map |
| MemCheck.Tracker.Alloc | runtime/memcheck.c:266-305 | the table's history after an allocation is the specified one, a recycled address turning live again |
| MemCheck.Tracker.Realloc | runtime/memcheck.c:307-343 | the old block is released and the new one live, whatever malloc returned |
| MemCheck.Tracker.Free | runtime/memcheck.c:345-393 | live to freed, or exactly one of the double-free and invalid-free counters goes up, as the history says |
| MemCheck.Tracker.Report | runtime/memcheck.c:411-445 | leaks reported are the live counter and the number of live addresses; violations add both error counters |
| MemCheck.Replay | runtime/memcheck.c:266-445 | any run of calls on a fresh tracker ends with the history of its events; the leaks reported are the addresses last handed out, the violations add the exact numbers of bad frees |
| MemCheck.HistoryDecides | runtime/memcheck.c:266-393 | over any event list an address's status, its size included, is what the last event that touched it made it |
| MemCheck.CountersAreExact | runtime/memcheck.c:345-393 | both error counters equal the number of frees that hit a released, or a never handed out, address |
| Profiler.Profiler.Enter | runtime/profiler.c:133-144 | opens a frame, or past 512 only counts it, and keeps the conservation law |
| Profiler.Profiler.Leave | runtime/profiler.c:146-171 | neither clamp fires; the totals of the function's spelling grow by the whole elapsed time, self times by that less callee time, calls by one, no other spelling changes, the caller's frame gets the elapsed time, and summed self time stays finished root time plus callee time held by open frames |
| Profiler.Replay | runtime/profiler.c:133-171 | over any run of enters and leaves, the totals of the entries spelled like a name add up to now - enter over its calls that are over, their self times to that less the time of the calls directly inside, their counts to the number of those calls; over the whole table total less self is the time of calls inside calls |
| Profiler.BookedMore | runtime/profiler.c:146-171 | one more call over and one more call in the table keep that law |
| Profiler.MainCallsF | runtime/profiler.c:146-171 | main from 0 to 10 with f from 2 to 7 inside: ten in all for main, five by itself, five for f |
| Profiler.Profiler.FindOrInsert | runtime/profiler.c:63-100 | an entry spelled like the name, a new zero entry if there is none on the probe path, all others unchanged across growth |
| Profiler.LeaveKeeps | runtime/profiler.c:146-171 | closing the innermost frame keeps frames nested in time and moves its elapsed time to its caller |
| Format.FastFormat | runtime/builtins.c:72-119 | returns the full rendered length and leaves the rendered text cut to size - 1 and a NUL, nothing past size written |
| Format.IsSimple | runtime/builtins.c:57-70 | accepts exactly the formats made of plain text and the supported conversions |
| Format.Put | runtime/builtins.c:26-33 | appends with the bound, counting past it |
| Format.PrintU64 | runtime/builtins.c:36-44 | writes the decimal of any 64-bit unsigned value, within 20 digits |
| Format.PrintI64 | runtime/builtins.c:46-53 | writes the decimal of any 64-bit signed value, the least one included, within 20 characters |
| Format.SignedRenders | runtime/builtins.c:72-119 | `%d`, `%i` and `%lld` show a numeral, behind a sign exactly when the number is negative, that reads back as the argument, for every argument |
| Format.UnsignedRenders | runtime/builtins.c:72-119 | `%u` and `%llu` show a numeral that reads back as the argument |
| Format.DigitRenders | runtime/builtins.c:36-44 | a single digit shows as itself |
| Format.TextRenders | runtime/builtins.c:72-119 | `%s` shows the text, or `(null)`, `%c` the character, `%%` a percent sign |
| Format.PlainRenders | runtime/builtins.c:72-119 | a format without a percent sign renders as itself |
| Format.JoinRenders | runtime/builtins.c:72-119 | two formats one after the other with their arguments render as the two texts |
| Format.SimpleMeans | runtime/builtins.c:57-70 | read from the front: after `%` one of `% d i u s c`, or `lld` or `llu` |
| Format.DecimalRoundTrips | runtime/builtins.c:36-44 | reading the digits back gives the number, with no leading zero |
| Format.SignedRoundTrips | runtime/builtins.c:46-53 | and the same with a sign |
| Format.SixtyFourBitsFit | runtime/builtins.c:36-53 | every 64-bit value fits 20 characters |

## Left out

- Lookahead (`OP_LOOKAHEAD`, `vm_exec_lookahead`): its seed test reads slots its body never writes, so its meaning is not the obvious one.
- Bytes above 127: the class bitmap has 16 bytes and no guard, so `Byte` stops at 127; classes are sets of such bytes stored in the instruction, without the class table's index.
- Pattern text: parsing of characters, escapes, class bodies, flags, digits of counts, group numbers and names. The compiler starts from the parsed pattern and refuses what the parser would refuse by size, nesting or count.
- Compiler.Compile: the branches that ignore a failed `emit` at the instruction cap are modelled as refusals; below the cap the two are the same. For size the two conditions are not one: a pattern of more than 2039 instructions counted out, {n,m} bodies and an erased {0} included, may still be accepted if no step needs more than 2048.
- Pike.ExecIsFirstMatch: needs at most 512 consuming instructions, because the list drops further threads silently; beyond that only soundness is stated (`Pike.ExecSound`).
- PatternMeaning.FirstMatchIsBest: the best parse is taken among parses whose run repeats no (pc, position) pair, as the VM's visited set demands; a pattern such as `(a*)*` has parses that go round without reading, and they are not compared. `LoopRank.AnswerIsForemost` drops this for patterns whose unbounded repetitions read.
- Agreement.AgreementIsSafety: programs that loop are excluded, because on some text the walk does not end there; `Agreement.SafeAgrees` and `OnePassVm.ExecOnePass` cover them on every text where it does.
- Agreement.GuardedIsSafe: one simple way to be `Safe`, not the only one; with `^` or `\A` further in, the preferred side of a SPLIT may be barred by its anchor where the other side can end, so such programs are not covered by it.
- Handle.Handle.constructor: the compiled program is an argument, together with the conditions under which the licensed fast engines end and the table is faithful; `EndToEnd.CompiledIsSane` supplies the rest from the compiler.
- Handle.Handle.Exec: a start outside 0..length of the text is not covered, in this and the other exec theorems; for a one-byte whole literal a start beyond the end reads past the text (`StrFind.Find`), and a negative start makes the VM look before it.
- Handle.Handle.SearchAnywhere: the three search functions, alike but for the engine they call, are one function with an engine parameter, and the VM's buffers are made for each search.
- Handle.Handle.CapStart: groups above the pattern's own count and below 17 read a slot left from earlier; only the frame is stated for them.
- PatternCache.Cache.Cached: the clock does not wrap (`clock < CLOCK_LIMIT`), and one thread's cache is modelled.
- PikeVm.Visited: the generation counter's wrap is modelled at 32 bits.
- Probing.Home: `hash & (cap - 1)` is written as a remainder, for any hash function and any capacity.
- HasDrop.World.Propagate: no type is registered twice; a member is a struct or enum, a fixed array, or of a kind with a fixed answer (a closure owns heap, the rest do not).
- Profiler.Profiler.Leave: the clock does not go back and times do not wrap; names are addresses with a spelling, and two addresses may be spelled alike.
- Format.FastFormat: `vsnprintf`, taken for every format that is not simple, is not part of this model; arguments match the conversions, and formats and string arguments hold no NUL byte, which would end them in C.
- Allocation failure, `realloc` of the program and table, error messages, environment switches, locking, debug counters and `text_is`: none changes an answer.
- Move and borrow analysis, comptime evaluation, module import, operating-system calls and code generation: not part of this model.
