# Lumière: the hard cores, verified

Lumière is an interpreter for a French-language programming language, written in C++. This project models the parts
of it whose correctness is not visible from any one function, and proves what they promise. Lists, vectors and buffers
that the C++ code changes in place are fields that methods reassign; each such method is proved against a function or a
predicate, and the lemmas are about those.

| part | modules |
|---|---|
| The cycle collector: reference counts, candidate buffer, trial deletion, reclamation | `Graphs`, `HeapSnapshots`, `CountedObjects`, `ThreadHeaps`, `TrialDeletion`, `TrialMarks`, `CollectionPhases`, `CycleCollection`, `CollectedRings` |
| Results that must be used: the analyzer's obligations, against the executions of a function and its paths | `ObligationAnalysis`, `ObligationLaws`, `ObligationAnalyzers`, `ResultRuns`, `RunSimulation`, `AcceptedFunctions`, `PathAnalysis`, `PathSoundness`, `PathRuns`, `PathLosses`, `ObligationGaps` |
| JSON: a parser and an encoder over a heap with sharing and cycles, against RFC 8259 | `JsonParsing`, `JsonParsers`, `JsonGrammar`, `JsonCompleteness`, `JsonSoundness`, `JsonWriting`, `JsonEncoding`, `JsonEncoders` |
| Insertion-ordered hash tables, equality and hashing of values | `HashIndexes`, `HashTables`, `Values` |
| Types: assignability, coverage of matches, interning, annotations | `Assignability`, `MatchCoverage`, `RuntimeMatches`, `TypeInterning`, `TypeInterners`, `TypeAnnotations`, `TypeParsers`, `TypeRoundTrip`, `TypeGrammar`, `IntegerArguments`, `CollectionConstraints` |
| The import walk | `ImportWalks` |
| Text: UTF-8 after RFC 3629, and the lexer | `Utf8`, `Lexing`, `Lexers`, with `Numerals` and `Subsequences` shared |

## What holds, and where the code falls short

**Cycle collector.** `CycleCollector.Valid` is kept by everything a running program does: counts equal the references
held, the buffer's slots are right and its entries distinct, no object has a count of zero, and, when every reference is
reported to the collector, everything allocated is reachable from the stack or from a suspect in the buffer. A
collection reclaims exactly the suspects' closure less what is held from outside it, frees nothing reachable and, when
every reference is reported, leaves nothing unreachable. Objects are records in a map keyed by address and deleting one
removes its record, so that every access carries the obligation that the object is still there: a use after free or a
second deletion does not verify. The list `freed_early` of `collect` is proved empty, so its last loop is not written.
The inner loops of the walks and the phases of `collect` are methods of their own. `ref.hpp` decides two points that
matter: `retain` paints an object black, and `release` does not note an object marked acyclic. `CollectRing` is a run of
a program over these operations: two objects that refer to each other outlive their last outside reference and are
gone after the next collection, whatever else the heap holds.

**Obligations.** The design (error_handling_proposal.md:560-624) wants every result read on every reachable path before
the binding responsible for it leaves its scope, `arrêter` included. The code (`ObligationAnalysis`) looks at each loop
body once, checks nothing at `arrêter`, and counts a read in the right operand of `et` or `ou`, which may be skipped, as
a read. `ResultRuns` gives the executions of a function: conditions, iterations and `propager` follow an arbitrary list
of choices, and a result that leaves its last scope unread sets `leaked`. Whatever the loops do, an execution of an
accepted function that loses a result has skipped an operand that reads one, or left a scope by `arrêter` with one
(`AcceptedIsSafe`). Which accepted functions do lose one is decided exactly: `PathAnalysis` follows the paths of a
function in one pass, and for every function some execution loses a result if and only if some path does
(`LossIsExact`, `AcceptedLosesExactly`). Two accepted functions lose a result, one by each construct; two more have the
same constructs and lose none.

**JSON.** The grammar of RFC 8259 is written once as trees with their text and their meaning. The parser accepts exactly
the texts of the trees that are in order (integers that fit, decimals that are finite, paired surrogates, distinct
keys), and returns what they mean. The encoder succeeds exactly when no walk meets an ancestor again and every leaf and
key has a form; sharing is not mistaken for a cycle; and the text it writes for a heap of lists and dictionaries is read
back as the unfolding. A text that is not valid UTF-8 is repaired, byte by byte, with U+FFFD.

**Hash tables.** The index agrees with a scan of the entries through every history. `& mask` is written `% size`; the
sizes are proved powers of two. The header says that every value but a non-number can be a key; the code also refuses
nothing but a bare non-number, so a Résultat that wraps one is accepted and never found again. `PutIsFoundExactly` says
when a key is found again, `RejectionIsExact` which values the code's test lets through wrongly, and `WrappedIsLost`
is such a key.

**Types.** Assignability is not transitive over every table: the walk to an ancestor compares the part of a name after
the last dot, and the test for error types the whole name. `Gap` is the condition on two names that makes the
difference, and a table has transitive assignability exactly when it has no gap (`TransitiveExactly`); names without a
dot have none, and `QualifiedNamesAreNotTransitive` is a table with one. A union is assignable to another exactly when
they are the same list or one alternative of the target takes every alternative of the source (`UnionsWidenExactly`),
because the target is taken apart first; so three distinct built-in types do not make a wider union. The integer
argument of a type is read by `std::stoull`, which stops at a digit separator: `T[1_000]` has the argument 1
(`ThousandIsOne`), and the argument is the number written exactly when no digit follows the first separator or every
digit is zero (`ArgumentIsWritten`). Whatever is printed is read as the same expression, and the parser returns an
annotation exactly when the tokens it passes over write it, up to the spelling of integers, and it cannot go on
(`AnnotationIsExact`).

An accepted match on a Résultat takes every value the analyzer can think of exactly when the table has no gap
(`ExhaustiveExactly`). At run time it is another condition, because classes then have identities that distinguish
declarations of one name, while the analyzer compares what follows the last dot of a name. `NoClash` says that no class
declared here has the unqualified name of an imported class, and no interface that a class here lists is taken for an
imported one; every accepted match takes every value at run time exactly then (`AlwaysMatchesExactly`), whichever
modules the classes come from. When a module declares an error class X and imports M.X, the branch `Échec(e: X)` is
accepted as covering the failures of M.X and takes none of them (`ShadowedFailureEscapes`).

**Lexer.** An escape in error consumes the byte after the backslash even when it is a newline, which is then not
counted. `Tokenise` proves that a token has its line and column exactly when no such escape stands before it, and
`MissedNewline` is a text of four bytes whose second token is misplaced.

## Model

| member | source | states |
|---|---|---|
| CycleCollection.CycleCollector.Collect | src/interpreter/runtime/cycles.cpp:301-386 | a collection reclaims exactly the objects reachable from a suspect through reported references that no reference from outside that part reaches; survivors keep their links, are black, and are counted right again; with every reference reported, exactly the reachable objects are left; inside a collection nothing happens |
| CycleCollection.CycleCollector.FindGarbage | src/interpreter/runtime/cycles.cpp:310-359 | trial deletion returns the condemned objects, each once, nothing outside refers to them, and all counts are back where they were |
| CycleCollection.CycleCollector.TakeCandidates | src/interpreter/runtime/cycles.cpp:310-329 | the roots are exactly the purple objects, the buffer is empty, and no candidate was already free |
| CycleCollection.CycleCollector.MarkGrey | src/interpreter/runtime/cycles.cpp:102-126 | every edge leaving the closure of the root is taken away once, no count going below zero, and exactly the closure is grey |
| CycleCollection.CycleCollector.ScanBlack | src/interpreter/runtime/cycles.cpp:128-146 | the edges leaving what the object reaches are given back, and that part is black |
| CycleCollection.CycleCollector.Scan | src/interpreter/runtime/cycles.cpp:148-172 | what the root reaches is white or black, white objects having no count left and black ones being closed under references |
| CycleCollection.CycleCollector.GatherWhite | src/interpreter/runtime/cycles.cpp:174-192 | the white objects reached are listed, each once |
| CycleCollection.CycleCollector.RestoreCounts | src/interpreter/runtime/cycles.cpp:353-359 | the edges among the garbage are back in the counts |
| CycleCollection.CycleCollector.PinAll | src/interpreter/runtime/cycles.cpp:363-366 | every object of the garbage is held up by one reference of the collector |
| CycleCollection.CycleCollector.ClearAll | src/interpreter/runtime/cycles.cpp:367-370 | the garbage holds nothing any more, and none of it has been deleted meanwhile |
| CycleCollection.CycleCollector.FreeAll | src/interpreter/runtime/cycles.cpp:371-378 | letting the references of the collector go deletes each object of the garbage, exactly once |
| ThreadHeaps.ThreadHeap.NotedKeeps | src/interpreter/runtime/cycles.cpp:249-266 | noting an object that may have lost its part of the heap keeps counts, links and buffer in balance, and covers what the object alone could reach |
| ThreadHeaps.ThreadHeap.LeftAndDeleted | src/interpreter/runtime/cycles.cpp:221-247 | an object whose count is zero can leave the buffer, whose slots and positions still agree, and be deleted; the balance and the cover hold afterwards |
| CycleCollection.CycleCollector.Destroy | src/interpreter/runtime/cycles.cpp:221-247 | deleting an object nobody refers to, and all that this frees, keeps the balance of counts and the cover by suspects |
| CycleCollection.CycleCollector.Release | include/lumiere/interpreter/runtime/ref.hpp:71-85 | dropping one reference keeps both as well; a last reference frees the object, another leaves it |
| CycleCollection.CycleCollector.Retain | include/lumiere/interpreter/runtime/ref.hpp:64-68 | taking a reference keeps them, though a suspect stops being one |
| CycleCollection.CycleCollector.Let | include/lumiere/interpreter/runtime/ref.hpp:71-85 | letting go a reference keeps the invariant of the program and everything it can still reach |
| CycleCollection.CycleCollector.Exchange | include/lumiere/interpreter/runtime/ref.hpp:97-104 | references moving between an object and the stack keep the invariant, whether reported or not |
| CollectedRings.CollectRing | src/interpreter/runtime/cycles.cpp:301-386 | two objects that refer to each other are both alive after the last outside reference to them is dropped and gone after the next collection, which leaves nothing that was not there before |
| TrialDeletion.OneMoreIsCounted | src/interpreter/runtime/cycles.cpp:114-118 | no trial subtraction makes an unsigned count wrap |
| TrialDeletion.ScanIsExact | src/interpreter/runtime/cycles.cpp:148-172 | the objects kept are those reachable from one held from outside the closure, and the counts of the others consist of edges among them |
| TrialDeletion.GarbageIsUnreachable | src/interpreter/runtime/cycles.cpp:346-352 | such objects are out of reach of the stack and of every other object, reported edge or not |
| TrialDeletion.ScanIsComplete | src/interpreter/runtime/cycles.cpp:330-344 | with all references reported and everything covered by the stack and the suspects, what is kept is what the stack reaches |
| CollectionPhases.UnqueuedAll | src/interpreter/runtime/cycles.cpp:314-329 | no buffered object has a count of zero, so nothing is freed early |
| CollectionPhases.TrialOutcome | src/interpreter/runtime/cycles.cpp:330-344 | what trial deletion finds is isolated, and complete when all is reported |
| CollectionPhases.EndCollection | src/interpreter/runtime/cycles.cpp:371-386 | after the last deletion the heap satisfies the program's invariant |
| CountedObjects.ExitBuffer | src/interpreter/runtime/cycles.cpp:238-244 | moving the last entry into the vacated slot keeps slots and positions equal |
| CountedObjects.EnterBuffer | src/interpreter/runtime/cycles.cpp:257-265 | so does appending an object that is not buffered |
| HeapSnapshots.Snapshot.DropKeepsCover | include/lumiere/interpreter/runtime/ref.hpp:78-84 | dropping a reference can only strand what the object that lost it reaches: that object becomes the suspect |
| HeapSnapshots.Snapshot.LeafIsNoSuspect | include/lumiere/interpreter/runtime/ref.hpp:112-120 | an object that holds nothing need not be noted |
| HeapSnapshots.Snapshot.MovesKeepCover | src/interpreter/runtime/cycles.cpp:249-266 | storing and taking out references needs no new suspect |
| ThreadHeaps.LetKeepsReachable | src/interpreter/runtime/cycles.cpp:221-247 | the destructions a dropped reference sets off free nothing the program can still reach |
| AcceptedFunctions.AcceptedIsSafe | src/analysis/semantic_analysis.cpp:3582-3996 | an execution of an accepted function that lets a result leave its last scope unread has skipped an operand that reads an unread result, or left a scope by `arrêter` with one |
| PathLosses.LossIsExact | error_handling_proposal.md:560-572 | for every function, accepted or not, some execution loses a result exactly when some path does; the paths are followed in one pass |
| PathSoundness.NoPathNoRun | error_handling_proposal.md:612-624 | where no path loses a result, no execution does, however its loops, exits and branches go |
| PathSoundness.RoundsAreSafe | error_handling_proposal.md:612-624 | following a loop body once covers any number of rounds, however each is left |
| PathRuns.StatementPasses | error_handling_proposal.md:560-572 | what may be unread after a statement is unread after some execution of it |
| PathLosses.LosingRun | error_handling_proposal.md:560-572 | a path that loses a result is executed under some choices |
| ObligationGaps.AcceptedLosesExactly | src/analysis/semantic_analysis.cpp:1005-1132 | an accepted function has an execution that loses a result, by a skipped operand or `arrêter`, exactly when some path loses one |
| ObligationGaps.CoveredIsSafe | src/analysis/semantic_analysis.cpp:1005-1132 | without `arrêter` and with no read in an operand that may be skipped, an accepted function loses no result on any path or in any execution |
| ObligationGaps.BreakLosesResult | src/analysis/semantic_analysis.cpp:3910-3917 | a loop left by `arrêter` before a result is read is accepted and loses it |
| ObligationGaps.SkippedOperandLosesResult | src/analysis/semantic_analysis.cpp:1012-1021 | a result read only in the right operand of `et` or `ou` is accepted and lost |
| ObligationGaps.BreakLateIsSafe | src/analysis/semantic_analysis.cpp:3910-3917 | left by `arrêter` after the result is read, the loop is accepted and loses nothing |
| ObligationGaps.ReadLaterIsSafe | src/analysis/semantic_analysis.cpp:1012-1021 | with a read after the operand, the function is accepted and loses nothing |
| AcceptedFunctions.RoundsSound | src/analysis/semantic_analysis.cpp:3878-3893 | analysing a loop body once covers every number of rounds, left by any exit, up to a gap |
| AcceptedFunctions.StatementSound | src/analysis/semantic_analysis.cpp:3582-3996 | each statement keeps the simulation of executions by the analysis, up to a gap |
| AcceptedFunctions.BranchesSound | src/analysis/semantic_analysis.cpp:2962-3180 | the branch taken of an `agir selon` is simulated by the merge of all |
| RunSimulation.LeaveSound | src/analysis/semantic_analysis.cpp:238-267 | a scope left without a report owned no unread result of its own |
| ObligationLaws.StatementKeeps | src/analysis/semantic_analysis.cpp:3582-3996 | analysing a statement keeps the scopes around, earlier obligations and reports, and opens nothing it did not create |
| ObligationAnalyzers.ObligationAnalyzer.ResolveStatement | src/analysis/semantic_analysis.cpp:3582-3996 | the analyzer's state after a statement is that of the analysis |
| ObligationAnalyzers.ObligationAnalyzer.ResolveMatch | src/analysis/semantic_analysis.cpp:2962-3180 | branches start from the same obligations and are merged with the path of no branch when none is sure to be taken |
| ObligationAnalyzers.ObligationAnalyzer.ResolveLoop | src/analysis/semantic_analysis.cpp:3846-3893 | a loop merges its one pass with the path that skips it |
| ObligationAnalyzers.ObligationAnalyzer.ResolveFunction | src/analysis/semantic_analysis.cpp:1490-1559 | a function's parameters that are results start with obligations, and leaving it checks them |
| ObligationAnalyzers.ObligationAnalyzer.PopScope | src/analysis/semantic_analysis.cpp:238-267 | leaving a scope reports each obligation no outer scope owns, once, in whatever order the names come |
| RunSimulation.UseSound | src/analysis/semantic_analysis.cpp:1012-1021 | settling the obligation of the innermost variable of a name is right: the execution reads the result that variable holds |
| RunSimulation.SkipSound | src/analysis/semantic_analysis.cpp:1012-1021 | settling what a skipped operand reads is right when all of it has been read already |
| ObligationAnalyzers.ObligationAnalyzer.MergeObligationStates | src/analysis/semantic_analysis.cpp:1041-1054 | an obligation of the baseline is open after a merge when it is open on some path |
| ObligationAnalyzers.ObligationAnalyzer.DiagnoseActiveObligations | src/analysis/semantic_analysis.cpp:1056-1107 | an exit reports every open obligation once |
| ObligationAnalyzers.ObligationAnalyzer.DiagnoseNewLoopObligations | src/analysis/semantic_analysis.cpp:1109-1132 | `continuer` reports the obligations created since the loop began |
| JsonSoundness.DocumentIsExact | src/interpreter/stdlib/json.cpp:87-526 | the parser succeeds on exactly the texts of RFC 8259 that are in order, with the value they mean |
| JsonSoundness.DocumentBack | src/interpreter/stdlib/json.cpp:87-526 | an accepted text has a derivation in the grammar with the value returned as its meaning |
| JsonSoundness.ValueBack | src/interpreter/stdlib/json.cpp:403-435 | so has every value inside it |
| JsonSoundness.StringBack | src/interpreter/stdlib/json.cpp:225-312 | an accepted string consists of plain characters and escapes, surrogates paired |
| JsonSoundness.NumberBack | src/interpreter/stdlib/json.cpp:314-401 | an accepted number has the parts of the grammar and no leading zero |
| JsonSoundness.MembersBack | src/interpreter/stdlib/json.cpp:437-489 | the members of an accepted object have distinct keys and come back in order |
| JsonCompleteness.DocumentIsRead | src/interpreter/stdlib/json.cpp:87-526 | every text of the grammar in order is accepted |
| JsonCompleteness.StringIsRead | src/interpreter/stdlib/json.cpp:225-312 | every string of the grammar is read for what it means |
| JsonCompleteness.PairIsScalar | src/interpreter/stdlib/json.cpp:278-288 | a pair of surrogates is one scalar value beyond the basic plane |
| JsonCompleteness.NumberIsRead | src/interpreter/stdlib/json.cpp:314-401 | every number of the grammar is read for what it means |
| JsonParsing.UnicodeIsScalar | src/interpreter/stdlib/json.cpp:275-296 | what an escape `\u` gives is a scalar value |
| JsonParsers.JsonParser.ParseDocument | src/interpreter/stdlib/json.cpp:87-97 | the parser computes the specification and, whether it succeeds or fails, its line and column are those of its place |
| JsonParsers.JsonParser.AdvanceOne | src/interpreter/stdlib/json.cpp:133-156 | moving over a character keeps line and column those of the place |
| JsonParsers.JsonParser.ParseHex4 | src/interpreter/stdlib/json.cpp:194-223 | four digits of either case, or an error where the first wrong one stands |
| JsonParsers.JsonParser.ParseString | src/interpreter/stdlib/json.cpp:225-312 | strings, escapes, surrogate pairs and control characters as specified |
| JsonParsers.JsonParser.ParseNumber | src/interpreter/stdlib/json.cpp:314-401 | numbers, range of integers and finiteness as specified |
| JsonParsers.JsonParser.ParseMembers | src/interpreter/stdlib/json.cpp:450-488 | members up to the brace, a repeated key being an error |
| JsonParsers.JsonParser.ParseElements | src/interpreter/stdlib/json.cpp:503-525 | elements up to the bracket |
| JsonWriting.RoundTrip | src/interpreter/stdlib/json.cpp:616-726 | what is written for a value, compact or indented, is read back as the same value with its entries in order |
| JsonWriting.TreeIsWritten | src/interpreter/stdlib/json.cpp:616-726 | what is written is a text of the grammar that means the value |
| JsonWriting.EscapedIsRepaired | src/interpreter/stdlib/json.cpp:539-598 | an escaped text means the text with each byte out of place replaced by U+FFFD |
| JsonWriting.ValidIsRepaired | src/interpreter/stdlib/json.cpp:539-598 | in valid text nothing is replaced |
| JsonWriting.EscapedMeansItself | src/interpreter/stdlib/json.cpp:552-596 | the escape chosen for a character means the character |
| JsonWriting.IntTextIsExact | src/interpreter/stdlib/json.cpp:634-638 | the decimal text of an integer of either sign is read as the integer |
| JsonEncoding.EncodesExactly | src/interpreter/stdlib/json.cpp:616-726 | the encoder succeeds exactly when no walk from the value meets a cell again or a leaf or key without a form, and a failure names the cause of such a walk |
| JsonEncoding.EncodesTheUnfolding | src/interpreter/stdlib/json.cpp:616-726 | on a heap that unfolds to a finite tree, shared cells or not, it writes that tree |
| JsonEncoding.DoneIsWritten | src/interpreter/stdlib/json.cpp:616-726 | a success has an unfolding, and its text is what is written for it |
| JsonEncoding.FailureHasFault | src/interpreter/stdlib/json.cpp:656-725 | a failure has a walk to its cause |
| JsonEncoding.UnfoldsIsUnique | src/interpreter/stdlib/json.cpp:656-723 | a value unfolds in one way at most |
| JsonEncoding.EncodingIsReadBack | src/interpreter/stdlib/json.cpp:728-746 | what the encoder writes for a heap is parsed as its unfolding |
| JsonEncoders.JsonEncoder.EncodeValue | src/interpreter/stdlib/json.cpp:616-726 | appends the specified text, or fails with cause and path; the ancestors are as before, and it ends on every heap, cyclic or not |
| JsonEncoders.JsonEncoder.EncodeList | src/interpreter/stdlib/json.cpp:653-685 | the elements at one depth more, the cell being an ancestor meanwhile |
| JsonEncoders.JsonEncoder.EncodeDictionary | src/interpreter/stdlib/json.cpp:687-722 | the entries likewise; a key that is no text is an error there |
| JsonEncoders.JsonEncoder.WriteIndent | src/interpreter/stdlib/json.cpp:606-614 | a new line and the spaces of the depth, or nothing |
| JsonEncoders.EncodeDocument | src/interpreter/stdlib/json.cpp:728-746 | a whole value from an empty output, with no ancestors and the path `$`: its text, or the cause and the place of the failure |
| JsonEncoders.EscapeCharacter | src/interpreter/stdlib/json.cpp:552-596 | the escape of a character is one of the grammar |
| JsonEncoders.EscapeJsonString | src/interpreter/stdlib/json.cpp:539-598 | a text between quotes, escaped character by character and repaired |
| HashIndexes.SomeSlotIsEmpty | src/interpreter/runtime/value.cpp:121-126 | an index that is not crowded keeps an empty slot |
| HashIndexes.StopIsPosition | src/interpreter/runtime/value.cpp:81-95 | where probing stops decides as a scan from the front does |
| HashIndexes.FillNext | src/interpreter/runtime/value.cpp:114-119 | putting the next position where probing stops keeps every position once with no gap on its way |
| HashIndexes.ProbeIndex | src/interpreter/runtime/value.cpp:81-95 | probing ends, at the key or at an empty slot, all slots before holding other keys |
| HashIndexes.RebuildPositions | src/interpreter/runtime/value.cpp:97-120 | no index below eight entries, otherwise the smallest power of two from 16 that three quarters hold, filled |
| HashTables.PutThenLookup | src/interpreter/runtime/value.cpp:370-392 | what is set is found under every equal key, and nothing else changes |
| HashTables.PutIsFoundExactly | src/interpreter/runtime/value.cpp:347-392 | what is set is found again exactly when its key equals itself |
| HashTables.RemovedThenLookup | src/interpreter/runtime/value.cpp:394-408 | what is erased is not found, and nothing else changes |
| HashTables.Locate | src/interpreter/runtime/value.cpp:347-363 | the scan of a small table and the probing of a larger one find the same position |
| HashTables.IndexLast | src/interpreter/runtime/value.cpp:376-391 | the index after an insertion: none, made afresh, or one position more |
| HashTables.DictData.Set | src/interpreter/runtime/value.cpp:370-392 | a key keeps its place, a new one goes to the end, and the table stays indexed |
| HashTables.DictData.Find | src/interpreter/runtime/value.cpp:365-368 | the value a scan would find |
| HashTables.DictData.Erase | src/interpreter/runtime/value.cpp:394-408 | the entry goes, the others close up in order, and its value is returned |
| HashTables.DictData.ClearReferences | src/interpreter/runtime/value.cpp:755-759 | the table is empty and without index |
| HashTables.EnsembleData.Insert | src/interpreter/runtime/value.cpp:427-448 | an element is added unless an equal one is there |
| HashTables.EnsembleData.Contains | src/interpreter/runtime/value.cpp:410-425 | whether an equal element is there |
| HashTables.EnsembleData.Erase | src/interpreter/runtime/value.cpp:450-462 | the equal element goes, the others close up |
| HashTables.FieldTable.Emplace | src/interpreter/runtime/value.cpp:227-248 | a name that is there keeps its value |
| HashTables.FieldTable.InsertOrAssign | src/interpreter/runtime/value.cpp:255-263 | a name that is there is assigned, a new one appended |
| HashTables.FieldTable.Erase | src/interpreter/runtime/value.cpp:265-275 | one entry or none goes, and the rest is indexed again |
| Values.EqualsBack | src/interpreter/runtime/value.cpp:473-528 | equality of values is symmetric |
| Values.EqualsThrough | src/interpreter/runtime/value.cpp:473-528 | equality is transitive, the identity shortcut of fixed lists included |
| Values.EqualsItself | src/interpreter/runtime/value.cpp:473-528 | a value equals itself unless it is a non-number or a result that wraps one |
| Values.EqualValuesHashAlike | src/interpreter/runtime/value.cpp:277-335 | equal values hash alike: both zeros, nested fixed lists and results too |
| Values.RejectionIsExact | src/interpreter/runtime/value.cpp:464-471 | a value the test lets through is unequal to itself exactly when it is a result that wraps a non-number |
| Values.WrappedIsLost | src/interpreter/runtime/value.cpp:464-471 | a success that wraps a non-number is let through as a key of any dictionary and not found under it |
| Values.ValuesAreLawful | src/interpreter/runtime/value.cpp:277-335 | equality and hash of values are fit for the tables |
| Values.HashElements | src/interpreter/runtime/value.cpp:307-319 | the hash of a fixed list is the fold over its elements in order |
| Assignability.TransitiveExactly | src/analysis/semantic_analysis.cpp:2441-2567 | assignability over the classes of a table, qualified names included, is transitive exactly when no two names are a gap |
| Assignability.Transitive | src/analysis/semantic_analysis.cpp:2441-2567 | it is so through unions, results, numbers, classes, interfaces and errors, for the types whose class names have no gap |
| Assignability.ErrorsBelowExactly | src/analysis/semantic_analysis.cpp:714-761 | a class below an error class counts as an error exactly when the two names are no gap |
| Assignability.ClassesAreTransitive | src/analysis/semantic_analysis.cpp:2519-2565 | below anything but Erreur, classes are transitive whatever their names |
| Assignability.PlainHasNoGap | src/analysis/semantic_analysis.cpp:714-761 | two names without a dot are no gap |
| Assignability.QualifiedNamesAreNotTransitive | src/analysis/semantic_analysis.cpp:714-761 | an imported error class and a class of its unqualified name are a gap, on which transitivity fails |
| Assignability.UnionsWidenExactly | src/analysis/semantic_analysis.cpp:2469-2486 | a union is assignable to another exactly when the lists are equal or one alternative of the target takes all of the source |
| Assignability.UnionsDoNotWiden | src/analysis/semantic_analysis.cpp:2469-2486 | so a union of two built-in types is not assignable to the union of these and a third |
| Assignability.AncestorsGoOn | src/analysis/semantic_analysis.cpp:2519-2565 | an ancestor's ancestor is an ancestor, cyclic declarations included |
| Assignability.WalksTo | src/analysis/semantic_analysis.cpp:2519-2565 | the walk up the classes finds the target class, or the interface, exactly when an ancestor is or realizes it |
| Assignability.IsErrorType | src/analysis/semantic_analysis.cpp:714-761 | the walk decides whether a type is made of errors |
| Assignability.CollectErrorTypes | src/analysis/semantic_analysis.cpp:1257-1303 | the error classes are the least set that has the realizers of Erreur and the children of its members |
| MatchCoverage.AcceptedIsExhaustive | src/analysis/semantic_analysis.cpp:3142-3172 | when a match on a result is accepted, some branch or `sinon` takes every value of the matched type whose class has no gap to it, errors of subclasses and of imported modules included |
| MatchCoverage.ExhaustiveExactly | src/analysis/semantic_analysis.cpp:3142-3172 | every accepted match takes every value assignable to its type exactly when no two names of the table are a gap |
| MatchCoverage.ReportedIsIncomplete | src/analysis/semantic_analysis.cpp:3142-3172 | when it is reported and the error type names classes, some value is taken by none |
| MatchCoverage.CheckCoverage | src/analysis/semantic_analysis.cpp:2948-3172 | the loop over the branches reports exactly the incomplete matches and the patterns that add nothing |
| MatchCoverage.OpenDecides | src/analysis/semantic_analysis.cpp:3011-3030 | the list of open error patterns decides whether an earlier pattern takes what the next one does, though not every pattern enters it, for types without a gap |
| MatchCoverage.OpenDecidesExactly | src/analysis/semantic_analysis.cpp:3011-3030 | it decides so after all patterns and for every type exactly when no two names are a gap |
| RuntimeMatches.MatchIsAssignability | include/lumiere/interpreter/runtime/runtime_type.hpp:225-275 | when no name clashes, the walker's test of an object of a class declared here against a type decides assignability of its class |
| RuntimeMatches.MatchGoesUp | include/lumiere/interpreter/runtime/runtime_type.hpp:225-275 | what the walker matches against a type, it matches against every type that one is assignable to, for classes of every module |
| RuntimeMatches.AcceptedAlwaysMatches | src/interpreter/tree_walker/tree_walker_stmt.cpp:339-421 | when no name clashes, an accepted match on a result never ends in the run-time error that no branch matches |
| RuntimeMatches.AlwaysMatchesExactly | src/interpreter/tree_walker/tree_walker_stmt.cpp:339-421 | every accepted match takes every value at run time exactly when no name clashes |
| RuntimeMatches.ShadowedFailureEscapes | src/analysis/semantic_analysis.cpp:2519-2565 | with an error class X declared and M.X imported, a match whose branches are `Succès` and `Échec(e: X)` is accepted for failures of M.X and takes none |
| RuntimeMatches.CollectedErrorsRealize | src/analysis/semantic_analysis.cpp:1257-1303 | every class collected as an error realizes Erreur in the program, which is what the walker asks, when the imported ones do |
| TypeInterning.KeyIsExact | src/analysis/semantic_type.cpp:224-234 | two types with one key are the same: the length-prefixed key is injective |
| TypeInterning.SameTypeIsStructural | src/analysis/semantic_type.cpp:257-260 | equal references are equal structures |
| TypeInterning.StrictIsUnique | src/analysis/semantic_type.cpp:202-206 | a sorted list without repetition is determined by its members |
| TypeInterning.UnionsAreCanonical | src/analysis/semantic_type.cpp:178-212 | unions of the same alternatives, in whatever order, repeated or nested, are one reference when displays differ |
| TypeInterners.TypeInterner.Intern | src/analysis/semantic_type.cpp:219-250 | a type of that structure, an earlier one if there is one; every earlier reference stays what it was |
| TypeInterners.TypeInterner.UnionType | src/analysis/semantic_type.cpp:178-212 | a flat union of at least two sorted alternatives, or the only alternative; nothing for nothing |
| TypeInterners.TypeInterner.Generic | src/analysis/semantic_type.cpp:168-176 | a generic type of at least one argument |
| TypeInterners.TypeInterner.Builtin | src/analysis/semantic_type.cpp:143-147 | the built-in type of a name |
| TypeInterners.SortByDisplay | src/analysis/semantic_type.cpp:202-205 | the same alternatives, each as often, in the order of their displays |
| TypeInterners.Unique | src/analysis/semantic_type.cpp:206-206 | neighbours that are the same reference become one |
| TypeParsers.TypeParser.ParseUnionType | src/parser/parser.cpp:816-834 | the parser finds what the grammar of annotations says, and stands after it |
| TypeParsers.TypeParser.ParseGenericType | src/parser/parser.cpp:836-896 | names with dots, and arguments between brackets |
| TypeParsers.TypeParser.ParseArgumentList | src/parser/parser.cpp:861-891 | at least one argument, no comma before the bracket |
| TypeRoundTrip.PrintedIsParsed | include/lumiere/parser/type_expr.hpp:75-114 | the tokens of a printed annotation are parsed as the annotation |
| TypeRoundTrip.ParsedIsPrintedAndParsed | src/parser/parser.cpp:811-896 | whatever the parser returns, printed and parsed again, is the same |
| TypeGrammar.AnnotationIsExact | src/parser/parser.cpp:811-896 | on lexed tokens the parser returns an annotation, and a place, exactly when the tokens up to there write the annotation, integers in any spelling, and the next token can continue it no further |
| TypeRoundTrip.UnionIsMade | src/parser/parser.cpp:816-834 | a parsed union has at least two alternatives and none is a union |
| TypeRoundTrip.GenericIsMade | src/parser/parser.cpp:836-896 | a parsed generic type has arguments, and names are identifiers between dots |
| IntegerArguments.ArgumentIsWritten | src/parser/parser.cpp:864-876 | an integer argument is the number its literal writes exactly when no digit follows the first separator or every digit is zero |
| IntegerArguments.ThousandIsOne | src/parser/parser.cpp:864-876 | `T[1_000]` is parsed with the argument 1 |
| CollectionConstraints.FindCollectionTypeUnion | include/lumiere/interpreter/runtime/collection_constraints.hpp:8-18 | the first bar outside brackets, if there is one |
| CollectionConstraints.UnionIsFound | include/lumiere/interpreter/runtime/collection_constraints.hpp:8-18 | in a printed annotation there is one exactly for a union, after its first alternative |
| ImportWalks.WalkImports | src/analysis/analysis.cpp:110-242 | every reachable module that parses is analysed, once; a cycle is reported exactly when one is reachable, and is real; without one, a module comes after its imports |
| ImportWalks.ImportWalker.BuildImportEnvironment | src/analysis/analysis.cpp:110-242 | the walk ends, keeps the modules in progress and the stack one, and deals with every import |
| ImportWalks.ImportWalker.LookAt | src/analysis/analysis.cpp:124-240 | one import: of the runtime, cached, in progress, unreadable or new |
| ImportWalks.ImportWalker.ReportCycle | src/analysis/analysis.cpp:156-188 | the cycle reported is the part of the stack from the module met again |
| ImportWalks.ImportWalker.AnalyseModule | src/analysis/analysis.cpp:190-240 | a module is cached after all it imports |
| ImportWalks.WalkIsComplete | src/analysis/analysis.cpp:110-242 | the state at the end decides reachability and cycles |
| ImportWalks.PathIsAnalysed | src/analysis/analysis.cpp:210-239 | a module at the end of a path of imports is analysed |
| ImportWalks.OrderedHasNoRing | src/analysis/analysis.cpp:156-188 | modules analysed after their imports form no ring |
| ImportWalks.RealIsRing | src/analysis/analysis.cpp:158-175 | the modules of a reported cycle import each other in turn |
| Utf8.DecodeIsExact | src/parser/utf8.cpp:18-87 | decoding succeeds on every sequence of section 4 of RFC 3629, with its value and width |
| Utf8.ChecksAreExact | src/parser/utf8.cpp:74-86 | the checks after the loop leave exactly those sequences: no overlong form, no surrogate, nothing too large |
| Utf8.DecodeOne | src/parser/utf8.cpp:18-87 | the decoder decides exactly the grammar at an offset |
| Utf8.EncodedIsChar | src/parser/utf8.cpp:150-180 | an encoded scalar value is a sequence of the grammar and decodes to itself |
| Utf8.CharIsEncoded | src/parser/utf8.cpp:18-87 | a sequence of the grammar is the encoding of what it decodes to |
| Utf8.EncodeCharacter | src/parser/utf8.cpp:150-180 | the bytes pushed are the encoding |
| Utf8.EncodedTextDecodes | src/parser/utf8.cpp:128-148 | encoded characters decode to themselves |
| Utf8.DecodedTextEncodes | src/parser/utf8.cpp:128-148 | a text that decodes is the encoding of its characters |
| Utf8.AtIsIndex | src/parser/utf8.cpp:102-126 | the character at an index of an encoded text is the element there |
| Utf8.CharacterAt | src/parser/utf8.cpp:102-126 | the loop finds that character, or stops at a byte out of place |
| Utf8.CharacterCount | src/parser/utf8.cpp:128-148 | the number of characters of valid text, nothing otherwise |
| Utf8.DecodeSingleCharacter | src/parser/utf8.cpp:89-100 | one character that takes up the whole text |
| Utf8.ByteOrderIsScalarOrder | src/interpreter/stdlib/collections.cpp:212-215 | texts compare byte by byte as their characters do |
| Lexers.Tokenise | src/lexer/lexer.cpp:13-48 | tokens are ordered, disjoint and non-empty, ended by FIN_FICHIER at the end, with only white space and comments between them; each has its line and column exactly when no escape in error before it took a newline |
| Lexers.NoErrorIsPositioned | src/lexer/lexer.cpp:13-48 | when no token is in error, each has its line and column |
| Lexers.MissedNewline | src/lexer/tokenizer.cpp:303-307 | a text in which the tokens after an error are misplaced |
| Lexing.SlippingIsWrong | src/lexer/tokenizer.cpp:368-445 | only a token in error takes a newline uncounted |
| Lexing.PiecesAreSpans | src/lexer/lexer.cpp:18-47 | the tokens cover the text but for what may be skipped |
| Lexing.SkippedIsBlank | src/lexer/tokenizer.cpp:124-186 | what is skipped consists of white space and comments that are no documentation |
| Lexers.SkipWhitespaceAndComments | src/lexer/tokenizer.cpp:124-186 | skipping stops where the next token starts, newlines counted |
| Lexers.ScanToken | src/lexer/tokenizer.cpp:188-264 | the token at the cursor, its span, its kind and what it decodes to |
| Lexers.ScanText | src/lexer/tokenizer.cpp:368-401 | a text up to its quote, escapes decoded, or the error where it is met |
| Lexers.ScanSymbol | src/lexer/tokenizer.cpp:402-445 | a symbol of one character |
| Lexers.DecodeEscapeSequence | src/lexer/tokenizer.cpp:268-308 | what an escape stands for; a newline after the backslash is consumed uncounted |
| Lexers.DecodeUnicodeEscape | src/lexer/tokenizer.cpp:310-366 | one to six hexadecimal digits between braces that name a scalar value |
| Lexers.ScanNumber | src/lexer/tokenizer.cpp:446-520 | digits with separators, a fraction and an exponent only when digits follow |
| Lexers.ConsumeExponent | src/lexer/tokenizer.cpp:472-492 | an exponent without digits is given back |
| Lexers.ScanWord | src/lexer/tokenizer.cpp:521-597 | keywords of one and of two words, and identifiers |
| Lexers.ScanSecondWord | src/lexer/tokenizer.cpp:530-595 | the second word of a keyword, or the cursor back before the blanks |
| Lexers.ScanDocumentation | src/lexer/tokenizer.cpp:88-123 | a documentation comment to its closing mark |

## Left out

- CycleCollection.CycleCollector.Retain: a count is a natural number; overflow of its 32 bits is not modelled.
- CycleCollection.CycleCollector.Exchange: the program holds the object it writes to, as a running method does; clearing an object drops its reported and its unreported references together.
- CycleCollection.CycleCollector.Collect: one thread's collector; thread teardown and the threshold that starts a collection are not part of this model.
- ObligationAnalyzers.ObligationAnalyzer.ResolveStatement: reassignment of a variable that holds a result (LUM-S0030), closures and nested declarations are not modelled, here and in the executions and paths; the iterations over unordered maps are loops in arbitrary order; a loop variable and the body share one scope.
- RuntimeMatches.AcceptedAlwaysMatches: over error types that are classes, interfaces and unions of them; the identity of a class is the name this module has for it, so that two imports of one class count as two; payloads of other types are not modelled.
- MatchCoverage.ReportedIsIncomplete: an interface among the alternatives may have no class that realizes it, and a report about it can be in vain.
- ObligationAnalyzers.ObligationAnalyzer.ResolveFunction: default values of parameters and closures are not modelled.
- JsonWriting.RoundTrip: without Décimal, whose printer is not part of this model; a number with a fraction is kept as its token, and whether it is finite is a parameter.
- HashTables.FieldTable.Emplace: the hash of a name is a parameter.
- Values.EqualValuesHashAlike: doubles are non-numbers, two zeros and others; the hashes of the standard library are parameters that respect equality.
- Lexers.Tokenise: whether the digits of a literal fit is a parameter; the wording of errors and the normalised text of documentation comments are not modelled.
- Lexers.ScanDocumentation: the span and the kind of the token, not its normalised text.
- TypeRoundTrip.PrintedIsParsed: without the source tokens an expression carries; the literal parser accepts every numeral up to the largest integer.
- ImportWalks.WalkImports: the file system is a finite map from files to whether they parse and what they import; what a module exports is not modelled.
- ImportWalks.ImportWalker.AnalyseModule: what the module exports to its importers is not modelled.
- TypeInterners.TypeInterner.Intern: adopting types of another interner and the one-line constructors of classes and interfaces.
- Merging of collection constraints, the numeric branch of sorting, hover and inspection, native signatures, message wording: easy members or formatting.
- The virtual machine, files, sockets and the command line.
