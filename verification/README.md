# Verified model of a Python interpreter's core

The repository is a Python 3.10 interpreter in C++. This project models the parts of it that carry the most state and
the most delicate reasoning, and proves what they promise.

* **Parser.** The template combinators of `Parser.cpp` are a small interpreter for parsing expression grammars with a
  mutable cache and seed growing for left-recursive rules. `Grammar` has grammars as data, `Reference` the meaning of a
  grammar without any cache, `Engine` the memoising engine as a class that updates its cache and its position. The
  engine gives the reference's answer for every grammar and every token stream, and every entry it leaves in its cache
  is right. `Derivations` gives the same meaning a second time, as inference rules: what can be derived is exactly what
  the reference computes. `Combinators` says what each combinator answers on single tokens. `Repetition` and `LeftRecursion` say where repetitions, separated lists and growing stop; `Operators` and
  `Printing` instantiate the engine with the operator rules from `bitwise_or` down to `atom` (sections 6.5 to 6.9 of
  The Python Language Reference 3.10): printing with the parentheses that precedence needs and parsing again is the
  identity. `Readings` fixes the operators by name and by how they bind, on literal token kinds.
* **Lexer.** `Lexers.Lexer` is the cursor machine with its indent stack, its stack of modes for f-strings and its token
  queue. `Lexemes` says what stands in the text at an offset, `Quoting` where string literals end, `Stream` what a token
  stream tells about the text: the row, the brackets and f-strings that are open, and the indentations. `Steps` says,
  from the text and the tokens pushed before alone, which tokens a step pushes or that it fails; every step of the
  machine does just that. It also keeps: tokens and gaps of blanks make up the text read so far, the indent stack is 0
  and the widths of the INDENT tokens that are open, each line outside brackets begins at the innermost of them, and
  brackets, modes, quotes and bracket levels are what the tokens leave open. `Lines` runs the machine on small programs
  and `Spelling` fixes operators, prefixes and the parts of f-strings by their characters. `Pipeline` joins lexer and parser: only DEDENTs can share a cache key.
* **Memory.** `Slabs` has the slab heap down to slots and bitmaps, `Marking` the tri-colour marking, `Heaps` the
  collector and the allocator on top of them, and `Runs` every sequence of allocations, stores, weak references, pause
  scopes and collections. `Mutators` drives the real heap with programs that hold objects in a list of their own.
* **Arenas.** `Arenas` is the bump allocator with save points and destructors, `Regions` the nesting of scopes, regions
  and resets.
* **Smaller cores.** `Mangling` the names of compiled functions and classes; `Sieves`, `Tries` and `Search` the sieve
  and the prefix search of `test.py`.

## Where the code does less than one might expect

Each of these is a property that fails, with the exact condition under which it holds and inputs for which it does not.

* A string scanner never takes the branch that restores the cursor: it finds the first unescaped closing delimiter, or
  there is none and it runs off the text (`Lexers.Lexer.QuotedString`, `Lexers.Lexer.TripleQuotedString`).
* A literal in single quotes runs over plain line ends. Its rows are counted rightly exactly if it has none
  (`Quoting.SingleRows`); `Quoting.MiscountedRow` is one with a wrong count.
* A dedent fails exactly if it returns to a level that is not open (`Lexers.Lexer.TryReadIndent`), as in every program
  of `Lines.InconsistentDedent`.
* A sweep cleans the keys of the weak reference table but not its values. None dangles exactly if every weak reference
  under a static or reachable object can be reached itself (`Runs.WeakrefsMayDangle`); `Runs.DanglingWeakref` is a run
  from the empty heap after which one does.
* `Heap::reset` does not clean that table. The heap is sound afterwards exactly if every key is static or is cleaned by
  a collection that is due (`Runs.ResetKeepsWeakrefs`); `Runs.UnsoundReset` is a run from the empty heap where it is not.
* A save point restores the saved state exactly if the saved blocks and destructors are still there
  (`Arenas.RestoreIsRight`). After a reset they need not be, and then live objects can overlap
  (`Arenas.StaleRestoreOverlaps`).
* Demangling gives back a name exactly if it has no dot (`Mangling.FunctionRoundTrip`, `Mangling.ClassRoundTrip`), and
  two mangled names agree exactly if module, dot and name run together alike (`Mangling.MangledEqual`);
  `Mangling.DottedNamesClash` has two functions with one mangled name.
* A rule whose body matches fails exactly if it is cached, consulted its own entry and matched nothing
  (`LeftRecursion.EmptySeedFails`), as in the grammar of `LeftRecursion.OptionalSelfFails`. At the end of the stream
  every rule fails, even one that could match nothing (`LeftRecursion.NothingAtEnd`).

## Model

| member | source | states |
|---|---|---|
| `Engine.Parser.Parse` | src/parser/Parser.cpp:226-295 | for every well-formed grammar, stream, start and sound cache, the memoised parse returns the success, value and end of the cache-free reference, keeps every settled entry in agreement with it, and on failure leaves the position |
| `Engine.Parser.Elem` | src/parser/Parser.cpp:211-269 | one element of a sequence answers as the reference does, wherever the enclosing rules are in their evaluation |
| `Engine.Parser.CallElem` | src/parser/Parser.cpp:226-269 | a call is answered by the cache or evaluated and recorded, with the same result either way |
| `Engine.Parser.Hit` | src/parser/Parser.cpp:236-252 | an entry that is a result, a failure or the mark of a rule under evaluation gives the reference's answer, and meeting a mark is noted |
| `Engine.Parser.Miss` | src/parser/Parser.cpp:255-268 | what is recorded agrees with the reference at every position that has the key |
| `Engine.Parser.Rule` | src/parser/Parser.cpp:142-172 | a rule returns its reference result, grown if its mark was met, and gives back the position on failure |
| `Engine.Parser.First` | src/parser/Parser.cpp:142-160 | after the first try the mark says exactly whether the reference touches the rule's own entry |
| `Engine.Parser.Grow` | src/parser/Parser.cpp:121-140 | growing terminates with the reference's grown result and leaves only sound entries |
| `Engine.Parser.Body` | src/parser/Parser.cpp:3242-3325 | the alternatives of a rule are tried in order; the first that matches gives the result |
| `Engine.Parser.Seq` | src/parser/Parser.cpp:272-295 | a sequence succeeds as the reference does, and restores the position if it fails |
| `Engine.Parser.Matches` | src/parser/Parser.cpp:681-835 | every combinator gives the reference's answer and moves the position only on success |
| `Engine.Parser.LookAhead` | src/parser/Parser.cpp:784-819 | a lookahead gives the reference's answer, which `Combinators.LookaheadAnswers` fixes, and never moves the position, whatever it finds |
| `Engine.Parser.Choice` | src/parser/Parser.cpp:625-669 | ordered choice answers with the first operand that matches |
| `Engine.Parser.Repeat` | src/parser/Parser.cpp:330-364 | a repetition collects the reference's longest run and ends where its last round ended |
| `Engine.Parser.NextItem` | src/parser/Parser.cpp:385-405 | a separator without an item behind it is given back |
| `Engine.Parser.Separated` | src/parser/Parser.cpp:374-410 | a separated list has the reference's items and ends right behind the last |
| `Engine.Settle` | src/parser/Parser.cpp:66-73 | a result right at one position of its key is right at all positions with that key |
| `Engine.Meet` | src/parser/Parser.cpp:236-252 | a rule under evaluation that is met again is the innermost one at its own start, or the keys collide harmlessly |
| `Derivations.DerivableIsComputed` | src/parser/Parser.cpp:121-295 | for every piece of a well-formed grammar at every place, a derivation by the inference rules of the grammar's operators, of left recursion among them, exists exactly for what the reference answers |
| `Derivations.Sound` | src/parser/Parser.cpp:121-295 | whatever is derived is what the reference answers, so no two answers can be derived |
| `Combinators.LookaheadAnswers` | src/parser/Parser.cpp:784-819 | `&x` succeeds exactly if `x` does and `!x` exactly if it does not, and both end where they began |
| `Combinators.NotNotIsAnd` | src/parser/Parser.cpp:784-819 | `!!x` answers as `&x` |
| `Combinators.LookaheadAtToken` | src/parser/Parser.cpp:784-819 | a lookahead at one token goes by the kind of the next token alone |
| `Combinators.UnlessFollowed` | src/parser/Parser.cpp:2665-2667 | a token with a negative lookahead behind it matches exactly if it stands there and the other kind does not follow |
| `Combinators.ChoiceIsFirst` | src/parser/Parser.cpp:625-669 | a choice answers as its first operand that matches and fails exactly if none does |
| `Combinators.SequenceAtTokens` | src/parser/Parser.cpp:272-295 | a sequence of tokens matches exactly if they stand there, with its leaves in their order |
| `Combinators.RepetitionAtTokens` | src/parser/Parser.cpp:330-497 | `*` and `+` collect the whole run of a token kind in its order; `+` fails exactly on an empty run |
| `Combinators.OptionAtToken` | src/parser/Parser.cpp:462-497 | an optional token is taken exactly if it stands there |
| `Combinators.SeparatedAtTokens` | src/parser/Parser.cpp:374-410 | a separated list of tokens has the items in their order, without the separators, and ends behind the last |
| `Repetition.ManyIsLongest` | src/parser/Parser.cpp:427-459 | a repetition stops only where one more round would fail |
| `Repetition.SeparatedEndsAtItem` | src/parser/Parser.cpp:374-410 | a separated list ends right behind an item, and no separator with an item follows: a trailing separator stays |
| `Repetition.GrownIsStable` | src/parser/Parser.cpp:121-140 | a grown result is a fixed point: using it as seed once more gets no further |
| `LeftRecursion.GrowingIsLooping` | src/parser/Parser.cpp:121-172 | for `E := E op T \| ... \| T` seed growing returns the left-nested fold of the longest `T (op T)*`, as a simple loop does |
| `LeftRecursion.EmptySeedFails` | src/parser/Parser.cpp:142-172 | a rule fails although its body matches exactly if it is cached, its entry was consulted and the match is empty; never if it cannot match the empty sequence |
| `LeftRecursion.OptionalSelfFails` | src/parser/Parser.cpp:121-140 | the grammar `E := E?` fails on every token although its body matches |
| `LeftRecursion.NothingAtEnd` | src/parser/Parser.cpp:226-231 | at the end of the stream every rule fails |
| `Operators.TowerWf` | src/parser/Parser.cpp:3102-3548 | the operator grammar meets every side condition of the engine |
| `Operators.GrammarIsDescent` | src/parser/Parser.cpp:3146-3548 | each level of the operator grammar reads what a hand-written recursive descent with loops reads, with the same tree and end |
| `Operators.LevelIsDescent` | src/parser/Parser.cpp:3242-3548 | the six left-associative levels are loops over the next tighter level; which token is which operator of which level, `Readings` fixes |
| `Operators.FactorIsDescent` | src/parser/Parser.cpp:3181-3235 | unary operators nest to the right and bind tighter than the binary levels |
| `Operators.PowerIsDescent` | src/parser/Parser.cpp:3146-3179 | `**` takes an atom on its left and a factor on its right |
| `Operators.AtomIsDescent` | src/parser/Parser.cpp:2529-2600 | atoms are names that are not reserved, numbers and groups |
| `Readings.BitwiseByName` | src/parser/Parser.cpp:3438-3547 | for all atoms, VBAR, CIRCUMFLEX and AMPER between two of them are read by the operator grammar as bitwise or, exclusive or, and |
| `Readings.ShiftsByName` | src/parser/Parser.cpp:3387-3436 | LEFTSHIFT and RIGHTSHIFT are the left and the right shift |
| `Readings.SumsByName` | src/parser/Parser.cpp:3332-3385 | PLUS adds and MINUS subtracts |
| `Readings.TermsByName` | src/parser/Parser.cpp:3242-3330 | STAR, SLASH, DOUBLESLASH, PERCENT and AT multiply, divide, divide to the floor, take the remainder, multiply matrices |
| `Readings.PowerByName` | src/parser/Parser.cpp:3146-3179 | DOUBLESTAR is the power |
| `Readings.SignsByName` | src/parser/Parser.cpp:3181-3235 | PLUS, MINUS and TILDE before an atom are the unary operators of their names |
| `Readings.TighterOnTheRight` | src/parser/Parser.cpp:3146-3548 | of two operators of adjacent levels the tighter takes the atom between them when it comes second, for each of the pairs |
| `Readings.TighterOnTheLeft` | src/parser/Parser.cpp:3146-3548 | and when it comes first |
| `Readings.SameLevelFromLeft` | src/parser/Parser.cpp:3242-3548 | operators of one level group from the left |
| `Readings.PowersFromRight` | src/parser/Parser.cpp:3146-3179 | powers group from the right |
| `Readings.XorOverAnd` | src/parser/Parser.cpp:3438-3512 | `a ^ b & c` is the exclusive or of `a` with the and of `b` and `c` |
| `Readings.LeftSentences` | src/parser/Parser.cpp:3242-3385 | `a - b - c` and `a // b % c` group from the left |
| `Readings.SignOfPower` | src/parser/Parser.cpp:3146-3235 | a sign before `a ** b` is applied to the power |
| `Readings.SignOfOperand` | src/parser/Parser.cpp:3181-3548 | before any other operator it is applied to the first operand |
| `Readings.SignOnTheRight` | src/parser/Parser.cpp:3146-3548 | the right operand of any operator may have a sign |
| `Readings.ParensFirst` | src/parser/Parser.cpp:2213-2233 | parentheses make the looser operator apply first |
| `Printing.ParsingInvertsPrinting` | src/parser/Parser.cpp:2213-2233 | for every expression tree, printing with precedence-driven parentheses and parsing gives back the same tree and consumes exactly the printed tokens |
| `Printing.PrintingIsInjective` | src/parser/Parser.cpp:3146-3548 | no two expression trees print alike |
| `Printing.ReadsWritten` | src/parser/Parser.cpp:3146-3548 | the same for every level and every place in a longer stream |
| `Printing.ParsePrinted` | src/parser/Parser.cpp:283-294 | the memoising engine, run on the printed tokens from an empty cache, returns the printed tree |
| `Pipeline.ClashIsDedent` | src/parser/Parser.cpp:66-73 | in what the lexer hands on, two tokens share offset and type only if they are DEDENTs |
| `Pipeline.LexedIsBenign` | src/parser/Parser.cpp:66-73 | so the cache may be trusted on the tokens that the lexer serves, of every program, if no cached rule begins at a DEDENT |
| `Quoting.ScanFindsFirst` | src/lexer/Lexer.cpp:446-491 | scanning from left to right finds the first closing delimiter with an even number of backslashes before it, and fails only if there is none |
| `Quoting.TripleRows` | src/lexer/Lexer.cpp:542-676 | in a triple-quoted literal the row advances once per line end, escaped or not |
| `Quoting.SingleRows` | src/lexer/Lexer.cpp:446-540 | in a single-quoted literal it advances only at escaped line ends, so it is right exactly if there are no others |
| `Quoting.MiscountedRow` | src/lexer/Lexer.cpp:446-491 | a literal over a plain line end for which no row is counted |
| `Lexers.Lexer.QuotedString` | src/lexer/Lexer.cpp:446-540 | succeeds exactly if an unescaped closing quote exists and then stands right behind the first, across any number of escaped line ends; the restoring branch is dead |
| `Lexers.Lexer.TripleQuotedString` | src/lexer/Lexer.cpp:542-676 | the same for three quotes, with single quotes inside |
| `Lexers.Lexer.TryReadString` | src/lexer/Lexer.cpp:678-787 | a literal is one STRING token up to its end; an f-string enters its mode with FSTRING_START only if the whole literal is closed |
| `Lexers.Lexer.TryFString` | src/lexer/Lexer.cpp:789-849 | the text of a part ends at the first quote or single brace, skipping doubled braces and escapes; it and the token behind it are pushed and the mode is switched as that token tells; it fails exactly if there is no such end before a line end begins a step |
| `Lexers.Lexer.Track` | src/lexer/Lexer.cpp:852-896 | the mode assertions hold and every `top()` is safe in an expression of an f-string; an unmatched closing bracket is the only failure, and otherwise brackets and modes are those behind the character |
| `Lexers.Lexer.TryReadIndent` | src/lexer/Lexer.cpp:193-214 | on the first place of a line outside brackets: wider blanks than the innermost level give one INDENT, narrower ones a DEDENT for each level down to theirs, equal ones nothing; it fails exactly on a dedent to a level that is not open |
| `Lexers.Lexer.Dedent` | src/lexer/Lexer.cpp:205-211 | closes levels down to the wanted one if and only if it is on the stack |
| `Lines.InconsistentDedent` | src/lexer/Lexer.cpp:205-211 | every program that goes from wide to narrower blanks, but not to none, fails at the fourth step of the lexer |
| `Lexers.Lexer.ComputeIndentLevel` | src/lexer/Lexer.cpp:216-229 | the width of the leading blanks, a tab counting 8 |
| `Lexers.Lexer.TryEmptyLine` | src/lexer/Lexer.cpp:169-191 | a blank line becomes NL; otherwise cursor and position are as before |
| `Lexers.Lexer.TryReadComment` | src/lexer/Lexer.cpp:118-167 | a comment up to its line end is a token, and so is the line end: NL if the comment stands alone or brackets are open, otherwise NEWLINE |
| `Lexers.Lexer.TryReadBackslash` | src/lexer/Lexer.cpp:982-1004 | skips blanks and at most one escaped line end; it fails exactly if a backslash stands before anything else |
| `Lexers.Lexer.TryReadName` | src/lexer/Lexer.cpp:1013-1031 | a whole maximal name is a token, or none starts here and nothing changes |
| `Lexers.Lexer.TryReadOperation` | src/lexer/Lexer.cpp:919-980 | the longest operator at the cursor is a token; if there is none nothing changes |
| `Lexers.Lexer.Word` | src/lexer/Lexer.cpp:64-67 | one token from the cursor on: a string if a prefix and quote stand there, otherwise a name, otherwise the longest operator, otherwise a number |
| `Lexers.Lexer.EndOfInput` | src/lexer/Lexer.cpp:45-55 | all levels are closed, one DEDENT each, before the end marker |
| `Lexers.Lexer.Step` | src/lexer/Lexer.cpp:42-73 | which tokens a step pushes, or that it fails, goes by the text at the cursor and the tokens pushed before alone, as `Steps.StepGives` has it: NL, COMMENT, INDENT, DEDENT, NEWLINE, string, name, operator, number, part of an f-string or end; a successful step decreases (remaining text, open levels) lexicographically and keeps all invariants |
| `Lexers.Lexer.Line` | src/lexer/Lexer.cpp:57-61 | blank rows, comments, indentation and line ends in this order: at a line outside brackets, neither blank nor a comment, INDENT, DEDENTs or failure by the width of its blanks; with none of these a word may begin here |
| `Lexers.Lexer.Part` | src/lexer/Lexer.cpp:789-849 | a step in the text of an f-string pushes that text and the brace or quote that ends it |
| `Steps.BracketsJoinLines` | src/lexer/Lexer.cpp:97-108 | no step inside brackets gives NEWLINE, INDENT or DEDENT |
| `Steps.NewlineEndsText` | src/lexer/Lexer.cpp:97-191 | NEWLINE comes only outside brackets and never from a blank row or a comment alone on its row |
| `Lines.BlankRow` | src/lexer/Lexer.cpp:169-191 | a row of blanks is one NL token wherever it stands, whatever the indentation |
| `Lines.CommentRow` | src/lexer/Lexer.cpp:118-167 | a row with a comment is COMMENT up to its line end, and NL if it stands alone or in brackets, otherwise NEWLINE |
| `Lines.LineEnd` | src/lexer/Lexer.cpp:97-108 | a line end behind other tokens is NEWLINE outside brackets and NL inside |
| `Lines.StrayBackslash` | src/lexer/Lexer.cpp:982-1004 | a backslash before anything but a line end fails |
| `Lines.EscapedLineEnd` | src/lexer/Lexer.cpp:982-1011 | behind an escaped line end the blanks do not count: the next token is the name there |
| `Lines.TabsCountEight` | src/lexer/Lexer.cpp:216-229 | an indentation is as wide as its characters and seven more for each tab |
| `Lines.LexIndented` | src/lexer/Lexer.cpp:42-95 | a program of one indented name is INDENT, NAME, NEWLINE, DEDENT, ENDMARKER, for any number of blanks |
| `Spelling.OperatorIsSpelled` | src/lexer/Lexer.cpp:852-958 | what is read as an operator is spelled as its token type says |
| `Spelling.LongestSpelling` | src/lexer/Lexer.cpp:960-980 | an operator whose spelling stands there is read, unless a longer one stands there too |
| `Spelling.PrefixesAreAll` | src/lexer/Lexer.cpp:678-710 | the string prefixes are `r`, `u`, `b`, `f`, and `r` with `b` or `f` in either order, in capital or small letters |
| `Spelling.TextUpTo` | src/lexer/Lexer.cpp:789-849 | the text of an f-string over ordinary characters ends at the first single brace or the quote, with the token of that character; a line end is an error |
| `Spelling.OverPair` | src/lexer/Lexer.cpp:789-849 | doubled braces and escapes belong to the text |
| `Lexers.WantedCounts` | src/lexer/Lexer.cpp:80-89 | all ignored tokens are left out, and no others |
| `Lexers.Lexer.ReadMoreTokens` | src/lexer/Lexer.cpp:75-95 | terminates; on success the queue has grown, and it is the old queue and all new tokens without the ignored ones |
| `Lexers.Lexer.PeekToken` | src/lexer/Lexer.hpp:243-251 | terminates with the token at that place of the queue, which always is all that was pushed but for what is ignored; there is none only when the lexer has finished or knows nothing that begins at the cursor |
| `Lexers.WorkingStream` | src/lexer/Lexer.cpp:193-229 | at any time the indent stack strictly increases from 0 and is 0 and the widths of the open INDENT tokens, INDENT less DEDENT tokens is its size less one, the first word of each line outside brackets stands at the innermost level open before it, the mode stack alternates with one quote and level per f-string, and brackets, modes, quotes and levels are what the tokens leave open |
| `Lexers.FinishedStream` | src/lexer/Lexer.cpp:42-55 | a finished stream accounts for the whole program and is balanced, and each of its lines outside brackets begins at the innermost level open before it |
| `Stream.StartsAscend` | src/lexer/Lexer.cpp:36-40 | token offsets never go back |
| `Stream.OpenIsDifference` | src/lexer/Lexer.cpp:193-214 | the open INDENT tokens are as many as INDENT less DEDENT tokens |
| `Stream.PrefixesAreOpen` | src/lexer/Lexer.cpp:193-214 | no DEDENT comes before the INDENT it closes |
| `Stream.OnlyDedentsClash` | src/lexer/Lexer.cpp:205-211 | two tokens of one kind at one offset are DEDENTs |
| `Stream.ModesPop` | src/lexer/Lexer.cpp:874-896 | below an f-string there is an expression mode, and below an inner expression its f-string |
| `Stream.BracketsAreCounted` | src/lexer/Lexer.cpp:852-896 | without f-strings, as many brackets are open as there are more opening than closing ones, and never fewer than none |
| `Stream.FStringsAreCounted` | src/lexer/Lexer.cpp:734-751 | as many f-strings are open as FSTRING_START exceeds FSTRING_END |
| `Slabs.HasIsOccupied` | src/memory/Heap.cpp:38-51 | an address belongs to a chunk exactly if it is the base of an occupied slot |
| `Slabs.InitialLayout` | src/memory/Heap.cpp:53-75 | fresh blocks of at least 64 cells are laid out without overlap, and nothing is occupied |
| `Slabs.Grown` | src/memory/Heap.cpp:92-108 | growing is by 1.618 rounded to the nearest: at most 500 thousandths off, and always more than before |
| `Slabs.Slab.HasAddress` | src/memory/Heap.cpp:141-161 | holds exactly for the bases of occupied cells |
| `Slabs.NextFree` | src/memory/Heap.hpp:25-72 | the first clear bit, or none exactly if all are set |
| `Slabs.Slab.FirstFree` | src/memory/Heap.cpp:82-91 | the first free slot of the first chunk that has one |
| `Slabs.Slab.Allocate` | src/memory/Heap.cpp:82-117 | hands out an address that was not occupied, occupies just that one, grows only a full block, and never reaches the abort |
| `Slabs.Slab.Grow` | src/memory/Heap.cpp:92-108 | adds at least one chunk, disjoint from all others and inside its memory, and occupies nothing |
| `Slabs.Slab.Free` | src/memory/Heap.hpp:102-120 | frees exactly the given cell, and its assertions hold |
| `Slabs.Slab.Reset` | src/memory/Heap.cpp:23-36 | every bitmap is cleared, so nothing is occupied, and the memory is as it was |
| `Marking.Marker.AddRoot` | src/memory/GarbageCollector.cpp:40-57 | the tri-colour invariant is kept with one more root, each grey cell is on the stack once, and both assertions hold |
| `Marking.Marker.Visit` | src/memory/GarbageCollector.cpp:174-212 | turns grey exactly the white cells that the cell refers to, after which it refers to nothing white |
| `Marking.Marker.Mark` | src/memory/GarbageCollector.cpp:240-261 | terminates, as the set of cells that are not black shrinks, with a cell white exactly if it cannot be reached through cells outside static memory |
| `Marking.MarkedIsReachable` | src/memory/GarbageCollector.cpp:240-261 | with an empty stack the marked cells are exactly the reachable ones |
| `Marking.GreyStep` | src/memory/GarbageCollector.cpp:188-209 | greying a white cell keeps the tri-colour invariant |
| `Marking.BlackStep` | src/memory/GarbageCollector.cpp:245-258 | blackening the top of the stack keeps it, but for that cell's references, and shrinks the cells to do |
| `Heaps.Heap.Whiten` | src/memory/GarbageCollector.cpp:216-237 | every slot of every chunk is white, occupied or not |
| `Heaps.Heap.CollectRoots` | src/memory/GarbageCollector.cpp:104-148 | exactly the roots are grey, namely the words that name occupied cells and the held objects outside static memory, and all else is white; `Heaps.PinnedIsRoot` says the same without that set |
| `Heaps.PinnedIsRoot` | src/memory/GarbageCollector.cpp:81-88 | a cell is a root exactly if it is held or a machine word is its address plus the header |
| `Heaps.Heap.Sweep` | src/memory/GarbageCollector.cpp:264-303 | frees exactly the occupied white cells, with their weak reference keys |
| `Heaps.Heap.Collect` | src/memory/GarbageCollector.cpp:306-321 | paused or early it only counts; otherwise exactly the cells reachable from the roots stay |
| `Heaps.CollectedSound` | src/memory/GarbageCollector.cpp:264-321 | after a collection no cell refers to a freed one and no weak reference is filed under one |
| `Heaps.RootsSurvive` | src/memory/GarbageCollector.cpp:104-148 | no root is ever freed |
| `Heaps.SweepKeepsPinned` | src/memory/GarbageCollector.cpp:81-148 | a sweep leaves exactly the cells to which references lead from a cell that a machine word points just behind the header of, or that is held |
| `Heaps.PinnedStays` | src/memory/GarbageCollector.cpp:81-88 | a cell with a machine word just behind its header, or that is held, stays, whether the collector sweeps or not |
| `Heaps.StrayIsFreed` | src/memory/GarbageCollector.cpp:264-303 | a cell that no word points behind, that is not held and that no other cell refers to is freed by a sweep |
| `Heaps.SizeClass` | src/memory/Heap.hpp:200-218 | the smallest block whose cells hold object and header |
| `Heaps.Heap.Allocate` | src/memory/Heap.hpp:363-374 | the new cell was not in use after the collection that may come first, and the heap stays sound |
| `Heaps.Heap.AllocateWeakref` | src/memory/Heap.hpp:390-396 | the new cell is filed under a target that is still there |
| `Heaps.Heap.Reset` | src/memory/Heap.hpp:353-357 | collects if it is time, then empties every block and leaves the weak reference table alone |
| `Heaps.Heap.OpenPause` | src/memory/Heap.hpp:324-334 | pauses, and remembers whether this scope must resume |
| `Heaps.Heap.ClosePause` | src/memory/Heap.hpp:335-338 | only the scope that paused resumes, and the assertion of `resume` holds |
| `Runs.RunsAreSound` | src/memory/Heap.hpp:324-396 | over every run no cell and no weak reference key ever names a freed cell, and only the outermost pause scope resumes |
| `Runs.StepKeeps` | src/memory/Heap.hpp:324-396 | each step of the mutator keeps that |
| `Runs.NothingFreedInPause` | src/memory/GarbageCollector.cpp:306-333 | inside a pause scope, however scopes nest in it, nothing is freed and nothing counted |
| `Runs.HeldSurvives` | src/memory/GarbageCollector.cpp:104-148 | an object held through a run is there at its end, with all it refers to |
| `Runs.PinnedSurvives` | src/memory/GarbageCollector.cpp:81-148 | a cell that every collection of a run finds held or on the machine stack is there at its end |
| `Runs.SweepsOnTime` | src/memory/GarbageCollector.cpp:306-321 | over any number of calls of an active collector, from any counter, the counter is what is left when whole rounds are taken off, and it sweeps exactly when a round is full |
| `Runs.WeakrefsMayDangle` | src/memory/GarbageCollector.cpp:99-102 | a sweep leaves no dangling weak reference in the table exactly if every one under a static or reachable object can itself be reached |
| `Runs.DanglingWeakref` | src/memory/GarbageCollector.cpp:264-303 | a run from the empty heap after which a collection leaves one dangling |
| `Runs.ResetKeepsWeakrefs` | src/memory/Heap.hpp:353-357 | after a reset the heap is sound exactly if, before it, every weak reference key is static or is unreachable with a collection due |
| `Runs.UnsoundReset` | src/memory/Heap.hpp:353-357 | a run from the empty heap after which a reset leaves a key that names no cell |
| `Mutators.Mutator.Make` | src/memory/Heap.hpp:363-374 | an allocation by a mutator that holds its objects in a list: all it held is still there, and the new object is none of them |
| `Mutators.Mutator.Execute` | src/memory/Heap.hpp:324-396 | each instruction takes the steps of the heap machine that are its own and changes what is held accordingly, keeps the heap sound and everything held alive |
| `Mutators.Mutator.RunProgram` | src/memory/Heap.hpp:324-396 | so does any program; nothing is assumed of what it holds or stores |
| `Mutators.RunFromEmpty` | src/memory/Heap.hpp:324-396 | from a fresh heap, every program is a run of the machine from the empty heap and ends sound |
| `Arenas.AlignUp` | src/memory/Arena.hpp:415-418 | the first aligned offset, for any power of two |
| `Arenas.NewBlock` | src/memory/Arena.hpp:404-413 | a new block has room for what asked for it |
| `Arenas.BlocksDouble` | src/memory/Arena.hpp:404-413 | for small requests the blocks double in size up to 4 MiB, where they stay |
| `Arenas.AllocationInPlace` | src/memory/Arena.hpp:381-402 | every live allocation is aligned and inside its block |
| `Arenas.AllocationsAreDisjoint` | src/memory/Arena.hpp:381-402 | no two live allocations overlap |
| `Arenas.MadeValid` | src/memory/Arena.hpp:381-413 | an allocation keeps that, and the byte count equals the sum of the sizes |
| `Arenas.RestoreUndoes` | src/memory/Arena.hpp:327-365 | restoring a save point gives back exactly the state it was taken in |
| `Arenas.RestoreIsRight` | src/memory/Arena.hpp:345-365 | from any save point in any later state, restoring gives back the saved state exactly if the saved blocks and destructors are still there |
| `Arenas.StaleRestoreOverlaps` | src/memory/Arena.hpp:295-365 | save, reset, allocate, restore: a family of inputs where an object that is still registered and the next allocation overlap |
| `Arenas.Arena.BumpAllocate` | src/memory/Arena.hpp:381-402 | the address of fresh bytes in the last block, after adding one if needed |
| `Arenas.Arena.Allocate` | src/memory/Arena.hpp:206-241 | memory for an object, with its destructor registered last |
| `Arenas.Arena.Save` | src/memory/Arena.hpp:335-343 | what `restore` needs to come back to this state |
| `Arenas.Arena.Restore` | src/memory/Arena.hpp:345-365 | of any save point in any state: blocks and destructors are cut back to the saved numbers, newest destroyed first, and the last offset and the total are the saved ones |
| `Arenas.Arena.Reset` | src/memory/Arena.hpp:295-310 | the empty arena, and everything is destroyed newest first |
| `Regions.Thread.Enter` | src/memory/ScopedRegion.hpp:29-33 | a fresh arena is current, and the previous one is remembered |
| `Regions.Thread.Exit` | src/memory/ScopedRegion.hpp:35-39 | the region is emptied and the previous arena is current again |
| `Regions.ScopeRestores` | src/memory/Arena.hpp:335-365 | a save scope gives back its state, whatever allocations, scopes and regions it encloses |
| `Regions.StaysValid` | src/memory/Arena.hpp:295-413 | in every state that any well-nested program passes through, allocations are aligned, in bounds, disjoint and accounted for |
| `Regions.YoungestDiesFirst` | src/memory/ScopedRegion.hpp:24-39 | each destruction is that of the youngest object alive, across scopes, regions and resets |
| `Regions.NothingOutlivesItsRegion` | src/memory/ScopedRegion.hpp:24-39 | what is registered in a region is destroyed exactly as often as it is constructed before the region is left |
| `Regions.Execute` | src/memory/ScopedRegion.hpp:24-39 | running a program on real arenas passes through those states and destructions, and the current arena is back at the end |
| `Mangling.FunctionRoundTrip` | src/executable/Mangler.cpp:10-46 | demangling undoes mangling exactly for names without dots, for any module text and position |
| `Mangling.ClassRoundTrip` | src/executable/Mangler.cpp:21-70 | the same for classes |
| `Mangling.MangledEqual` | src/executable/Mangler.cpp:10-19 | two mangled names agree exactly if the positions agree and module, dot and name run together alike |
| `Mangling.FunctionMangleIsInjective` | src/executable/Mangler.cpp:10-19 | mangling is injective in module, name, row and column for names without dots |
| `Mangling.ClassMangleIsInjective` | src/executable/Mangler.cpp:21-30 | the same for classes |
| `Mangling.DottedNamesClash` | src/executable/Mangler.cpp:10-19 | with a dot in a name two functions can share a mangled name |
| `Mangling.PlaceReads` | src/executable/Mangler.cpp:10-19 | the place in a mangled name is the row in decimal, one colon and the column, with no leading zeros |
| `Mangling.MangledLetters` | src/executable/Mangler.cpp:10-30 | two mangled names, letter by letter |
| `Sieves.Sieve.Steps` | test.py:34-47 | one pair flips exactly the numbers that it represents by the form of their residue |
| `Sieves.Sieve.LoopY` | test.py:49-55 | a row flips each number once per representation with this x, out of all there are |
| `Sieves.Sieve.LoopX` | test.py:57-63 | each flag is the parity of the number of all representations by positive numbers |
| `Sieves.AllRepresentations` | test.py:34-47 | the counted set has every representation, without any bound |
| `Sieves.Sieve.OmitSquares` | test.py:23-32 | what stays is what was flagged and is no multiple, below the limit, of the square of a number that stays |
| `Sieves.Sieve.ToList` | test.py:15-21 | 2, 3 and every flagged number from 5 on, ascending |
| `Tries.Trie.Insert` | test.py:71-81 | the trie holds exactly one more word, and every node leads to a word |
| `Tries.Trie.Locate` | test.py:99-104 | finds the node of a prefix exactly if there is one |
| `Tries.Trie.Collect` | test.py:108-123 | the worklist terminates and notes exactly the words below the node, each once |
| `Search.GenerateTrie` | test.py:71-83 | the trie of exactly the texts of the list |
| `Search.Find` | test.py:85-127 | None exactly if no listed number has the prefix, otherwise the ascending list of exactly those that do |
| `Search.FindUpTo` | test.py:85-127 | the same for the list that the sieve leaves; for a positive prefix in arithmetic: a number is found exactly if dropping last digits leaves the prefix |
| `Search.SearchHundred` | test.py:129-135 | the search up to 100 with the prefix 2 finds 2, 23 and 29 |
| `Decimal.TextIsCanonical` | test.py:114-115 | the decimal text of a number is the one string of digits with that value and no leading zero |
| `Decimal.PrefixIsShortened` | test.py:97-104 | the text of a number begins with that of another exactly if dropping last digits leads to the other |

## Left out

- Grammar rules for statements, parameters, imports, comparisons and boolean operators: more instances of the same engine.
- Operators.GrammarIsDescent: primary expressions with postfix parts and `await` are not in the operator grammar, because they are further rules of the same engine.
- Operators.PowerIsDescent: the base is an atom where the source has `await_primary`.
- Operators.AtomIsDescent: atoms are names, numbers and groups; strings, tuples, displays, generator expressions and the ellipsis are left out, and the body of a group is read as `bitwise_or`.
- Printing.ParsingInvertsPrinting: what follows the printed tokens may be `(`, `[` or `.`, with which a primary of the source would go on; that the operator grammar stops there holds of it alone.
- Printing.ParsePrinted: parses with the rule `bitwise_or`, not with the rule for a whole file.
- Indirect left recursion, and lookahead at a cached rule: the engine does not support them, and well-formed grammars have none.
- A token pattern with several token types: not used by any rule.
- Tokens that share a cache key: cached rules are taken to fail where two do; `Pipeline.LexedIsBenign` reduces this to DEDENTs.
- Lexing printed text: the printer gives tokens, and that the lexer reads them back from text is not shown.
- Scanning of numbers: their length at each offset is a parameter of the lexer.
- Columns in the lexer: the code's column is kept, but only that it is 0 at the start of a line matters to the claims; after a string that spans lines it is not a true column.
- Programs that do not end in a line end, which `read_file` never hands on.
- The raw scan of the machine stack: it is an arbitrary list of words.
- Destructors and `visit_graph` of runtime types: they are an edge map, and destructors do not touch the heap.
- Static allocation: static memory is a range of addresses apart from the slab.
- `Block::deallocate`, which sweeping does not use and which is right only for a block that has not grown.
- Slabs.Grown: 1.618 is exact, not a single-precision number.
- Raw memory: what the system hands out is a parameter, required to be apart from what is in use, and never runs out.
- Boehm branches of the arena and the tracing allocator, moves of arenas, and construction of the objects themselves.
- Search.Find: the nodes of the trie are entries of one table rather than objects, `list.sort` is modelled by a sorting function, and children are visited in any order.
- Printing, logging, reading files and the stress runs in `test.py`.
