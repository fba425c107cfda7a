# NuttX applications: proofs about the shell, the music parser and friends

This project models parts of the NuttX application repository in Dafny and
proves what they do for all inputs, all runs and all reachable states.

* **NSH scripts** (`Nsh*.dfy`). The NuttShell keeps no syntax tree. Two fixed
  stacks and two enable bits decide, line by line, what `if`, `while`, `until`,
  `break` and `done` do. `NshControl` is that machine, `NshParser` is the same
  machine with its arrays updated in place, and structured programs have three
  meanings. `Act` (`NshStructure`) has recursion for loops and keeps the if stack:
  the machine has the same runs for every structured program, whatever its nesting
  and its breaks and whatever stands behind its keywords (`NshLayout`). `Exec` (`NshProgram`, `NshSimulation`, `NshTheorems`) has no
  stacks at all: the machine has the same runs for every program whose breaks NSH
  can carry out. `Posix` is section 2.9.4 of the POSIX.1-2017 Shell Command
  Language: `NshPosix` proves when `Exec` and `Posix` agree, and exactly where
  they part. `NshErrors` says which lines are rejected where, and `NshStatus` what
  `$?` shows after any number of lines of any script.
* **NSH variables and aliases** (`NshVars`, `NshEnvironment`, `NshAlias`,
  `NshAliasMap`, `NshAliasMarks`, `NshAliasValues`, `NshAliasFate`). The packed buffer of
  `name=value` strings is a map; NSH variables and environment variables never
  hide each other unless a name holds `=`; the alias table is a bounded map whose
  expansion marks every command restores.
* **NSH command text** (`NshLine`, `NshWords`, `NshDequote`). Cutting a line at
  its semicolons, replacing an alias, and removing back-slashes in place.
* **The MML parser** (`Mml*.dfy`). The pass that counts the notes of a tuplet
  and the pass that plays them agree, and the lengths add up exactly; a written
  score is read as it is meant (`MmlScore`).
* **The FM synthesizer** (`Fm*.dfy`). Every sample of an envelope from its levels
  (`FmSound`), the waves and their forms (`FmWave`, `FmWaveform`), the tone of an
  operator (`FmTone`), and whole trees of operators with feedback (`FmOperator`).
* **The RAM benchmark** (`RamSpeed`) and **the bitmap converter** (`BitmapRle`).

`Basics` holds what several of them share.

Code that changes its data step by step is modelled by classes, arrays and
loops, each proved against a function on values; the laws are lemmas about those
functions. C division truncates, and `Quotient` says so. What a command does,
what can be allocated and what a callback returns are parameters, so that every
result holds for all of them.

## What the proofs show about the code

Some expectations do not hold of the code. The model follows the code, and the
exact condition is proved.

* A loop written directly in the body of a loop runs its condition even when the
  outer body is being passed over (`PassIsSilentIff`, `LoopExitIsPosixIff`).
* An `if` behaves as in POSIX exactly when POSIX does not leave it by `break`;
  otherwise its `fi` is an error, which ends a script that does not ignore failures
  (`BreakUnderIfIff`). If the loop is itself under an `if`, the `fi` closes that
  outer `if` without complaint and both of its branches can run
  (`BreakUnderIfLosesIff`, `BothBranchesRun`).
* A command on the line of a `do`, `then` or `else` does what it does on the next
  line wherever the keyword is accepted (`SameLine`). Where an `else` is an error, a
  command on its line does not run, and one on the next line may (`ElseOnSameLine`).
* An error that stands where a condition is awaited does not fail the script
  (`LoopErrorForgets`), and `$?` shows `0` after it (`DollarShowsStatus`).
* A name reads back what is stored under it exactly when it holds no `=` and the
  list has no second entry of it (`ReadsBackIff`). Only names with `=` make second
  entries (`StaysUniqueIff`): after `set a w`, `set a=b v` and `set a u`, `$a` is
  `b=v` (`SecondEntry`). A name with `=` also hides the environment variable of the
  name before that `=` (`SetShadowsIff`).
* The comparison of names ends within its strings exactly when they differ
  (`ComparisonEndsIff`). A search for a name that is the whole text of an entry, as
  `unset a=b` after `set a b`, comes to that entry and compares beyond both ends
  (`RunsPastIff`, `WholeEntry`); every operation reports exactly that case.
* The value of an alias survives its own expansion exactly when nothing saves that
  alias again meanwhile (`MarkedHolds`, `ValueIsSafeIff`).
* An alias that a command uses, deletes and saves again is gone when the command ends,
  although saving it succeeded (`SavedSurvivesIff`, `UsedAndDeleted`).
* Exporting a variable a second time clears it unless it was empty. Where the list has
  further entries of the name, each export uncovers the next one (`ExportAgainIff`).
* In a tie such as `4.+4` the dot is counted again in every later part: the length
  is that of the parts as written exactly when only the last part has dots
  (`TieIsOwnSumIff`, `DotIsCarried`).
* A part of a tie that is shorter than a sample makes the tie before it disappear
  (`EmptyPartForgets`).
* A volume with a sign is taken, and then the score goes on in front of the sign
  (`SignedVolume`).
* A tuplet of valid length adds up exactly when every chord in it can be read
  (`TupletAddsUp`); `TupletAddsUpIff` has the condition for any length.
* The offset that a loop jumps back to is the start of its command only if no
  quote stands in the command (`ParseLine`, `OffsetIff`).
* An alias whose value is empty or starts with white space is not replaced by the
  words of its value: an empty word comes first (`ExpandKeepsIff`).
* The integer sine is odd everywhere, the integer triangle only where it needs no
  rounding, the square wave everywhere but at zero (`SinIsOdd`,
  `TriangleIsOddIff`, `SquareIsOddIff`).
* Copying words equals copying bytes even for buffers that overlap, because equal
  alignment keeps the buffers at least a word apart (`Memcpy`, `WordAtOnce`).

## Model

| member | source | states |
|---|---|---|
| NshStructure.MachineFollowsStructure | nshlib/nsh_parse.c:1894-2248 | For every structured program, whatever its nesting, wherever its breaks stand and whether its `do`, `then` and `else` have a command on their line or not, every command oracle and both ways of treating failures: the flat machine, with its loop stack and seek-back at `done`, executes the same commands in the same order with the same status as the recursion `Act`, and ends with the same if stack and no open loop; where `Act` needs more loop tests, the machine is still running |
| NshStructure.StructureFollowsMachine | nshlib/nsh_script.c:146-189 | Every run of the machine on a structured program that ends is a run of `Act` |
| NshStructure.EndsAlike | nshlib/nsh_script.c:146-189 | The machine ends on a structured program if and only if the recursion does |
| NshStructure.ActsAlong | nshlib/nsh_parse.c:2503-2549 | The same from any point between two commands, enabled or not, inside any loops and ifs: afterwards the enclosing loops are untouched, or all forgotten because a loop did not fit |
| NshStructure.DoneMet | nshlib/nsh_parse.c:1990-2055 | `done` goes back to the header of its own loop, or on to the next line, and uncovers the enclosing loop as it was |
| NshStructure.IfRejected | nshlib/nsh_parse.c:2087-2248 | Every misplaced or too deep line of the if family empties the if stack, keeps the loops and fails the script |
| NshStructure.LoopRejected | nshlib/nsh_parse.c:1894-2079 | Every misplaced or too deep line of the loop family forgets all loops, keeps the if stack and fails the script |
| NshStructure.ActIsExec | nshlib/nsh_parse.c:438-495 | On programs whose breaks NSH can carry out, `Act` and the stackless `Exec` give the same commands, status and outcome, and the if stack is empty again |
| NshStructure.DoOnSameLine | nshlib/nsh_parse.c:1972-1988 | In `Act`, a loop that fits does the same with its first command behind the `do` or on the next line, for any number of rounds |
| NshStructure.ThenOnSameLine | nshlib/nsh_parse.c:2156-2176 | The same for the `then` of an `if` that fits |
| NshStructure.ElseOnSameLine | nshlib/nsh_parse.c:2178-2196 | The same for an `else` that is accepted |
| NshLayout.SameLine | nshlib/nsh_parse.c:1972-2196 | For every state of the machine, structured script or not, in which a `do`, `then` or `else` alone is accepted: the line with more words on it does exactly what the keyword line and then a line of those words do |
| NshLayout.SpreadLines | nshlib/nsh_parse.c:1894-2248 | The lines of a program with every keyword on a line of its own are those of the stackless semantics |
| NshErrors.LoopRejectsIff | nshlib/nsh_parse.c:1894-2079 | For every line in every state: it is accepted, has a bad argument or is too deep for the loops if and only if its words and the top entries say so |
| NshErrors.IfRejectsIff | nshlib/nsh_parse.c:2087-2248 | The same for the ifs |
| NshErrors.LoopErrorForgets | nshlib/nsh_parse.c:2063-2079 | A line that the loops reject runs nothing and never jumps, forgets all loops, keeps the height of the if stack, and fails the script unless an `if` awaits its condition |
| NshErrors.IfErrorForgets | nshlib/nsh_parse.c:2238-2248 | A line that the ifs reject runs nothing, empties the if stack, keeps the loops and fails the script |
| NshStatus.DollarShowsStatus | nshlib/nsh_parse.c:1095-1112 | After any number of lines of any script `$?` is `1` if the last line that did something to the status failed it and `0` if it cleared it, said from the commands that ran and how they ended; `$!` is the process number |
| NshStatus.StatusIs | nshlib/nsh_parse.c:438-495 | The status that the parser keeps is that of the last line with an effect on it: an error or a failed command fails it, a command that succeeds, a `break` and the condition of a loop or an `if` clear it, all else keeps it |
| NshStatus.RunsHaveEffects | nshlib/nsh_script.c:146-189 | Every run of the machine, of any number of lines, is one of those runs |
| NshTheorems.MachineFollowsSemantics | nshlib/nsh_parse.c:1894-2248 | The flat machine executes the same commands, leaves the same status and restores both stacks exactly as the stackless semantics does, for every command oracle and every program within the nesting depth, except those with a `break` under an `if` of a loop that is itself under an `if`; where the semantics needs more loop tests, the machine is still running |
| NshTheorems.SemanticsFollowsMachine | nshlib/nsh_script.c:146-189 | Every run of the machine that ends is a run of the stackless semantics, for the same programs |
| NshTheorems.SameTermination | nshlib/nsh_script.c:146-189 | The machine ends if and only if the stackless semantics does, for the same programs |
| NshTheorems.ScriptIsPosix | nshlib/nsh_parse.c:438-495 | Scripts whose loops are sheltered by an `if` and whose breaks stand directly in their loops behave as in POSIX: same commands, same status, same end |
| NshTheorems.StacksStayInOrder | nshlib/nsh_parse.c:1894-2248 | For every script, well formed or not: both indices stay below the depth, the bottom slots are NORMAL, the loop slots below the top are DO, and the two "Shouldn't happen" guards never fire |
| NshTheorems.PassedOver | nshlib/nsh_parse.c:1817-1868 | Code that is not enabled, of any shape, runs nothing, never jumps, keeps the status and restores both stacks; in a loop body that is passed over its loops must be under an `if` |
| NshTheorems.BreakUnderIfLosesIff | nshlib/nsh_parse.c:2200-2236 | After the lines of `if c; then; break; fi` in any loop body, `c` holding, the if stack is where it was at the loop header if and only if the loop is under no `if`; then `fi` fails the script, otherwise it closes the `if` around the loop without complaint |
| NshTheorems.BothBranchesRun | nshlib/nsh_parse.c:3009-3035 | A script in which `break` makes both branches of an `if` run, where POSIX runs one |
| NshSkipping.DeadCode | nshlib/nsh_parse.c:1844-1868 | In a branch that is not taken every program whatever, with loops and breaks, has no effect and restores both stacks |
| NshSimulation.RunCode | nshlib/nsh_parse.c:2503-2549 | From any point at which commands are enabled, the lines of a program reach the state that its meaning says |
| NshSimulation.RunIf | nshlib/nsh_parse.c:2087-2248 | The same for the lines of an `if` with or without `else`, inverted or not |
| NshSimulation.RunLoop | nshlib/nsh_parse.c:1894-2079 | The same for the lines of a loop, over every number of rounds |
| NshSimulation.PassCode | nshlib/nsh_parse.c:1817-1834 | The same for lines that a disabled loop body passes over |
| NshPosix.PassIsSilentIff | nshlib/nsh_parse.c:1826-1833 | Code in a disabled loop body has no effect if and only if every loop in it is under an `if` |
| NshPosix.LoopExitIsPosixIff | nshlib/nsh_parse.c:1951-1967 | A loop that ends at its first test behaves as in POSIX if and only if its body holds no loop outside an `if` |
| NshPosix.NshIsPosix | nshlib/nsh_parse.c:438-495 | NSH and POSIX agree on commands and outcome, and on the status where no `break` is under an `if` |
| NshPosix.BreakUnderIfIff | nshlib/nsh_parse.c:2200-2248 | An `if` in a loop, with sheltered loops and plain ifs inside, does what POSIX does if and only if POSIX does not leave it by `break`; otherwise NSH runs the same commands, fails, and stops the script unless failures are ignored |
| NshControl.SaveResult | nshlib/nsh_parse.c:438-495 | Recording a status keeps the stacks in order, whichever stack it goes to |
| NshControl.ParseLoop | nshlib/nsh_parse.c:1894-2079 | The loop keywords keep the stacks in order, run nothing and never meet the "Shouldn't happen" guard; which of them are accepted is `LoopRejectsIff`, and what becomes of the words behind a `do` is `SameLine` |
| NshControl.ParseItef | nshlib/nsh_parse.c:2087-2248 | The same for the if keywords, with `IfRejectsIff` and `SameLine` |
| NshControl.Run | nshlib/nsh_script.c:146-189 | Any number of lines of any script keep the stacks in order and their size |
| NshParser.Parser.CmdEnabled | nshlib/nsh_parse.c:1817-1886 | The read-only test over the two arrays is the enable condition of the machine |
| NshParser.Parser.SaveResult | nshlib/nsh_parse.c:438-495 | The update of the arrays, index by index, is the function on values |
| NshParser.Parser.ParseLoop | nshlib/nsh_parse.c:1894-2079 | The same for `while`, `until`, `do` and `done`, with every error reset and the words that are left of the line |
| NshParser.Parser.ParseItef | nshlib/nsh_parse.c:2087-2248 | The same for `if`, `then`, `else` and `fi` |
| NshParser.Parser.Break | nshlib/nsh_parse.c:3009-3035 | `break` restores the if index of the loop header and disables the loop, or does nothing |
| NshParser.Parser.ParseCommand | nshlib/nsh_parse.c:2503-2549 | One command in place is one command of the machine |
| NshParser.Parser.RunScript | nshlib/nsh_script.c:146-189 | The loop over the lines reaches the state of the machine after as many lines |
| NshVars.ListRefinesMap | nshlib/nsh_vars.c:196-352 | Over every sequence of set and unset, with failing allocations, the strings are an ordered map with unique names; a set that fails leaves only its own name absent |
| NshVars.LookupIsMap | nshlib/nsh_vars.c:196-220 | Getting a variable is looking it up in that map |
| NshVars.ReadsBackIff | nshlib/nsh_vars.c:196-290 | In every list of entries, those with repeated names included: a name reads back whatever is stored under it if and only if it holds no `=` and no second entry matches it |
| NshVars.SetIsRead | nshlib/nsh_vars.c:196-290 | What is read after a set, for every list and name: the next entry that matches, else what stands behind the first `=` of the new one |
| NshVars.StaysUniqueIff | nshlib/nsh_vars.c:227-290 | A set keeps the names unique if and only if its name holds no `=` or no other entry has the name before that `=` |
| NshVars.SecondEntry | nshlib/nsh_vars.c:227-290 | Three sets after which a name without `=` does not read back |
| NshVars.ComparisonEndsIff | nshlib/nsh_vars.c:48-64 | The comparison of two strings meets a difference within both if and only if they differ |
| NshVars.RunsPastIff | nshlib/nsh_vars.c:90-110 | With unique names, the search comes to an entry whose whole text is the name if and only if there is one |
| NshVars.WholeEntry | nshlib/nsh_vars.c:48-64 | A set after which a search for another name runs past the ends of the strings |
| NshVars.VarBuffer.CompareName | nshlib/nsh_vars.c:48-64 | For every name: whether the entry starts with the name and a `=`, reading only within the entry, and endless if and only if the name is its whole text |
| NshVars.VarBuffer.FindVar | nshlib/nsh_vars.c:90-110 | For every name: the first entry that starts with the name and a `=`, or none exactly when there is none; an overrun if and only if an entry that is the name comes before such an entry |
| NshVars.VarBuffer.RemoveVar | nshlib/nsh_vars.c:128-167 | Moving bytes down removes exactly that entry |
| NshVars.VarBuffer.GetVar | nshlib/nsh_vars.c:196-220 | The value of the name in the list, or none, or the overrun of the search |
| NshVars.VarBuffer.SetVar | nshlib/nsh_vars.c:227-290 | The buffer afterwards holds the list with the name replaced at its end, or without it when memory is refused, or as it was when the search overran |
| NshVars.VarBuffer.UnsetVar | nshlib/nsh_vars.c:298-352 | The buffer afterwards holds the list without the name, whether it can be shrunk or not, or as it was when the search overran |
| NshVars.VarBuffer.ForEach | nshlib/nsh_vars.c:374-406 | Every string is visited once and in order until the callback returns something else than zero |
| NshEnvironment.NoShadowing | nshlib/nsh_envcmds.c:516-653 | Every sequence of set, unset and export on names without `=`, successful or not, keeps the variable names and environment names disjoint |
| NshEnvironment.SetShadowsIff | nshlib/nsh_envcmds.c:516-555 | A set of any name keeps variables and environment apart if and only if it does not store a name with `=` whose part before the first `=` is in the environment |
| NshEnvironment.KeepsApartIff | nshlib/nsh_envcmds.c:516-663 | Every command on every name keeps variables and environment apart unless it is a set whose string starts with an environment name and a `=`, or an export of a name that a further entry of the list matches |
| NshEnvironment.StaysApartIff | nshlib/nsh_envcmds.c:516-663 | Over every sequence of commands on whatever names, the two are apart throughout if and only if no command is one of those |
| NshEnvironment.CommandIsSeen | nshlib/nsh_parse.c:1095-1146 | Where no two entries share a name, after a successful set, export or unset `$name` is the value that was stored (trimmed for set), or empty |
| NshEnvironment.CommandIsLocal | nshlib/nsh_envcmds.c:516-653 | Where no two entries share a name, no command, successful or not, changes what another name expands to |
| NshEnvironment.ExportAgainIff | nshlib/nsh_envcmds.c:610-663 | For every list: exporting a name twice keeps its value if and only if the name has one entry or none and the value was empty, or it has two, or the second and third have one value, or the search overran; with unique names, if and only if the value was empty |
| NshEnvironment.FailsIff | nshlib/nsh_envcmds.c:516-663 | A command reports an error if and only if a call that it makes fails: which call that is depends on where the name is known and on whether the buffer can shrink |
| NshEnvironment.TrimSplits | nshlib/nsh_fsutils.c:535-556 | Trimming takes white space off both ends and nothing else |
| NshEnvironment.Session.CmdSet | nshlib/nsh_envcmds.c:516-555 | The command in place is the command on names and values, an overrun of the search included |
| NshEnvironment.Session.CmdUnset | nshlib/nsh_envcmds.c:569-602 | The same |
| NshEnvironment.Session.CmdExport | nshlib/nsh_envcmds.c:610-663 | The same, with and without a value |
| NshEnvironment.Session.EnvExpand | nshlib/nsh_parse.c:1095-1146 | The order of the look-ups: status, process number, variable, environment, empty; or the overrun of the search. `DollarShowsStatus` says what the status means |
| NshAlias.SaveMeaning | nshlib/nsh_alias.c:158-194 | Outside an expansion, saving an alias changes that name of a bounded map only: it gets the value, or is absent when something cannot be allocated |
| NshAlias.DeleteMeaning | nshlib/nsh_alias.c:122-152 | Deleting an unmarked alias takes its name off the map and no other |
| NshAlias.SaveKeeps | nshlib/nsh_alias.c:158-194 | Whatever can be allocated, the live list and the free list still partition the table, live names are present and unique, and no mark changes |
| NshAlias.DeleteKeeps | nshlib/nsh_alias.c:122-152 | The same for deleting, marked or not; what is to be deleted later is marked |
| NshAlias.PartitionMeans | nshlib/nsh_alias.c:76-96 | Every slot is in one of the two lists, and once |
| NshAlias.InitOnce | nshlib/nsh_alias.c:76-96 | A table in use is never initialised again |
| NshAlias.InitFresh | nshlib/nsh_alias.c:76-96 | Initialising a blank table makes every slot free |
| NshAliasMap.TableRefinesMap | nshlib/nsh_alias.c:76-227 | Over every sequence of saving, deleting and removing all, with failing allocations and a full table, the table is a map of at most as many names as slots |
| NshAliasMap.FreshIsEmpty | nshlib/nsh_alias.c:76-96 | An initialised blank table is the empty map |
| NshAliasValues.MarkedHolds | nshlib/nsh_alias.c:158-194 | Over whatever happens during an expansion, commands inside it at any depth included, a marked alias stays marked and keeps its name, and its value is the one saved last |
| NshAliasValues.ValueIsSafeIff | nshlib/nsh_alias.c:122-194 | Over whatever happens while an alias is marked, at any depth of commands: whatever its value was, the table still has it if and only if the alias is not saved meanwhile |
| NshAliasFate.SavedSurvivesIff | nshlib/nsh_alias.c:122-194 | An alias saved with success inside a command and not deleted after that is in the table when the command ends, with the value saved last, if and only if the command had not deleted it before while it had it marked |
| NshAliasFate.UsedAndDeleted | nshlib/nsh_parse.c:409-431 | Every alias that a command expands and then deletes is in that situation |
| NshAliasFate.UnmarkAllLive | nshlib/nsh_parse.c:409-431 | The end of a command deletes a live alias if and only if the command has marked it and it is flagged; otherwise name, value and flag stay |
| NshAliasMarks.CommandRestoresMarks | nshlib/nsh_parse.c:2831-2855 | A command, with whatever aliases, deletions and commands inside it at any depth, ends with the same aliases marked as at its start |
| NshAliasMarks.NeverFull | nshlib/nsh_parse.c:388-401 | The list of marks has room whenever an alias can be expanded |
| NshAliasMarks.UnaliasAllEmpties | nshlib/nsh_alias.c:214-227 | Outside a command, removing all aliases empties the live list |
| NshAliasMarks.AliasFind | nshlib/nsh_alias.c:248-271 | An alias that is found for expansion is live and not marked |
| NshAliasMarks.ExpandsIff | nshlib/nsh_alias.c:248-271 | An alias is expanded if and only if it is in the table under that name, has a value and is not being expanded already |
| NshAliasMarks.AliasTable.DeleteAlias | nshlib/nsh_alias.c:122-152 | The update in place is the function on tables |
| NshAliasMarks.AliasTable.SaveEntry | nshlib/nsh_alias.c:158-194 | The same |
| NshAliasMarks.AliasTable.RemoveAll | nshlib/nsh_alias.c:214-227 | The same, for every entry of the list as it was at the start |
| NshAliasMarks.AliasTable.FindToExpand | nshlib/nsh_alias.c:248-271 | The same |
| NshAliasMarks.AliasTable.AddMark | nshlib/nsh_parse.c:388-401 | The same |
| NshAliasMarks.AliasTable.FreeMarks | nshlib/nsh_parse.c:409-431 | The same: marks go, and what was deleted meanwhile is deleted now |
| NshLine.ParseLine | nshlib/nsh_parse.c:2871-3002 | For every line, with quoted text that may or may not hold escaped quotes, escapes and comments: the commands between semicolons outside quotes are handed on in order until one fails or jumps; the return value; the loop offset is the start of the command if and only if no quote precedes its end |
| NshLine.FindClosing | nshlib/nsh_parse.c:1000-1024 | The search stops at the first quote of its kind that is not escaped, where escapes are configured, and at the first one otherwise |
| NshLine.SegmentsMakeLine | nshlib/nsh_parse.c:2892-2994 | The commands and their semicolons make up the whole line |
| NshLine.CutsAreAll | nshlib/nsh_parse.c:2909-2965 | Every semicolon outside quotes and comments is a cut, with escapes in quotes or without |
| NshLine.SameWithoutSlashes | nshlib/nsh_parse.c:1000-1024 | The two configurations cut a line alike if it holds no back-slash |
| NshLine.OffsetIff | nshlib/nsh_parse.c:2892-2900 | The kept offset equals the start of the command exactly when no quote was passed |
| NshWords.ExpandKeepsIff | nshlib/nsh_parse.c:1033-1087 | After an alias is replaced the remaining words are those of its value and of the rest of the line, for single-word and longer values alike, if and only if the value starts with a word |
| NshWords.WordsOfBoth | nshlib/nsh_parse.c:1585-1592 | The words of two texts with a separator between are the words of the one and of the other |
| NshWords.NextArgument | nshlib/nsh_parse.c:1585-1784 | Taking the next argument of plain text takes the first of its words and leaves the others |
| NshWords.ExpandAlias | nshlib/nsh_parse.c:1033-1087 | The command word and the rest of the text after replacing an alias |
| NshWords.Arguments | nshlib/nsh_parse.c:1033-1087 | The words of a command whose first word may be an alias |
| NshDequote.DequoteInPlace | nshlib/nsh_parse.c:1154-1200 | The buffer afterwards holds the string without its unescaped back-slashes; the loop ends on every string |
| NshDequote.DequoteUndoesEscape | nshlib/nsh_parse.c:1154-1200 | Dequoting undoes a back-slash before every character |
| NshDequote.DequoteIsIdentityIff | nshlib/nsh_parse.c:1154-1200 | A string stays as it is if and only if it holds no back-slash |
| NshDequote.DequoteIsMeant | nshlib/nsh_parse.c:1154-1200 | Whichever of its characters are written with a back-slash before them, what is left of a string is its characters; a back-slash at its end goes |
| NshDequote.EveryStringIsWritten | nshlib/nsh_parse.c:1154-1200 | Every string is written in that way |
| MmlTuplets.TupletAddsUp | audioutils/mml_parser/mml_parser.c:526-612 | For every tuplet of valid length: `}` finds it complete if and only if every `[` the counting pass meets starts a chord; then as many notes, rests and chords are parsed as were counted and their lengths add up exactly to its length |
| MmlTuplets.TupletAddsUpIff | audioutils/mml_parser/mml_parser.c:526-612 | For every tuplet, its length valid or not: `}` finds it complete if and only if each of its items can be played, by its text and its share; then counts and lengths add up, otherwise a chord error ends it |
| MmlTuplets.StaysInStep | audioutils/mml_parser/mml_parser.c:781-852 | Every call in a tuplet keeps the count of the first pass and the position of the second in step |
| MmlTuplets.RestAddsUp | audioutils/mml_parser/mml_parser.c:358-372 | From any point of a tuplet the lengths still to come add up to what is left if the items still to come can be played, and a chord error comes otherwise |
| MmlTuplets.SharesAreFair | audioutils/mml_parser/mml_parser.c:358-372 | All notes of a tuplet are equally long but the last, which is longer by less than a sample for each note |
| MmlScore.ScoreIsRead | audioutils/mml_parser/mml_parser.c:781-852 | For every score of tempos, lengths, octaves, volumes, tones, notes, rests and chords, written with white space or without: the answers of the parser, up to the end, are what the events mean one after the other |
| MmlScore.EventRead | audioutils/mml_parser/mml_parser.c:378-506 | Each of those events is read to its end, whatever stands behind it, and has the effect and the value it means |
| MmlScore.DurationRead | audioutils/mml_parser/mml_parser.c:242-352 | A length is the default one with dots, or the sum of a tie of note values |
| MmlScore.NumberOfDecimal | audioutils/mml_parser/mml_parser.c:412-428 | Reading a number undoes writing it in decimal |
| MmlScore.TempoIsHeard | audioutils/mml_parser/mml_parser.c:412-428 | After `T` with a number a note has four minutes of samples divided by its value and that number, whatever the tempo was |
| MmlScore.LengthIsHeard | audioutils/mml_parser/mml_parser.c:434-448 | After `L` with a note value a bare note has that value at the tempo there was |
| MmlScore.OctaveIsSet | audioutils/mml_parser/mml_parser.c:454-486 | After `O` with a number, `>` tells the number plus one |
| MmlScore.OctaveIsRestored | audioutils/mml_parser/mml_parser.c:454-486 | `<` after `>` tells the octave there was before |
| MmlScore.TupletOpened | audioutils/mml_parser/mml_parser.c:564-588 | `{` takes the length written behind its `}` |
| MmlScore.TupletClosed | audioutils/mml_parser/mml_parser.c:594-612 | `}` passes over that length, and tells whether the notes are complete |
| MmlScore.FullTupletRefuses | audioutils/mml_parser/mml_parser.c:618-637 | A note beyond the last of a tuplet is refused and changes nothing |
| MmlScore.NumberMissing | audioutils/mml_parser/mml_parser.c:412-486 | A code without its number changes nothing and is the error of that code |
| MmlScore.SignedVolume | audioutils/mml_parser/mml_parser.c:492-506 | A volume with a sign: its value, whether it is an error, and that the sign is read again |
| MmlScore.OthersRefused | audioutils/mml_parser/mml_parser.c:781-852 | A character that is no code is refused, passed over, and changes nothing |
| MmlParser.PitchesEnd | audioutils/mml_parser/mml_parser.c:667-732 | A chord ends at the first `]`, where the counting pass ends it too |
| MmlParser.Parse | audioutils/mml_parser/mml_parser.c:781-852 | Every call keeps the parser from dividing by zero notes and moves on through the score; what it reads is `ScoreIsRead` |
| MmlParser.StartTuplet | audioutils/mml_parser/mml_parser.c:564-588 | A tuplet starts if and only if none is open and it has notes and an end; note count and length are those of the new one even when it fails |
| MmlLength.ShiftsAreSamples | audioutils/mml_parser/mml_parser.c:162-202 | The shifts and divisions of the length computation are one rounded-down quotient |
| MmlLength.CalcSamples | audioutils/mml_parser/mml_parser.c:162-202 | The loops compute that quotient for every note value and number of dots |
| MmlLength.NoOverflowIff | audioutils/mml_parser/mml_parser.c:162-202 | No intermediate value leaves 32 bits if and only if the sampling rate is at most 577280 |
| MmlLength.SampleLength | audioutils/mml_parser/mml_parser.c:242-352 | The state loop over digits, dots and `+` is the recursive reading of a length |
| MmlTies.TieIsSum | audioutils/mml_parser/mml_parser.c:242-352 | A tie of positive lengths is the sum of its parts, each with the dots so far |
| MmlTies.TieIsOwnSumIff | audioutils/mml_parser/mml_parser.c:242-352 | The parsed length of a tie is the sum of its parts with their own dots if and only if no part but the last has dots, at every sampling rate and tempo at which a dot adds a sample |
| MmlTies.SumIsOwnSumIff | audioutils/mml_parser/mml_parser.c:293-305 | The same for the sum itself |
| MmlTies.SumIsOwnSum | audioutils/mml_parser/mml_parser.c:293-305 | If no part but the last has dots the two are equal at every sampling rate and tempo |
| MmlTies.DotIsCarried | audioutils/mml_parser/mml_parser.c:293-305 | A tie for which it is not |
| MmlTies.EmptyPartForgets | audioutils/mml_parser/mml_parser.c:208-236 | A tie of two parts whose second has no sample has length zero, however long its first part is |
| MmlPlayer.CountNotes | audioutils/mml_parser/mml_parser.c:526-558 | The counting loop is the count |
| MmlPlayer.PitchLoop | audioutils/mml_parser/mml_parser.c:667-732 | The loop over the pitches of a chord is the recursive reading |
| MmlPlayer.Player.TupletLength | audioutils/mml_parser/mml_parser.c:358-372 | The share of the next note of a tuplet |
| MmlPlayer.Player.BeginTuplet | audioutils/mml_parser/mml_parser.c:564-588 | `{` in place is the function on values, the counts left by a failure included |
| MmlPlayer.Player.EndTuplet | audioutils/mml_parser/mml_parser.c:594-612 | The same for `}` |
| MmlPlayer.Player.ParseMml | audioutils/mml_parser/mml_parser.c:781-852 | The same for one call of the parser; `ScoreIsRead` says what the calls tell |
| FmEnvelope.AcceptedIsInRange | audioutils/fmsynth/fmsynth_eg.c:46-149 | Parameters that are accepted put every level of the envelope within the range |
| FmEnvelope.RunInRange | audioutils/fmsynth/fmsynth_eg.c:155-209 | Every output of every run of starts, stops and samples is within the range |
| FmEnvelope.DurationOfSound | audioutils/fmsynth/fmsynth_eg.c:175-209 | From a start, the envelope is released after exactly the attack period plus one and, for each later state that lasts, its period plus one |
| FmSound.SoundIsShape | audioutils/fmsynth/fmsynth_eg.c:46-209 | For every sampling rate and every five levels that are accepted: sample n after a start is that of the shape drawn from the levels alone, straight lines from level to level, each over its own time; and the envelope is released if and only if more samples than the shape has are over |
| FmSound.ShapeLasts | audioutils/fmsynth/fmsynth_eg.c:46-149 | The shape has the samples of the time of the attack, and for each later level that takes any time its samples and one more |
| FmSound.ScaledIs | audioutils/fmsynth/fmsynth_eg.c:46-67 | A level is its part of the maximum, rounded towards zero; level one is the maximum |
| FmEnvelope.SampleOnLine | audioutils/fmsynth/fmsynth_eg.c:200-204 | Within a state every sample is on the straight line between two levels, rounded towards its start |
| FmEnvelope.NeverTurnsBack | audioutils/fmsynth/fmsynth_eg.c:200-204 | Within a state the samples move one way only |
| FmEnvelope.Generator.SetParam | audioutils/fmsynth/fmsynth_eg.c:120-149 | The table that is written, when it is accepted, and that an accepted one has the levels, of which `SoundIsShape` says what they sound like |
| FmEnvelope.Generator.NextSample | audioutils/fmsynth/fmsynth_eg.c:175-209 | The update in place is the function on values |
| FmEnvelope.Generator.StartSound | audioutils/fmsynth/fmsynth_eg.c:155-159 | The envelope is released after n more samples if and only if n is at least the attack period plus one and the time the later states last |
| FmEnvelope.Generator.StopSound | audioutils/fmsynth/fmsynth_eg.c:165-169 | From now on every sample is the level of the released state |
| FmEnvelope.Generator.FindNext | audioutils/fmsynth/fmsynth_eg.c:192-197 | The inner loop finds the next state that lasts |
| FmSineTable.SineRises | audioutils/fmsynth/fmsynth_op.c:41-113 | The table of the quarter turn never falls |
| FmWave.WaveBounds | audioutils/fmsynth/fmsynth_op.c:125-215 | Every wave stays within 32767, the sawtooth within 32768, for every integer phase, using only entries 1 to 257 of the table |
| FmWave.SinIsOdd | audioutils/fmsynth/fmsynth_op.c:34-153 | The integer sine is odd for every integer |
| FmWave.SineRises | audioutils/fmsynth/fmsynth_op.c:125-153 | The integer sine rises over the first quarter of a turn |
| FmWave.SineAtPoints | audioutils/fmsynth/fmsynth_op.c:125-153 | At every 128th unit the sine is the table entry, from both ends of the half turn |
| FmWave.TriangleIsOddIff | audioutils/fmsynth/fmsynth_op.c:159-195 | The triangle is odd if and only if the phase is a multiple of a quarter turn |
| FmWave.SquareIsOddIff | audioutils/fmsynth/fmsynth_op.c:211-215 | The square wave is odd if and only if the phase is not zero |
| FmWaveform.Periodic | audioutils/fmsynth/fmsynth_op.c:34-215 | Every wave form repeats after each turn |
| FmWaveform.NegativeIsOpposite | audioutils/fmsynth/fmsynth_op.c:34-215 | At a negative phase every wave form has the value of half a turn further on |
| FmWaveform.SineTurnsOver | audioutils/fmsynth/fmsynth_op.c:125-153 | The second half turn of the sine is the first upside down |
| FmWaveform.SineOnLine | audioutils/fmsynth/fmsynth_op.c:125-153 | Between two points of the table the sine is on the straight line between their values, rounded down |
| FmWaveform.SineIsTable | audioutils/fmsynth/fmsynth_op.c:41-153 | At those points it is the entry of the table, on the way up and on the way down |
| FmWaveform.TriangleIsTent | audioutils/fmsynth/fmsynth_op.c:159-195 | Over the whole turn the triangle is a tent of height 32767, rounded down |
| FmWaveform.TriangleCorners | audioutils/fmsynth/fmsynth_op.c:159-195 | Its values at the quarter turns |
| FmWaveform.SawtoothRises | audioutils/fmsynth/fmsynth_op.c:201-205 | The sawtooth rises over the whole turn from -32767, by one every other unit |
| FmWaveform.SquareIsHighIff | audioutils/fmsynth/fmsynth_op.c:211-215 | The square wave is at its top if and only if the phase is in the first half of the turn, and at its bottom otherwise |
| FmTone.PhaseIsSteps | audioutils/fmsynth/fmsynth_op.c:521-534 | For every operator of every tree, with whatever feedback and cascades: n samples after the one at time zero its phase is n steps, but for whole turns |
| FmTone.ToneIsWave | audioutils/fmsynth/fmsynth_op.c:521-548 | Sample n of an operator by itself is the share that the n-th sample of its envelope lets through of its wave at n steps |
| FmTone.FullShare | audioutils/fmsynth/fmsynth_op.c:544-545 | At the full level that is the wave itself, at the negative of it the wave upside down, at zero silence |
| FmTone.TurnsInSecond | audioutils/fmsynth/fmsynth_op.c:221-233 | The steps of one second are as many turns as the frequency of the operator |
| FmTone.FeedbackIsPart | audioutils/fmsynth/fmsynth_op.c:440-456 | The feedback is the part of its source that the rate says, rounded towards zero, and all of it at the full rate |
| FmTone.CascadeIsFeedback | audioutils/fmsynth/fmsynth_op.c:536-542 | What is cascaded on an operator acts as so much more feedback |
| FmTone.FeedbackIsPhase | audioutils/fmsynth/fmsynth_op.c:528-548 | Feedback acts as a phase further on by as many units |
| FmTone.SelfFeedback | audioutils/fmsynth/fmsynth_op.c:440-548 | An operator that feeds itself fully takes its wave at its phase plus its own last output |
| FmOperator.PlayInLimit | audioutils/fmsynth/fmsynth_op.c:440-548 | For every bank of operators, every wiring and every sequence of notes and samples, no output leaves its limit |
| FmOperator.OperateIsSum | audioutils/fmsynth/fmsynth_op.c:521-548 | Operating a tree in place gives the modulation computed from the operators as they were, and moves each of them by one sample; `ToneIsWave` and `CascadeIsFeedback` say what is heard |
| FmOperator.OperateIsLocal | audioutils/fmsynth/fmsynth_op.c:521-548 | Operating a tree changes no operator outside it |
| FmOperator.OperateInLimit | audioutils/fmsynth/fmsynth_op.c:521-548 | The sum of parallel operators is bounded by their number |
| FmOperator.FeedbackIsSimultaneous | audioutils/fmsynth/fmsynth_op.c:440-456 | Feedback is taken from the outputs of the sample before, whatever the order of the update |
| FmOperator.FoldedInTurn | audioutils/fmsynth/fmsynth_op.c:528-534 | The phase that is kept is always within one turn |
| FmOperator.Synthesizer.FeedOperator | audioutils/fmsynth/fmsynth_op.c:440-456 | The recursive loop in place is the function on values |
| FmOperator.Synthesizer.OperateOperator | audioutils/fmsynth/fmsynth_op.c:521-548 | The same; what the function gives is `OperateIsSum` and `ToneIsWave` |
| FmOperator.Synthesizer.Modulate | audioutils/fmsynth/fmsynth.c:50-93 | Feedback first, then the sum over the parallel operators |
| RamSpeed.Memory.Memcpy | benchmarks/ramspeed/ramspeed_main.c:296-364 | For every alignment, length and overlap the memory afterwards is that of a byte-by-byte copy; words are loaded and stored at multiples of four only |
| RamSpeed.Memory.Memset | benchmarks/ramspeed/ramspeed_main.c:370-413 | The same for filling |
| RamSpeed.WordAtOnce | benchmarks/ramspeed/ramspeed_main.c:340-352 | A word may be copied at once where source and target differ by a multiple of four |
| RamSpeed.CopyIsMoveIff | benchmarks/ramspeed/ramspeed_main.c:296-364 | The source always arrives unchanged, and nothing else changes, if and only if the target does not start inside it |
| RamSpeed.FillAt | benchmarks/ramspeed/ramspeed_main.c:370-413 | Exactly the bytes of the range are filled |
| RamSpeed.Memory.CopyWord | benchmarks/ramspeed/ramspeed_main.c:51 | Loading and storing a word moves its four bytes, in either byte order |
| RamSpeed.Memory.CopyChunks | benchmarks/ramspeed/ramspeed_main.c:340-352 | The word loops stop with no more than a chunk left and keep the alignment |
| BitmapRle.EncodeRow | tools/bitmap_converter.py:60-80 | Decoding gives back the quantised row, every count is from 1 to 255, and no encoding with such counts is shorter |
| BitmapRle.GreedyIsShortest | tools/bitmap_converter.py:60-80 | Entries of which only full ones are followed by their own colour are never more than those of another encoding |
| BitmapRle.QuantizeIsFirstClosest | tools/bitmap_converter.py:48-57 | The index is that of the first colour at the least distance, exact match or not |
| BitmapRle.DistanceIsEuclidean | tools/bitmap_converter.py:48-57 | That distance is the square of the Euclidean one |

## Left out

- Command bodies, pipelines, redirections, back-quotes and the assembly of argument vectors: system calls and string handling; a command is an oracle over the commands executed so far.
- Several commands on one line in the simulation of scripts: each line is one command; how a line is cut into commands is proved separately in `NshLine`.
- A script that sources another script, `nice`, and `lseek` failing in the middle of a script: they add cases but no new kind of state.
- NshTheorems.MachineFollowsSemantics: leaves out a `break` under an `if` of a loop that is itself under an `if`, because NSH then closes the wrong `if`; `MachineFollowsStructure` covers those programs too.
- NshTheorems.SemanticsFollowsMachine: leaves out the same programs; `StructureFollowsMachine` has them.
- NshTheorems.SameTermination: leaves out the same programs; `EndsAlike` has them.
- NshStructure.MachineFollowsStructure: behind a keyword a command or `break` may stand; what further keywords behind a `do` do is said by `SameLine` only. It starts where no slot of the if stack was left waiting for a condition, as in a new console and after every structured script that was run to its end.
- NshParser.Parser.RunScript: stops after a given number of lines, because a script need not end; the lemmas about runs have no such bound.
- NshTheorems.BothBranchesRun: one script shape, for all of its commands; the general rules are `BreakUnderIfLosesIff` and `MachineFollowsStructure`.
- NshTheorems.BreakUnderIfLosesIff: takes the `if` around the loop, where there is one, to be still open.
- NshVars.VarBuffer.SetVar: does not say what happens after the search has run past the ends of its strings, because C does not; the list is given as it was until then, here and in the commands that call it.
- NshVars.ListRefinesMap: takes names without `=`, because the map law fails for others as `ReadsBackIff` and `SecondEntry` say.
- NshEnvironment.NoShadowing: takes names without `=`; `StaysApartIff` is the result for all names.
- NshEnvironment.CommandIsLocal: takes names without `=`, because a name with one reads part of another variable, and lists without repeated names.
- NshEnvironment.CommandIsSeen: takes names without `=` and lists without repeated names; `SetIsRead` says what is read in every list.
- Options of `set` and its listing of all variables: printing and flag characters.
- NshWords.NextArgument: takes plain text only, without quotes, back-slashes, comments, redirections and expansions.
- NshWords.ExpandAlias: takes plain text and plain values, for the same reason.
- NshWords.Arguments: takes plain text and plain values, for the same reason.
- NshLine.ParseLine: the kept offset has sixteen bits, so the condition about it is stated for lines shorter than 65536 characters.
- MmlScore.ScoreIsRead: takes scores without tuplets, which `TupletAddsUp` is about, and durations that the parser accepts.
- FmTone.ToneIsWave: takes a step that is not negative, because the code takes the wave at a phase before zero for one half a turn off (`NegativeIsOpposite`).
- FmTone.FeedbackIsPhase: takes phases that are not negative, for the same reason.
- Pitch numbers of MML notes and the division by a tempo of zero: one is a table look-up, the other a score that the parser does not reject.
- Rounding of floating point numbers in the synthesizer: levels and phases are reals. Wrap-around of 32-bit integers is not modelled there.
- FMSYNTH_MAX_EGLEVEL, FMSYNTH_PI, the order of the envelope states and the volume of a sound: declared in headers that are not part of this model; 4095, 65536 and the order of the code are taken.
- RamSpeed.Memory.Memcpy: addresses count from zero and buffers lie within one memory; timing and printing are left out.
- The palette and the text output of the bitmap converter: library calls and formatting.
- File, network, mount, time and login commands, modbus, CAN, boot and the other benchmarks: thin wrappers over system calls.
