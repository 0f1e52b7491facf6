# Learning-platform front-end core, modelled in Dafny

This project models the deterministic core of a learning platform's React
front-end for backend developers:

- the in-memory workspace file tree, with its open tabs and active file (`FileSystem`);
- the file-name → editor-language mapping (`ProjectWorkspace`, `CodeEditor`);
- the file explorer's rows and rename editor (`FileExplorer`);
- the workspace page's guarded handlers and keyboard shortcuts (`ProjectWorkspace`);
- the code-execution hook with its bounded, newest-first history and simulated output (`CodeExecution`);
- the fake terminal's line editor and canned command replies (`Terminal`);
- the seven-step assessment wizard with its storage mirror (`Assessment`);
- the wizard's checkbox list toggles and section conditions (`AssessmentSteps`);
- the results page's learning-path and pace rules and label lookups (`Results`);
- the project catalogue filter and badges (`Projects`);
- the keyword routing of the two mentor chats (`Chat`, `ChatInterface`).

Two shared modules hold what the components use from JavaScript:

- `JsText`: `toLowerCase` (restricted to the ASCII letters A-Z), `includes`, `startsWith`, `trim`, `split`/`join`, first-occurrence `replace`, `toString`/`parseInt`;
- `SeqUtil`: `filter` and subsequences.

Components whose fields change step by step are classes with `modifies`
clauses: `Workspace`, `Wizard`, `TerminalPanel`, `Executor`, `WorkspacePage`,
`FileItem`, `ChatPage` and `MentorPanel`. Each method is proved against
specification functions, and the lemmas state what those functions promise.
Pure code is modelled as functions and lemmas. Things outside the core become
parameters of the operations:

- the outcome of a `fetch`;
- a host command handler;
- a fresh id;
- the random number drawn;
- which pending reply timer fires.

## Model

| member | source | states |
|---|---|---|
| FileSystem.FindFileByPath | src/hooks/useFileSystem.ts:62-73 | the loop returns the first node in depth-first pre-order (parent before children, siblings left to right) whose path is the query, and nothing when no node has it |
| FileSystem.FirstWithPath | src/hooks/useFileSystem.ts:62-73 | none exactly when no listed node has the path; a result has the path and is a listed node |
| FileSystem.FirstWithPathAppend | src/hooks/useFileSystem.ts:62-73 | the search over a concatenation answers from the first part when it can, else from the second |
| FileSystem.PreorderPrefix | src/hooks/useFileSystem.ts:64-71 | the pre-order listing of the first i+1 roots extends that of the first i by root i and its subtree, which is the loop's invariant step |
| FileSystem.UpdateInTree | src/hooks/useFileSystem.ts:75-88 | the number of top-level nodes is unchanged |
| FileSystem.UpdateIndex | src/hooks/useFileSystem.ts:75-88 | position i becomes updater(node) when its path matches, and otherwise the same node with updated children |
| FileSystem.UpdateAt | src/hooks/useFileSystem.ts:75-88 | a node at any depth, reached without passing a matching ancestor, becomes updater(node) if it matches; otherwise it keeps every field except its children, and keeps their number |
| FileSystem.UpdateAbsent | src/hooks/useFileSystem.ts:75-88 | with no node at the path, the tree is unchanged |
| FileSystem.RemoveFromTree | src/hooks/useFileSystem.ts:129-138 | the filter drops every top-level node with the path, so no kept root has it and the list never grows |
| FileSystem.RemoveLeavesNone | src/hooks/useFileSystem.ts:130-138 | after the removal, no node at any depth has the path |
| FileSystem.RemoveAbsent | src/hooks/useFileSystem.ts:130-138 | with no node at the path, the removal changes nothing |
| FileSystem.RemoveKeepsOrder | src/hooks/useFileSystem.ts:130-138 | the surviving nodes appear in the same pre-order as before (an order-preserving subsequence) |
| FileSystem.RemoveKeepsRoot | src/hooks/useFileSystem.ts:130-138 | a top-level node with another path survives, with its children filtered in turn |
| FileSystem.RemoveKeepsExposed | src/hooks/useFileSystem.ts:130-138 | every non-matching node with no matching ancestor survives the removal |
| FileSystem.RemoveOnlyExposed | src/hooks/useFileSystem.ts:130-138 | conversely, every surviving node (at any depth) is a node of the old tree with another path and no matching ancestor, with the same fields apart from its filtered children, so a removed node takes its whole subtree with it |
| FileSystem.CollapseSlashes | src/hooks/useFileSystem.ts:96 | collapsing `/+` to `/` never lengthens the path and keeps its first character |
| FileSystem.CollapseRun | src/hooks/useFileSystem.ts:96 | two slashes in a row anywhere collapse exactly as one slash does; with CollapseWithoutRuns this makes every run of slashes exactly one slash |
| FileSystem.CollapseNoDoubleSlash | src/hooks/useFileSystem.ts:96 | the result has no two slashes in a row |
| FileSystem.CollapseKeepsOtherChars | src/hooks/useFileSystem.ts:96 | the characters other than `/` are kept, in order |
| FileSystem.CollapseWithoutRuns | src/hooks/useFileSystem.ts:96 | a path without a double slash is unchanged |
| FileSystem.NewPath | src/hooks/useFileSystem.ts:96 | the path of a new node has no two slashes in a row and starts like the parent path (with `/` for an empty parent); when the join has no double slash it is the join `parentPath/name` itself |
| FileSystem.NewPathTrailingSlash | src/hooks/useFileSystem.ts:96 | a parent path with a trailing slash gives the same path as without it |
| FileSystem.NewPathAtRoot | src/hooks/useFileSystem.ts:96 | under parent "/", a name without slash runs gets the path "/" + name |
| FileSystem.InsertNode | src/hooks/useFileSystem.ts:99-106 | under parent "/" the new node is appended after the unchanged roots; under any other parent the number of roots is kept (CreateUnder gives the placement) |
| FileSystem.CreateUnder | src/hooks/useFileSystem.ts:99-106 | a node at the parent path, at any depth and with no matching ancestor, gets the new node as its last child, and nothing else about it changes |
| FileSystem.CreateWithoutParent | src/hooks/useFileSystem.ts:102-105 | with no node at the parent path, creating changes nothing |
| FileSystem.RenamedPathSpec | src/hooks/useFileSystem.ts:150-152 | only the text after the last `/` is replaced by the new name |
| FileSystem.RenameAt | src/hooks/useFileSystem.ts:148-158 | a matching node gets the new name and path, and its descendants keep their paths |
| FileSystem.EditThenFind | src/hooks/useFileSystem.ts:181-184 | after a content edit, finding the path yields the new content |
| FileSystem.SetContentWhere | src/hooks/useFileSystem.ts:185-187 | the tabs keep their number; a tab at the path gets the content and the others are unchanged |
| FileSystem.FilterKeepsTabs | src/hooks/useFileSystem.ts:140-142 | closing a path keeps the tabs distinct and all files, and leaves no tab at the path |
| FileSystem.ActiveAfterClose | src/hooks/useFileSystem.ts:171-177 | closing the active tab selects a tab `open[i]` with another path such that every tab before it had the closed path, i.e. the first remaining tab, or none; otherwise the active file is kept |
| FileSystem.ActiveAfterCloseIsOpen | src/hooks/useFileSystem.ts:171-177 | the newly selected file is a remaining tab with another path, and none is selected exactly when every tab had the closed path |
| FileSystem.DeleteReselectsDeletedFile | src/hooks/useFileSystem.ts:143-145 | with the deleted active file as the first tab, the delete rule keeps it active although its tab was closed |
| FileSystem.Workspace.constructor | src/hooks/useFileSystem.ts:27-60 | starts with the fixed tree, no tabs and no active file |
| FileSystem.Workspace.CreateFile | src/hooks/useFileSystem.ts:90-107 | a file with empty content at the collapsed path is appended at the top level (parent "/") or under every node at the parent path; tabs are untouched |
| FileSystem.Workspace.CreateFolder | src/hooks/useFileSystem.ts:109-126 | the same for a folder with no children |
| FileSystem.Workspace.DeleteFile | src/hooks/useFileSystem.ts:128-146 | the tree becomes RemoveFromTree's result, whose survivors are exactly the exposed nodes with another path (RemoveKeepsExposed and RemoveOnlyExposed), so the nodes at the path go with their subtrees; the tab goes; an active deleted file is replaced by the first tab from before the delete |
| FileSystem.Workspace.RenameFile | src/hooks/useFileSystem.ts:148-158 | matching nodes get the new name and last path segment; tabs and the active file keep their old nodes |
| FileSystem.Workspace.OpenFile | src/hooks/useFileSystem.ts:160-169 | a folder changes nothing; a file becomes active and gets a tab unless one with its path exists, so tab paths stay distinct |
| FileSystem.Workspace.CloseFile | src/hooks/useFileSystem.ts:171-177 | the tab goes; the active file follows the close rule computed from the tabs as they were before |
| FileSystem.Workspace.UpdateFileContent | src/hooks/useFileSystem.ts:179-192 | the content reaches matching tree nodes, matching tabs and a matching active file, and nothing else |
| FileSystem.Workspace.SaveFile | src/hooks/useFileSystem.ts:194-209 | no request exactly when no node has the path; otherwise the request carries the path and the found node's content |
| Assessment.Merge | src/pages/Assessment.tsx:101-103 | the merged record holds every field the update gives, and a record already holding them is returned unchanged |
| Assessment.MergeNothing | src/pages/Assessment.tsx:101-103 | an empty update leaves the record unchanged |
| Assessment.MergeIdempotent | src/pages/Assessment.tsx:101-103 | applying the same update twice equals applying it once |
| Assessment.MergeThen | src/pages/Assessment.tsx:101-103 | two updates in a row equal one combined update in which the later one wins |
| Assessment.MergeOnlyGoals | src/pages/Assessment.tsx:101-103 | an update naming only goals overwrites goals and keeps every other field |
| Assessment.NextOf | src/pages/Assessment.tsx:105-109 | a number stays a number and NaN stays NaN; the step grows by at most one and stays in 0..6 |
| Assessment.PrevOf | src/pages/Assessment.tsx:111-115 | a number stays a number and NaN stays NaN; the step shrinks by at most one and stays in 0..6 |
| Assessment.MovesStayInRange | src/pages/Assessment.tsx:105-115 | from steps 0..6, next adds one below 6 and prev subtracts one above 0, so the step stays in 0..6 |
| Assessment.NaNIsStuck | src/pages/Assessment.tsx:105-115 | a step restored as NaN is moved by neither button |
| Assessment.CanProceed | src/pages/Assessment.tsx:132-143 | true at steps 0 and 6 and false for any step outside 0..6 |
| Assessment.CanProceedWhenComplete | src/pages/Assessment.tsx:132-143 | with background, experience, goals, weekly hours and all three scenarios answered, exactly the steps 0..6 may proceed |
| Assessment.CanProceedInitially | src/pages/Assessment.tsx:132-143 | with the initial answers only steps 0 and 6 may proceed |
| Assessment.CanProceedIgnoresOtherSteps | src/pages/Assessment.tsx:132-143 | for every step, two records that agree on the answers that step asks for get the same verdict, whatever their other fields |
| Assessment.HeaderOf | src/pages/Assessment.tsx:235-248 | the header shows exactly for steps 1..5, and then reads "Step k of 5" with 5−k minutes remaining for the current step k |
| Assessment.ForwardLabel | src/pages/Assessment.tsx:272 | the forward button reads "View Results" exactly at step 5 and "Continue" at every other step, NaN included |
| Assessment.StepText | src/pages/Assessment.tsx:98 | the step text is never empty, starts with `-` exactly for a negative step, and is all digits for a non-negative one |
| Assessment.ParseStep | src/pages/Assessment.tsx:90-92 | the stored step as parseInt reads it; what it means is carried by StepTextRoundTrip (a saved step reads back unchanged) and NonNumericStepIsNaN (blank or non-numeric text reads as NaN) |
| Assessment.NonNumericStepIsNaN | src/pages/Assessment.tsx:90-92 | blank text, and text opening with anything but white space, a sign or a decimal digit, reads as NaN |
| Assessment.StepTextRoundTrip | src/pages/Assessment.tsx:91-98 | a step written with toString is read back unchanged by parseInt, NaN included |
| Assessment.Load | src/pages/Assessment.tsx:83-93 | with neither key stored, the defaults are kept |
| Assessment.SaveThenLoad | src/pages/Assessment.tsx:83-99 | loading what was saved restores the record and the step |
| Assessment.Save | src/pages/Assessment.tsx:96-99 | a save adds exactly the two keys to those already stored, and the stored step text reads back as the step |
| Assessment.SaveMirrors | src/pages/Assessment.tsx:96-99 | after a save both keys mirror the state, and every other stored key is untouched |
| Assessment.Wizard.constructor | src/pages/Assessment.tsx:75-99 | the mount restores saved answers and step and then writes them back |
| Assessment.Wizard.NextStep | src/pages/Assessment.tsx:105-109 | the step advances by the bounded rule without consulting canProceed; storage is rewritten only when the step changed |
| Assessment.Wizard.PrevStep | src/pages/Assessment.tsx:111-115 | the step goes back by the bounded rule; storage is rewritten only when the step changed |
| Assessment.Wizard.UpdateAssessmentData | src/pages/Assessment.tsx:101-103 | the record becomes the merge of the update, and storage mirrors it |
| Assessment.Wizard.CompleteAssessment | src/pages/Assessment.tsx:117-121 | the wizard is marked completed and both keys are removed, leaving the other keys |
| Assessment.CompletedVisitStartsFresh | src/pages/Assessment.tsx:83-121 | after completion, a new visit starts from the initial answers at step 0 |
| AssessmentSteps.Toggle | src/components/assessment/GoalsStep.tsx:65-70 | checking appends the item at the end; unchecking leaves no copy of it and never lengthens the list |
| AssessmentSteps.ToggleOffKeepsOthers | src/components/assessment/GoalsStep.tsx:68 | unchecking keeps every other item with its multiplicity, in order |
| AssessmentSteps.ToggleOffAbsent | src/components/assessment/GoalsStep.tsx:68 | unchecking an absent item changes nothing |
| AssessmentSteps.ToggleOnNoDedup | src/components/assessment/GoalsStep.tsx:67 | checking an item already present adds a second copy |
| AssessmentSteps.ToggleOnThenOff | src/components/assessment/GoalsStep.tsx:66-68 | checking and then unchecking equals unchecking alone |
| AssessmentSteps.GoalChange | src/components/assessment/GoalsStep.tsx:65-70 | the update gives the goals and nothing else, and the goal is among them exactly when it was checked |
| AssessmentSteps.LanguageChange | src/components/assessment/ExperienceStep.tsx:53-58 | the update gives the languages and nothing else, and the language is among them exactly when it was checked |
| AssessmentSteps.DayChange | src/components/assessment/TimeCommitmentStep.tsx:63-68 | the update gives the preferred days and nothing else, and the day is among them exactly when it was checked |
| AssessmentSteps.ChangesTouchOneField | src/components/assessment/GoalsStep.tsx:69 | each handler's update toggles its own list (goals, languages, days) and no other field |
| AssessmentSteps.NoneKeepsOtherLanguages | src/components/assessment/ExperienceStep.tsx:113-118 | checking "None" keeps the languages already chosen |
| AssessmentSteps.GoalDetailsIffCanProceed | src/components/assessment/GoalsStep.tsx:110 | the goal details show exactly when the goals step may be left, and the schedule exactly when the time step may be left |
| AssessmentSteps.GoalDetailsFollowToggle | src/components/assessment/GoalsStep.tsx:65-110 | checking any goal shows the details; unchecking the only chosen goal hides them |
| AssessmentSteps.LanguagesShownForExperience | src/components/assessment/ExperienceStep.tsx:93 | the language section shows for every experience option except "none" |
| AssessmentSteps.DayLabel | src/components/assessment/TimeCommitmentStep.tsx:118 | the label is the first three characters of the day name, or the whole name if shorter |
| AssessmentSteps.DayLabelsOfWeek | src/components/assessment/TimeCommitmentStep.tsx:51-53 | the seven labels have three letters, run Mon..Sun and are all different |
| Results.RecommendedPath | src/components/assessment/ResultsStep.tsx:28-57 | Beginner exactly for "none"/"basic", Intermediate exactly for "projects", Advanced otherwise; the beginner path lasts "3-4 months" and the others "2-3 months" |
| Results.UnknownExperienceIsAdvanced | src/components/assessment/ResultsStep.tsx:50-56 | any other experience, the empty answer included, gives the advanced path |
| Results.TimeEstimate | src/components/assessment/ResultsStep.tsx:59-66 | the estimate has the duration's length (each replace swaps three characters for three), and a duration holding neither "2-3" nor "3-4" is shown unchanged |
| Results.AcceleratedBeginner | src/components/assessment/ResultsStep.tsx:63 | the accelerated pace turns "3-4 months" into "1-2 months" through the chained replaces |
| Results.AcceleratedOthers | src/components/assessment/ResultsStep.tsx:63 | the accelerated pace turns "2-3 months" into "1-2 months" |
| Results.CasualBeginner | src/components/assessment/ResultsStep.tsx:64 | the casual pace turns "3-4 months" into "5-6 months" |
| Results.CasualOthers | src/components/assessment/ResultsStep.tsx:64 | the casual pace turns "2-3 months" into "4-5 months" |
| Results.EstimateForAnswers | src/components/assessment/ResultsStep.tsx:59-66 | for any answers the estimate is the adjusted duration of the recommended path; any other pace leaves it unchanged |
| Results.ReplaceMissing | src/components/assessment/ResultsStep.tsx:63-64 | a replace whose pattern has a character absent from the text leaves the text unchanged |
| Results.Label | src/components/assessment/ResultsStep.tsx:71-90 | a known key with a non-empty label gives the label; otherwise the key itself; the label is empty only for the empty key |
| Results.LabelIsTableValueOrKey | src/components/assessment/ResultsStep.tsx:71-90 | a label is one of the table's labels or the raw key |
| Results.OfferedChoicesAreLabelled | src/components/assessment/ResultsStep.tsx:82-102 | every offered experience and goal choice has its own label |
| Results.GoalsLabels | src/components/assessment/ResultsStep.tsx:92-102 | one label per goal, same length and order, unknown goals shown as themselves |
| Results.GoalsLabelsAppend | src/components/assessment/ResultsStep.tsx:92-102 | labelling distributes over concatenation |
| Results.BadgesFollowLanguageToggles | src/components/assessment/ResultsStep.tsx:141 | checking "None" hides the language badges; checking another language on a list without "None" shows them |
| Projects.FilteredProjects | src/pages/Projects.tsx:207-218 | every listed project is in the catalogue and passes all four tests, and every catalogue project that passes them is listed |
| Projects.FilteredMembership | src/pages/Projects.tsx:207-218 | a project is listed exactly when it is in the catalogue and passes search, category, difficulty and tab; the list is an order-preserving subsequence |
| Projects.EmptyCardIffNoMatch | src/pages/Projects.tsx:370-374 | the "No projects found" card shows exactly when no project passes every test |
| Projects.EmptySearchMatchesAll | src/pages/Projects.tsx:208-209 | the empty search matches every project |
| Projects.SearchIgnoresCase | src/pages/Projects.tsx:208-209 | lower-casing the search term changes no verdict |
| Projects.InitialFiltersListEverything | src/pages/Projects.tsx:202-218 | with the initial controls the whole catalogue is listed |
| Projects.UnknownTabListsNothing | src/pages/Projects.tsx:212-215 | a tab value other than the four the filter tests lists nothing |
| Projects.CategoryNarrows | src/pages/Projects.tsx:210 | choosing a category from "All" gives a subsequence of the unrestricted list |
| Projects.NarrowerFilter | src/pages/Projects.tsx:207-218 | a filter that keeps only what another keeps yields a subsequence of its result |
| Projects.StatusTabSelectsStatus | src/pages/Projects.tsx:212-215 | on a status tab, with the other controls at their initial values, exactly the projects with that status are listed |
| Projects.DifficultyColor | src/pages/Projects.tsx:220-227 | destructive exactly for Advanced, default exactly for Intermediate, secondary otherwise |
| Projects.StatusIconOf | src/pages/Projects.tsx:229-235 | CheckCircle exactly for completed, Play exactly for in-progress, BookOpen otherwise |
| Projects.CatalogueDecorations | src/pages/Projects.tsx:220-235 | on the catalogue, only the in-progress project shows Play and only advanced projects a destructive badge |
| Terminal.LookupResponse | src/components/workspace/TerminalPanel.tsx:204-210 | the loop returns the reply of the first table key, in declaration order, that occurs in the lower-cased command |
| Terminal.FirstHitSpec | src/components/workspace/TerminalPanel.tsx:204-210 | the hit is the smallest index whose key occurs |
| Terminal.FirstHitNone | src/components/workspace/TerminalPanel.tsx:204-210 | there is no hit exactly when no key occurs |
| Terminal.MockResponse | src/components/workspace/TerminalPanel.tsx:187-222 | every command gets a non-empty reply |
| Terminal.FirstHitNonEmpty | src/components/workspace/TerminalPanel.tsx:191-210 | a table whose replies are all non-empty has only non-empty hits |
| Terminal.MockCommandExecution | src/components/workspace/TerminalPanel.tsx:187-222 | the reply is the table hit, else the script message, else the pip message, else the generic reply |
| Terminal.LsWinsFirst | src/components/workspace/TerminalPanel.tsx:191-210 | any command containing "ls" in any letter case gets the file listing |
| Terminal.PipInstallToolsListsFiles | src/components/workspace/TerminalPanel.tsx:191-219 | "pip install tools" gets the listing, not the install message |
| Terminal.PythonMainResponse | src/components/workspace/TerminalPanel.tsx:191-210 | "python main.py" gets its own entry |
| Terminal.MissFallbacks | src/components/workspace/TerminalPanel.tsx:212-221 | without a hit: a python command naming .py gets the script message, else `pip install` gets the pip message, else the generic reply |
| Terminal.PipPackageOfInstall | src/components/workspace/TerminalPanel.tsx:217 | the package reported is the third space-separated word, or "package" if it is missing or empty |
| Terminal.FallbackQuotesCommand | src/components/workspace/TerminalPanel.tsx:221 | the generic reply contains the command with its original casing |
| Terminal.LineAfter | src/components/workspace/TerminalPanel.tsx:42-62 | editing touches only the end of the line: the old and new lines are prefixes of one another, and only Enter removes more than one character |
| Terminal.FeedAppend | src/components/workspace/TerminalPanel.tsx:42-62 | feeding two runs of data is feeding the first, then the second |
| Terminal.TypeThenEnter | src/components/workspace/TerminalPanel.tsx:42-62 | typing printable text then Enter leaves an empty line and submits the trimmed line, unless it is blank |
| Terminal.Submitted | src/components/workspace/TerminalPanel.tsx:43-48 | a command is submitted exactly on Enter with a non-blank line |
| Terminal.BackspaceUndoesTyping | src/components/workspace/TerminalPanel.tsx:51-61 | typing a printable character and then Backspace restores the line |
| Terminal.TypingAppends | src/components/workspace/TerminalPanel.tsx:57-61 | typing printable characters one at a time appends them |
| Terminal.OutcomeLines | src/components/workspace/TerminalPanel.tsx:78-82 | nothing is written exactly when the command returned an empty output; a thrown error is always written |
| Terminal.MockNeverFails | src/components/workspace/TerminalPanel.tsx:71-80 | without a host handler the mock reply is written as one line |
| Terminal.TerminalPanel.constructor | src/components/workspace/TerminalPanel.tsx:34-40 | the welcome lines and prompt, an empty line, not running |
| Terminal.TerminalPanel.StartCommand | src/components/workspace/TerminalPanel.tsx:64-66 | the running flag and the current command are set |
| Terminal.TerminalPanel.FinishCommand | src/components/workspace/TerminalPanel.tsx:68-86 | the outcome's lines are written and the running flag and current command are reset on every path |
| Terminal.TerminalPanel.OnData | src/components/workspace/TerminalPanel.tsx:42-62 | the line follows the editing rule, and a submitted command is started between the newline and the prompt; its output is written later, by FinishCommand |
| Terminal.RunMain | src/components/workspace/TerminalPanel.tsx:103-112 | running the current file answers with the canned reply for "python main.py" |
| Terminal.TerminalPanel.RunCurrentFile | src/components/workspace/TerminalPanel.tsx:103-119 | writes "python main.py", its canned reply and the prompt, and ends not running |
| Terminal.TerminalPanel.StopExecution | src/components/workspace/TerminalPanel.tsx:121-128 | writes the interrupt lines and the prompt and lowers the running flag |
| CodeExecution.ResultOf | src/hooks/useCodeExecution.ts:36-63 | ok: a non-empty output passes through, a missing or empty one becomes "Code executed successfully!", and the error passes through; not ok: the simulated output with exit code 0 and no error; thrown: empty output, exit code 1, and the Error's own message when it has one |
| CodeExecution.ResultDefaults | src/hooks/useCodeExecution.ts:41-60 | a missing exit code reads as 0 and a present one is kept; a non-Error throw gives "Execution failed" |
| CodeExecution.Pushed | src/hooks/useCodeExecution.ts:53-66 | the new result first, then at most nine previous entries in order, so at most ten |
| CodeExecution.HistoryIsLastTen | src/hooks/useCodeExecution.ts:53-66 | from an empty history, a run of executions leaves the last ten results, newest first |
| CodeExecution.PushAllWindow | src/hooks/useCodeExecution.ts:53-66 | pushing several results keeps the first ten of the new results (newest first) followed by the old history |
| CodeExecution.Executor.constructor | src/hooks/useCodeExecution.ts:19-21 | the hook starts not executing, with no last result and an empty history |
| CodeExecution.Executor.ExecuteCode | src/hooks/useCodeExecution.ts:23-72 | the result is the one built for the reply, becomes the last result and the head of the pushed history; the executing flag ends false |
| CodeExecution.Executor.BeginExecution | src/hooks/useCodeExecution.ts:24 | the executing flag is raised and nothing else changes |
| CodeExecution.Executor.FinishExecution | src/hooks/useCodeExecution.ts:34-71 | the result is recorded as last result and history head on every path, and the flag is lowered |
| CodeExecution.Executor.ClearHistory | src/hooks/useCodeExecution.ts:74-77 | the history is emptied and the last result cleared |
| CodeExecution.LazyEnd | src/hooks/useCodeExecution.ts:92 | the lazy capture ends at a quote followed by `)`, with no line terminator before it |
| CodeExecution.LazyEndFirst | src/hooks/useCodeExecution.ts:92 | the end found is the first quote followed by `)`, and there is none exactly when every such quote lies past a line terminator |
| CodeExecution.MatchAt | src/hooks/useCodeExecution.ts:92 | a match ends after its start, within the code, and its captured text holds no line terminator |
| CodeExecution.CapturesOnOneLine | src/hooks/useCodeExecution.ts:92-97 | no captured text holds a line terminator |
| CodeExecution.CapturesNeedCall | src/hooks/useCodeExecution.ts:91-93 | a capture implies an occurrence of the call, so the `includes` test never turns captures away |
| CodeExecution.PrintedOrElse | src/hooks/useCodeExecution.ts:91-100 | without captures the fallback; with captures the output's lines are exactly the captured texts, in order |
| CodeExecution.SimulatedOutput | src/hooks/useCodeExecution.ts:88-117 | python and javascript code with captures simulates to their lines, in order; another language gets "<language> code executed successfully!" |
| CodeExecution.SimulatedFallbacks | src/hooks/useCodeExecution.ts:88-117 | python without `print(` and javascript without `console.log(` get the fixed messages; other languages get "<language> code executed successfully!" |
| CodeExecution.SinglePrintCaptured | src/hooks/useCodeExecution.ts:92-97 | a single call on a quoted string without quotes or line breaks captures exactly that string |
| CodeExecution.CapturesShift | src/hooks/useCodeExecution.ts:92 | the global scan finds the same captures after any text placed in front |
| CodeExecution.EachPrintCaptured | src/hooks/useCodeExecution.ts:92-97 | a program of one call per line on plain literals t1..tn captures exactly [t1, ..., tn], in order |
| CodeExecution.PrintProgramOutput | src/hooks/useCodeExecution.ts:91-98 | such a program's printed output is its texts joined by line breaks |
| CodeExecution.SimulatedPrints | src/hooks/useCodeExecution.ts:88-111 | a python `print('...')` program or a javascript `console.log('...')` program simulates to its texts, one per line |
| ProjectWorkspace.LanguageFromFileName | src/components/workspace/ProjectWorkspace.tsx:98-101 | never empty and never containing `.` |
| ProjectWorkspace.LanguageIsLowerExtension | src/components/workspace/ProjectWorkspace.tsx:98-101 | the lower-cased text after the last `.` (the whole name without one), or "text" when that is empty |
| ProjectWorkspace.LanguageOfDottedName | src/components/workspace/ProjectWorkspace.tsx:98-101 | a name ending in `.ext` gives lower-cased ext |
| ProjectWorkspace.EditorLanguageOfDottedName | src/components/workspace/ProjectWorkspace.tsx:252 | a file whose extension is in the editor table is edited in that table's language |
| ProjectWorkspace.PythonFileRunsAsPy | src/components/workspace/ProjectWorkspace.tsx:79-101 | a `.py` file runs with language "py", so the simulated output is "py code executed successfully!" while the editor shows python |
| ProjectWorkspace.ShortcutOf | src/components/workspace/ProjectWorkspace.tsx:104-118 | save exactly for Ctrl/Cmd+s, run exactly for Ctrl/Cmd+r, nothing otherwise |
| ProjectWorkspace.WorkspacePage.constructor | src/components/workspace/ProjectWorkspace.tsx:40-44 | the page starts with the file system's initial tree, no tabs, no active file, an empty run history, and not saving or executing |
| ProjectWorkspace.WorkspacePage.RunDisabled | src/components/workspace/ProjectWorkspace.tsx:144 | an enabled Run button means an active file and no run in progress |
| ProjectWorkspace.WorkspacePage.SaveDisabled | src/components/workspace/ProjectWorkspace.tsx:155 | an enabled Save button means an active file and no save in progress |
| ProjectWorkspace.WorkspacePage.EnabledRunButtonRuns | src/components/workspace/ProjectWorkspace.tsx:144 | whenever the Run button is enabled, the run guard passes |
| ProjectWorkspace.WorkspacePage.HandleFileClick | src/components/workspace/ProjectWorkspace.tsx:46-50 | only files are opened; a folder click changes nothing |
| ProjectWorkspace.WorkspacePage.HandleEditorChange | src/components/workspace/ProjectWorkspace.tsx:52-56 | without an active file nothing changes; otherwise the content is written at the active path |
| ProjectWorkspace.WorkspacePage.BeginSave | src/components/workspace/ProjectWorkspace.tsx:59-61 | the saving flag is raised exactly when there is an active file |
| ProjectWorkspace.WorkspacePage.HandleSaveFile | src/components/workspace/ProjectWorkspace.tsx:58-77 | no active file: no request and no notice; otherwise the active path is saved, the success notice names the file, and the flag ends false |
| ProjectWorkspace.WorkspacePage.HandleRunCode | src/components/workspace/ProjectWorkspace.tsx:79-96 | runs only for an active file, with its content (empty if none) and the language from its name; otherwise the history is untouched |
| ProjectWorkspace.WorkspacePage.HandleKeyDown | src/components/workspace/ProjectWorkspace.tsx:104-118 | the shortcut dispatches to save or run; any other key does neither |
| CodeEditor.LanguageFromExtension | src/components/workspace/CodeEditor.tsx:37-61 | the table's language for a lower-cased key it lists, and "plaintext" exactly when the lower-cased key is not in the table |
| CodeEditor.LanguageFromExtensionAsWritten | src/components/workspace/CodeEditor.tsx:60 | the lookup escapes the table exactly for the lower-cased keys "constructor" and "__proto__" |
| CodeEditor.AsWrittenAgreesOffPrototype | src/components/workspace/CodeEditor.tsx:60 | on every other key the lookup as written and the corrected one agree |
| CodeEditor.ConstructorKeyEscapesTable | src/components/workspace/CodeEditor.tsx:60 | the key "Constructor" yields a prototype member as written and "plaintext" when corrected |
| CodeEditor.LanguageIgnoresCase | src/components/workspace/CodeEditor.tsx:60 | the result depends only on the lower-cased key |
| CodeEditor.UpperCasePython | src/components/workspace/CodeEditor.tsx:60 | "PY" and "py" both give python |
| CodeEditor.YamlAliases | src/components/workspace/CodeEditor.tsx:56-57 | "yml" and "yaml" both give yaml |
| CodeEditor.TextIsPlaintext | src/components/workspace/CodeEditor.tsx:60 | the workspace's "text" default shows as plaintext |
| CodeEditor.ForwardedChanges | src/components/workspace/CodeEditor.tsx:29-33 | at most one onChange call, none exactly for an undefined value, and a call carries the value |
| FileExplorer.Indent | src/components/workspace/FileExplorer.tsx:60 | the row padding; how it grows with the nesting level is carried by IndentAtAddress |
| FileExplorer.IndentAtAddress | src/components/workspace/FileExplorer.tsx:60 | a visible node at nesting level k is drawn in a row padded 16·(k-1) pixels more than the roots |
| FileExplorer.Rows | src/components/workspace/FileExplorer.tsx:139-153 | at least one row per node, none above the starting depth |
| FileExplorer.RowAtAddress | src/components/workspace/FileExplorer.tsx:139-153 | a node whose ancestors are all expanded folders is drawn at the starting depth plus its nesting depth (roots at d, their children at d+1, ...) |
| FileExplorer.RowsComeFromAddresses | src/components/workspace/FileExplorer.tsx:139-153 | conversely, every row is such a node drawn at exactly that depth |
| FileExplorer.ExpandedRowsArePreorder | src/components/workspace/FileExplorer.tsx:139-153 | with every folder expanded (and files childless), the rows list the tree in depth-first pre-order |
| FileExplorer.RootsAtDepthZero | src/components/workspace/FileExplorer.tsx:139-153 | the first top-level node is drawn first, at depth 0 |
| FileExplorer.CollapsedFolderHidesSubtree | src/components/workspace/FileExplorer.tsx:139 | a collapsed folder shows its own row only |
| FileExplorer.Menu | src/components/workspace/FileExplorer.tsx:111-135 | New File and New Folder appear exactly on folders and create under the folder's own path; Rename and Delete end every menu |
| FileExplorer.HeaderButtonCreatesAtRoot | src/components/workspace/FileExplorer.tsx:172-187 | the header's New File puts "new-file.py" last among the top-level nodes |
| FileExplorer.FileItem.constructor | src/components/workspace/FileExplorer.tsx:36-38 | a row starts expanded, not renaming, with the node's name in the field |
| FileExplorer.FileItem.ShowsChildren | src/components/workspace/FileExplorer.tsx:139 | a file never draws children; a folder draws them exactly while expanded |
| FileExplorer.FileItem.StartRename | src/components/workspace/FileExplorer.tsx:124 | the Rename entry opens the editor and keeps the field's text and the expansion |
| FileExplorer.FileItem.Edit | src/components/workspace/FileExplorer.tsx:88 | typing sets the field's text and changes neither renaming nor expansion |
| FileExplorer.FileItem.ToggleExpanded | src/components/workspace/FileExplorer.tsx:64-68 | the expansion flips and nothing else changes |
| FileExplorer.FileItem.HandleRename | src/components/workspace/FileExplorer.tsx:40-45 | a rename is requested exactly for a non-empty name that differs from the current one, and renaming mode always ends |
| FileExplorer.FileItem.HandleKeyPress | src/components/workspace/FileExplorer.tsx:47-54 | Enter commits as HandleRename; Escape restores the name and ends renaming without a request; other keys change nothing |
| FileExplorer.EscapeThenCommit | src/components/workspace/FileExplorer.tsx:47-54 | after Escape, reopening and pressing Enter requests nothing |
| Chat.TopicOf | src/pages/Chat.tsx:120-130 | the API answer exactly when the lower-cased input contains "api"; the authentication answer exactly when it contains "authentication" but not "api" |
| Chat.ApiWinsOverAuthentication | src/pages/Chat.tsx:121-127 | an input with both keywords gets the API answer |
| Chat.ApiInsideWord | src/pages/Chat.tsx:121 | "Rapid" gets the API answer, since the test is a substring test |
| Chat.ReplyTo | src/pages/Chat.tsx:105-113 | the reply has type code exactly when the input mentions "code", and language javascript exactly when it mentions "node" |
| Chat.ChatPage.constructor | src/pages/Chat.tsx:75-77 | the page starts with the greeting as its only message, an empty input, not typing and no reply pending |
| Chat.ChatPage.SendDisabled | src/pages/Chat.tsx:340 | an enabled Send button always sends (the input is not blank), and the button is disabled while a reply is typed |
| Chat.ChatPage.ShowsSuggestions | src/pages/Chat.tsx:302 | in a conversation opened by the greeting, the suggestions show exactly while the greeting is the only message |
| Chat.ChatPage.SetNewMessage | src/pages/Chat.tsx:132-135 | a suggestion click (and typing in the input, line 332) sets the input and changes nothing else |
| Chat.ChatPage.HandleSendMessage | src/pages/Chat.tsx:89-118 | blank input changes nothing; otherwise the user message is appended, the input cleared, typing shown and the reply scheduled |
| Chat.ChatPage.DeliverReply | src/pages/Chat.tsx:105-117 | the oldest pending reply is appended and typing ends |
| Chat.ChatPage.HandleKeyPress | src/pages/Chat.tsx:137-142 | Enter without Shift on a non-blank draft appends the user message, clears the draft, raises the typing flag and queues the reply; on a blank draft, or on any other key, nothing changes |
| Chat.SendThenReply | src/pages/Chat.tsx:89-118 | after a first exchange the suggestions are hidden and the send button is disabled until new text is typed |
| ChatInterface.PoolOf | src/components/workspace/ChatInterface.tsx:281-306 | the pool is the first keyword group the lower-cased message mentions: stuck/help/confused, then code/review, then explain/concept/understand, then hint/clue, else the default pool |
| ChatInterface.PickIndex | src/components/workspace/ChatInterface.tsx:284-306 | floor(r·len) is an index into the pool for r in [0, 1) |
| ChatInterface.MentorResponse | src/components/workspace/ChatInterface.tsx:261-307 | the reply comes from the selected pool, at a valid position |
| ChatInterface.EveryReplyReachable | src/components/workspace/ChatInterface.tsx:284-306 | every entry of the selected pool is drawn for some random number |
| ChatInterface.StuckActionRoutes | src/components/workspace/ChatInterface.tsx:40-45 | "I'm stuck" reaches the stuck pool |
| ChatInterface.ReviewActionRoutes | src/components/workspace/ChatInterface.tsx:40-45 | "Review my code" reaches the code pool |
| ChatInterface.ExplainActionRoutes | src/components/workspace/ChatInterface.tsx:40-45 | "Explain concept" reaches the concept pool |
| ChatInterface.HintActionRoutes | src/components/workspace/ChatInterface.tsx:40-45 | "Give me a hint" reaches the hint pool |
| ChatInterface.MentorPanel.constructor | src/components/workspace/ChatInterface.tsx:25-36 | the panel starts with the welcome message only, an empty input, not typing, nothing pending and nothing sent to the parent |
| ChatInterface.MentorPanel.SendDisabled | src/components/workspace/ChatInterface.tsx:252 | an enabled Send button always sends, and a pending reply does not disable it |
| ChatInterface.MentorPanel.HandleQuickAction | src/components/workspace/ChatInterface.tsx:93-96 | the action's label is put in the input and nothing is sent |
| ChatInterface.MentorPanel.HandleSendMessage | src/components/workspace/ChatInterface.tsx:60-91 | blank input changes nothing; otherwise the message is appended, the input cleared, typing shown, the reply scheduled and the text passed to the parent |
| ChatInterface.MentorPanel.DeliverReply | src/components/workspace/ChatInterface.tsx:76-88 | any pending timer may fire first; its reply comes from its text's pool and typing ends |
| ChatInterface.MentorPanel.HandleKeyPress | src/components/workspace/ChatInterface.tsx:98-103 | Enter without Shift on a non-blank draft appends the user message, clears the draft, raises the typing flag, queues the reply and hands the text to the parent; on a blank draft, or on any other key, nothing changes |
| ChatInterface.QuickActionRoundTrip | src/components/workspace/ChatInterface.tsx:93-96 | pressing "I'm stuck" and sending it brings a reply from the stuck pool, whatever the random draw |

## Left out

- Network, storage and serialisation are parameters:
  - the `fetch` calls to the save and execute endpoints;
  - `JSON.stringify`/`JSON.parse`;
  - `localStorage` is a string-keyed map of stored records.
- Stored text that is not a saved record is treated as a parse failure; an exception out of `JSON.parse` is not modelled further.
- Time and randomness are parameters or left out:
  - `Date.now()` ids are parameters; timestamps are dropped;
  - `setTimeout` delays are left out, and which pending reply arrives is a parameter;
  - `Math.random()` is a real number in [0, 1).
- Concurrency: each handler is atomic.
  - The exceptions are the split start/finish of `executeCode`, `executeCommand` and `handleSaveFile`, which show the flags raised in between.
  - Overlapping asynchronous runs are not modelled further.
- Rendering is not modelled: xterm, Monaco options, toasts other than the save notice, scrolling, focus, DOM refs.
  - The terminal's `clear` button is not modelled.
  - The `if (terminal)` test before the terminal exists is not modelled.
- The canned reply and greeting texts of the two chats, and the terminal's longer replies, are represented by their topic, pool and position, or by named constants, not by every character.
- CodeExecution.SimulatedOutput: the regular expressions are a hand-written left-to-right scanner. It covers the lazy capture, both quote kinds and the line terminators `.` does not match. It assumes the inner re-match of each found call yields the same capture.
- Results.Label: label tables are looked up as own properties. A background or experience answer equal to a prototype key is not modelled; the answers come from the fixed option lists.
- JsText.Lower: lower-cases only the ASCII letters A-Z, while `toLowerCase` maps all of Unicode. The chat message "APİ" lowers to "api" plus a combining dot (U+0307) in JavaScript and so mentions "api", but not in the model. A file "x.É" runs with language "é" there and "É" here.
- Terminal.LineAfter: strings are sequences of characters, not UTF-16 code units. Backspace (`slice(0, -1)`) after an emoji removes one surrogate in JavaScript and leaves the other; the model removes the whole character.
- Assessment.StepTextRoundTrip: steps are unbounded integers, not floating-point numbers. In JavaScript `parseInt((1e21).toString())` is 1, so a step that large would not survive the round trip; only edited storage can produce one.
- FileSystem.RemoveFromTree: the source stores each filtered child list back into the existing node object (src/hooks/useFileSystem.ts:135), so a tab or active file sharing that folder object loses the removed children too. The model builds new nodes and leaves the tabs as they were.
- Assessment: the progress percentage (floating point) and the redirect after completion are left out.
- Out of scope entirely: the WebSocket hook and the purely presentational pages and steps.

## Findings

| source | as written | input that shows it | evidently intended | confidence | as-written member | corrected member |
|---|---|---|---|---|---|---|
| src/hooks/useFileSystem.ts:143-145 | an active deleted file is replaced by `openFiles[0]` of the tab list from before the delete | "/README.md" open as the first tab and active; `deleteFile("/README.md")` keeps it active although its node and tab are gone | the first remaining tab, as `closeFile` does at lines 174-175 | high; not executed | FileSystem.DeleteReselectsDeletedFile | FileSystem.ActiveAfterCloseIsOpen |
| src/components/workspace/CodeEditor.tsx:60 | `languageMap[lang.toLowerCase()] \|\| 'plaintext'` on a plain object also answers inherited keys | a file named "x.constructor" hands the editor Object's constructor function as its language | "plaintext" for every key the table does not list | medium; not executed | CodeEditor.ConstructorKeyEscapesTable | CodeEditor.LanguageFromExtension |
