# RV Rich Yet — a verified model of the quiz game's core

RV Rich Yet is a "Who Wants to Be a Millionaire" style trivia game written in C++. It exists in three generations that share one design:

- the raylib GUI build under `src/`;
- a console build whose classes live in header files (`*.h`, called the *header* generation below);
- a console build with separate `.cpp` files at the repository root (the *root* generation).

There is also the early single-file `version1.0.cpp`.

The core is the same in every generation:

- a prize ladder of sixteen rungs with safety levels;
- a question bank read from a `|`-separated file, with categories;
- four lifelines (50-50, Ask a Friend, Skip, Hint) and the scoring rules;
- a leaderboard kept in a merge-sorted list and saved in a `|`-separated file;
- player profiles saved in a text file;
- the engine that strings these together into one run;
- the GUI controller's state machine, the name and gender form of the setup screen, and the money formatter.

The model is written in Dafny, one module per component.

- **Generation differences.** Where the generations differ, a module takes a `kind` parameter (`Gui`, `Header`, `Root`) and each difference is an explicit branch.
- **Mutable objects** (ladder, player, heap, bank, leaderboard, profile manager, engine, controller, form) are classes. Their methods have `modifies` clauses, and collections are `seq` or `map` fields the methods reassign.
- **Pure code** (scoring, parsing, formatting, sorting specifications) is written as functions.
- **Loops.** Every loop of the source is a `while` loop with invariants. It is proved against a function that specifies it, and the lemmas next to that function state what the source promises: round trips of save and load, permutation and stability of the sorts, heap order, bounds, and positions of safety levels.

Files are modelled by their contents: a string, or `None` when the file cannot be opened. Saving returns the text written. Random draws come from an oracle `rand: nat -> nat`.

## Model

| member | source | states |
|---|---|---|
| Text.IndexOf | src/leaderboard.cpp:99-106 | the first position of the delimiter, or the length when there is none; every earlier character differs from it |
| Text.IndexOfUnique | src/leaderboard.cpp:99-106 | any position with those three properties is the one IndexOf returns |
| Text.TokensOfJoin | src/leaderboard.cpp:74-85 | reading the `getline` token stream of fields joined by a delimiter gives back the fields, provided no field holds the delimiter and the last is not empty |
| Text.JoinFree | src/leaderboard.cpp:74-85 | joined fields free of a character give a line free of it, and two or more fields never join to the empty line |
| Text.TokensOfUnlines | src/leaderboard.cpp:74-97 | splitting a saved file (each line followed by a newline) into lines gives back the saved lines, empty ones included |
| Text.TokensStep | src/leaderboard.cpp:99-106 | one turn of the `getline` loop: the token starting at a position ends at the next delimiter |
| Text.ReadTokens | src/leaderboard.cpp:99-106 | the `getline` loop yields exactly the token list of the line |
| Text.DigitChar | src/leaderboard.cpp:74-85 | a digit below ten is written as a decimal digit character |
| Text.DigitValue | src/leaderboard.cpp:111-116 | a digit character stands for a value below ten |
| Text.DigitRun | src/leaderboard.cpp:111-116 | the longest prefix made of digits, which is where `stoi` stops reading |
| Text.NatToStringDigits | src/leaderboard.cpp:74-85 | `std::to_string` of a natural number is a non-empty digit string whose value is that number |
| Text.AllDigitsRun | src/leaderboard.cpp:111-116 | `stoi` reads the whole of a string made only of digits |
| Text.ParseUnsigned | src/leaderboard.cpp:111-116 | `stoi` on a run of digits gives its value |
| Text.ParseMinusAny | src/leaderboard.cpp:111-116 | `stoi` on a minus sign gives the negated value of the digits after it, and fails when there are none |
| Text.ParseIntOfIntToString | src/leaderboard.cpp:74-116 | `stoi(to_string(n)) == n` for every integer |
| Text.ParseNegativeToString | src/leaderboard.cpp:74-116 | the same round trip for negative integers |
| Text.IntToStringFree | src/leaderboard.cpp:74-85 | a written integer is never empty and never holds a separator that is neither a digit nor a minus sign |
| Shuffles.Swap | src/game_logic.cpp:23-26 | `std::swap` of two cells: same length and elements, the two cells exchanged, all others unchanged |
| Shuffles.ShuffleFromPermutes | src/game_logic.cpp:23-26 | whatever the random draws, the shuffle loop only rearranges: same length, same multiset, and distinct elements stay distinct |
| Shuffles.SwapDistinct | src/game_logic.cpp:23-26 | swapping two cells of a duplicate-free sequence leaves it duplicate-free |
| Shuffles.FisherYatesPermutes | src/question_bank.cpp:105-113 | the whole shuffle permutes its input and keeps it duplicate-free |
| Shuffles.Shuffle | src/question_bank.cpp:105-113 | the shuffle loop computes the Fisher-Yates specification and returns a permutation of its input |
| GuiStates.GameStateManager.constructor | src/game_state.cpp:3 | a new manager starts on the splash screen with no result |
| GuiStates.GameStateManager.SetState | src/game_state.cpp:5-8 | the new state is the one given |
| GuiStates.GameStateManager.SetResult | src/game_state.cpp:15-18 | the last result is the one given |
| ConsoleStates.GameStateManager.constructor | game_state.cpp:5 | a new manager starts in the menu with result Correct |
| ConsoleStates.GameStateManager.SetState | game_state.cpp:7-9 | the new state is the one given |
| ConsoleStates.GameStateManager.SetResult | game_state.cpp:15-17 | the last result is the one given |
| HeaderStates.StateStringNamesEachState | game_state.h:66-79 | `getStateString` names each state by its own string and never falls through to "UNKNOWN" |
| HeaderStates.GameStateManager.constructor | game_state.h:43-47 | a new manager is in the menu, came from the menu, holds the result Quit and is flagged as changed |
| HeaderStates.GameStateManager.SetState | game_state.h:49-55 | a move to a different state records the old one as previous and raises the change flag; setting the current state again changes nothing; the previous state differs from the current one except at the start |
| HeaderStates.GameStateManager.AcknowledgeStateChange | game_state.h:61 | the change flag is cleared |
| HeaderStates.GameStateManager.SetResult | game_state.h:63-64 | the last result is the one given |
| PrizeLadders.Prizes | src/data_structures.cpp:22 | sixteen prize amounts per table |
| PrizeLadders.SafetyFlags | src/data_structures.cpp:25 | sixteen safety flags per table |
| PrizeLadders.Table | src/data_structures.cpp:20-45 | the ladder has sixteen rungs |
| PrizeLadders.TableShape | src/data_structures.cpp:20-45 | rung i holds level i, the first prize is 0, prizes rise strictly up the ladder, and a rung is a safety rung exactly at levels that are multiples of 5 (GUI) or 3 mod 4 (header) |
| PrizeLadders.LastSafetyBelow | src/data_structures.cpp:59-64 | the nearest safety rung strictly below a position, or -1; no safety rung lies between the two |
| PrizeLadders.GuiLastSafety | src/data_structures.cpp:55-72 | in the GUI table a miss at level k > 0 falls back to the previous multiple of 5 below k |
| PrizeLadders.GuiHeadFallbackUnreachable | src/data_structures.cpp:69-70 | in the GUI table a safety rung is always found, so the fall back to the head never decides the move |
| PrizeLadders.ConsoleLastSafety | data_structures.h:79-87 | in the header table there is no safety rung below level 4, and otherwise the nearest one lies at the previous level that is 3 mod 4 |
| PrizeLadders.ConsoleSafetyTarget | data_structures.h:79-87 | a header-table miss at level 3 or below leaves the cursor where it is; above that it drops to the previous level that is 3 mod 4 |
| PrizeLadders.PrizeLadder.constructor | src/data_structures.cpp:20-45 | `initializeLadder` links the table's sixteen rungs in order, counts them, and leaves the cursor at the head |
| PrizeLadders.PrizeLadder.CurrentPrize | src/data_structures.cpp:82-85 | the current prize is the table's amount for the current level |
| PrizeLadders.PrizeLadder.CurrentLevel | src/data_structures.cpp:87-90 | the current level lies between 0 and 15 and is the cursor position |
| PrizeLadders.PrizeLadder.IsSafetyLevel | src/data_structures.cpp:92-95 | the current rung's flag, which holds exactly at the table's safety levels |
| PrizeLadders.PrizeLadder.MoveForward | src/data_structures.cpp:47-53 | the cursor moves one rung up unless it is at the top |
| PrizeLadders.PrizeLadder.MoveToSafetyLevel | src/data_structures.cpp:55-72 | from the head nothing moves; otherwise the cursor lands on the nearest safety rung below it, or on the head (GUI) or where it was (header) when there is none |
| PrizeLadders.PrizeLadder.ResetLadder | src/data_structures.cpp:74-80 | the cursor returns to level 0, prize 0 |
| Players.Player.constructor | src/data_structures.cpp:101-107 | a new player has zero counters, no asked questions and every lifeline slot unused |
| Players.Player.RecordQuestion | src/data_structures.cpp:109-117 | the question id is recorded as asked and every earlier id stays asked |
| Players.LifelineStack.constructor | src/data_structures.hpp:72-79 | a new lifeline stack has an empty history, so its count is zero |
| Players.LifelineStack.UsedLifeline | src/data_structures.cpp:120-133 | the lifeline is pushed on the history and the count grows by one |
| Players.RootIsMax | data_structures.h:149-192 | in a heap-ordered sequence no question has a higher category than the root |
| Players.LargerChild | src/data_structures.cpp:150-154 | the child `bubbleDown` picks has a category at least that of every child of the index |
| Players.SiftDownStep | src/data_structures.cpp:155-159 | swapping with that child when it outranks the index moves the only possible heap violation down to the child |
| Players.SiftDownDone | src/data_structures.cpp:160-163 | when the index outranks its children the heap is in order again |
| Players.SiftDownLeaf | src/data_structures.cpp:148 | an index without children leaves nothing to repair |
| Players.QuestionPriorityQueue.constructor | data_structures.h:150-152 | a new queue is an empty heap |
| Players.QuestionPriorityQueue.BubbleUp | src/data_structures.cpp:136-143 | when only the edge above the index may be out of order, `bubbleUp` restores heap order without changing the multiset of questions |
| Players.QuestionPriorityQueue.BubbleDown | src/data_structures.cpp:145-165 | when only the edges below the index may be out of order, `bubbleDown` restores heap order without changing the multiset of questions |
| Players.QuestionPriorityQueue.Insert | src/data_structures.cpp:167-171 | the question is added, and the heap stays in order with one more element |
| Players.QuestionPriorityQueue.ExtractMax | src/data_structures.cpp:173-181 | the result is a question of highest category, it is removed once, and the rest stays heap-ordered |
| GameLogics.WrongBelow | src/game_logic.cpp:16-21 | the wrong-answer list holds, in increasing order, every index below the bound except the correct one: three entries when the correct index is in range, four otherwise |
| GameLogics.FiftyFiftyRemovesTwoWrong | src/game_logic.cpp:11-38 | whatever the random draws, 50-50 removes exactly two different options, both in 0..3 and both wrong |
| GameLogics.WrongIndicesPermuted | src/game_logic.cpp:23-32 | any rearrangement of the wrong-answer list begins with two different wrong indices in 0..3 |
| GameLogics.CDiv | src/game_logic.cpp:107 | C++ integer division by a positive divisor: Euclidean division for non-negative dividends, never positive for non-positive ones |
| GameLogics.PointsByTier | src/game_logic.cpp:105-108 | difficulty 1 pays 100 points per rung, and difficulties 2 and 3 both pay 200 per rung because of the integer division |
| GameLogics.PointsMonotone | src/game_logic.cpp:105-119 | with the difficulty each level is given, points never fall as the level rises, and are at least 100 |
| GameLogics.GetStreakBonus | src/game_logic.cpp:110-113 | the streak bonus is never negative |
| GameLogics.StreakBonusSteps | src/game_logic.cpp:110-113 | no bonus up to two answers in a row, then 50 more for each further one; the bonus never falls as the streak grows |
| GameLogics.GetNextDifficulty | src/game_logic.cpp:115-119 | the difficulty is 1, 2 or 3; it is 1 exactly below level 5 and 3 exactly from level 10 |
| GameLogics.GetTimeLimit | src/game_logic.cpp:121-128 | difficulties 1, 2 and 3 get 45, 35 and 25 seconds, and exactly the other values get 30 |
| GameLogics.TimeLimitNonIncreasing | src/game_logic.cpp:115-128 | the seconds granted never grow as the player climbs, and are always 45, 35 or 25 |
| GameLogics.UsedCount | src/game_logic.cpp:142-148 | the number of used flags among the first k slots is at most k |
| GameLogics.NoneUsed | src/game_logic.cpp:142-148 | the count of used flags is zero exactly when no flag is set |
| GameLogics.GameLogic.constructor | src/game_logic.cpp:5-9 | a new logic has TOTAL_LIFELINES slots (4 in the GUI build, 3 in the header build), all unused with usage count 0 |
| GameLogics.GameLogic.IsLifelineAvailable | src/game_logic.cpp:83-88 | a lifeline is available only if its index is in range, and then exactly when it has not been applied |
| GameLogics.GameLogic.MarkUsed | src/game_logic.cpp:34-35 | the slot becomes used with usage count 1, and the other slots are unchanged |
| GameLogics.GameLogic.Apply50_50Lifeline | src/game_logic.cpp:11-38 | a used 50-50 returns nothing and changes nothing; otherwise it returns the first two shuffled wrong indices and marks only the 50-50 slot |
| GameLogics.GameLogic.ApplyAskFriendLifeline | src/game_logic.cpp:40-60 | a used lifeline returns -1 and changes nothing; otherwise the friend names the correct index when the first draw mod 100 is below 85, and a wrong index in 0..3 when it is not; only the Ask Friend slot is marked |
| GameLogics.GameLogic.ApplySkipLifeline | src/game_logic.cpp:62-70 | skipping succeeds exactly when Skip is unused; a success marks only the Skip slot, and a refusal changes nothing |
| GameLogics.GameLogic.ApplyHintLifeline | src/game_logic.cpp:72-81 | a used hint returns the empty string and changes nothing; otherwise the question's hint is returned and only the Hint slot is marked |
| GameLogics.GameLogic.ResetLifelines | src/game_logic.cpp:98-103 | every slot is back to unused with usage count 0, so every lifeline is available |
| GameLogics.GameLogic.GetTotalLifelinesUsed | src/game_logic.cpp:142-148 | the count of used slots, between 0 and TOTAL_LIFELINES, and zero exactly when every lifeline is available |
| MoneyFormats.FormatMoney | src/raylib_renderer.cpp:33-43 | the result is "$" followed by `to_string(amount)` with a comma before every group of three digits counted from the right |
| MoneyFormats.InsertCommas | src/raylib_renderer.cpp:36-41 | the insertion loop, which starts at `length - 3` and steps back by three while the position is positive, yields the grouped text |
| MoneyFormats.GroupsStep | src/raylib_renderer.cpp:39-40 | one insertion of a comma extends the grouped tail by one group of three |
| MoneyFormats.StripWithCommas | src/raylib_renderer.cpp:36-41 | removing the commas from the grouped text gives back the original text |
| MoneyFormats.FormatMoneyDigits | src/raylib_renderer.cpp:33-43 | the formatted amount starts with "$", and without "$" and its commas it is `to_string(amount)` |
| MoneyFormats.CommaCount | src/raylib_renderer.cpp:36-41 | a text of n characters gets (n - 1) / 3 commas |
| MoneyFormats.NoCommaBelowThousand | src/raylib_renderer.cpp:36 | amounts from 0 to 999 are written without a comma |
| MoneyFormats.CommaFromThousand | src/raylib_renderer.cpp:36-41 | amounts from 1000 on contain at least one comma |
| MoneyFormats.OneMillion | src/raylib_renderer.cpp:33-43 | the top prize is shown as "$1,000,000" |
| MoneyFormats.NegativeSixDigits | src/raylib_renderer.cpp:35-41 | the minus sign counts as a digit, so -123456 gets a comma straight after it ("-,123,456") |
| MoneyFormats.FormatMoneyShort | gui_renderer.h:348-355 | the abbreviated amount is never empty |
| MoneyFormats.ParseNumberThen | gui_renderer.h:350-352 | a decimal number followed by a non-digit suffix reads back as that number |
| MoneyFormats.FormatMoneyShortReadBack | gui_renderer.h:348-355 | from ten million on the text is whole crores followed by "Cr"; from one hundred thousand it is 1 to 99 whole lakhs followed by "L"; below that it is the exact amount; in each case the amount lies between the number shown and one unit more |
| MoneyFormats.ShortExamples | gui_renderer.h:348-355 | 50,000,000 is "5Cr", 1,250,000 is "12L" and 99,999 is written in full |
| SetupForms.Typed | src/raylib_renderer.cpp:48-57 | the polling loop keeps the old text as a prefix, never takes it past the length limit, and appends only printable codes |
| SetupForms.Erased | src/raylib_renderer.cpp:58-61 | backspace removes the last character when there is one and otherwise changes nothing |
| SetupForms.Run | src/raylib_renderer.cpp:48 | the run of codes the loop consumes holds only positive codes |
| SetupForms.Printables | src/raylib_renderer.cpp:50 | the codes the loop accepts are printable |
| SetupForms.TypedTakesPrintables | src/raylib_renderer.cpp:48-57 | the loop appends exactly the first `maxLength - count` printable codes of the run before the first non-positive code |
| SetupForms.HandleTextInput | src/raylib_renderer.cpp:45-61 | an inactive box is untouched; an active one gets the typed text, then backspace, with a NUL after the text and the rest of the buffer as it was |
| SetupForms.PollKeys | src/raylib_renderer.cpp:48-57 | the polling loop leaves the typed text at the head of the buffer, with a NUL after it whenever something was appended, and nothing else changed |
| SetupForms.Append | src/raylib_renderer.cpp:52-54 | one character goes in at the count, the count grows by one, and a NUL follows |
| SetupForms.TypedStep | src/raylib_renderer.cpp:50-56 | one turn of the loop consumes one positive code |
| SetupForms.TypedStops | src/raylib_renderer.cpp:48 | the loop stops at a non-positive code or when the queue is empty |
| SetupForms.CStringOfCount | src/raylib_renderer.cpp:342-343 | the `std::string` built from a buffer holding printable text followed by a NUL is exactly that text |
| SetupForms.Upper | src/raylib_renderer.cpp:329 | `toupper` shifts the lower-case letters by 32 and leaves every other character alone |
| SetupForms.SetupForm.constructor | src/raylib_renderer.hpp:86-91 | both buffers start zero-filled, both counts are 0 and no box is selected |
| SetupForms.SetupForm.Reset | src/raylib_renderer.cpp:293-301 | the Play button empties both boxes (only the first cell of each buffer is written) and selects the name box |
| SetupForms.SetupForm.HandleInput | src/raylib_renderer.cpp:316-348 | one frame of the setup screen: a click selects the box hit, the name box edits through `handleTextInput`, the gender box takes one letter, and Enter submits both strings when both are non-empty; the buffers stay well-formed |
| SetupForms.SetupForm.EditName | src/raylib_renderer.cpp:325 | the name becomes the edited name when the name box is selected, and is untouched otherwise |
| SetupForms.SetupForm.EditGender | src/raylib_renderer.cpp:326-338 | the gender becomes the edited gender when the gender box is selected, and is untouched otherwise |
| SetupForms.SetupForm.Submit | src/raylib_renderer.cpp:340-347 | Enter with both boxes filled submits the two strings and deselects the boxes; otherwise nothing is submitted and nothing changes |
| SetupForms.Edited | src/raylib_renderer.cpp:325 | a name within the sixteen-character limit stays within it after a frame |
| SetupForms.GenderKeepsLetter | src/raylib_renderer.cpp:326-338 | the gender box only ever holds "", "M" or "F" |
| SetupForms.GenderUppercased | src/raylib_renderer.cpp:328-331 | m and M are stored as "M", f and F as "F" |
| SetupForms.GenderHoldsOne | src/raylib_renderer.cpp:327-337 | a filled gender box ignores further letters, and only backspace clears it |
| SetupForms.SubmitOnlyWhenFilled | src/raylib_renderer.cpp:340-347 | a pair is submitted exactly when Enter is pressed with both boxes non-empty, and neither submitted string is empty |
| SetupForms.NameStaysBounded | src/raylib_renderer.cpp:45-61 | the name never grows past sixteen characters and holds only printable characters |
| SetupForms.FullNameIgnoresKeys | src/raylib_renderer.cpp:50 | a full name box ignores typing |
| QuestionBanks.Find | src/question_bank.cpp:83-90 | the first position holding the value, or the length when it is absent; a present value is always found |
| QuestionBanks.RecordFields | src/question_bank.cpp:65-92 | every build reads id, category, text and hint from tokens 0, 1, 2 and 8, and keeps the four options as a permutation of tokens 3 to 6; the correct index points at the option that was at the original index, at its first equal position after the GUI shuffle; without the shuffle the options stay in file order |
| QuestionBanks.ParsedStep | src/question_bank.cpp:42-98 | one more line adds one question when it is kept and none when it is skipped |
| QuestionBanks.StoreAnswersAppend | src/question_bank.cpp:95 | storing the answers of two batches in turn is storing those of both |
| QuestionBanks.FileCategoriesAppend | src/question_bank.cpp:97 | filing two batches in turn is filing both |
| QuestionBanks.FileCategoriesLookup | src/question_bank.cpp:7-20 | filing appends, for every category, exactly the ids of that category's questions in load order |
| QuestionBanks.StoreAnswersLast | src/question_bank.cpp:95 | every loaded id is a key of the answer map, holding the correct answer text of the last question loaded with that id |
| QuestionBanks.StoreAnswersKeys | src/question_bank.cpp:95 | storing the answers of loaded questions adds a key for each of their ids and no other key |
| QuestionBanks.IdsAppendPermute | src/question_bank.cpp:102-113 | the ids of a shuffled list of old and new questions are the ids of both parts |
| QuestionBanks.FirstUnasked | src/question_bank.cpp:115-125 | the result is the sentinel or one of the bank's questions |
| QuestionBanks.FirstUnaskedIsFirst | src/question_bank.cpp:115-125 | the result is the earliest question whose id has not been asked, and the sentinel exactly when every question has been asked |
| QuestionBanks.FindById | src/question_bank.cpp:136-143 | the result is a question of the list carrying the id and preceded by no other question with that id, so the first one; none exactly when no question carries it |
| QuestionBanks.CorrectAnswerAgrees | src/question_bank.cpp:132-144 | for the question the bank finds by id, the bank's answer check and GameLogic's `validateAnswer` agree |
| QuestionBanks.CategoryNamesDistinct | src/question_bank.cpp:150-169 | the six categories have six different names, and exactly the other ids get "Unknown" |
| QuestionBanks.CategoryNetwork.constructor | src/question_bank.cpp:7-10 | a new network has no categories |
| QuestionBanks.CategoryNetwork.AddQuestionToCategory | src/question_bank.cpp:7-10 | the id is appended to its category's list, and the other categories are unchanged |
| QuestionBanks.QuestionBank.constructor | src/question_bank.cpp:32 | a new bank holds no questions, no answers and an empty category network, so its answer map is keyed by exactly its ids |
| QuestionBanks.QuestionBank.ParseRecord | src/question_bank.cpp:65-92 | a kept line's tokens become the question Record describes |
| QuestionBanks.QuestionBank.FindCorrect | src/question_bank.cpp:83-90 | the scan stops at the first option equal to the correct answer |
| QuestionBanks.QuestionBank.LoadLine | src/question_bank.cpp:48-98 | an empty line, or one with fewer than nine tokens, is skipped; a kept line appends its question, stores its answer and, when the build has categories, files its id |
| QuestionBanks.QuestionBank.LoadFromFile | src/question_bank.cpp:34-103 | a file that cannot be opened returns false and changes nothing; otherwise the kept records are appended in file order, their answers stored and their ids filed, the whole list shuffled, and true returned; an answer map keyed by exactly the bank's ids stays so |
| QuestionBanks.QuestionBank.ShuffleQuestions | src/question_bank.cpp:105-113 | the question list becomes its Fisher-Yates shuffle, and so a permutation of itself with the same ids |
| QuestionBanks.QuestionBank.GetNextQuestion | src/question_bank.cpp:115-125 | the first question not yet asked, or the "No more questions" sentinel with id -1 once every question has been asked |
| QuestionBanks.QuestionBank.IsCorrectAnswer | src/question_bank.cpp:132-144 | true exactly when the first question carrying the id has that correct index; an unknown id gives false |
| QuestionBanks.QuestionBank.GetCorrectAnswer | src/question_bank.cpp:127-130 | the stored answer text for the id, or the `out_of_range` error for a missing key; in a bank whose answer map is keyed by its ids, which construction and loading keep, the text exists exactly for the ids of the loaded questions |
| LeaderboardSort.LessIsStrictWeakOrder | src/leaderboard.hpp:20-30 | `operator<` puts more winnings first, and then the higher level; it is irreflexive, transitive and asymmetric; two entries are incomparable exactly when winnings and level are equal; the induced "not after" relation is total and transitive; `operator>` is its converse |
| LeaderboardSort.Merge | src/leaderboard.cpp:21-47 | the merged run is as long as both runs together |
| LeaderboardSort.MergeCons | src/leaderboard.cpp:26-36 | the strict test takes the left head only when it comes strictly first, so on a tie the right head goes first |
| LeaderboardSort.MergePermutes | src/leaderboard.cpp:21-47 | merging keeps exactly the elements of both runs |
| LeaderboardSort.LeftSize | src/leaderboard.cpp:14 | `mid = left + (right - left) / 2` leaves both halves non-empty |
| LeaderboardSort.MSort | src/leaderboard.cpp:10-19 | sorting keeps the length |
| LeaderboardSort.MergeSorted | src/leaderboard.cpp:21-47 | merging two sorted runs gives a sorted run |
| LeaderboardSort.HeadFirst | src/leaderboard.cpp:26-36 | a head no later than both runs' heads, put in front of their sorted merge, keeps it sorted |
| LeaderboardSort.MSortSortedPermutation | src/leaderboard.cpp:67-72 | `sortEntries` yields a sorted permutation of the entries |
| LeaderboardSort.MSortSwapsTies | src/leaderboard.cpp:28-35 | the sort is not stable: two entries equal in winnings and level come out in swapped order |
| LeaderboardSort.MergedRuns | src/leaderboard.cpp:23-41 | the buffer `merge` fills is the merge of the two runs |
| LeaderboardSort.MergeLists | src/leaderboard.cpp:24-41 | the three loops of `merge` produce exactly the merge of the two runs |
| LeaderboardSort.MergeStep | src/leaderboard.cpp:26-36 | one turn of the first loop takes the head the strict test picks |
| LeaderboardSort.RunsExhausted | src/leaderboard.cpp:38-41 | once one run is used up, the rest of the merge is the rest of the other run |
| LeaderboardSort.CopyRun | src/leaderboard.cpp:38-41 | a tail loop appends the rest of a run to the buffer |
| LeaderboardSort.MergeRuns | src/leaderboard.cpp:21-47 | `merge` writes the merge of the two runs over the range and touches nothing outside it |
| LeaderboardSort.Compose | src/leaderboard.cpp:15-17 | merging the sorted halves is the sort of the whole range |
| LeaderboardSort.Halves | src/leaderboard.cpp:14-16 | the two recursive calls cover exactly the halves the specification splits the range into |
| LeaderboardSort.MergeSort | src/leaderboard.cpp:10-19 | `mergeSort` sorts the range in place as MSort specifies, and leaves the rest of the array unchanged |
| LeaderboardSort.SortHalves | src/leaderboard.cpp:15-16 | the two recursive calls sort each half and change nothing outside the range |
| LeaderboardSort.SortLeft | src/leaderboard.cpp:15 | the first call sorts the left half and leaves the right half and the outside unchanged |
| LeaderboardSort.SortRight | src/leaderboard.cpp:16 | the second call sorts the right half and leaves the left half and the outside unchanged |
| Leaderboards.EntryLines | src/leaderboard.cpp:77-83 | one saved line per entry, in order |
| Leaderboards.LoadedStep | src/leaderboard.cpp:94-118 | one more line of the file adds what that line loads as |
| Leaderboards.EntryLineTokens | src/leaderboard.cpp:80-82 | a saved line is non-empty and free of newlines, and its `|` tokens are the saved fields: name, winnings, level and games played, with the timestamp before games played on the header board |
| Leaderboards.SaveLoadRoundTrip | src/leaderboard.cpp:74-121 | on the GUI and header boards, loading the saved file gives back exactly the saved entries, given names and timestamps free of separators (the GUI board keeps no timestamp) |
| Leaderboards.LoadedLinesOf | src/leaderboard.cpp:94-118 | the saved lines load as the entries they came from |
| Leaderboards.LoadAll | src/leaderboard.cpp:94-118 | lines that each load as an entry load as exactly those entries, in order |
| Leaderboards.SkipAll | src/leaderboard.cpp:96-117 | lines that are each skipped load as nothing |
| Leaderboards.EntryLinesPrefix | src/leaderboard.cpp:77-83 | the first n saved lines are the lines of the first n entries |
| Leaderboards.EntryLineLoads | src/leaderboard.cpp:74-118 | one saved line of the GUI or header board is accepted and parses back to its entry |
| Leaderboards.IntsParse | src/leaderboard.cpp:111-116 | the written winnings, level and games played read back with `stoll`/`stoi` |
| Leaderboards.RootBoardNeverReloads | leaderboard.cpp:64-102 | the root board writes four fields per line but its loader asks for five or more, so nothing it saves is ever read back |
| Leaderboards.RootLinesRejected | leaderboard.cpp:90 | every saved root line is skipped by the five-token test |
| Leaderboards.NewlineTimestampLost | leaderboard.h:91-129 | a timestamp ending in a newline, as `ctime` makes it, splits the header board's saved line in two lines of four and two tokens, so the entry is not read back |
| Leaderboards.HeaderLineSplit | leaderboard.h:94-96 | the saved header line with a newline-terminated timestamp is "name\|w\|l\|time", a newline, and "\|games" |
| Leaderboards.JoinExtendLast | leaderboard.h:94-96 | extending the last field extends the written line |
| Leaderboards.ShortLinesRejected | leaderboard.h:117 | lines of four and two tokens are both below the header board's five and load as nothing |
| Leaderboards.AverageLevelIsFloorOfMean | src/leaderboard.cpp:159-169 | with levels between 0 and a bound, the average is the floor of the mean and lies between 0 and the bound |
| Leaderboards.SumLevelsBounds | src/leaderboard.cpp:163-167 | the sum of levels lies between 0 and the count times the bound |
| Leaderboards.History | src/leaderboard.cpp:134-145 | the history holds only entries with the name, and no entry more often than the board does |
| Leaderboards.HistoryComplete | src/leaderboard.cpp:134-145 | every entry with the name appears in the history as often as on the board |
| Leaderboards.AddedToKeeps | src/leaderboard.cpp:49-65 | after `addEntry` the list is sorted and at most 100 long; below the cap it holds the new entry and all the old ones; at the cap it holds the first 100 of the sorted old entries plus the new one, none of which comes after a dropped entry, so the best 100 |
| Leaderboards.Leaderboard.constructor | src/leaderboard.cpp:5-8 | a new board holds the sorted entries loaded from the file, or none when it cannot be opened |
| Leaderboards.Leaderboard.SortEntries | src/leaderboard.cpp:67-72 | the entries become their merge sort, a sorted permutation of themselves |
| Leaderboards.Leaderboard.LoadFromFile | src/leaderboard.cpp:87-121 | a file that cannot be opened changes nothing; otherwise the loaded entries are appended in file order and everything is sorted |
| Leaderboards.Leaderboard.LoadLine | src/leaderboard.cpp:96-117 | a non-empty line with the accepted token count appends its entry; any other line adds nothing |
| Leaderboards.Leaderboard.SaveToFile | src/leaderboard.cpp:74-85 | the file holds one line per entry, in order |
| Leaderboards.Leaderboard.AddEntry | src/leaderboard.cpp:49-65 | the player's result is appended (without timestamp on the GUI board), the best 100 are kept when there are more (AddedToKeeps), the list is sorted and saved |
| Leaderboards.Leaderboard.GetTopEntries | src/leaderboard.cpp:123-132 | the first min(count, size) entries, and none for a negative count |
| Leaderboards.Leaderboard.GetPlayerHistory | src/leaderboard.cpp:134-145 | the entries carrying exactly this name, in stored order |
| Leaderboards.Leaderboard.GetTotalPrizePool | src/leaderboard.cpp:149-157 | the sum of all winnings |
| Leaderboards.Leaderboard.GetAverageLevel | src/leaderboard.cpp:159-169 | 0 for an empty board; otherwise the level sum converted to the unsigned size type, divided by the count, and truncated back to `int` |
| Profiles.NewStats | player_profile.h:28-31 | a new profile carries the name and gender given, and every counter is zero |
| Profiles.RecordedFields | player_profile.h:39-46 | recording a game adds one game and the winnings and keeps the best level; the header build adds the questions answered to both answer counters, the root build leaves them alone; name and gender are unchanged |
| Profiles.AfterGame | player_profile.cpp:16-25 | after `updatePlayerStats` a known name's profile has the game recorded, every other profile is untouched, and no name is added |
| Profiles.RecordedAllTotals | player_profile.h:39-46 | from a new profile, the counters after a series of games are the number of games, the total winnings and the best level reached (0 when no level was higher); the header build's two answer counters both equal the total answered |
| Profiles.SanitizeName | player_profile.h:68-76 | the sanitised name has no `\|` and no newline and is no longer than the input |
| Profiles.SanitizeKeepsClean | player_profile.h:68-76 | a name without `\|` or newline comes back unchanged |
| Profiles.SanitizeIdempotent | player_profile.h:68-76 | sanitising twice is the same as sanitising once |
| Profiles.SanitizeCounts | player_profile.h:68-76 | every character other than `\|` and newline survives exactly as often as in the input |
| Profiles.Fields | player_profile.cpp:34-36 | a saved line has five fields in the root store and eight in the header store |
| Profiles.ProfileLines | player_profile.h:139-145 | one line per profile, in the order the map iterates |
| Profiles.LoadedStep | player_profile.cpp:46-64 | one more line of the file applies that line's update to the map |
| Profiles.LoadedConsistent | player_profile.h:150-179 | after loading, every profile is still filed under its own name, and root profiles still have no answer counts |
| Profiles.LineLoadsInto | player_profile.cpp:57-63 | a kept line files its profile under its first token |
| Profiles.LoadsAsOk | player_profile.cpp:57-61 | lines that each load as some profile are read without an exception |
| Profiles.LoadAll | player_profile.cpp:46-64 | lines that each file a profile load as those assignments, in order, later lines overwriting earlier ones |
| Profiles.PutAllRebuilds | player_profile.cpp:33-37 | filing every listed name with its profile, starting from an empty map, rebuilds the map |
| Profiles.ProfileLineLoads | player_profile.cpp:31-66 | the saved line of a consistent profile contains no newline and loads back as that profile under its name |
| Profiles.FieldsFree | player_profile.cpp:34-36 | the saved fields hold no separator when the name and gender hold none |
| Profiles.FieldsLoadAs | player_profile.cpp:57-62 | fields that parse back to a profile's numbers make a line that loads as that profile |
| Profiles.FieldsLoad | player_profile.cpp:53-55 | separator-free fields whose last one is non-empty make a non-empty, newline-free line that splits back into them |
| Profiles.NumberFields | player_profile.h:141-144 | the five saved counters read back exactly |
| Profiles.SaveLoadRoundTrip | player_profile.h:137-179 | loading what `saveProfiles` wrote into an empty store gives back the same profiles, whatever the map's iteration order, when no name or gender holds `\|` or a newline |
| Profiles.SavedLinesLoad | player_profile.cpp:31-66 | each saved line is newline-free and loads back as its profile |
| Profiles.ProfileManager.constructor | player_profile.cpp:5-7 | a new store holds the profiles loaded from the file, or none when it cannot be opened |
| Profiles.ProfileManager.LoadProfiles | player_profile.cpp:41-66 | a file that cannot be opened changes nothing; otherwise every kept line files its profile under its first token, later lines overwriting earlier ones, and the store stays consistent |
| Profiles.ProfileManager.ReadLine | player_profile.cpp:47-63 | one line of the loading loop updates the map as LoadLine says |
| Profiles.ProfileManager.GetOrCreateProfile | player_profile.cpp:9-14 | a known name's profile is returned unchanged; an unknown name gets a zeroed profile, which is stored and returned |
| Profiles.ProfileManager.UpdatePlayerStats | player_profile.cpp:16-25 | the store becomes AfterGame of the old store: a known name records the game, and an unknown name is ignored |
| Profiles.ProfileManager.SaveProfiles | player_profile.cpp:31-39 | the file written is one line per profile in the given iteration order |
| Profiles.CreateThenUpdate | player_profile.cpp:9-25 | after a lookup-or-create and an update, the name is in the store with one more game than before (or one game for a new profile), it keeps its original gender, and the other profiles are untouched |
| GameEngines.AnswerPointsBounds | src/game_engine.cpp:73-79 | a correct answer on the ladder earns at least 100 points, and a longer streak never earns fewer |
| GameEngines.GameEngine.constructor | src/game_engine.cpp:29-32 | a fresh engine: 30-second limit, inactive, no streak or points, category -1, no question drawn; the ladder stands at rung 0 with no winnings and nothing asked; the bank and the lifeline history are empty and every lifeline of the build is available |
| GameEngines.GameEngine.Initialize | src/game_engine.cpp:34-37 | loading succeeds exactly when the file opens, and then the bank holds a permutation of the old questions plus the parsed ones; a failed load leaves the bank as it was |
| GameEngines.GameEngine.SetupPlayer | src/game_engine.cpp:39-51 | the player is named, a profile exists for the name afterwards (kept when present, created zeroed when not), every lifeline is available again and streak and points are zero; the GUI build also puts ladder, winnings, level and answered count back to zero, the header and root builds keep them; the asked-question set is kept |
| GameEngines.GameEngine.NamePlayer | src/game_engine.cpp:41-43 | the name and gender are set and the profile store gains a zeroed profile for a new name only |
| GameEngines.GameEngine.ResetRun | src/game_engine.cpp:47-50 | ladder, winnings, level and answered count all go back to zero |
| GameEngines.GameEngine.GetNextQuestion | src/game_engine.cpp:53-67 | the current question becomes the first unasked one in bank order (or the -1 sentinel); the result is true exactly when a real question was found, whose id is then recorded as asked and served, and whose level's difficulty sets the time limit; on the sentinel nothing is recorded |
| GameEngines.GameEngine.ProcessAnswer | src/game_engine.cpp:69-97 | the answer is judged correct exactly when the bank says so; a correct one advances the ladder, streak, points, level and answered count, a wrong one zeroes the streak and drops the ladder to its safety rung; winnings always equal the ladder's prize |
| GameEngines.GameEngine.AnswerRight | src/game_engine.cpp:73-86 | the streak grows by one, the points by AnswerPoints of the old level and new streak, the ladder climbs one rung (stopping at the top), and level, winnings and answered count follow the ladder |
| GameEngines.GameEngine.AnswerWrong | src/game_engine.cpp:87-96 | the streak becomes zero; on a safety rung or at rung 0 the ladder stays, otherwise it falls to the safety target; winnings equal the ladder's prize |
| GameEngines.GameEngine.MarkLifeline | src/game_engine.cpp:104-105 | the lifeline's slot in the player's usage array becomes 1 and it is pushed on the lifeline history; the other slots are unchanged |
| GameEngines.GameEngine.Use50_50Lifeline | src/game_engine.cpp:99-107 | an unavailable 50:50 returns nothing and changes nothing; an available one returns two wrong options, marks and records the lifeline and leaves the other lifelines as they were |
| GameEngines.GameEngine.UseAskFriendLifeline | src/game_engine.cpp:109-117 | an unavailable lifeline returns -1 and changes nothing; otherwise the friend names the right option on a roll below 85 and a different valid option otherwise, and only this lifeline is used up |
| GameEngines.GameEngine.UseSkipLifeline | src/game_engine.cpp:119-127 | the result is true exactly when Skip was available; only then is it used up and recorded, the others unchanged |
| GameEngines.GameEngine.UseHintLifeline | src/game_engine.cpp:129-137 | an unavailable hint returns "" and changes nothing; otherwise it returns the question's hint and only this lifeline is used up |
| GameEngines.GameEngine.IsLifelineAvailable | src/game_engine.cpp:139-142 | an index outside the build's lifelines is never available |
| GameEngines.GameEngine.EndGame | src/game_engine.cpp:144-156 | the game becomes inactive, the player's profile records the game as the store's update does, and the leaderboard gains the player's entry (with an empty timestamp in the GUI build) |
| GameEngines.GameEngine.GetPlayerProfile | src/game_engine.cpp:170-177 | a stored player's profile is returned as stored; an unknown player gets a zeroed profile under their own name |
| GameControllers.OptionLetter | src/game_controller.cpp:105 | option indices 0 to 3 give the letters A to D |
| GameControllers.GameController.constructor | src/game_controller.cpp:5-6 | a new controller starts on the splash screen with no result, no hidden options, no message shown and a 30-second timer, and its round count is consistent |
| GameControllers.GameController.SetState | src/game_controller.cpp:10-13 | the screen becomes the requested one |
| GameControllers.GameController.SubmitPlayerSetup | src/game_controller.cpp:15-22 | outside the setup screen nothing changes; on it the engine sets up the named player with a fresh ladder, points and streak, the intro screen follows, and a new round starts with no game ended yet |
| GameControllers.GameController.SubmitAnswer | src/game_controller.cpp:24-46 | a press while a message is shown or outside the question and answer screens changes nothing; otherwise the result screen follows with CORRECT exactly when the engine judges the answer right, and a wrong answer ends the game once; the count of ended games stays consistent with the round |
| GameControllers.GameController.Answer | src/game_controller.cpp:32-44 | the result screen follows; the result is CORRECT exactly when the answer is right, and only a wrong one ends the game |
| GameControllers.GameController.LoseRound | src/game_controller.cpp:41-43 | WRONG is recorded, the game ends once without changing the winnings or the rung, and the result screen follows |
| GameControllers.GameController.EndRound | src/game_controller.cpp:69-70 | the game ends once and GAME_OVER is shown |
| GameControllers.GameController.ClearPause | src/game_controller.cpp:48-85 | the result screen leads to the prize ladder after a correct answer and to GAME_OVER otherwise; the ladder screen ends a won game at level 15 and otherwise asks the next question; GAME_OVER leads to the final score, the final score and the leaderboard to the menu; every other screen stays, and only the win ends a game here |
| GameControllers.GameController.HandleQuestionDisplay | src/game_controller.cpp:151-170 | the hidden options and the message are cleared; the first unasked question becomes current; when there is none the game ends on GAME_OVER, otherwise the question is recorded, the timer gets its level's time limit and the answer screen follows |
| GameControllers.GameController.DrawQuestion | src/game_controller.cpp:156-169 | the draw-and-time part of the question screen, with the same outcome as above |
| GameControllers.GameController.StartTimer | src/game_controller.cpp:163-169 | the timer gets the time limit of the current level's difficulty and the answer screen follows |
| GameControllers.GameController.HandleAnswerProcessing | src/game_controller.cpp:172-185 | nothing happens while a message is shown or while time remains; when the timer has run out WRONG is recorded, the game ends once and GAME_OVER follows |
| GameControllers.GameController.Update | src/game_controller.cpp:195-235 | only the question and answer screens do any work in a frame; every other screen leaves the whole state unchanged, and the round count stays consistent |
| GameControllers.GameController.FiftyFifty | src/game_controller.cpp:92-99 | an available 50:50 hides exactly two options, the engine's pick, and is used up; a used one leaves the hidden options as they were |
| GameControllers.GameController.AskFriend | src/game_controller.cpp:100-109 | an available Ask a Friend is used up; on a roll below 85 the message names the right letter, on a higher roll some other letter; a used lifeline changes no message |
| GameControllers.GameController.Skip | src/game_controller.cpp:110-116 | an available Skip is used up and the next question is drawn as on the question screen; a used one changes nothing |
| GameControllers.GameController.Hint | src/game_controller.cpp:117-125 | an available hint is used up and a non-empty hint is shown behind "HINT: "; a used lifeline or an empty hint changes no message |
| GameControllers.GameController.HandleLifelineUsage | src/game_controller.cpp:87-126 | a press while a message is open or with a number outside 0 to 3 changes nothing; otherwise the numbered lifeline acts as above and, when it was available, is pushed on the lifeline history |
| GameControllers.GameController.CloseLifelineMessage | src/game_controller.cpp:128-131 | the message is no longer shown |
| Version1.SplitFree | version1.0.cpp:348-360 | a line with no '\|' splits into itself alone |
| Version1.SplitCount | version1.0.cpp:348-360 | a line splits into one more part than it has '\|' characters |
| Version1.SplitPartsFree | version1.0.cpp:348-360 | no part of a split holds a '\|' |
| Version1.SplitJoinBack | version1.0.cpp:348-360 | joining the parts with '\|' gives back the line |
| Version1.SplitJoin | version1.0.cpp:348-360 | the three facts above together: the part count, parts free of the delimiter, and the line rebuilt from its parts |
| Version1.SplitOfJoin | version1.0.cpp:348-360 | splitting one or more '\|'-free parts joined with '\|' gives back exactly those parts |
| Version1.SplitPipe | version1.0.cpp:348-360 | the character loop yields the split of the line at every '\|' |
| Version1.ParsedAppend | version1.0.cpp:370-386 | one more line adds its record to the end of the parsed questions when it is kept, and nothing otherwise |
| Version1.QuestionLineRoundTrip | version1.0.cpp:372-384 | a question whose text fields hold no '\|', written as its nine fields joined by '\|', is a kept line that loads back as the same question |
| Version1.LoadQuestionsFromFile | version1.0.cpp:362-389 | a file that cannot be opened gives no questions; otherwise the questions are the records of the kept lines in file order |
| Version1.LoadLine | version1.0.cpp:371-385 | an empty line or one with fewer than nine parts gives nothing; any other gives its record |
| Version1.WithScoreAppend | version1.0.cpp:309-326 | the profiles with given scores in a concatenation are those of the first part followed by those of the second |
| Version1.WithScoreAhead | version1.0.cpp:312-321 | no profile of a sorted list has scores strictly ahead of its front |
| Version1.Merge | version1.0.cpp:309-326 | the merge has as many profiles as both inputs together |
| Version1.MergePermutes | version1.0.cpp:309-326 | the merge holds exactly the profiles of both inputs |
| Version1.MergeFront | version1.0.cpp:312-321 | the merge of non-empty inputs starts with the front of one of them |
| Version1.MergeSorted | version1.0.cpp:309-326 | merging two lists sorted by high score and then total score, both descending, gives a sorted list |
| Version1.MergeStable | version1.0.cpp:319 | on a full tie the first list's profile goes first, so for every pair of scores the merge keeps the first list's profiles ahead of the second's |
| Version1.MergeSortProfiles | version1.0.cpp:328-336 | the result is a permutation of the input, sorted, and stable: profiles with equal scores keep their input order |
| Version1.SortHalves | version1.0.cpp:330-335 | merging stably sorted halves gives a stable sort of the whole |
| Version1.AppendFrom | version1.0.cpp:323-324 | the closing loops append the rest of the unfinished list |
| Version1.MergeProfiles | version1.0.cpp:309-326 | the index loops compute the merge |
| Version1.LastSafeUpToIsLast | version1.0.cpp:62-71 | a non-zero answer is a safety position at most the index, and no later node up to the index is a safety point |
| Version1.LastSafeOfTable | version1.0.cpp:41-71 | on the fifteen-rung table, 3 gives 0, 7 gives 5, 10 gives 10 and 15 gives 10 |
| Version1.PrizeLadder.constructor | version1.0.cpp:32-34 | a new ladder has no nodes |
| Version1.PrizeLadder.Prizelist | version1.0.cpp:41-50 | the ladder becomes the fifteen amounts from 100 to 1,000,000 in order, with safety points at the fifth and tenth rungs only |
| Version1.PrizeLadder.GetAmountAt | version1.0.cpp:51-60 | an index in range gives that node's amount; any other gives 0 |
| Version1.PrizeLadder.LastSafetyIndexBefore | version1.0.cpp:62-71 | the walk returns the last 1-based safety position at most the index, or 0 |
| Version1.PrizeLadder.Size | version1.0.cpp:72-76 | the count is the number of nodes |
| Version1.LifelineNamesDistinct | version1.0.cpp:136-143 | the three lifelines have three different names, none of them the "Unknown" fallback |
| Version1.MyStack.constructor | version1.0.cpp:94 | a new stack is empty and keeps its bound |
| Version1.MyStack.Push | version1.0.cpp:97-101 | a push below the bound adds the value on top; on a full stack it is dropped; a negative bound never fills |
| Version1.MyStack.Pop | version1.0.cpp:104-111 | a non-empty stack loses and returns its top; an empty one reports the error and stays empty |
| Version1.MyStack.Peek | version1.0.cpp:114-119 | the top is returned without change, or the error on an empty stack |
| Version1.LifelineConsumption | version1.0.cpp:258-261 | with Skip, Ask a Friend and 50-50 pushed in that order, the lifelines come off as 50-50, Ask a Friend, Skip, and a fourth pop finds the stack empty |

## Left out

- Rendering, audio, window handling and the main loops (`gui_main.cpp`, `main.cpp`, `src/main.cpp`, the buttons and the rest of the raylib renderer): these are framework calls and float geometry. The mouse test on a button is a boolean parameter, and the keys `GetCharPressed` returns are a queue parameter.
- The console controllers (`game_controller.h` and the root `game_controller.cpp`) block on standard input and output at every step; the GUI controller's transitions are modelled instead.
- Timers (`timer.h`, `timer.cpp`, `src/timer.cpp`) read the system clock; expiry is the `timerFinished` input of the answer screen, and starting the timer is the recorded duration.
- File I/O: opening, reading and writing files, and the `[INFO]` and error prints. A file is its contents or `None`, and a save gives the text written.
- Randomness (`rand`, `srand`, `std::shuffle` with its engine): every draw comes from an oracle parameter, and `std::shuffle` is modelled as the Fisher-Yates swaps driven by that oracle. The model states nothing about the 85 percent rate of Ask a Friend.
- GameLogics.GameLogic.ApplyAskFriendLifeline: requires of its oracle that some later draw differs from the right answer, so that the retry loop ends; termination for a real random source is not modelled. The same precondition is passed on by GameEngines.GameEngine.UseAskFriendLifeline and the controller's AskFriend and HandleLifelineUsage.
- Floating point: the win rate of `player_profile.h` and `updateWinRate` are not modelled. The header store's line keeps the win-rate field, always written as "0", and `stof` on it is read like `stoi`.
- Unguarded `stoi`, `stoll` and `stof`: a kept line whose numeric fields do not parse throws in the source; the loaders require numeric fields to be well formed.
- Out-of-range correct index: a kept question line whose correct index is outside 0 to 3 reads the options out of bounds (src/question_bank.cpp:75, question_bank.h:50, question_bank.cpp:59), which is undefined behaviour; the question loaders require the index to be in range.
- Integer widths: `int` overflow of the counters and sums is not modelled, except the `size_t` division and `int` truncation of `getAverageLevel` (`ToInt32`), the `size_t` comparison of `myStack` (`Capacity`) and the `char` narrowing of the Ask a Friend letter (`OptionLetter`). A numeric field of a leaderboard or profile line that is out of range for `long long` or `int` makes `stoll`/`stoi` throw `std::out_of_range` in the source; the model loads it as an unbounded integer.
- Manual memory management: destructors and `new`/`delete` of the ladder nodes. The ladders are a sequence and an index. The header profile manager also saves in its destructor; that save is SaveProfiles of the final store and is not a separate step.
- The root `data_structures.hpp` declares the root ladder, but its implementation is not part of this model; the root engine takes the ladder kind as a parameter.
- QuoteManager, `getRandomQuote`, `getRandomResultPhrase`, the `display*` functions and all box-drawing console text are cosmetic output.
- The `playGame` loop of `version1.0.cpp` is console I/O; only its lifeline stack order is modelled (LifelineConsumption).
- The engines' getters (`getPlayer`, `getPrizeLadder`, `getCurrentQuestion`, `getTotalPoints`, …) and the controller's getters return fields and are plain field reads.
- `GameLogic::getHint` and `GameLogic::reset` of `src/game_logic.cpp` forward to the hint lifeline and to `resetLifelines`, which are modelled.
- Profiles.ProfileManager.UpdatePlayerStats: the root store then saves the file; that call is not part of the method, and SaveProfiles gives the text it writes.
- Declaration-only headers (`*.hpp`) carry field layouts and constants, which appear in the modules that use them.
- The `version1.0.cpp` file does not compile as one unit (everything is nested in one class and `Question` is declared twice); its functions are modelled one by one.
