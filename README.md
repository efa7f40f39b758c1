# Persian trivia bot: a verified model of its game core

The bot runs three kinds of games in a Discord channel:

- **quiz**: multiple-choice questions from two public trivia sources, translated into Persian;
- **flags**: "which country's flag is this?" with four names to choose from;
- **open questions**: typed answers checked against a question bank, where administrators may also award points with reactions.

Lifetime scores are kept in a ledger, and `!top` ranks players by that ledger.

This project models the parts of `bot.py` that decide what happens:

- selecting and preparing questions;
- parsing the bank file and colours;
- normalising a typed answer;
- the round state of each session;
- the per-channel session registry;
- the score ledger and its ranking.

Each module follows one area of the program:

| module | what it holds |
|---|---|
| `Common` | Python `dict` and `list` helpers as sequences, `random.shuffle`/`random.sample` as caller-chosen permutations and samples |
| `Selection` | `collect_raw_mc_questions`: source targets, the family cap, the English filter and the three selection phases |
| `Matching` | `normalize_answer_text` and `is_correct_answer` |
| `Formats` | `hex_to_rgb` and `load_txt_questions` |
| `Preparation` | the preparation loops of the three `preload_questions` methods |
| `Scores` | the lifetime ledger (`add_match_scores_to_global`, `!point`) and the `!top` ranking |
| `Rounds` | the round state of a session as a value, with its step functions and event traces |
| `Games` | the session classes (`GameSession`, one class for the three session kinds with a `mode`) and the channel registry (`Registry`) with the commands |

How the model is built:

- **Per-call inputs.** Everything random, fetched or translated is a parameter of the call that uses it:
  - fetchers are functions from a requested count to a list of questions;
  - shuffles are permutations and samples are index lists;
  - the translator, NFKC normalisation and case folding are functions.
- **Await segments.** A coroutine is split at its `await`s. Each method of `GameSession` and each command of `Registry` models one segment that runs without interruption, so interleavings of tasks are sequences of these calls. `!start` is two calls: `StartCommand` up to the start message, then `Continue` for the first question. The segments that are merged are listed under "## Left out".
- **Value views.** Every session method is stated against a function of `Rounds` on the session's value view (`GameSession.View()`). The properties are proved about those functions.

## Model

| member | source | states |
|---|---|---|
| Selection.SplitTargets | bot.py:806-816 | the two source targets add up to the total; one question goes to OpenTDB alone; otherwise Trivia gets two fifths rounded to nearest, at least one |
| Selection.TwoFifthsRounded | bot.py:806 | `int(round(total * 0.4))` is within two fifths of one of the exact value and at least one from two questions on |
| Selection.MaxPerFamily | bot.py:856 | the family cap is a fifth of the total rounded down, and exactly one for totals below five |
| Selection.FilterFrom | bot.py:822-833 | a candidate is kept exactly when it is a fetched question that passes the filter, tagged with its source and position; fetched order is kept |
| Selection.FilterEnglishSpec | bot.py:822-833 | `filter_english` keeps exactly the passing questions, each once |
| Selection.CountsAppend | bot.py:870-913 | appending a question raises exactly its source's and its family's counts by one |
| Selection.SkippedGrows | bot.py:870-895 | a question skipped because its family was at the cap stays excluded as more questions are taken |
| Selection.SkipCapped | bot.py:877-882 | the scan stops at the first question whose family is under the cap, or at the end of the pool |
| Selection.TakeKeeps | bot.py:884-888 | taking the question found keeps the source's picked and skipped bookkeeping, the tally and distinctness |
| Selection.Turn | bot.py:873-894 | one source's turn skips questions whose family is at the cap and takes the next one, keeping the family tally and distinctness |
| Selection.TurnOf | bot.py:873-892 | a turn adds at most one question, counting for its own source only, and keeps both sources' bookkeeping; a turn that takes nothing has exhausted its pool |
| Selection.Phase1 | bot.py:870-895 | the round robin never exceeds a source's target or the total, takes each question at most once and counts every family correctly; it stops only with the total reached or with each source at its target or out of questions |
| Selection.Exhausted | bot.py:877-882 | once a source's whole pool has been scanned, every question of it left out has its family at the cap |
| Selection.Phase1Served | bot.py:870-895 | when phase 1 ends short of the total, each source either reached its target or has only questions left whose family is at the cap |
| Selection.AppendKeeps | bot.py:908-912 | taking a fresh question under the cap keeps the tally and distinctness |
| Selection.LeftoversFresh | bot.py:898-904 | the leftovers of phase 1 are distinct and none of them was already taken |
| Selection.LeftoversCovered | bot.py:898-913 | after phase 2, every question left out has its family at the cap |
| Selection.PickedWithin | bot.py:870-895 | every selected question comes from one of the two pools |
| Selection.LeftoverStep | bot.py:907-912 | a leftover is taken only when its family is under the cap, and the selection grows by at most one |
| Selection.Phase2 | bot.py:898-913 | phase 2 extends phase 1's selection, stays under the cap and the total, and when not full leaves out only questions whose family is at the cap |
| Selection.Unused | bot.py:919-921 | the questions not yet selected, each once |
| Selection.LastResortExact | bot.py:916-928 | what phase 2 took and what phase 3 may still take are together every survivor exactly once |
| Selection.Fill | bot.py:925-928 | questions are appended in order until the total is reached or the list runs out |
| Selection.PoolsDisjoint | bot.py:917-922 | the two sources' questions never coincide, so their concatenation repeats nothing |
| Selection.Phase3 | bot.py:916-928 | phase 3 extends the selection with no cap until it has `min(total, survivors)` distinct questions |
| Selection.SelectFromPools | bot.py:856-928 | the three phases give `min(total, pool sizes)` distinct pool questions; phase 1 stays within the targets and, when it ends short of the total, each source met its target or has only capped families left; phase 2 stays within the cap; the cap is broken only when phase 2 could not fill the selection |
| Selection.CollectRawMcQuestions | bot.py:794-934 | a non-positive total selects nothing; otherwise exactly `min(total, survivors)` distinct passing questions, with the same phase guarantees as `SelectFromPools` over the filtered pools, including the exit condition of phase 1 |
| Matching.MapChar | bot.py:1511-1532 | the translation table maps every character to text containing none of the variant forms it rewrites and leaves every other character alone |
| Matching.TranslateClean | bot.py:1532 | after `str.translate` no variant letter form or invisible mark remains |
| Matching.TranslateIdempotent | bot.py:1532 | translating twice is translating once |
| Matching.ReplacePunct | bot.py:1538-1539 | the result has the same length and no punctuation, and every character that is not punctuation stays where it was |
| Matching.ReplacePunctIdempotent | bot.py:1538-1539 | replacing punctuation a second time changes nothing |
| Matching.Strip | bot.py:1505 | `str.strip()` leaves no whitespace at either end |
| Matching.StripSpec | bot.py:1505 | `str.strip()` removes only whitespace: the text is some whitespace, the stripped text and some whitespace, and the stripped text has no whitespace at either end |
| Matching.LeadWord | bot.py:1543 | the leading run of non-space characters is a prefix ended by whitespace or by the end of the text |
| Matching.Words | bot.py:1543 | `str.split()` yields only non-empty runs without whitespace |
| Matching.WordsSplitAt | bot.py:1543 | a whitespace character splits the words into those before it and those after it |
| Matching.WordsJoin | bot.py:1543 | splitting a join of words gives the words back |
| Matching.CollapseIdempotent | bot.py:1543 | collapsing whitespace twice is collapsing it once |
| Matching.StripKeepsWords | bot.py:1505 | stripping before splitting changes no word (also line 1543) |
| Matching.WordsKeepContent | bot.py:1543 | splitting loses only whitespace: the words keep every other character, in order |
| Matching.CollapseSpec | bot.py:1543 | collapsed text is single-spaced with no space at either end and has the same non-space characters |
| Matching.NormalizeSpec | bot.py:1501-1545 | a normalised answer is collapsed, has no punctuation, and has no variant character when case folding introduces none |
| Matching.CanonPunctIsSpace | bot.py:1538-1543 | punctuation separates words exactly as a space does |
| Matching.CanonAbsorbsTable | bot.py:1532-1543 | a character and its table replacement normalise alike |
| Matching.IsCorrectAnswer | bot.py:1762-1787 | an empty normalised answer never matches; otherwise it matches exactly when it equals the normalised Persian or English answer |
| Formats.LeadingHashes | bot.py:206 | the run `lstrip("#")` removes is made only of `#`s and is not followed by another `#` |
| Formats.LStripHashPrefix | bot.py:206 | `lstrip("#")` removes exactly a leading run of `#`s that no other `#` follows |
| Formats.ParseHexPair | bot.py:211 | two hex digits read as their value; any accepted pair lies in -15..255 |
| Formats.HexToRgb | bot.py:204-212 | a colour is read only when six characters remain after the `#`s; any other length is an error |
| Formats.Hex2Parses | bot.py:211 | a byte written as two hex digits reads back as itself |
| Formats.HexToRgbRoundTrip | bot.py:204-212 | `#rrggbb` with any number of leading `#`s reads back as its three channels |
| Formats.SplitOn | bot.py:665 | `str.split(sep)` gives at least one piece, none containing the separator |
| Formats.SplitJoin | bot.py:665 | joining the pieces of a split gives the line back |
| Formats.JoinSplit | bot.py:665 | splitting a join of separator-free pieces gives the pieces back |
| Formats.StripEach | bot.py:665 | each piece is stripped, the count kept |
| Formats.SplitOnSeveral | bot.py:665-667 | a line has two or more pieces exactly when it contains `\|` |
| Formats.ParseLine | bot.py:661-672 | a line is skipped exactly when it is blank after stripping, is a `#` comment or has no `\|`; an accepted line yields stripped fields, and `ParseFieldsRoundTrip` gives their values |
| Formats.ParseFieldsRoundTrip | bot.py:661-672 | joining two to four stripped, `\|`-free fields, the first not a comment, reads back as question and answer with the category and difficulty from the third and fourth fields, `""` where absent |
| Formats.ParseLineRoundTrip | bot.py:661-672 | a question written as `question\|answer\|category\|difficulty` reads back as itself |
| Formats.ParsedMembers | bot.py:648-677 | a question is in the bank exactly when some line reads as it; the bank has at most one question per line |
| Formats.LoadTxtQuestions | bot.py:648-677 | the loop builds exactly the questions the lines read as, in file order |
| Preparation.PrepareOneSpec | bot.py:1028-1082 | a candidate is kept exactly when its question has at most 160 characters, it has three incorrect answers and every translated option fits; the kept question is well formed, its options are a permutation of the translated answers, and the translated correct answer is at `correctIndex` |
| Preparation.TranslateOptions | bot.py:1050-1057 | each option is translated in order, and the too-long flag is set exactly when some translation exceeds the option limit |
| Preparation.PrepareCandidate | bot.py:1031-1075 | one pass of the loop yields exactly what `PrepareOne` says of the candidate |
| Preparation.TranslatedOptions | bot.py:1046-1060 | the translated options are the translations of the options, and one is too long exactly when some option's translation is |
| Common.PermuteMultiset | bot.py:1047 | `random.shuffle` modelled by a permutation keeps exactly the list's elements as a multiset |
| Common.ReorderMultiset | bot.py:1047 | picking a list's elements in the order of a permutation of its indices gives the same multiset |
| Preparation.TrAllPermute | bot.py:1046-1057 | translating the shuffled options gives a permutation of the translated options |
| Preparation.PrepareQuizQuestions | bot.py:1028-1093 | the first `num` kept candidates, in order; failure exactly when none is kept; `num_questions` rebound to the count on success |
| Preparation.PreparedWellFormed | bot.py:1028-1082 | every prepared question is well formed and its options fit |
| Preparation.Statistics | bot.py:1096-1102 | the family and source tallies hold, for every key, the number of prepared questions with it |
| Preparation.WrongPool | bot.py:1317 | every country other than the correct one, each once |
| Preparation.WrongChoice | bot.py:1320 | three distinct wrong countries, none of them the correct one |
| Preparation.NameOptions | bot.py:1322 | the correct name first, then the three wrong names |
| Preparation.FlagQuestionSpec | bot.py:1315-1332 | a flag question shows the flag and is well formed; its options are the country's name and the three wrong names, and the right answer is the name |
| Preparation.BuildFlagQuestions | bot.py:1315-1332 | one flag question per drawn country, in order |
| Preparation.PrepareFlagQuestions | bot.py:1283-1350 | fewer than four countries fail; otherwise `min(num, countries)` distinct countries are drawn and each becomes its question |
| Preparation.PreloadOpenQuestions | bot.py:1568-1610 | an empty bank fails; otherwise `min(num, bank)` distinct bank questions are drawn |
| Scores.AdjustSpec | bot.py:2407-2409 | exactly `amount` goes to the user, nobody else's total moves, and the user's stamp is newer than all others |
| Scores.CreditKeepsLedger | bot.py:943-963 | the ledger stays well formed and the stamp counter moves once per positive score |
| Scores.CreditNeverLowers | bot.py:943-963 | a game's end never lowers a lifetime total |
| Scores.CreditExact | bot.py:943-963 | each total grows by exactly the player's positive game score, and not at all otherwise |
| Scores.CreditStamps | bot.py:943-963 | a player with a positive score gets a stamp newer than every earlier one; others keep theirs |
| Scores.ScoreLedger.constructor | bot.py:230-239 | the ledger starts with the saved totals and no stamps |
| Scores.ScoreLedger.AddMatchScores | bot.py:943-963 | the new ledger is the old one credited with the game's scores; it is saved exactly when some score is positive |
| Scores.ScoreLedger.CreditEntry | bot.py:955-961 | one pass of the loop: a positive score is added with a fresh stamp, anything else leaves the ledger alone |
| Scores.ScoreLedger.Point | bot.py:2400-2410 | only an administrator's `!point` changes the ledger, by exactly the amount with a fresh stamp |
| Scores.Insert | bot.py:2268-2273 | inserting makes the board one entry longer and brings in nothing but the board's entries and the new one |
| Scores.InsertMultiset | bot.py:2268-2273 | inserting keeps every entry and adds exactly one |
| Scores.InsertRanked | bot.py:2268-2273 | inserting into a ranked board keeps it ranked |
| Scores.Ranking | bot.py:2268-2273 | the ranking is as long as the ledger and ordered by total descending and then by stamp |
| Scores.RankingMultiset | bot.py:2268-2273 | the ranking is a permutation of the ledger |
| Scores.RankingOfRanked | bot.py:2268-2273 | ranking an already ranked board changes nothing |
| Scores.SliceTo | bot.py:2274 | Python's `[:limit]` is the prefix of length `min(limit, n)`, or `max(0, n + limit)` for a negative limit |
| Scores.TopIsBest | bot.py:2261-2287 | the listed entries are the first `[:limit]` entries of the ranking, as many as the slice allows, ranked; they are ledger entries, each at most once, and each ranks no lower than every entry left off |
| Rounds.InitialConsistent | bot.py:976-1001 | a new session is consistent |
| Rounds.SendNextChoiceSpec | bot.py:1160-1201 | a finished session presents nothing; it finishes after `num_questions` or when out of questions; otherwise it presents the next prepared question under a fresh id with the round open and scores unchanged |
| Rounds.OpenScanSpec | bot.py:1664-1694 | the scan skips questions over 80 characters without counting them and presents the first that fits, or asks to finish; it never touches the id, scores or `finished` |
| Rounds.SendNextOpenSpec | bot.py:1664-1716 | the open session presents under a fresh question id or finishes with the id unchanged |
| Rounds.HandleCorrectSpec | bot.py:1203-1213 | a correct answer on an open round resolves it and gives exactly one point, with the newest stamp, to the winner only; otherwise nothing changes |
| Rounds.ExpireSpec | bot.py:1114-1158 | a countdown resolves only the current open round and never changes a score |
| Rounds.PressButtonSpec | bot.py:1890-1919 | a second press by the same user is refused and changes nothing; only the right button on an open round counts |
| Rounds.ApplyKeeps | bot.py:1203-1213 | no in-round event reopens the round or moves the question counters; on a closed round only a reaction changes scores (also lines 1890-1919) |
| Rounds.RunKeeps | bot.py:1203-1213 | the same over any sequence of events (also lines 1890-1919) |
| Rounds.ResolvedFreezesScores | bot.py:1130-1133 | once the round is closed, no event other than an already admitted reaction changes a score (also lines 1999-2000) |
| Rounds.ResolvedOnce | bot.py:1203-1213 | at most one event closes a round |
| Rounds.StaleEventsIgnored | bot.py:1130-1131 | countdowns and listeners of an earlier question change nothing (also lines 1729-1744) |
| Rounds.ApplyConsistent | bot.py:1203-1213 | every round event keeps the session consistent |
| Rounds.SendNextConsistent | bot.py:1160-1201 | sending the next question keeps the session consistent (also lines 1664-1716) |
| Rounds.StartSpec | bot.py:2200-2256 | a second start is refused; a start that goes ahead leaves a question to ask; an open session is dropped exactly when both its list and the bank are empty (also lines 1612-1634) |
| Rounds.StaleTimerResolvesNewQuestion | bot.py:1664-1716 | as written, a countdown of the previous question can time out the question being presented |
| Rounds.FreshIdFencesOldTasks | bot.py:1664-1716 | with the id moved when the round reopens, no older countdown or listener can act on the new question, whatever the message's author and channel (also lines 1637-1662, 1722-1760) |
| Games.GameSession.constructor | bot.py:976-1001 | a new session of the given mode and channel in its initial state (also lines 1261-1281, 1549-1566) |
| Games.GameSession.PreloadQuiz | bot.py:1003-1112 | the questions are the first `min(num, kept)` prepared from a selection that satisfies `Collected`; loading fails exactly when none is kept, with the statistics untouched; on success `num_questions` is the prepared count, every question is well formed and the statistics count the prepared questions |
| Games.GameSession.KeepQuiz | bot.py:1084-1102 | the prepared list is stored; on success `num_questions` is its length and the statistics count its families and sources, on failure they are left alone |
| Games.GameSession.PreloadFlags | bot.py:1283-1360 | loading succeeds exactly with four or more countries; then `num_questions` is `min(num, countries)`, the countries are the sample drawn, distinct, and each prepared question is the flag question of its country; every question lists its answer |
| Games.GameSession.KeepFlags | bot.py:1341-1351 | the flag questions are stored and `num_questions` becomes their count; nothing else changes |
| Games.GameSession.PreloadOpen | bot.py:1568-1610 | loading succeeds exactly with a non-empty bank; then `min(num, bank)` questions are held, drawn at the distinct bank positions that open the shuffled index list, in that order |
| Games.GameSession.StartFromCommand | bot.py:2215-2223 | the start checks of a quiz or flag session as `Rounds.StartChoice` (also lines 2235-2243) |
| Games.GameSession.Start | bot.py:1612-1634 | `QuestionSession.start` as `Rounds.StartOpen` |
| Games.GameSession.SendNextChoiceQuestion | bot.py:1160-1201 | the new state and answer are those of `Rounds.SendNextChoice` (also lines 1409-1442) |
| Games.GameSession.PresentChoice | bot.py:1168-1178 | the round opens for the next prepared question as `Rounds.SendNextChoice` says |
| Games.GameSession.OpenRound | bot.py:1168-1171 | a fresh question id, nobody has answered and the round is open; nothing else changes |
| Games.GameSession.RecordChoice | bot.py:1174-1178 | the next prepared question is counted as asked and its answer recorded; nothing else changes |
| Games.GameSession.SendNextOpenQuestion | bot.py:1664-1716 | the skipping loop ends in the state of `Rounds.SendNextOpen`, which moves the id in the same step that reopens the round: this is the corrected order of the first finding, whose as-written order is `Rounds.StaleTimerResolvesNewQuestion` |
| Games.GameSession.ScanOne | bot.py:1665-1694 | one pass of the loop either ends the scan or skips a question, making progress |
| Games.GameSession.SendNextQuestion | bot.py:1160-1201 | the mode's `send_next_question` (also lines 1409-1442, 1664-1716) |
| Games.GameSession.HandleCorrectAnswer | bot.py:1203-1213 | state as `Rounds.HandleCorrect`; the point is given exactly when the round was open (also lines 1444-1452, 1810-1819) |
| Games.GameSession.CountdownExpired | bot.py:1114-1158 | state as `Rounds.Expire`; times out exactly the current open round (also lines 1362-1407, 1637-1662, 1789-1792) |
| Games.GameSession.AnswerReceived | bot.py:1722-1760 | state as `Rounds.Wake`; wins exactly when the listener's question is still open |
| Games.GameSession.ButtonPressed | bot.py:1890-1919 | state and reply as `Rounds.PressButton` |
| Games.GameSession.ApplyReaction | bot.py:2014-2028 | a reaction to a bot's message changes nothing; otherwise the author's score moves by the reaction's delta |
| Games.GameSession.MarkFinished | bot.py:1240 | only `finished` changes (also lines 1480, 1838, 2380-2389) |
| Games.LoadQuiz | bot.py:1012-1093 | the selection satisfies `Collected`; the quiz is the first `min(num, kept)` of the questions prepared from it, in order; it fails exactly when nothing is kept; every question is well formed and its options fit |
| Games.NewQuiz | bot.py:2110-2133 | a fresh quiz of the channel in the state `LoadedQuiz` names: unstarted, unfinished, nothing asked, an empty board and id 0, holding the first `min(n, kept)` questions prepared from a selection that satisfies `Collected`; loaded exactly when something was prepared (also lines 1003-1102) |
| Games.NewFlags | bot.py:2138-2162 | a fresh flag session of the channel, loaded exactly with four or more countries, and then in the state `LoadedFlags` names: as new, with one flag question for each of the `min(n, countries)` distinct countries drawn (also lines 1283-1360) |
| Games.NewOpen | bot.py:2167-2195 | a fresh open session of the channel, loaded exactly with a non-empty bank, and then in the state `LoadedOpen` names: as new, with the bank questions at the first `min(n, bank)` distinct positions of the shuffled index list (also lines 1568-1610) |
| Games.FlagQuestionsWellFormed | bot.py:1315-1332 | every flag question built from a drawn country is well formed and lists its answer |
| Games.PreparedPrefixFits | bot.py:1028-1082 | every question in a prefix of the prepared list is well formed |
| Games.Registry.constructor | bot.py:967-971 | the three dictionaries start empty |
| Games.Registry.Register | bot.py:2127 | the session is entered under its channel in its own mode's dictionary, and the other two dictionaries are unchanged (also lines 2156, 2189) |
| Games.Registry.QuizCommand | bot.py:2110-2133 | busy channel and non-positive count are refused exactly in those cases; any other request loads: the collection meets `Collected`, the quiz is the first `min(n, kept)` questions that survive preparation, and the reply is ready exactly when that quiz is non-empty; a ready quiz is freshly registered in the state `LoadedQuiz` names, with its selection, prepared questions and as-new round; the other dictionaries are unchanged |
| Games.Registry.FlagsCommand | bot.py:2138-2162 | the same refusals, then failure exactly with fewer than four countries; a ready game is registered in the state `LoadedFlags` names, with `min(num, countries)` questions for the sampled countries |
| Games.Registry.QuestionCommand | bot.py:2167-2195 | non-administrators are refused first, then the same refusals, then an empty bank; a ready game is registered in the state `LoadedOpen` names, with `min(num, bank)` questions at the shuffled distinct bank positions |
| Games.Registry.Continue | bot.py:1160-1166 | the next question is sent; on finish the session is ended, its scores credited and its own entry removed — the corrected close of the second finding, whose as-written close is `Games.Registry.CloseGame` (also lines 1239-1256) |
| Games.Registry.FinishQuiz | bot.py:1239-1256 | `finished` is set, scores are credited and only this session's entry is removed — the corrected close (`CloseOwnGame`) of the second finding, whose as-written close is `Games.Registry.CloseGame` (also lines 1479-1496, 1837-1854) |
| Games.Registry.CloseGame | bot.py:1253-1256 | as written: the channel's entry is removed whatever session it holds |
| Games.Registry.CloseOwnGame | bot.py:1253-1256 | the entry is removed only while it still holds this session |
| Games.Registry.Pick | bot.py:2201-2208 | an unfinished quiz first, then a flag game, then an open session (also lines 2232, 2252) |
| Games.Registry.Launch | bot.py:2215-2223 | the picked session starts as its mode's start function says; an open session with nothing to ask is unregistered (also lines 2235-2243, 2252-2253, 1612-1634) |
| Games.Registry.LaunchOpen | bot.py:2252-2253 | an open session starts as `Rounds.StartOpen` says and is unregistered exactly when it has nothing to ask (also lines 1612-1634) |
| Games.Registry.StartCommand | bot.py:2200-2256 | the part of `start_cmd` before it sends the start message: no game exactly when none is picked, and then nothing changes; otherwise the picked session changes as its mode's start function says, a start that goes ahead names the session whose first question `Continue` sends later, an open session with nothing to ask is dropped, and no other session or dictionary changes |
| Games.Registry.ReactionTarget | bot.py:1957-2011 | only an administrator's ✅ (+1) or ❌ (-1) that is not this bot's own reaction, in a channel whose open session's round is open, picks a session |
| Games.Registry.ResetBot | bot.py:2376-2395 | every registered session is marked finished and all dictionaries are emptied |
| Games.ResetWhileFinishing | bot.py:1239-1256 | after `resetbot` and a new `!quiz` in the channel, the registry holds only the new, unfinished quiz while the old, finished one has still to close (also lines 2110-2133, 2376-2395) |
| Games.ResetDuringFinishDropsNewGame | bot.py:1253-1256 | as written, a finish that straddles `resetbot` and a new `!quiz` unregisters the new, unfinished quiz (also lines 2110-2133, 2376-2395) |
| Games.ResetDuringFinishKeepsNewGame | bot.py:1253-1256 | with the checked close, the new quiz keeps its entry (also lines 2110-2133, 2376-2395) |
| Games.StartedQuiz | bot.py:2215-2226 | a prepared quiz in channel 7 after `!start` has started it and before its first question, the only session registered |
| Games.ResetBeforeFirstQuestion | bot.py:2223-2228 | a `resetbot` while the start message is sent leaves the quiz started and finished with no question asked, and its first `send_next_question` does nothing (also lines 1160-1162, 2376-2395) |
| Games.QuizThenStart | bot.py:2110-2133 | after `!quiz` with any count in an empty registry, `!start` in the same channel goes ahead exactly when the quiz loaded, and starts that quiz unfinished with nothing asked (also lines 2200-2226) |

## Left out

- Discord I/O is not modelled: embeds, images, buttons as widgets, message sending, deleting and editing. Only the state changes around them are.
- Rendering question images, font loading and JPEG compression are left out. They produce only output.
- The HTTP fetchers of the two trivia sources are not modelled. They are function parameters (count to questions), and OpenTDB's category sampling inside its fetcher is not modelled.
- The Argos translator is left out because it is foreign code (`translate_en_to_fa`). It is a function parameter.
- NFKC normalisation and `str.casefold` are function parameters because they are Unicode tables. Whether folding keeps the table's variants out is a hypothesis of `Matching.NormalizeSpec`.
- Loading and saving the ledger file (JSON) is left out. The constructor takes the saved totals, and `AddMatchScores` reports whether a save follows.
- Loading the flag country file is left out. The countries are a parameter.
- The countdown's intermediate ticks only edit the timer message and return early when the round is over. Only the final check and the timeout after it are modelled (`CountdownExpired`).
- The `await`s inside `preload_questions` are treated as atomic: a `!start` that arrives while loading is in progress is not modelled.
- FinishQuiz: two segments of `finish_quiz` are one call. Marking the session finished is one; crediting the scores and closing the entry after the final messages is the other. A new reaction is refused once the session is finished. What the merged call loses is a reaction admitted earlier whose score change lands during the final messages: the source credits that change, and in the model it comes after the credit. The scenario methods about the second finding make the calls one at a time.
- LaunchOpen: when the open session has nothing to ask, `QuestionSession.start` sends its error message before it deletes the channel's entry, and the model does both in one step. A command run in that gap cannot register a new open session, because the bank is empty then; a quiz or flag game registered there is in another dictionary.
- Continue: the state changes of `send_next_question` before its first send are one step. The sends, the view and the countdown that follow are I/O.
- `random.shuffle` and `random.sample` are not modelled as random: the caller supplies an index permutation or sample. A non-permutation leaves the list as it is.
- `debugfamilies` is left out because it only displays output. The statistics it shows are modelled (`Statistics`).
- The help commands and the embed layout of `!top` are left out because they are formatting only.
- The quiz session's `current_answered` flag is left out because it is written but never read.
- The open-mode `send_next_question` has no `finished` check, and the model keeps it that way.
- If fewer than three wrong countries remained, the flag preparation would skip the country. That branch is left out because four or more countries are always required first.
- The final truncation of `collect_raw_mc_questions` is left out because it can never act: phase 3 stops at the total.
- The adjustment after the source targets never fires, because the two targets always add up to the total. `SplitTargets` states this.
- `HexDigit` reads ASCII hex digits only. Python's `int(…, 16)` also accepts other Unicode digits.
- Scores.Ranking: proved to be ordered by the sort key, and a permutation by `RankingMultiset`. Stability among entries with equal keys is not proved.
- The guild, DM and channel-type checks of `on_raw_reaction_add` and the member and message fetches are I/O. The model says whether the message's author is a bot.
- The scenario methods of `Games` register the new quiz by assigning the registry dictionary directly. They stand for the step of `quiz_cmd` before its first `await`.
- The setup commands (`QuizCommand`, `FlagsCommand`, `QuestionCommand`) register a session only once its loading has succeeded, where `quiz_cmd` and the others register it first and delete it again when loading fails. With loading atomic, both leave the same dictionaries.

## Findings

| source | as written | input that shows it | evidently intended | confidence | as-written member | corrected member |
|---|---|---|---|---|---|---|
| bot.py:1670-1708 | the open session reopens the round and records the new answer before it sends the question, but moves `current_question_id` only after the send | questions "2+2?"/"4" then "Capital of Iran?"/"Tehran", after the first was resolved: the countdown of the first question reaches its last check while the second is being sent and times the second out | move the id in the same step that reopens the round, as the quiz and flag sessions do | not executed | Rounds.StaleTimerResolvesNewQuestion | Rounds.FreshIdFencesOldTasks |
| bot.py:1253-1256 | `finish_quiz` deletes the channel's registry entry after awaiting its final messages, without checking that the entry is still this session | a quiz in channel 7 finishes; during its final messages someone runs `!resetbot` and then `!quiz` in channel 7; the old quiz's finish then unregisters the new quiz | delete the entry only while it holds this session | not executed | Games.ResetDuringFinishDropsNewGame | Games.ResetDuringFinishKeepsNewGame |

The rest of the model uses the corrected halves: `GameSession.SendNextOpenQuestion` moves the id with the reopening of the round, and `Registry.Continue` and `Registry.FinishQuiz` close a game with `Registry.CloseOwnGame`. `Registry.StartCommand` does not need that check: when an open session has nothing prepared, `Registry.LaunchOpen` removes the channel's entry in the same step in which `Registry.Pick` found that very session there, so the entry it removes is always its own. The as-written behaviour is kept in `Rounds.StaleTimerResolvesNewQuestion` and `Registry.CloseGame`.
