# wordle-bot: a Dafny model of the game core and its command handlers

wordle-bot is a Telegram bot for playing Wordle in Russian. A player asks for a word
length from 4 to 11 letters and gets a secret of that length. They then have six guesses.
Each guess is coloured green, yellow or white, and one hint per game is available that
shares a fixed number of letters with the secret. Players can propose words for removal
from the dictionary (the black list) or for addition (the white list). An administrator
reviews those proposals, rebuilds the dictionary, bans and unbans users, and reads a
per-length word report. A job run once at start-up reminds players of unfinished games,
and each player can switch these reminders off.

This project models:

- the game logic: normalisation, the start-up build of the word lists, the two-pass
  colouring and the keyboard status;
- the JSON store of users and global counters;
- the suggestion file;
- the handlers for `/play`, guessing, `/hint`, `/reset`, `/feedback`, the administrator's
  suggestion commands, `/ban`, `/unban`, the dictionary report, the reminder job and
  `/notification`.

Layout, one file per module:

- `wrappers.dfy`: `Option`.
- `text.dfy`: the parts of Python's `str` the bot uses, and code-point ordering.
- `logic.dfy`: `src/game/logic.py`.
- `store.dfy`: `src/storage/store.py`.
- `conversation.dfy`: conversation states and the per-chat data.
- One module per command file: `play.dfy`, `guess.dfy`, `hint.dfy`, `reset.dfy`,
  `feedback.dfy`, `suggestions.dfy` (module `SuggestionCommands`), `admin.dfy`,
  `notification.dfy`.

How the model is shaped:

- The store is a value. Its `order` field records the insertion order of the `users`
  object, because that order decides which of several equally good players becomes the
  top player.
- A handler is a method. It takes the loaded store, the message and the chat data. It
  returns the reply, the next conversation state, the store it writes and whether it
  writes it, and the new chat data.
- Each loop in the source is a loop here, proved equal to a fold function. The
  properties are then proved about that function: `MakeFeedback` against `Feedback`,
  `ComputeLetterStatus` against `LetterStatus`, `PurgeProfiles` against `PurgedStore`,
  `MoveProcess` against `MoveAll`, `RemoveProcess` against `RemoveLines`, and
  `SendUnfinishedGames` against `SweepOver`.
- Missing JSON keys are `None`.
- A Python exception the handlers can raise is a reply constructor of its own:
  - `NoGame` and `StatsMissing`: the two `KeyError`s of `handle_guess`;
  - `MissingTarget`: the `KeyError` of `feedback_word`;
  - `None`: the failed save of `notification_toggle`.
- What the environment decides is a parameter:
  - the random choices are `:|`;
  - whether a Telegram message was delivered is `sent` or `delivered`;
  - the size of the suggestions file is `fileSize`;
  - whether the sender is the administrator is `isAdmin`.

Where the documented behaviour and the code differ, the model follows the code:

- Only the character `' '` counts as a space in a guess or a proposal; a tab inside a word
  is not refused.
- `handle_guess` checks for a space a second time after the dictionary test
  (src/commands/guess.py:85-87). That check can never fire and has no counterpart here.
- A game is lost when the attempt count reaches 6 or more.
- The start-up build does not make the main and additional lists disjoint.
- The hint's explicit `w == secret` test is redundant. `Hint.SecretNeverQualifies` proves
  that the secret never has the required overlap.
- `feedback_word` applies `replace_yo` before `normalize`. `replace_yo` lives in a
  language module that is not part of this model. A message is taken as `Normalize(text)`,
  which already replaces ё.

## Model

| member | source | states |
|---|---|---|
| Logic.ReplaceYo | src/game/logic.py:9 | every ё becomes е, every other character and the length are kept |
| Logic.Normalize | src/game/logic.py:7-9 | the result has no ё, no outer whitespace and is no longer than the input |
| Logic.NormalizeIdempotent | src/game/logic.py:7-9 | normalising a normalised word changes nothing, so the handler's second `normalize` of a guess is a no-op |
| Logic.NormalizeAdmissible | src/game/logic.py:20-21 | a word with only letters and 4 to 11 of them keeps both properties and its length under normalisation, and is then in normal form |
| Logic.Clean | src/game/logic.py:20-21 | a word is in the filtered list iff it is the normal form of some raw word with only letters and 4 to 11 of them |
| Logic.RebuildShape | src/game/logic.py:20-28 | a rebuilt list is strictly sorted, holds only admissible normal words, and holds exactly the normal forms of the admissible raw words |
| Logic.BuildWordListShape | src/game/logic.py:20-30 | both lists written back at start-up are well formed, and `WORDLIST` holds exactly the cleaned main words |
| Logic.GreenPass | src/game/logic.py:72-78 | position k is green iff the guess matches the secret there, and exactly those secret letters are used up |
| Logic.YellowStep | src/game/logic.py:81-86 | one step of the second pass fixes the mark at position i and leaves exactly the specified colouring of the rest to the letters still unused |
| Logic.YellowPass | src/game/logic.py:80-86 | the second pass completes the row to exactly `Feedback(secret, guess)` |
| Logic.MakeFeedback | src/game/logic.py:71-87 | the row equals the two-pass specification `Feedback` |
| Logic.FeedbackGreen | src/game/logic.py:75-78 | the row has one mark per guess letter, and a mark is green iff the letter matches the secret in place |
| Logic.FeedbackOfSecret | src/game/logic.py:71-87 | guessing the secret gives an all-green row |
| Logic.FeedbackCredits | src/game/logic.py:80-86 | for every letter, the green and yellow marks on it number the smaller of its counts in the guess and in the secret |
| Logic.FeedbackAbsent | src/game/logic.py:80-86 | a guess letter the secret does not contain is always white |
| Logic.FeedbackLemonMelon | src/game/logic.py:71-87 | secret "lemon" and guess "melon" give yellow, green, yellow, green, green |
| Logic.ComputeLetterStatus | src/game/logic.py:33-68 | the in-place loops compute exactly the fold `LetterStatus`, which colours each guess with the same two-pass `Feedback` as `make_feedback` |
| Logic.LetterStatusKeys | src/game/logic.py:60-67 | the status has a key for exactly the letters that occur in some guess |
| Logic.StepMonotone | src/game/logic.py:60-67 | one update never lowers a letter from green to yellow or red, or from yellow to red |
| Logic.LetterStatusMonotone | src/game/logic.py:41-67 | adding a guess keeps every known letter and never lowers its status |
| Logic.LetterStatusGreen | src/game/logic.py:41-63 | a letter is green iff some guess has it where the secret has it |
| Store.Repaired | src/storage/store.py:50-83 | a missing, blank, undecodable or non-object file gives the template; a damaged `users` gives no users and a damaged `global` zero counters; otherwise the users and every present global value are kept and only the missing counters become zero |
| Store.LoadStore | src/storage/store.py:41-85 | the `setdefault` loop over the template keys gives exactly `Repaired` |
| Store.LoadSaved | src/storage/store.py:87-99 | loading what `save_store` wrote gives back the same store |
| Store.RepairIdempotent | src/storage/store.py:76-85 | a repaired store, saved and loaded again, is unchanged |
| Store.UpdateUserActivity | src/storage/store.py:101-138 | a newcomer gets empty proposals, zero statistics, no ban and no game, appended last; the profile fields are overwritten; nothing else changes |
| Store.ClearNotificationFlag | src/storage/store.py:141-146 | the store is saved iff the user exists and is marked notified, and then only that mark becomes false |
| Store.IsBanned | src/storage/store.py:149-153 | true iff the user exists and the stored flag is true |
| Store.LoadSuggestions | src/storage/store.py:6-21 | a missing, blank or undecodable file gives three empty sets; otherwise each set holds exactly the words of its list, none for a missing key |
| Store.SortedList | src/storage/store.py:30-32 | `sorted(set)` is strictly sorted and holds exactly the set's elements |
| Store.SaveSuggestions | src/storage/store.py:25-35 | every list is written strictly sorted, and loading the file gives back the same three sets |
| Conversation.Finish | src/commands/guess.py:137-138 | the popped key is gone, `just_done` is set, every other chat key is kept |
| Play.WordsOfLength | src/commands/play.py:51 | a word is a candidate iff it is in the word list and has the asked length |
| Play.AskLength | src/commands/play.py:15-39 | activity recorded and the reminder mark cleared; a game in progress is resumed with its data copied into the chat, otherwise the length is asked; no game changes |
| Play.ReceiveLength | src/commands/play.py:43-77 | the length is asked again iff the reply is not 4 to 11 or no word has that length; otherwise a fresh game with a secret of that length from the list replaces any old one |
| Play.ReadLength | src/commands/play.py:45-50 | a length is read iff the stripped reply is a number from 4 to 11, and it is that number |
| Play.StartGame | src/commands/play.py:58-68 | only the user's game changes, to a fresh one with the secret, no attempts and no guesses; the secret and the length are copied into the chat |
| Reset.Reset | src/commands/reset.py:8-20 | the game is deleted, saved iff there was one, chat data cleared, conversation ended; statistics untouched |
| Reset.ResetGlobal | src/commands/reset.py:24-27 | activity recorded and the reminder mark cleared; the game stays |
| Hint.RequiredOverlap | src/commands/hint.py:35-36 | on lengths 4 to 11 the table is `(length - 1) / 2`, elsewhere 1 |
| Hint.Candidates | src/commands/hint.py:42-50 | a word is a candidate iff it is in the list, has the secret's length, is not the secret and shares exactly the required number of letters |
| Hint.SecretNeverQualifies | src/commands/hint.py:44 | the secret never has the required overlap with itself |
| Hint.HintRevealsLessThanHalf | src/commands/hint.py:35-50 | on playable lengths a hint shares at least one and fewer than half of the secret's letters |
| Hint.HintSharesLetter | src/commands/hint.py:46-49 | every hint has a letter in common with the secret |
| Hint.Hint | src/commands/hint.py:12-63 | no game ends the conversation; a used hint is refused; otherwise "no hint" iff no word qualifies, else a qualifying list word is shown and only `hint_used` is set and saved |
| Hint.HintNotAllowed | src/commands/hint.py:67-72 | the conversation stays in the stored state (the length question by default); the caller's record changes at most in its reminder mark, which ends up not set, and every other record is kept |
| Guess.TopIndexFrom | src/commands/guess.py:119-122 | `max` by wins: no user has more wins, and none earlier in insertion order has as many |
| Guess.TopPlayerOf | src/commands/guess.py:119-127 | a top player exists iff every record has statistics; it has the most wins, is the first such in insertion order, and its name is the username or else the first name |
| Guess.WinTop | src/commands/guess.py:108-127 | the top player after counting the win exists iff every record, the winner's included, has statistics |
| Guess.WinSettledTop | src/commands/guess.py:114-127 | removing the won game keeps every record's statistics, so no user has more wins than the chosen top player |
| Guess.WinStats | src/commands/guess.py:109-112 | one more game and one more win, losses kept, rate = wins / games |
| Guess.LossStats | src/commands/guess.py:144-147 | one more game and one more loss, wins kept, rate = wins / games |
| Guess.WinGlobal | src/commands/guess.py:114-117 | one more game and one more win globally, rate = wins / games, top player kept for the caller to set |
| Guess.LossGlobal | src/commands/guess.py:149-152 | one more game and one more loss globally, rate = wins / games |
| Guess.Rejection | src/commands/guess.py:41-83 | a guess is accepted iff it has no space, has the secret's length, is not a pending proposal of this user, and is in one of the dictionary lists |
| Guess.Moved | src/commands/guess.py:90-92 | the guess is appended and the attempt counted; nothing else changes |
| Guess.SettleWin | src/commands/guess.py:108-140 | as `WinAnswer` states: a win updates the user's and the global counters, sets the top player and removes the game; a missing `stats` anywhere leaves the store as it was; after a win no user has more wins than the top player |
| Guess.SettleLoss | src/commands/guess.py:143-162 | as `LossAnswer` states: a loss updates the counters and removes the game; a missing `stats` leaves the store as it was |
| Guess.Accept | src/commands/guess.py:89-165 | as `Answer` states: the move is saved, then the game is won on the secret, lost at six attempts, or goes on; a consistent game stays consistent |
| Guess.HandleGuess | src/commands/guess.py:21-165 | no game raises with nothing saved; a rejected guess changes nothing; an accepted one is saved and answered as `Answer` states; when all records have `stats` it never raises; after a win no user has more wins than the top player |
| Guess.SuggestWhite | src/commands/guess.py:175-214 | as written: the word joins the white list iff it is not there and is not a key of the dictionary file; it is added to the user's proposals when missing |
| Guess.SuggestWhiteChecked | src/commands/guess.py:186-199 | corrected: a word joins the white list only if neither dictionary list holds it |
| Guess.SuggestWhiteDictionaryWord | src/commands/guess.py:186-194 | the main-list word "лимон" is put on the white list as written and not with the correction |
| Feedback.FeedbackStart | src/commands/feedback.py:22-44 | refused with the conversation ended during a game in the store or the chat; otherwise asks for the list and marks the chat as in feedback; the caller's record changes at most in its reminder mark, which ends up not set |
| Feedback.FeedbackChoose | src/commands/feedback.py:48-68 | cancel leaves the feedback; black or white records the target and asks for the word; other text asks again |
| Feedback.BlockDuringFeedback | src/commands/feedback.py:147-151 | the conversation stays in the stored feedback state, the list question by default |
| Feedback.RecordSuggestion | src/commands/feedback.py:95-103 | the word ends up in the user's proposals, saved iff it was missing, without creating duplicates |
| Feedback.ProposeWord | src/commands/feedback.py:74-136 | no target raises; a large file or a space refuses; a black proposal is taken iff the word is in the list; a white one iff it is not and has 4 to 11 letters; exactly the taken ones are saved; the new black words are list words and the new white words are not |
| Feedback.FeedbackWord | src/commands/feedback.py:72-136 | as written: a taken proposal from a user without a record leaves a record without `stats` |
| Feedback.FeedbackWordWithStats | src/commands/feedback.py:95-124 | corrected: the new record carries zero statistics, so all records keep `stats` |
| Feedback.KvarkIsNormal | src/game/logic.py:7-9 | "кварк" is its own normal form |
| Feedback.FeedbackLosesStats | src/commands/feedback.py:116-124 | proposing "кварк" for the white list into an empty store leaves a record without `stats` as written, and none with the correction |
| SuggestionCommands.Words | src/commands/suggestions.py:68 | every non-blank piece appears stripped and lower-cased, every entry is such a form of some non-blank piece, and no entry is empty |
| SuggestionCommands.WordsConcat | src/commands/suggestions.py:68 | the words of two runs of pieces are the first run's words followed by the second's, so the pieces' order is kept |
| SuggestionCommands.WordsOne | src/commands/suggestions.py:68 | one piece gives its stripped, lower-cased form, or nothing when it is blank |
| SuggestionCommands.KeyOf | src/commands/suggestions.py:136-138 | a key names a set iff it is "black", "white" or "add" |
| SuggestionCommands.ParseLine | src/commands/suggestions.py:133-140 | a line without a colon is skipped; a line with one is parsed iff the stripped, lower-cased key before the first colon names a set, and then the words after it are parsed |
| SuggestionCommands.Purge | src/commands/suggestions.py:159-160 | a word stays in a profile list iff it was there and is not purged |
| SuggestionCommands.PurgeConcat | src/commands/suggestions.py:159-160 | purging keeps the remaining words in their order |
| SuggestionCommands.PurgeSameLength | src/commands/suggestions.py:158-161 | a purge removes nothing iff no listed word is purged, and then changes nothing |
| SuggestionCommands.PurgedStore | src/commands/suggestions.py:156-161 | purging keeps the users, their order and the global counters |
| SuggestionCommands.LossOverPositive | src/commands/suggestions.py:161 | the count is positive iff some visited profile lost a word |
| SuggestionCommands.PurgeCount | src/commands/suggestions.py:156-165 | the count is positive iff some profile lists a purged word; a zero count means the store is unchanged, so not saving loses nothing |
| SuggestionCommands.PurgeProfiles | src/commands/suggestions.py:156-161 | the per-user loop gives exactly `PurgedStore`, and the count is the number of words removed |
| SuggestionCommands.EditStart | src/commands/suggestions.py:35-54 | silent for non-administrators; ended during a game; otherwise waits for input (`suggestions_remove_start` at lines 98-118 is the same) |
| SuggestionCommands.MoveAllSets | src/commands/suggestions.py:68-79 | listed words leave black; a listed word joins add iff it was in black or white; white only loses listed words; the reports are exact; no word is lost |
| SuggestionCommands.MoveWords | src/commands/suggestions.py:69-79 | the per-word loop computes exactly `MoveAll` of the words, reports included |
| SuggestionCommands.MoveBlackFirst | src/commands/suggestions.py:71-79 | a word in both black and white, listed once, moves out of black and stays in white |
| SuggestionCommands.MoveProcess | src/commands/suggestions.py:57-95 | for the administrator, the loop gives exactly `MoveAll` of the parsed words, always saved; anyone else changes nothing |
| SuggestionCommands.RemoveWordsSets | src/commands/suggestions.py:140-144 | a line's words leave its set and are reported under it; the other sets are untouched |
| SuggestionCommands.RemoveLinesSets | src/commands/suggestions.py:132-144 | each set loses exactly the words listed under its name, and each report names exactly those it lost |
| SuggestionCommands.TakeOut | src/commands/suggestions.py:141-144 | the per-word loop of one line computes exactly `RemoveWords` of that line |
| SuggestionCommands.RemoveListed | src/commands/suggestions.py:132-144 | the per-line loop computes exactly `RemoveLines` of the lines, starting from empty reports |
| SuggestionCommands.RemoveProcess | src/commands/suggestions.py:121-183 | for the administrator, the removals are `RemoveLines`, the suggestions are saved, every removed word leaves every profile, and the store is saved iff a profile lost a word |
| SuggestionCommands.Approve | src/commands/suggestions.py:186-243 | both dictionary lists are rebuilt sorted from the suggestions; every suggested word leaves every profile (saved iff any did); the suggestions become empty |
| Admin.AfterBan | src/commands/admin.py:159-194 | the user is banned; an unknown id gets a fresh record with zero statistics, appended last in the order; a user who was not banned loses the game and gets the `notification` key set to false, a key nothing reads; an already banned user is untouched; others unchanged |
| Admin.AfterUnban | src/commands/admin.py:215-234 | possible iff the user is banned; then the ban, the game and the unused `notification` key are dropped and the ban is remembered |
| Admin.BanIdempotent | src/commands/admin.py:174-175 | banning twice is banning once |
| Admin.UnbanAfterBan | src/commands/admin.py:177-232 | ban then unban restores the record without its game and without a `notification` key, with `was_banned` set and everything else, the reminder setting included, as before |
| Admin.Ban | src/commands/admin.py:141-194 | non-administrators, a missing id and a malformed id change nothing; otherwise the store becomes `AfterBan` and is saved |
| Admin.Unban | src/commands/admin.py:197-245 | saved iff the id is of a banned user, and then the store is `AfterUnban`; unknown and unbanned ids are reported apart |
| Admin.CountLength | src/commands/admin.py:88-89 | no length count exceeds the number of words |
| Admin.CountsCoverAll | src/commands/admin.py:88-95 | when all words have 4 to 11 letters, the eight length counts add up to the number of words |
| Admin.DictReport | src/commands/admin.py:72-114 | eight lines, one per length 4 to 11, with exact counts; their total is the dictionary size when every word has a playable length |
| Notification.SweepSkipping | src/commands/notification.py:16-40 | skipping failures, exactly the due users whose reminder is delivered are marked, saved iff there is one |
| Notification.SweepStops | src/commands/notification.py:32-36 | as written, the sweep breaks off iff some due user's reminder fails, and otherwise equals the skipping sweep |
| Notification.SweepStaysAborted | src/commands/notification.py:32-36 | once broken off, the later users are not reached |
| Notification.SweepChangesOnlyDue | src/commands/notification.py:16-40 | every record changed belongs to a due user whose reminder went out, and only gains the mark |
| Notification.SendUnfinishedGames | src/commands/notification.py:8-40 | as written: the loop gives exactly the stopping sweep over the store's order |
| Notification.SendUnfinishedGamesSkipping | src/commands/notification.py:8-40 | corrected: every due user whose reminder is delivered is marked, every other record kept, saved iff any |
| Notification.SweepStopsAtFailure | src/commands/notification.py:35 | with "1" undeliverable and "2" deliverable, "2" is never reminded as written and is with the correction |
| Notification.Toggled | src/commands/notification.py:50-51 | the setting becomes the opposite of the one in effect, on by default |
| Notification.ToggleTwice | src/commands/notification.py:50-51 | toggling twice restores the setting in effect |
| Notification.NotificationToggle | src/commands/notification.py:44-56 | as written: an unknown user gets no save and no answer; a known user's setting is flipped on the stale copy, so the reminder mark is not cleared |
| Notification.NotificationToggleFixed | src/commands/notification.py:46-53 | corrected: the setting is flipped on the cleared store, the user is not marked as reminded, and all records keep `stats` |
| Notification.ToggleUndoesClear | src/commands/notification.py:46-52 | a reminded user who toggles stays marked as written and is cleared with the correction |
| Notification.ToggleUnknownUserLost | src/commands/notification.py:47 | an unknown user's toggle is not saved as written and is saved, switched off, with the correction |

## Left out

- Rendering of boards and keyboards (`src/game/render.py`), the reply texts, and the
  routing of updates to handlers (`bot.py`).
- The `check_ban_status` decorator, which wraps every player command. It is not part of
  this model, so a banned user here reaches the handler.
- File and network I/O, Telegram messages, clocks and randomness. The modelled handlers
  receive the loaded data as parameters. Replies are assumed delivered; only the sends the
  source wraps in `try` (the ban and unban notices and the reminder) take their outcome as
  a parameter. `last_seen_msk` is not modelled.
- A reply that fails and raises in the middle of a handler. In the guess handler the move is
  saved (src/commands/guess.py:92) before the board photo and the win or loss reply
  (guess.py:102, 132, 154), so a failed reply leaves the stored game with the extra attempt,
  neither settled nor removed. In `ban_user` the confirmation replies
  (src/commands/admin.py:171, 175, 182) come before `save_store` (admin.py:194), so a failed
  confirmation loses the ban. The model covers only runs in which these replies arrive.
- The `notification` key that a ban writes (src/commands/admin.py:169, 178) and an unban
  deletes (admin.py:226-227) is read by no code: reminders follow `notify_on_wakeup`
  (src/commands/notification.py:18), which ban and unban leave as it was. The model keeps
  the key as the source writes it. A banned user gets no reminder only because the ban
  drops the game.
- Profile fields other than the first name and the username: `last_name`, `is_bot`,
  `is_premium` and `language_code` are written the same way and add nothing.
- Win rates are exact reals, not floating point.
- Character classes cover ASCII and the Cyrillic block U+0400..U+045F only. `isalpha`,
  `lower` and `isdigit` are not modelled outside it, and `isdigit` accepts only ASCII
  digits here.
- `str.splitlines` is a split at the line-break characters. The only differences are extra
  empty lines (a trailing one, one inside each `"\r\n"`, and `[""]` for empty text), which
  the removal loop skips anyway.
- The handlers that only reply with a constant and return a constant state:
  `ignore_ask`, `ignore_guess` and `feedback_cancel`, the two `feedback_not_allowed_*`
  handlers, and `suggestions_view`.
- The administrator's other jobs and commands: `set_commands`, `send_activity_periodic`,
  `dump_activity` and the broadcast. The packaging of the word list as a document in
  `dict_file` is left out too.
- The display commands `/start` and the statistics commands, which render stored data.
- Text.Dedupe: states that no entry repeats and no word is lost, but not that the first
  occurrence is kept. The build sorts the list right after, so the order cannot matter.
- The rebinding of `WORDLIST` inside `suggestions_approve` (src/commands/suggestions.py:217-218).
  It changes only that module's name, not the list the other handlers import.
- Suggestion JSON whose lists are not lists, and store JSON whose records are not objects.
- A suggestions file that decodes to valid JSON other than an object. `data.get` then
  raises `AttributeError`, which `load_suggestions` does not catch, both in the handlers
  and in the load at import time (src/storage/store.py:13-21 and 39). The file's
  representation here has no such case.
- Concurrent handlers interleaving their loads and saves.
- Logic.MakeFeedback: requires a guess no longer than the secret, where Python raises
  `IndexError`. Every caller passes a guess of the secret's length.
- Logic.LetterStatus: requires (`FitsSecret`) every guess to be no longer than the secret,
  where `compute_letter_status` raises the same `IndexError` (src/game/logic.py:45-46).
- Logic.ComputeLetterStatus: the same `FitsSecret` precondition, for the same reason.
- SuggestionCommands.MoveBlackFirst: stated for a word listed once. A word in both black
  and white that is listed twice leaves both sets, as `MoveAll` computes.

## Findings

| source | as written | input that shows it | evidently intended | confidence | as-written member | corrected member |
|---|---|---|---|---|---|---|
| src/commands/guess.py:186-194 | `set(json.load(f))` of the dictionary object is the set of its keys, `{"main", "additional"}`, so the white-list test never sees the words | the main-list word "лимон" proposed from the button | check against the main and additional lists | high, not executed | Guess.SuggestWhiteDictionaryWord | Guess.SuggestWhiteChecked |
| src/commands/feedback.py:97-98 | an unknown user's proposal creates the record `{}` without `stats`; after that, every win by anyone raises in the top-player `max` after the move is saved | user "7" with no record proposes "кварк" for the white list | create the record with zero statistics, as `update_user_activity` does | medium, not executed | Feedback.FeedbackLosesStats | Feedback.FeedbackWordWithStats |
| src/commands/notification.py:35 | `logger` is never defined in the module, so a failed reminder raises `NameError` and ends the whole sweep | users "1" and "2" with games, only "2" deliverable | log the failure and go on with the next user | high, not executed | Notification.SweepStopsAtFailure | Notification.SendUnfinishedGamesSkipping |
| src/commands/notification.py:46-52 | the reminder mark is cleared in a fresh copy of the store, then the stale copy is saved over it | reminded user "5" toggles reminders | toggle on the store whose mark was cleared | high, not executed | Notification.ToggleUndoesClear | Notification.NotificationToggleFixed |
| src/commands/notification.py:47 | the default record `{"stats": {...}}` holds a Python set, which `json.dumps` refuses, so an unknown user's toggle is never saved or answered | user "9", unknown to an empty store, toggles | a record with zero statistics | high, not executed | Notification.ToggleUnknownUserLost | Notification.NotificationToggleFixed |
