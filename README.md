# DumbieTV core in Dafny

DumbieTV runs a broadcast-style TV channel from a library of episode files.
This project models its core and proves properties of the model:

- **Episode rotation** (`Scheduler.get_next_episode`). Each show has a pointer to its last-played episode. Rotation moves the pointer to the next episode in `(season, episode)` order and wraps around at the end.
- **Day builder** (`Scheduler.build_schedule`). A greedy, randomised loop fills one 24-hour grid starting at 04:00 with back-to-back episodes. It tracks:
  - runs of 2 or 4 repeats of one show;
  - a ban on picking the previous show again;
  - an optional marathon window with its own timer;
  - rotation-pointer updates.
- **Guide defaults** (`Scheduler.generate_xmltv`). The programme title and the "No description" default.
- **Playout bookkeeping** (`Player`, `PlayerThread`):
  - the entry playout starts with, the offset into it and the wait before the next entry;
  - the one-item lookahead;
  - the ffmpeg command line;
  - the start/end events and how `_handle_completed` writes them back to the schedule.
- **Intermission text** (`lib/intermission.py`):
  - the drawtext escaping `normalize_text`;
  - show-name extraction from titles;
  - the composition of the voiceover text;
  - the on-screen layout of the next four entries;
  - the rule that skips an intermission with fewer than four entries after it.
- **Library ingestion** (`TVScanner`):
  - the refresh rule of `update_shows`;
  - the per-file decision and the inserts of `add_new_episodes`;
  - the table effect of `remove_missing_episodes`.

## How the model is built

- **Database.** The MySQL database is a `Tables.Db` object whose fields are the three tables (`tv_shows`, `tv_episodes`, `schedule`) as sequences of rows, plus the next auto-increment ids. A method that writes tables `modifies` the object and states the whole new table contents.
- **Query order.** Queries without an ORDER BY return rows in table order. `ORDER BY ... LIMIT 1` returns the first row of table order among those that tie.
- **Time.** Times are whole seconds on one clock.
- **Oracles.** Randomness, the clock, text-to-speech and video rendering, the file system, ffprobe, image dimensions and the TVDB API are function parameters. So are the `strftime` time labels and font paths.
- **Runs.** Every run of a model method is one run of the source for some answers of those oracles.

Modules, one per concern of the source:

| module | models |
|---|---|
| `Basics` | `Option` and `Result` |
| `Text` | the Python string operations the core relies on (`strip`, digits, `str(int)`, `str.replace`) |
| `Tables` | the tables, the `Db` object and lookups by primary key |
| `Rotation` | `get_next_episode` and the rotation pointer |
| `Scheduler` | `build_schedule`, split into the loop and one pass of its body |
| `ScheduleProps` | what a finished build guarantees |
| `Player` | `Player.play`, `_handle_completed` and `PlayerThread` |
| `Xmltv` | the guide title and description |
| `Titles` | the two title regular expressions of `lib/intermission.py` |
| `Drawtext` | `normalize_text` |
| `Voiceover` | `generate_voiceover_text` |
| `Overlay` | the drawtext layout loop and `generate_all_future_intermissions` |
| `Meta` | `update_shows`, `add_new_episodes` and `remove_missing_episodes` |

**What the code does, where a reader might expect more.**

- **Not in the code.** The day builder places only episodes: it has no movie slots and inserts no intermission rows. It always starts from an empty day and never resumes from the latest existing entry. Playout has no drift correction, purging, drift-anomaly wait or track selection.
- **Refusing a build.** The code refuses a build as soon as any entry starts inside the day's window, even if the day is not fully covered (lib/scheduler.py:65-71). `Scheduler.BuildSchedule` models that.
- **Paths.** The code inserts every episode row with a NULL `path` column and reads the path through the episode (lib/scheduler.py:170, lib/player.py:97). `Player.PlanStart` models that.
- **Voiceover.** The methods `Voiceover.ComposeVoiceover` and `Voiceover.GenerateVoiceoverText` compute the text exactly as the code writes it, including the two faults under "## Findings". `Voiceover.Compose` is the corrected text. `Voiceover.AsWrittenAgrees` proves that the two texts agree everywhere else.

## Model

| member | source | states |
|---|---|---|
| `Tables.FindShow` | lib/scheduler.py:19-21 | the row with that id when one exists, and none exactly when no row has that id |
| `Tables.FindEpisode` | lib/scheduler.py:32-34 | the episode with that id when one exists, and none exactly when no episode has that id |
| `Tables.FindRow` | lib/intermission.py:234-239 | the schedule row with that id when one exists, and none exactly when no row has that id |
| `Text.ReplaceCharAppend` | lib/intermission.py:19-25 | `str.replace` of one character distributes over concatenation |
| `Rotation.ShowEpisodes` | lib/scheduler.py:26 | exactly the episodes of the show |
| `Rotation.LaterInSeason` | lib/scheduler.py:39 | exactly the episodes of the same season with a higher episode number |
| `Rotation.LaterSeasons` | lib/scheduler.py:47 | exactly the episodes of a later season |
| `Rotation.First` | lib/scheduler.py:24-30 | an episode no other episode precedes in `(season, episode)` order, and none exactly when the show has no episodes |
| `Rotation.SuccessorIsLeastAbove` | lib/scheduler.py:38-59 | the successor is the least episode after the pointer's key when one exists, and otherwise the show's first episode; it is none only when the show has no episodes |
| `Rotation.SuccessorByQueries` | lib/scheduler.py:38-52 | "first later episode in the season, else first episode of a later season" is the least episode after the key |
| `Rotation.NextEpisode` | lib/scheduler.py:17-59 | with no pointer, the show's first episode; with a pointer to an existing episode, its successor; a pointer to a missing episode fails (line 35); any episode returned belongs to the show |
| `Rotation.FollowPointer` | lib/scheduler.py:32-59 | after the pointer is set to an episode, rotation continues from that episode's key |
| `Rotation.PointerToMember` | lib/scheduler.py:32-36 | a pointer naming an existing episode never fails |
| `Rotation.SetPointer` | lib/scheduler.py:173-174 | only the rows of the given show get the new pointer, and every other row is unchanged |
| `Rotation.FindShowAfterSetPointer` | lib/scheduler.py:173-174 | looking up any show after the pointer update gives the old row, with the new pointer when it is that show |
| `Rotation.RotateOnce` | lib/scheduler.py:17-59 | one rotation step returns an episode whose key is the next key after the pointer, and leaves a valid pointer to that key |
| `Rotation.RotateIsTour` | lib/scheduler.py:17-59 | n rotation steps from any valid pointer play exactly the keys of the abstract tour "next key, wrapping to the first" |
| `Rotation.TourPrefix` | lib/scheduler.py:38-59 | the first n keys of the tour from no pointer are ascending, pairwise distinct and are exactly the keys up to the last one |
| `Rotation.RotationCycle` | lib/scheduler.py:17-59 | the tour from no pointer visits every key once in ascending order, and then returns to the first key |
| `Rotation.RotationVisitsEveryKey` | lib/scheduler.py:17-59 | starting with no pointer, the first k rotations (k = number of distinct keys) play every key of the show once, in ascending order, and rotation k + 1 replays the first |
| `Scheduler.Unit` | lib/scheduler.py:75 | `random.random()` lies in [0, 1) |
| `Scheduler.RandInt` | lib/scheduler.py:88-90 | `randint(lo, hi)` lies in [lo, hi] |
| `Scheduler.RandIntReachable` | lib/scheduler.py:88-90 | every value of [lo, hi] is drawn by some oracle answer |
| `Scheduler.DayTaken` | lib/scheduler.py:65-68 | true exactly when some entry starts in [04:00, 04:00 + 24 h) of the day |
| `Scheduler.MarathonCandidates` | lib/scheduler.py:78 | exactly the enabled shows with at least 72000 s of episodes |
| `Scheduler.ShowCandidates` | lib/scheduler.py:107-120 | exactly the enabled shows that are neither the previous show nor the marathon show |
| `Scheduler.RepeatChoice` | lib/scheduler.py:148-158 | the repeat count is 0, 2 or 4; it is 4 only for an episode of at most 1800 s; it is nonzero exactly when the draw is below 0.4 |
| `Scheduler.RepeatChoiceReachable` | lib/scheduler.py:150-158 | 0 and 2 are always possible, and 4 is possible for episodes of at most 1800 s |
| `Scheduler.DrawMarathon` | lib/scheduler.py:75-94 | no marathon exactly when the chance draw exceeds the configured `MARATHON_CHANCE` or no show qualifies; otherwise a qualifying show, a start in [0, 43200] and a duration in [28800, 43200] |
| `Scheduler.Record` | lib/scheduler.py:170-175 | one row inserted with the next id, the episode's times, and the pointer of the episode's show set to it |
| `Scheduler.Place` | lib/scheduler.py:148-175 | placing the chosen episode keeps the loop invariant and meets every per-placement guarantee, and the tables change by exactly one row and one pointer |
| `Scheduler.Iteration` | lib/scheduler.py:103-175 | one pass of the loop either places one episode (with all guarantees and exactly that table change), or only updates the loop variables (the `continue`s), or stops with day full, no show to pick, or a failed rotation |
| `Scheduler.BuildSchedule` | lib/scheduler.py:61-177 | refuses exactly when the day is taken; any marathon is within its bounds; every placement meets its guarantees; content stays within 86400 s and the marathon timer within the marathon's duration; the schedule gains exactly the placed rows and the pointers are the replayed updates |
| `Scheduler.PlacedAt` | lib/scheduler.py:103-175 | every placement of a finished build meets the guarantees given the placements before it |
| `ScheduleProps.PlacedTimes` | lib/scheduler.py:145-165 | entry k starts at the day's start plus the earlier durations, ends after its own duration, and stays within 86400 s |
| `ScheduleProps.BackToBack` | lib/scheduler.py:160-165 | the first entry starts at 04:00, each entry starts where the previous one ends, and no entry ends past 04:00 the next day |
| `ScheduleProps.InsertedRows` | lib/scheduler.py:160-171 | the inserted rows carry consecutive ids and the placed episodes, back to back within the day |
| `ScheduleProps.RunGoesOn` | lib/scheduler.py:104-164 | outside a marathon, a show placed again right after itself continues its run, counting up to the repeat count |
| `ScheduleProps.CounterBounds` | lib/scheduler.py:148-164 | the show counter is at least 1 after a placement and the repeat count is at most 4 |
| `ScheduleProps.NoLongRuns` | lib/scheduler.py:104-164 | outside a marathon, among any five consecutive entries the show changes at least once |
| `ScheduleProps.PickedShow` | lib/scheduler.py:104-122 | a freshly picked show is enabled, differs from the previous entry's show and is not the marathon show |
| `ScheduleProps.MarathonAndRepeats` | lib/scheduler.py:123-158 | entries placed in a marathon are of the marathon show; the repeat count is 0, 2 or 4, and 4 only after a short episode |
| `ScheduleProps.ReplayFind` | lib/scheduler.py:173-174 | after a build each show's pointer is its last placed episode, or unchanged when none was placed |
| `ScheduleProps.PlacedNext` | lib/scheduler.py:126 | each placed episode is what rotation returns for its show at that moment |
| `ScheduleProps.RotationOrder` | lib/scheduler.py:126-174 | a show placed again gets the rotation successor of its previously placed episode |
| `ScheduleProps.RotationStart` | lib/scheduler.py:126 | a show's first placement in a build is its rotation step from the pointer the build started with |
| `Xmltv.ColumnInt` | lib/scheduler.py:217 | a printed integer column has no space in it |
| `Xmltv.ProgrammeTitle` | lib/scheduler.py:217 | the title starts with the show title and ` S` |
| `Xmltv.ColumnIntInjective` | lib/scheduler.py:217 | distinct integer columns, NULL included, print differently |
| `Xmltv.UnjoinedProgramme` | lib/scheduler.py:217-222 | a row whose episode the LEFT JOIN does not find has the title `None SNone ENone` and the description `No description`; any description other than that default is the episode's own |
| `Xmltv.TitleDeterminesEpisode` | lib/scheduler.py:217 | for one show, the programme title determines the season and episode numbers |
| `Player.DeltaSeconds` | lib/player.py:117 | `timedelta.seconds` is the difference reduced to [0, 86400), equal to it inside one day |
| `Player.Earliest` | lib/player.py:97 | an entry no other entry starts before, and none only for no entries |
| `Player.JoinedPath` | lib/player.py:97 | the path of the row's episode exactly when the row names an episode that exists, and none otherwise |
| `Player.Skipto` | lib/player.py:115-119 | an offset exactly when the entry started before now and the day-reduced gap is nonzero; it is that gap, and the plain gap inside one day |
| `Player.StartDelay` | lib/player.py:110-113 | the sleep reaches the entry's start inside one day, and is 0 once it has started |
| `Player.StartingEntry` | lib/player.py:97-125 | nothing is queued exactly when no entry airs now and none starts later; otherwise the earliest airing entry with no sleep, else the earliest upcoming one, is queued with its episode's path and `skipto` and no `wait_until` |
| `Player.StartPathAsWritten` | lib/player.py:102-123 | as written, starting ahead of an episode entry queues no path although the episode has one |
| `Player.ThreadDelay` | lib/player.py:55-60 | no sleep without a `wait_until` or once it has passed |
| `Player.GapIsWaited` | lib/player.py:55-150 | back-to-back entries never wait; a gap makes the thread sleep exactly until the next start |
| `Player.NextEntry` | lib/player.py:139-146 | the next entry is the earliest one starting after the previous entry's start, and none exactly when there is none |
| `Player.Mark` | lib/player.py:167-176 | an event changes only the row with its id |
| `Player.MarkAll` | lib/player.py:167-176 | every row is marked and the table keeps its length |
| `Player.LastFor` | lib/player.py:164-177 | the last event about an id, and none exactly when there is none |
| `Player.DrainEffect` | lib/player.py:162-181 | after draining, each row carries the last start and last end reported for it, and `completed` follows its last event |
| `Player.Queue.Put` | lib/player.py:121 | the item joins the back of the queue |
| `Player.Queue.TryGet` | lib/player.py:166 | the front item is removed, or nothing on an empty queue |
| `Player.HandleCompleted` | lib/player.py:162-181 | the queue is drained and the schedule becomes the drained table; nothing else changes |
| `Player.ControlPass` | lib/player.py:131-157 | a non-empty playlist only backs off; an empty one gets the next entry with its path and `wait_until`, and `previous_played` moves to it only then |
| `Player.Lookahead` | lib/player.py:133-157 | the playlist never holds more than one item |
| `Player.Seek` | lib/player.py:35-38 | the seek arguments are absent or a pair |
| `Player.FfmpegArgsShape` | lib/player.py:29-53 | the command begins `ffmpeg -hwaccel_output_format cuda -re`; `-ss` follows exactly when `skipto` is set and nonzero, and the value read back is `skipto`; the input is the path; it ends `-f flv` and the destination |
| `Player.PlayerThread.constructor` | lib/player.py:12-19 | the thread listens and runs no process |
| `Player.PlayerThread.Launch` | lib/player.py:22-68 | an empty playlist changes nothing; otherwise the front item is taken, a start event after the wait is reported before the process is launched, and a missing path fails before launch |
| `Player.PlayerThread.Finish` | lib/player.py:70-78 | an end event is reported only if the thread is still listening |
| `Player.PlayerThread.Stop` | lib/player.py:80-83 | listening ends and a running process is terminated |
| `Player.StopDuringPlayback` | lib/player.py:62-83 | a stop during playback leaves only the start event: no end event is reported |
| `Titles.ShowMatch` | lib/intermission.py:462 | the leftmost split of the title before a `( ... ) [Marathon!] S<n> E<n>` tail, or none when there is none |
| `Titles.ShowNameSpec` | lib/intermission.py:461-472 | an unmatched title is returned as it is; a matched one gives its stripped leading part; with `tts_clean` the name has no `:` and no `!` |
| `Titles.TitleMatch` | lib/intermission.py:152 | the rightmost split before an `S<digits> E<digits>` ending, or none when there is none (greedy `.+`) |
| `Titles.OverlayLines` | lib/intermission.py:149-158 | the second line is empty exactly when the title does not match, which leaves the first line as the title |
| `Drawtext.Escape` | lib/intermission.py:19-25 | each escape is a run of backslashes and then the escaped character |
| `Drawtext.NormalizeChainAppend` | lib/intermission.py:19-25 | the chain of six replaces maps concatenation to concatenation |
| `Drawtext.NormalizeChainChar` | lib/intermission.py:19-25 | on one character the chain gives exactly that character's escape |
| `Drawtext.NormalizeIsEscapeMap` | lib/intermission.py:18-25 | `normalize_text` is the per-character escape map: later replaces do not escape the backslashes earlier ones add |
| `Drawtext.NormalizeAppend` | lib/intermission.py:18-25 | the escape map distributes over concatenation |
| `Drawtext.UnescapeNormalize` | lib/intermission.py:18-25 | the escaped text determines the original text |
| `Voiceover.PreviousEntry` | lib/intermission.py:247-255 | a non-intermission entry ending by the intermission's start with the latest end, and none exactly when there is none |
| `Voiceover.FutureEntries` | lib/intermission.py:257-264 | at most n non-intermission entries starting at or after the end, and all of them when fewer than n exist |
| `Voiceover.RunOfIs` | lib/intermission.py:276-280 | the run length counts exactly the leading entries with that name |
| `Voiceover.Repeats` | lib/intermission.py:272-280 | `repeats` is 0 unless the previous entry is a show episode outside a marathon, and at most the number of future entries |
| `Voiceover.LeadSpec` | lib/intermission.py:272-285 | `repeats` is the leading run of the previous show's name; the opening phrase is empty exactly when there is no run or no name, and otherwise ends with "of <name>", carrying the count when it is above one |
| `Voiceover.Single` | lib/intermission.py:290-308 | the lone remaining entry adds one phrase: the movie title, the marathon, or an episode of its show |
| `Voiceover.MovieAnnouncedTwice` | lib/intermission.py:292-308 | as written, a lone movie is also announced as "an episode of" after its title |
| `Voiceover.Step` | lib/intermission.py:310-392 | the loop consumes one movie, or a whole run of one show name |
| `Voiceover.Announcement` | lib/intermission.py:325-391 | the phrase for a run that the nested branches choose: movie title, marathon wording, or count and show name; it fails exactly where line 331 or 369 reads a missing previous entry |
| `Voiceover.SpokenShape` | lib/intermission.py:325-391 | every phrase after the first starts with ", " and ends with its wording |
| `Voiceover.RunStarts` | lib/intermission.py:310-392 | the loop visits start positions that partition the remaining entries, each the previous one plus its step |
| `Voiceover.OnePhrasePerRun` | lib/intermission.py:310-392 | each maximal run of one show (each movie) gives exactly one phrase carrying its count, and every remaining entry is consumed once |
| `Voiceover.PhrasesFailure` | lib/intermission.py:331-369 | composing fails only before any phrase and with no previous entry |
| `Voiceover.SpeechSaysPhrases` | lib/intermission.py:310-392 | the accumulated text is the phrases spoken in order, or the failure |
| `Voiceover.Frame` | lib/intermission.py:397 | the text starts with the fixed intro and ends with a period |
| `Voiceover.Compose` | lib/intermission.py:272-397 | the text is empty exactly when there are no future entries; otherwise it is framed; it fails only with no previous entry |
| `Voiceover.ComposeAsWritten` | lib/intermission.py:272-397 | as written, the text is empty exactly when there are no future entries; otherwise it starts with the intro and ends with a period; it fails only with no previous entry |
| `Voiceover.SingleAgrees` | lib/intermission.py:290-308 | for a lone entry that is not a movie, the branch as written says what the corrected one says |
| `Voiceover.AsWrittenAgrees` | lib/intermission.py:272-397 | outside the two faults (every entry repeating, a lone movie), the text as written equals the corrected text |
| `Voiceover.AllRepeatsTwoPeriods` | lib/intermission.py:288-397 | as written, when every future entry continues the previous show the text ends in two periods |
| `Voiceover.AllRepeatsOnePeriod` | lib/intermission.py:288-397 | corrected, that text ends in one period |
| `Voiceover.VoiceoverEmpty` | lib/intermission.py:241-270 | the as-written text is empty exactly when the intermission row is missing or no entry follows it |
| `Voiceover.RunFrom` | lib/intermission.py:315-324 | the inner loop measures the step of the run at i |
| `Voiceover.AnnounceRemaining` | lib/intermission.py:309-392 | the nested loops produce the phrases of the runs after the opening phrase |
| `Voiceover.AnnounceLast` | lib/intermission.py:290-308 | the single-entry branch appends exactly what lines 290-308 append, the movie test and the marathon test in turn |
| `Voiceover.ComposeVoiceover` | lib/intermission.py:272-397 | the method builds the text as written, from the repeats loop through the final frame, including its two faults |
| `Voiceover.GenerateVoiceoverText` | lib/intermission.py:229-399 | the method returns the as-written text for the row: empty for a missing row or no following entry, otherwise composed from the three queries |
| `Overlay.SlotLines` | lib/intermission.py:149-161 | the overlay's two lines are the escaped title lines, and the second is empty exactly when the title has no season marks |
| `Overlay.Height` | lib/intermission.py:174-193 | each entry moves y by 163, or by 221 with a season line |
| `Overlay.TopClosedForm` | lib/intermission.py:144-193 | entry k is drawn at y = 150 + 163 k + 58 × (season lines before k) |
| `Overlay.LayoutFits` | lib/intermission.py:144-193 | with at most four entries every line is drawn at y ≤ 934 |
| `Overlay.FilterCount` | lib/intermission.py:163-191 | k entries give 2k drawtext filters plus one per season line |
| `Overlay.GraphEntry` | lib/intermission.py:163-191 | appending one entry's filters extends the graph text with a comma only after existing filters |
| `Overlay.DrawnIsGraph` | lib/intermission.py:163-193 | the text the loop accumulates is the comma-joined list of the entries' filters |
| `Overlay.DrawEntry` | lib/intermission.py:163-193 | one pass of the loop appends that entry's filters and moves y to the next entry's top |
| `Overlay.Layout` | lib/intermission.py:141-193 | the filter graph is the comma-joined filters of the entries, each at its computed y |
| `Overlay.IntermissionFilters` | lib/intermission.py:119-193 | the overlay of an intermission row, none when the row is missing |
| `Overlay.SetPath` | lib/intermission.py:67-72 | the table keeps its length when one row's path is set |
| `Overlay.EnoughAfterHandling` | lib/intermission.py:53-61 | setting intermission paths does not change how many entries follow any time |
| `Overlay.HandleStep` | lib/intermission.py:52-73 | one pass of the loop sets the path exactly when four entries follow the intermission, and otherwise changes nothing |
| `Overlay.CandidateIds` | lib/intermission.py:42-49 | the loop visits exactly the future intermissions with no path |
| `Overlay.GenerateAllFutureIntermissions` | lib/intermission.py:38-76 | every future pathless intermission with four entries after it gets its rendered path and nothing else changes |
| `Overlay.SkipRule` | lib/intermission.py:52-73 | a row keeps its path unless it is a future pathless intermission with four entries after it, and then it gets its render |
| `Meta.Selected` | lib/meta.py:68-75 | the shows to update are the given one, or else those needing an update or not updated for seven days |
| `Meta.Refresh` | lib/meta.py:84-99 | a refreshed show takes the series name, overview and image, its dimensions or 0 × 0, the clock and `needs_update = 0`, and keeps its other columns |
| `Meta.StoreTwice` | lib/meta.py:90-99 | a second update of a row overrides the first |
| `Meta.RefreshStep` | lib/meta.py:83-100 | one pass of the loop refreshes the selected row with its id and no other |
| `Meta.UpdateShows` | lib/meta.py:66-100 | the show table becomes the refresh of exactly the selected shows, and the other tables are unchanged |
| `Meta.UpdateRule` | lib/meta.py:66-100 | a selected show is refreshed and is then not stale; any other show is unchanged |
| `Meta.SizeRule` | lib/meta.py:133-134 | the megabyte test is exactly "fewer than 104857600 bytes" |
| `Meta.FindCode` | lib/meta.py:137 | the leftmost `S<dd>E<dd>` at or after a position, and none only when there is none |
| `Meta.ParseCode` | lib/meta.py:137-143 | the two-digit values after `S` and `E` of the leftmost `S<dd>E<dd>`, both below 100, and none exactly when the name has none |
| `Meta.TwoDigitsValue` | lib/meta.py:142-143 | two digits read back as their value |
| `Meta.ParseCodeRoundTrip` | lib/meta.py:137-143 | a name whose first code is `S<ss>E<ee>`, after any prefix with no code in it, parses as (ss, ee) |
| `Meta.FirstMatch` | lib/meta.py:145-153 | the first record with equal season and episode number, and none exactly when no record matches |
| `Meta.MatchRecord` | lib/meta.py:145-149 | the loop with `break` finds exactly the first match |
| `Meta.Decide` | lib/meta.py:126-153 | a known path is skipped first, then a file under 100 MiB, then a name with no code, then a code with no record; otherwise it is inserted with the parsed numbers and the first matching record |
| `Meta.VerifiedShows` | lib/meta.py:105 | exactly the verified shows |
| `Meta.AddFile` | lib/meta.py:118-166 | the episode table and its next id become the result of deciding on the file; other tables are unchanged |
| `Meta.AddShowFiles` | lib/meta.py:116-166 | the episodes of the show's files are added in walk order; other tables are unchanged |
| `Meta.AddNewEpisodes` | lib/meta.py:102-168 | the episodes of every verified show's files are added; other tables are unchanged |
| `Meta.AddedRule` | lib/meta.py:126-166 | at most one row is appended, carrying the next id, show, path, parsed numbers and matched record, only for a new path of at least 100 MiB; unique paths and ids are kept |
| `Meta.AddedFilesRule` | lib/meta.py:116-166 | adding a show's files only appends, and keeps paths and ids unique |
| `Meta.AddedShowsRule` | lib/meta.py:102-168 | ingestion only appends episodes, and keeps paths and ids unique |
| `Meta.MissingIds` | lib/meta.py:177-179 | exactly the ids of episodes whose file does not exist |
| `Meta.UnscheduledMembers` | lib/meta.py:200-210 | the schedule loses exactly the rows of missing episodes that start now or later |
| `Meta.DroppingMembers` | lib/meta.py:212-213 | the episode table loses exactly the missing episodes |
| `Meta.UnscheduledTwice` | lib/meta.py:177-214 | removing schedule rows for one set of episodes and then another is removing them for both |
| `Meta.DroppingTwice` | lib/meta.py:177-214 | deleting one set of episodes and then another is deleting both |
| `Meta.RemoveStep` | lib/meta.py:177-214 | one pass of the loop deletes nothing for a present file, and otherwise that episode and its future rows |
| `Meta.RemoveMissingEpisodes` | lib/meta.py:170-216 | the episode table loses the missing episodes, the schedule loses their rows from now on, and the show table is unchanged |
| `Meta.RemovalRule` | lib/meta.py:177-214 | an episode stays exactly when its file is present, and past schedule rows all stay |
| `Meta.RemovalOnlyDeletes` | lib/meta.py:200-210 | the schedule only loses rows |
| `Meta.RemovalLeavesDangling` | lib/meta.py:212-213 | a show pointing at a removed episode makes rotation fail afterwards (the lookup of lib/scheduler.py line 35) |

## Left out

- SQL, connections and cursors are not modelled. The tables are sequences in the `Db` object; each commit is the state after the method.
- Randomness is the oracle `rng`. `random.random()` is a 53-bit fraction of a draw. `ORDER BY RAND() LIMIT 1` picks an index of the candidate list. Probabilities are not modelled.
- `Scheduler.NewRow`: the insert of lib/scheduler.py:170 sets only the episode id and the two times. The model gives the other columns assumed defaults: tag `""`, title `""`, `is_marathon` false, and NULL path, actual times and `completed` false. No schema in the source fixes them. In particular the model assumes tag is not NULL. Under SQL's NULL logic a NULL tag fails `tag != 'INTERMISSION'`, and the voiceover and overlay queries would then skip every inserted row.
- `Scheduler.DrawMarathon` and `Scheduler.BuildSchedule` take `config.MARATHON_CHANCE` as a parameter. The other constants of the source are fixed as it writes them.
- `Scheduler.BuildSchedule`: the source's `while True` loop can run forever, for example when a show with no episodes is drawn again and again. The model bounds it with a `fuel` parameter and reports `OutOfFuel` when the fuel runs out.
- Threads, blocking queue reads with timeouts, `time.sleep`, `KeyboardInterrupt` and process lifetime are left out, because their point is concurrency. Each `Player` method is one uninterrupted stretch of one thread, and a sleep is a returned delay.
- The `-ss` value is kept as a number, because the printing of `str(skipto)` adds nothing to the argument-list shape.
- External tools and services are oracles or left out. These are ffmpeg and ffprobe, the text-to-speech services, pydub mixing, TVDB and image fetching.
  - `render` gives an intermission's video path from its id.
  - `series` and `dims` give TVDB data and image sizes.
  - `walk` gives the files under a show's folder, each with its size and its ffprobe duration.
  - `present` tells whether a file exists.
- `Meta.AddNewEpisodes`: ffprobe's `int(float(...))` and its exception on an unreadable file are not modelled. A file's duration is given with the file.
- `Meta.AddNewEpisodes`: the unused `tvdb.get_series` call of line 114 is left out.
- `Meta.UpdateShows` requires unique show ids, as the primary key guarantees. It does not model the "Nothing to update" message, only its early return.
- `Meta.RemoveMissingEpisodes` does not model the printing of replacements (lines 181-198). The schedule rows it deletes are the rows its query selects; deleting them by id is the same under the primary key.
- `add_new_shows` and `delete_old_intermissions` are not part of this model. They walk directories, delete files and call TVDB.
- `Titles` uses ASCII digits for `\d` and Python's `str.isspace` set for `\s` and `strip`. Unicode digits are not modelled.
- `Overlay.Layout` is generic over how a filter is printed, and takes the entries' time labels from a `clock` oracle that stands for `strftime`. The font paths are parameters.
- `Overlay.GenerateAllFutureIntermissions` models `generate_intermission_video` by its result, the `render` oracle applied to the row's id. The speech, audio and ffmpeg steps are left out, and so is the case where they fail and the path becomes NULL. That case is covered only as far as the oracle can return `None`.
- `Meta.Refresh` models the overview as a string, and the image as an optional string tested for truthiness.
- XML serialisation, time zones and `strftime` in `generate_xmltv` are left out. Only the title and description text are modelled.
- `datetime.now()` microseconds are left out: the clock is whole seconds, and `NOW()` is the `now` parameter.
- The CLI scripts and configuration files are not part of this model.

## Findings

| source | as written | input that shows it | evidently intended | confidence | as-written member | corrected member |
|---|---|---|---|---|---|---|
| lib/player.py:102-123 | when nothing airs now, the fallback query reads the schedule table alone, so the first item's path is the row's own `path` column, which is NULL for episode rows | one episode row (path NULL, episode path `/tv/s01e01.mkv`) starting at 100, with now = 0 | queue the episode's path, as the other two queries do through the join | not executed | `Player.PlanStartAsWritten`, `Player.StartPathAsWritten` | `Player.PlanStart`, `Player.StartingEntry` |
| lib/intermission.py:292-308 | with one remaining entry that is a movie, the second `if` is not an `elif`, so the movie is also announced as "an episode of" its title | a lone remaining MOVIE entry, not a marathon | one phrase: the movie's title | not executed | `Voiceover.SingleAsWritten`, `Voiceover.MovieAnnouncedTwice` | `Voiceover.Single` |
| lib/intermission.py:288-397 | when every future entry continues the previous show, line 289 adds "." and line 397 adds another | the previous entry is an episode of a show and all future entries are of the same show | a single final period | not executed | `Voiceover.ComposeAsWritten`, `Voiceover.AllRepeatsTwoPeriods` | `Voiceover.Compose`, `Voiceover.AllRepeatsOnePeriod` |
