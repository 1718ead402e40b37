# Course bot: dialogue, course record and generator post-processing

A Telegram bot (aiogram 2) teaches a skill in seven daily lessons. A user
names a skill, a goal, an experience level and optional preferences. The bot
asks a text generator for a seven-line plan. Once the plan is approved it
asks for seven lessons. The user then steps through the lessons with inline
buttons: next lesson, simpler version, ask a question, change the lesson,
cancel, and finish. Finishing offers three follow-up courses.

The model has six parts:

- `Text` (text.dfy): the Python string operations the core relies on. These
  are `strip`, `split` on a non-empty separator, `replace`, `join`, the
  "non-blank stripped pieces" list comprehension, `lower`, `int()` on digit
  strings and `f"{n}"`.
- `Gemini` (gemini.dfy): what gemini_service.py does with the model's
  answer.
  - It normalises a plan or suggestion list to exactly seven or three items.
  - It pads a course with filler lessons in a loop, then cuts it to seven.
  - It strips an answer, or falls back to a fixed apology.
  - It extracts a lesson title and keeps the current lesson on any failure.
  - The network call is replaced by its response: `None` when the call
    raised.
- `Resources` (resources.dfy): load_resources.py. The file's non-blank
  stripped lines are walked five at a time. Each block whose type is "book"
  or "article" becomes one row, with its content cut to 500 characters.
- `CourseRecord` (course_record.dfy): a value of the `user_courses` table.
  Two shapes are modelled: the partial `{"completed_lessons": []}` record
  written by process_skill, and the active record written on plan approval.
  This part also holds the pure decisions the handlers take on a record:
  - the progress formula and the append-if-absent ledger of completed lessons;
  - advancing a day, the lesson keyboard and the input guards;
  - the suggestion fallback and filter, and decoding a suggestion button;
  - the reminder loop's test.
- `Forms` (forms.dfy): the `CourseForm` states of states.py, plus "no
  state", and the scratch data the setup handlers store.
- `CourseBot` (course_bot.dfy): handlers/course.py as a class `Bot`. It
  holds three fields:
  - the `user_courses` table;
  - the per-user dialogue (FSM state and data);
  - the log of `save_user_course` calls.

  Each handler is a method. Its contract gives the full new state and the
  messages sent, for every branch of the Python code. A `KeyError` on the
  partial record is the message `Crash`, with nothing changed. `Route` gives
  the handler aiogram selects for an update in a given state, following the
  registration order of `register_course_handlers`. `Dispatch` runs the
  selected handler.

  Every handler keeps the invariant `Bot.Valid`:
  - every record has a duplicate-free ledger of days 0..6;
  - an active record has seven lessons, a day in 0..6 and the progress of
    that day;
  - each setup state holds the keys its handlers read.
- `Scenarios` (scenarios.dfy): two runs of several handlers in a row.

Points where the code's behaviour is easy to misread:

- approving a plan stores progress 0 (handlers/course.py:123), although
  next_lesson's formula `(day+1)*14` (handlers/course.py:228) would give 14
  for day 0;
- finishing a course never stores progress 100. The message at
  handlers/course.py:384 says "100%", but the stored value stays at most 98
  (`CourseRecord.ProgressNeverFull`);
- cancelling deletes the record from `user_courses`, so the ledger of
  completed lessons survives only in the model's abstract save log
  (`Scenarios.CancelForgetsLedger`). The real save_user_course
  (bot.py:94-106) has no column for the ledger, so there it is lost.

## Model

| member | source | states |
|---|---|---|
| Text.Strip | handlers/course.py:29 | The result has no leading or trailing whitespace, is never longer than the input, and is empty exactly when the input is blank |
| Text.StripShape | handlers/course.py:29 | The result is a slice of the input, and everything before and after that slice is whitespace |
| Text.SplitShape | gemini_service.py:24 | The pieces of a split, joined with the separator, give back the input. No piece contains the separator. There is a single piece exactly when the separator does not occur |
| Text.NonBlankStripped | gemini_service.py:25 | Every kept piece is non-empty and stripped, and there are never more pieces than in the input |
| Text.NonBlankStrippedAppend | load_resources.py:7 | The comprehension works piece by piece: on a concatenation it gives the concatenation of the results, so input order is kept |
| Text.Split | gemini_service.py:24 | A split always yields at least one piece, as `str.split` with an explicit separator does |
| Text.Replace | gemini_service.py:157 | A string that does not contain the target is returned unchanged |
| Text.ReplaceFirst | gemini_service.py:157 | Replacement works from the left: the text before the first occurrence is kept, that occurrence becomes the replacement, and the rest is replaced in turn |
| Text.ReplaceSelf | gemini_service.py:157 | Replacing a string by itself gives the input back |
| Text.Lower | handlers/course.py:277 | Same length and no capital left. A string without capitals is returned unchanged |
| Text.LowerShape | handlers/course.py:277 | Every non-capital stays in place, and each capital becomes its own small letter (ASCII and U+0410..U+042F by +32, U+0400..U+040F by +80) |
| Text.ParseNat | handlers/course.py:424 | The model's decoder for `int()` succeeds exactly on non-empty strings of ASCII decimal digits |
| Text.ParseNatToString | handlers/course.py:380 | Parsing the decimal text of a number gives the number back |
| Gemini.Fit | gemini_service.py:26-28 | The result has exactly `n` items: the input's first items, in order, then the filler |
| Gemini.ResponsePieces | gemini_service.py:24-25 | Every piece of the response that is kept, whether a line or a lesson body, is non-empty and stripped |
| Gemini.GeneratePlan | gemini_service.py:13-32 | None exactly when the call raised; otherwise seven titles, the response's non-blank lines first and in order, then "Дополнительный урок" |
| Gemini.GenerateCourseSuggestions | gemini_service.py:136-152 | None exactly when the call raised; otherwise three suggestions, the response's lines first, then "Дополнительный курс" |
| Gemini.FillerLessonShape | gemini_service.py:99-108 | The lesson appended at position k is headed "<b>День k+1:" and names both the skill and the goal |
| Gemini.CourseFromResponse | gemini_service.py:92-111 | None exactly when the call raised; otherwise seven lessons: the response's non-empty "---" pieces in order, then a filler lesson for each missing day |
| Gemini.GenerateCourse | gemini_service.py:34-114 | The lessons the padding loop and the cut to seven produce are exactly `CourseFromResponse` |
| Gemini.PadWith | gemini_service.py:97-109 | Existing items keep their places; every new position k holds `filler(k)`; the length reaches `n` or stays as it was |
| Gemini.AnswerQuestion | gemini_service.py:116-134 | The stripped answer, or the fixed apology when the call raised; the result is always stripped |
| Gemini.HeadingOfBoldLine | gemini_service.py:157 | For a lesson whose first line is `<b>title</b>`, the tag-free first line is exactly the title, provided the title holds no newline and no tag |
| Gemini.LessonTitle | gemini_service.py:157 | Fails exactly when the tag-free first line has no ": "; otherwise returns a stripped title |
| Gemini.UpdateLesson | gemini_service.py:154-205 | Any failure, title extraction included, keeps the current lesson; otherwise returns the stripped answer whatever its length |
| Resources.Truncate | load_resources.py:22-24 | The content is cut to at most 500 characters and the result is a prefix of it |
| Resources.ParseBlock | load_resources.py:12-24 | A block yields a row exactly when its type line is "book" or "article"; the row holds the five lines with the content truncated |
| Resources.ParseResources | load_resources.py:10-30 | At most one row per complete block, and every row has a known type and content of at most 500 characters |
| Resources.LoadResourcesFromFile | load_resources.py:3-30 | The rows handed to add_resource by the stepping loop, in order, are exactly the rows of the stripped non-blank lines |
| Resources.ParseResourcesAppend | load_resources.py:10-11 | The rows of whole leading blocks followed by the rest are the rows of each part, concatenated |
| Resources.TrailingBlockIgnored | load_resources.py:29-30 | An incomplete last block adds no row |
| Resources.AllKnownAllLoaded | load_resources.py:10-27 | When every block's type is known, there is one row per block, and row j is built from lines 5j to 5j+4 |
| Resources.UnknownKindSkipped | load_resources.py:19-21 | A block with an unknown type is skipped without changing the rows of the blocks around it |
| CourseRecord.ProgressAt | handlers/course.py:228 | Never above 100, and (day+1)*14 for every day of the course |
| CourseRecord.AppendIfAbsent | handlers/course.py:224-225 | The item is present afterwards, the old ledger is a prefix, and at most one entry is added |
| CourseRecord.AppendIfAbsentOnce | handlers/course.py:224-225 | The ledger stays duplicate-free, the item occurs exactly once, no other item's count changes, and appending again changes nothing |
| CourseRecord.Advance | handlers/course.py:219-228 | Before day 6: the day goes up by one, progress is that day's, and the ledger is the old one with (skill, day) appended if absent, so it holds that pair and nothing else new. On day 6 the record is unchanged. The course and profile never change |
| CourseRecord.AdvanceValid | handlers/course.py:223-228 | Advancing keeps a record valid, and the finished lesson is in the ledger exactly once |
| CourseRecord.AdvanceMonotone | handlers/course.py:223-228 | The day, the progress and the ledger never go backwards |
| CourseRecord.AdvanceTimesReaches | handlers/course.py:213-232 | From day 0, n presses reach day min(n, 6) with a valid record that lists every earlier day as completed |
| CourseRecord.ThreeLessonsIn | handlers/course.py:226-228 | Three presses from a new course reach day 3 with 56% progress |
| CourseRecord.ProgressNeverFull | handlers/course.py:228 | The stored progress of a valid record is between 0 and 98, and equals 98 exactly on the last day |
| CourseRecord.NewEntry | handlers/course.py:119-130 | An approved course starts on day 0 with progress 0, stores the chat id and the four profile answers, and carries over any earlier ledger of the user |
| CourseRecord.NewEntryValid | handlers/course.py:113-130 | A record built from a seven-lesson course and a valid earlier record is valid |
| CourseRecord.ReplaceCurrentLesson | handlers/course.py:349 | Only the current day's lesson changes; day, progress, chat id, ledger and profile stay the same (the record equals the old one with only the course replaced) |
| CourseRecord.ReplaceCurrentLessonValid | handlers/course.py:349 | Changing a lesson keeps the record valid |
| CourseRecord.LessonKeyboard | handlers/course.py:183-192 | "next lesson" appears exactly before day 6, "finish course" exactly on day 6, and the four other buttons always |
| CourseRecord.OneWayForward | handlers/course.py:183-186 | A valid record's lesson offers exactly one of "next lesson" and "finish course" |
| CourseRecord.HelpQuestionRecognised | handlers/course.py:277-279 | The help test ignores case and surrounding whitespace: a help phrase typed in any capitalisation anywhere in the stripped message makes it a help question |
| CourseRecord.HelpPhrasesLower | handlers/course.py:279 | Each help phrase is already in small letters, so the lowered question can match it |
| CourseRecord.ClassifyInput | handlers/course.py:27-32 | Text starting with "/" is ignored, other blank text is re-prompted, and anything else gives the stripped, non-empty value |
| CourseRecord.TemplateSuggestions | handlers/course.py:366-371 | Three fallback courses, each naming the skill |
| CourseRecord.CourseSuggestions | handlers/course.py:365-371 | Always three suggestions: the generator's list when it has three items, the templates otherwise |
| CourseRecord.GeneratedSuggestionsUsed | handlers/course.py:365-366 | Given the generator's output, the templates replace only a failed call |
| CourseRecord.CompletedSkills | handlers/course.py:372 | A skill is finished exactly when (skill, 6) is in the ledger |
| CourseRecord.FilterCompleted | handlers/course.py:373 | A title is kept exactly when it is offered and not finished, and the list never grows |
| CourseRecord.FilterCompletedAppend | handlers/course.py:373 | Filtering works item by item, so order is kept |
| CourseRecord.OfferedSuggestions | handlers/course.py:365-373 | At most three courses, exactly the suggestions whose title is not a skill finished on day 6 |
| CourseRecord.SuggestionIndex | handlers/course.py:424 | Data without "_" cannot be decoded |
| CourseRecord.SuggestionIndexRoundTrip | handlers/course.py:424 | The button data "suggested_i" that finish_course draws decodes back to i |
| CourseRecord.RemindersContinue | handlers/course.py:202 | The reminder loop fails on a partial record, continues exactly while an active record is before day 6, and stops when there is no record |
| CourseRecord.RemindersEnd | handlers/course.py:202 | Six presses from a new course end the reminders |
| CourseBot.GeneratedPlanUsable | handlers/course.py:84 | A plan from generate_plan passes the "seven items" test exactly when the call succeeded |
| CourseBot.GeneratedCourseUsable | handlers/course.py:113 | A course from generate_course passes the "seven items" test exactly when the call succeeded |
| CourseBot.Route | handlers/course.py:437-458 | Typed text reaches only message handlers and buttons only callback handlers. A button handler registered without a state fires only in no state. "custom_question" reaches its handler in every state, and nothing else does |
| CourseBot.TextRouting | handlers/course.py:440-453 | A text message has a handler exactly in the states other than "no state" and plan |
| CourseBot.LessonButtonsNeedNoState | handlers/course.py:447-458 | The lesson buttons (not "custom question") are handled only when the user has no state |
| CourseBot.QuestionFromAnywhere | handlers/course.py:448 | "custom question" reaches custom_question in every state |
| CourseBot.SuggestionButtonsRouted | handlers/course.py:456 | Every "suggested_i" button reaches process_suggested_course |
| CourseBot.LessonView | handlers/course.py:175-198 | The current lesson with its keyboard; the /start hint without a record; a crash on the partial record |
| CourseBot.SimplifyLessonView | handlers/course.py:234-260 | The simplified text under the current lesson's keyboard; the /start hint without a record; a crash on the partial record |
| CourseBot.Bot.Start | handlers/course.py:14-24 | Enters the skill state, keeps the data and the table, and asks for the skill |
| CourseBot.Bot.ProcessSkill | handlers/course.py:26-38 | Ignores commands and re-prompts on blank text. Otherwise stores the skill, moves to the goal state, and gives a user without a record the partial record |
| CourseBot.Bot.ProcessGoal | handlers/course.py:40-49 | Ignores commands and re-prompts on blank text. Otherwise stores the goal and moves to the experience state |
| CourseBot.Bot.ProcessExperience | handlers/course.py:51-64 | Ignores commands and re-prompts on blank text. Otherwise stores the experience and moves to the preferences state |
| CourseBot.Bot.ProcessPreferences | handlers/course.py:66-71 | Ignores commands. Otherwise stores the stripped text, even empty, as the preferences and shows a plan |
| CourseBot.Bot.SkipPreferences | handlers/course.py:73-76 | Stores "Не указано" as the preferences and shows a plan |
| CourseBot.Bot.GenerateAndShowPlan | handlers/course.py:78-99 | A failed plan keeps the preferences state and changes nothing; a seven-item plan is stored and shown, and the plan state entered |
| CourseBot.Bot.ProcessPlan | handlers/course.py:101-144 | Approval with a seven-lesson course writes and saves a new record on day 0 carrying the old ledger, shows lesson 1 and ends the dialogue; a failed course changes nothing. Edit and restart only change the state |
| CourseBot.Bot.ProcessEditPlan | handlers/course.py:146-173 | A new seven-item plan replaces the stored one and the plan state is re-entered; on failure nothing changes |
| CourseBot.Bot.NextLesson | handlers/course.py:213-232 | An active record is advanced, saved and its new lesson shown before day 6, and left alone on day 6. No record gives the /start hint; a partial record crashes |
| CourseBot.Bot.CustomQuestion | handlers/course.py:262-268 | Enters the question state from any state, keeping the data |
| CourseBot.Bot.ProcessCustomQuestion | handlers/course.py:270-302 | Without a record: the /start hint. A help phrase gets the fixed help text; any other question gets the generator's answer, or crashes on a partial record. An answer ends the dialogue; the table is never touched |
| CourseBot.Bot.ChangePlan | handlers/course.py:320-327 | A user with a record enters the change-plan state; others get the /start hint |
| CourseBot.Bot.ProcessChangePlan | handlers/course.py:329-353 | Only the current lesson is replaced; the record is saved and shown and the dialogue ends |
| CourseBot.Bot.FinishCourse | handlers/course.py:355-389 | Records (skill, 6) in the ledger. Then it offers the unfinished suggestions and saves, or, with none left, enters the skill state without saving |
| CourseBot.Bot.CancelCourse | handlers/course.py:391-401 | The record is deleted and only its ledger is saved; with no record nothing changes |
| CourseBot.Bot.ProcessSuggestedCourse | handlers/course.py:403-435 | A valid index stores the chosen course as the new skill, enters the goal state, deletes the record and saves only its ledger. A bad index changes nothing; no offers left enters the skill state |
| CourseBot.Bot.Dispatch | handlers/course.py:437-458 | An update with no registered handler in the user's state changes nothing; any update touches only its own user and keeps the bot valid |
| Scenarios.PartialRecordCrashes | handlers/course.py:34-35 | Along updates that aiogram routes to each handler called (skill, "ask a question", a help question, then the two lesson buttons), the user has a record after naming a skill, yet "next lesson" and "finish course" both crash on it |
| Scenarios.CrashRoutes | handlers/course.py:440-458 | Each update of that run reaches the handler the run calls, in the state it arrives in |
| Scenarios.CancelForgetsLedger | handlers/course.py:394-397 | Cancelling saves only the ledger, and the next skill starts again from an empty ledger |

## Left out

- Telegram transport: replies are abstract `Out` values. Message text, HTML formatting, `callback_query.answer()` and message deletion are not modelled. Keyboards are modelled only as their lists of callback data.
- The generator client: the model name, the prompts, the resource lookups and md5 hashes that feed the prompts, and the logging. Each handler receives the generator's result as a parameter. `Gemini` models what is done with the response text.
- generate_course's unused `generated_lessons` parameter is not part of this model.
- CourseBot.Bot.Dispatch: states only the frame and the case with no handler. What each handler does is stated in that handler's own contract.
- schedule_reminders: the timer, the reminder text and the asyncio task it runs in are left out. Only its loop test is modelled (`RemindersContinue`).
- Concurrency between updates: each update runs to completion before the next.
- bot.py and database.py are not part of this model. save_user_course is the append-only `saved` log. add_resource is the returned row sequence. Database persistence and reload are not modelled, and neither is init_db.
- next_lesson's repair of a record that lacks `completed_lessons` (handlers/course.py:221-222): only a record reloaded by bot.py can lack the key, and every record the handlers write has a ledger.
- The `current_question` field of the active record: written once (as 0) at handlers/course.py:125 and never read by handlers/course.py; only the persistence layer in bot.py (bot.py:85, bot.py:103) carries it, and that layer is not part of this model.
- The FSM storage is keyed by user only; aiogram keys it by chat and user, which coincide in a private chat.
- Text.ParseNat: accepts only non-empty strings of ASCII digits. Python's `int()` also accepts a leading sign, surrounding whitespace, underscores between digits and non-ASCII decimal digits such as "٣"; the model treats all of these as failures.
- CourseRecord.SuggestionIndex: inherits Text.ParseNat's restriction. Python also decodes a sign, surrounding whitespace or non-ASCII digits after "suggested_". Only hand-made button data can contain them: "suggested_-1" would select the last course in Python.
- Text.Lower: lower-cases ASCII and the Cyrillic capitals U+0400..U+042F only, which covers the help phrases. The rest of Unicode case mapping is left out.
- Text.Split: defined only for non-empty separators, the only kind the source uses.
- return_to_lesson deletes the question message before showing the lesson. Only the lesson view is modelled.
- load_resources.py: opening the file and the `__main__` entry point are left out. The loader receives the file's lines. The printed messages are not modelled.
