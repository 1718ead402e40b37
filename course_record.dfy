/**
 * The per-user course record of handlers/course.py (a value of the
 * `user_courses` table) and the pure decisions the handlers take on it: the
 * progress formula, the append-if-absent ledger of completed lessons, the
 * lesson keyboard, the input guards, the suggestion fallback and filter, and
 * the decoding of a suggestion button.
 */
module CourseRecord {
  import opened Wrappers
  import opened Text
  import Gemini

  /** Index of the seventh and last lesson. */
  const LastDay: int := 6
  /** The value handlers store for a preference the user skipped. */
  const NotGiven := "Не указано"

  /** `completed_lessons`: (skill, 0-based day) pairs, in the order they were appended. */
  type Ledger = seq<(string, int)>

  /**
   * A value of `user_courses`. process_skill inserts the `Partial` record
   * holding only the ledger; plan approval writes the `Active` one. The
   * never-read `current_question` field is not part of the model.
   */
  datatype Entry =
    | Partial(completed: Ledger)
    | Active(course: seq<string>, currentDay: int, chatId: int, progress: int, skill: string,
             experience: string, goal: string, preferences: string, completed: Ledger)

  /** `min(100, (day + 1) * 14)`: the percentage stored on reaching `day`. */
  function ProgressAt(day: int): (r: int)
    ensures r <= 100
    ensures 0 <= day <= LastDay ==> r == (day + 1) * 14
  {
    if (day + 1) * 14 < 100 then (day + 1) * 14 else 100
  }

  /** The percentage a record on `day` holds: 0 right after approval, then the formula. */
  function ExpectedProgress(day: int): int
  {
    if day == 0 then 0 else ProgressAt(day)
  }

  predicate Distinct(l: Ledger)
  {
    forall i, j :: 0 <= i < j < |l| ==> l[i] != l[j]
  }

  predicate LedgerValid(l: Ledger)
  {
    Distinct(l) && forall k :: 0 <= k < |l| ==> 0 <= l[k].1 <= LastDay
  }

  /**
   * What every record the handlers write satisfies: a ledger without repeats
   * and with days of the course; an active course of seven lessons, a day
   * among them and the progress that day implies.
   */
  predicate EntryValid(e: Entry)
  {
    && LedgerValid(e.completed)
    && (e.Active? ==>
          && |e.course| == Gemini.PlanLength
          && 0 <= e.currentDay <= LastDay
          && e.progress == ExpectedProgress(e.currentDay))
  }

  /** `if item not in l: l.append(item)` */
  function AppendIfAbsent(l: Ledger, item: (string, int)): (r: Ledger)
    ensures item in r
    ensures |l| <= |r| <= |l| + 1 && r[..|l|] == l
  {
    if item in l then l else l + [item]
  }

  /**
   * The ledger records each lesson exactly once, however often it is
   * completed, and recording one lesson leaves the others' counts alone.
   */
  lemma AppendIfAbsentOnce(l: Ledger, item: (string, int))
    requires Distinct(l)
    ensures Distinct(AppendIfAbsent(l, item))
    ensures multiset(AppendIfAbsent(l, item))[item] == 1
    ensures forall x :: x != item ==> multiset(AppendIfAbsent(l, item))[x] == multiset(l)[x]
    ensures AppendIfAbsent(AppendIfAbsent(l, item), item) == AppendIfAbsent(l, item)
  {
    var r := AppendIfAbsent(l, item);
    if item in l {
      var i :| 0 <= i < |l| && l[i] == item;
      DistinctCount(l, i);
    } else {
      assert multiset(r) == multiset(l) + multiset{item};
      assert multiset(l)[item] == 0;
    }
  }

  lemma DistinctCount(l: Ledger, i: nat)
    requires Distinct(l) && i < |l|
    ensures multiset(l)[l[i]] == 1
  {
    assert l == l[..i] + [l[i]] + l[i + 1..];
    assert l[i] !in l[..i] by {
      forall x | x in l[..i] ensures x != l[i] {
        var k :| 0 <= k < i && l[..i][k] == x;
        assert l[k] == x;
      }
    }
    var tail := l[i + 1..];
    assert l[i] !in tail by {
      forall x | x in tail ensures x != l[i] {
        var k :| 0 <= k < |tail| && tail[k] == x;
        assert l[i + 1 + k] == x;
      }
    }
    assert multiset(l) == multiset(l[..i]) + multiset{l[i]} + multiset(l[i + 1..]);
  }

  lemma AppendIfAbsentValid(l: Ledger, item: (string, int))
    requires LedgerValid(l) && 0 <= item.1 <= LastDay
    ensures LedgerValid(AppendIfAbsent(l, item))
  {
    AppendIfAbsentOnce(l, item);
  }

  /**
   * next_lesson on an active record: before the last day it records
   * (skill, day) as completed, moves to the next day and stores that day's
   * progress; on the last day it changes nothing.
   */
  function Advance(e: Entry): (r: Entry)
    requires e.Active?
    ensures r.Active? && r.course == e.course && r.skill == e.skill && r.chatId == e.chatId
    ensures r.experience == e.experience && r.goal == e.goal && r.preferences == e.preferences
    ensures e.currentDay < LastDay ==>
      && r.currentDay == e.currentDay + 1
      && r.progress == ProgressAt(e.currentDay + 1)
      && (e.skill, e.currentDay) in r.completed
      && r.completed == AppendIfAbsent(e.completed, (e.skill, e.currentDay))
    ensures e.currentDay >= LastDay ==> r == e
  {
    if e.currentDay < LastDay then
      var day := e.currentDay + 1;
      e.(completed := AppendIfAbsent(e.completed, (e.skill, e.currentDay)), currentDay := day, progress := ProgressAt(day))
    else e
  }

  /**
   * Advancing keeps a record valid, and the lesson just finished is in the
   * ledger exactly once, even when it was finished before.
   */
  lemma AdvanceValid(e: Entry)
    requires e.Active? && EntryValid(e)
    ensures EntryValid(Advance(e))
    ensures e.currentDay < LastDay ==> multiset(Advance(e).completed)[(e.skill, e.currentDay)] == 1
  {
    if e.currentDay < LastDay {
      AppendIfAbsentValid(e.completed, (e.skill, e.currentDay));
      AppendIfAbsentOnce(e.completed, (e.skill, e.currentDay));
    }
  }

  /** next_lesson never moves a course backwards or lowers its progress. */
  lemma AdvanceMonotone(e: Entry)
    requires e.Active? && EntryValid(e)
    ensures e.currentDay <= Advance(e).currentDay <= LastDay
    ensures e.progress <= Advance(e).progress
    ensures multiset(e.completed) <= multiset(Advance(e).completed)
  {
    if e.currentDay < LastDay {
      var r := Advance(e);
      assert r.completed[..|e.completed|] == e.completed;
      assert r.completed == e.completed || r.completed == e.completed + [(e.skill, e.currentDay)];
    }
  }

  /** `n` presses of "next lesson". */
  function AdvanceTimes(e: Entry, n: nat): (r: Entry)
    requires e.Active?
    ensures r.Active?
  {
    if n == 0 then e else Advance(AdvanceTimes(e, n - 1))
  }

  /**
   * From a freshly approved record, `n` presses reach day min(n, 6), store
   * that day's progress, and have recorded every earlier day as completed.
   */
  lemma {:induction false} AdvanceTimesReaches(e: Entry, n: nat)
    requires e.Active? && EntryValid(e) && e.currentDay == 0
    ensures EntryValid(AdvanceTimes(e, n))
    ensures AdvanceTimes(e, n).currentDay == if n < LastDay then n else LastDay
    ensures AdvanceTimes(e, n).skill == e.skill && AdvanceTimes(e, n).course == e.course
    ensures forall d :: 0 <= d < n && d < LastDay ==> (e.skill, d) in AdvanceTimes(e, n).completed
  {
    AdvanceTimesValid(e, n);
    AdvanceTimesDay(e, n);
    AdvanceTimesSkill(e, n);
    AdvanceTimesCourse(e, n);
    AdvanceTimesLedger(e, n);
  }

  lemma {:induction false} AdvanceTimesValid(e: Entry, n: nat)
    requires e.Active? && EntryValid(e)
    ensures EntryValid(AdvanceTimes(e, n))
  {
    if n > 0 {
      AdvanceTimesValid(e, n - 1);
      var before := AdvanceTimes(e, n - 1);
      assert AdvanceTimes(e, n) == Advance(before);
      AdvanceValid(before);
    }
  }

  lemma {:induction false} AdvanceTimesDay(e: Entry, n: nat)
    requires e.Active? && e.currentDay == 0
    ensures AdvanceTimes(e, n).currentDay == if n < LastDay then n else LastDay
  {
    if n > 0 {
      AdvanceTimesDay(e, n - 1);
      var before := AdvanceTimes(e, n - 1);
      assert AdvanceTimes(e, n) == Advance(before);
      assert before.currentDay == if n - 1 < LastDay then n - 1 else LastDay;
    }
  }

  /** Pressing "next lesson" never changes the skill ... */
  lemma {:induction false} AdvanceTimesSkill(e: Entry, n: nat)
    requires e.Active?
    ensures AdvanceTimes(e, n).skill == e.skill
  {
    if n > 0 {
      AdvanceTimesSkill(e, n - 1);
      assert AdvanceTimes(e, n) == Advance(AdvanceTimes(e, n - 1));
    }
  }

  /** ... or the lessons. */
  lemma {:induction false} AdvanceTimesCourse(e: Entry, n: nat)
    requires e.Active?
    ensures AdvanceTimes(e, n).course == e.course
  {
    if n > 0 {
      AdvanceTimesCourse(e, n - 1);
      assert AdvanceTimes(e, n) == Advance(AdvanceTimes(e, n - 1));
    }
  }

  lemma {:induction false} AdvanceTimesLedger(e: Entry, n: nat)
    requires e.Active? && e.currentDay == 0
    ensures forall d :: 0 <= d < AdvanceTimes(e, n).currentDay ==> (e.skill, d) in AdvanceTimes(e, n).completed
  {
    if n > 0 {
      AdvanceTimesLedger(e, n - 1);
      AdvanceTimesSkill(e, n - 1);
      var before := AdvanceTimes(e, n - 1);
      assert AdvanceTimes(e, n) == Advance(before);
      assert before.skill == e.skill;
      AdvanceRecorded(before);
    }
  }

  /** A step keeps every day before the current one in the ledger. */
  lemma AdvanceRecorded(e: Entry)
    requires e.Active? && forall d :: 0 <= d < e.currentDay ==> (e.skill, d) in e.completed
    ensures forall d :: 0 <= d < Advance(e).currentDay ==> (e.skill, d) in Advance(e).completed
  {
    forall d | 0 <= d < Advance(e).currentDay
      ensures (e.skill, d) in Advance(e).completed
    {
      if d < e.currentDay {
        AdvanceKeeps(e, (e.skill, d));
      }
    }
  }

  /** Advancing never drops a lesson from the ledger. */
  lemma AdvanceKeeps(e: Entry, x: (string, int))
    requires e.Active? && x in e.completed
    ensures x in Advance(e).completed
  {
    var r := Advance(e).completed;
    var k :| 0 <= k < |e.completed| && e.completed[k] == x;
    assert r[..|e.completed|] == e.completed;
    assert r[k] == x;
  }

  /** Three presses from day 0 reach day 3 with 56% progress. */
  lemma ThreeLessonsIn(e: Entry)
    requires e.Active? && EntryValid(e) && e.currentDay == 0
    ensures AdvanceTimes(e, 3).currentDay == 3 && AdvanceTimes(e, 3).progress == 56
  {
    AdvanceTimesReaches(e, 3);
  }

  /** The stored progress of a valid record never exceeds 98: the last day is 7 * 14. */
  lemma ProgressNeverFull(e: Entry)
    requires e.Active? && EntryValid(e)
    ensures 0 <= e.progress <= 98
    ensures e.currentDay == LastDay <==> e.progress == 98
  {
  }

  /**
   * The record process_plan writes on approval: day 0, progress 0, and the
   * ledger of any earlier record for the user (an empty one otherwise).
   */
  function NewEntry(course: seq<string>, chatId: int, skill: string, experience: string, goal: string,
                    preferences: string, prior: Option<Entry>): (r: Entry)
    ensures r.Active? && r.currentDay == 0 && r.progress == 0 && r.course == course
    ensures r.completed == if prior.Some? then prior.value.completed else []
    ensures r.chatId == chatId && r.skill == skill && r.experience == experience && r.goal == goal
    ensures r.preferences == preferences
  {
    Active(course, 0, chatId, 0, skill, experience, goal, preferences, if prior.Some? then prior.value.completed else [])
  }

  lemma NewEntryValid(course: seq<string>, chatId: int, skill: string, experience: string, goal: string,
                      preferences: string, prior: Option<Entry>)
    requires |course| == Gemini.PlanLength
    requires prior.Some? ==> EntryValid(prior.value)
    ensures EntryValid(NewEntry(course, chatId, skill, experience, goal, preferences, prior))
  {
  }

  /**
   * process_change_plan's `course[current_day] = updated_lesson`: only the
   * current lesson changes.
   */
  function ReplaceCurrentLesson(e: Entry, lesson: string): (r: Entry)
    requires e.Active? && 0 <= e.currentDay < |e.course|
    ensures r.Active? && |r.course| == |e.course| && r.course[e.currentDay] == lesson
    ensures forall k :: 0 <= k < |e.course| && k != e.currentDay ==> r.course[k] == e.course[k]
    ensures r.currentDay == e.currentDay && r.progress == e.progress && r.completed == e.completed
    ensures r.skill == e.skill && r.goal == e.goal && r.experience == e.experience && r.preferences == e.preferences
    ensures r.chatId == e.chatId && r == e.(course := r.course)
  {
    e.(course := e.course[e.currentDay := lesson])
  }

  lemma ReplaceCurrentLessonValid(e: Entry, lesson: string)
    requires e.Active? && EntryValid(e)
    ensures EntryValid(ReplaceCurrentLesson(e, lesson))
  {
  }

  /**
   * The keyboard under a lesson: "next lesson" before the last day, "finish
   * course" on it, then the four buttons every lesson has.
   */
  function LessonKeyboard(day: int): (r: seq<string>)
    ensures "next_lesson" in r <==> day < LastDay
    ensures "finish_course" in r <==> day == LastDay
    ensures forall b :: b in ["simplify_lesson", "custom_question", "change_plan", "cancel_course"] ==> b in r
  {
    var first := if day < LastDay then ["next_lesson"] else if day == LastDay then ["finish_course"] else [];
    var rest := ["simplify_lesson", "custom_question", "change_plan", "cancel_course"];
    assert "next_lesson" !in rest && "finish_course" !in rest;
    first + rest
  }

  /** A lesson of a valid record offers exactly one way forward. */
  lemma OneWayForward(e: Entry)
    requires e.Active? && EntryValid(e)
    ensures ("next_lesson" in LessonKeyboard(e.currentDay)) != ("finish_course" in LessonKeyboard(e.currentDay))
  {
  }

  /** How a text handler reads its message: a command, blank text, or the stripped value. */
  datatype Input = Command | Blank | Value(text: string)

  /** The guard opening the text handlers: '/'-prefixed text is ignored, blank text re-prompted. */
  function ClassifyInput(text: string): (r: Input)
    ensures r.Command? <==> StartsWith(text, "/")
    ensures r.Blank? <==> !StartsWith(text, "/") && IsBlank(text)
    ensures r.Value? ==> r.text == Strip(text) && r.text != [] && IsStripped(r.text)
  {
    if StartsWith(text, "/") then Command
    else if Strip(text) == [] then Blank
    else Value(Strip(text))
  }

  /** The phrases process_custom_question answers with its fixed help text. */
  const HelpPhrases: seq<string> := ["как отказаться", "как пользоваться", "что делать"]

  /** process_custom_question's question, `text.strip().lower()`, and whether it asks for help. */
  function Question(text: string): string
  {
    Lower(Strip(text))
  }

  predicate IsHelpQuestion(question: string)
  {
    exists k | 0 <= k < |HelpPhrases| :: Contains(question, HelpPhrases[k])
  }

  /**
   * The help test ignores case and surrounding whitespace: a help phrase
   * typed in any capitalisation anywhere in the message is recognised.
   */
  lemma HelpQuestionRecognised(text: string, typed: string, k: nat)
    requires k < |HelpPhrases| && Lower(typed) == HelpPhrases[k] && Contains(Strip(text), typed)
    ensures IsHelpQuestion(Question(text))
  {
    var j :| 0 <= j <= |Strip(text)| - |typed| && OccursAt(Strip(text), typed, j);
    LowerKeepsOccurrence(Strip(text), typed, j);
  }

  /** The help phrases are written in small letters, so lower() keeps them. */
  lemma HelpPhrasesLower(k: nat)
    requires k < |HelpPhrases|
    ensures Lower(HelpPhrases[k]) == HelpPhrases[k]
  {
    var p := HelpPhrases[k];
    forall i | 0 <= i < |p|
      ensures !IsUpper(p[i])
    {
    }
  }

  lemma LowerKeepsOccurrence(s: string, sub: string, j: nat)
    requires OccursAt(s, sub, j)
    ensures OccursAt(Lower(s), Lower(sub), j)
  {
    forall k | 0 <= k < |sub|
      ensures Lower(s)[j..j + |sub|][k] == Lower(sub)[k]
    {
      assert s[j..j + |sub|][k] == sub[k];
    }
  }

  /** The three suggestions finish_course falls back on. */
  function TemplateSuggestions(skill: string): (r: seq<string>)
    ensures |r| == Gemini.SuggestionCount
    ensures forall k :: 0 <= k < |r| ==> Contains(r[k], skill)
  {
    var advanced, marketing, practice := "Продвинутый курс по ", " и маркетинг", " в реальных проектах";
    ContainsInfix(advanced, skill, "");
    assert advanced + skill == advanced + skill + "";
    ContainsInfix("", skill, marketing);
    assert skill + marketing == "" + skill + marketing;
    ContainsInfix("Практика ", skill, practice);
    [advanced + skill, skill + marketing, "Практика " + skill + practice]
  }

  /**
   * The suggestions before filtering: the generator's list when it has
   * exactly three items, the templates otherwise (None, empty, or another
   * length).
   */
  function CourseSuggestions(skill: string, suggestions: Option<seq<string>>): (r: seq<string>)
    ensures |r| == Gemini.SuggestionCount
    ensures suggestions.Some? && |suggestions.value| == Gemini.SuggestionCount ==> r == suggestions.value
    ensures suggestions.None? || |suggestions.value| != Gemini.SuggestionCount ==> r == TemplateSuggestions(skill)
  {
    if suggestions.None? || |suggestions.value| != Gemini.SuggestionCount then TemplateSuggestions(skill)
    else suggestions.value
  }

  /**
   * With generate_course_suggestions behind it, the length test only ever
   * replaces a failed call: a successful one is shown as it came.
   */
  lemma GeneratedSuggestionsUsed(skill: string, response: Option<string>)
    ensures CourseSuggestions(skill, Gemini.GenerateCourseSuggestions(response))
         == if response.None? then TemplateSuggestions(skill) else Gemini.GenerateCourseSuggestions(response).value
  {
  }

  /** `{s for s, d in completed_lessons if d == 6}` */
  function CompletedSkills(l: Ledger): (r: set<string>)
    ensures forall s :: s in r <==> (s, LastDay) in l
  {
    set k | 0 <= k < |l| && l[k].1 == LastDay :: l[k].0
  }

  /** `[c for c in items if c not in done]` */
  function FilterCompleted(items: seq<string>, done: set<string>): (r: seq<string>)
    ensures |r| <= |items|
    ensures forall x :: x in r <==> x in items && x !in done
  {
    if items == [] then []
    else
      var rest := FilterCompleted(items[1..], done);
      assert forall x :: x in items <==> x == items[0] || x in items[1..];
      if items[0] in done then rest else [items[0]] + rest
  }

  /** Filtering keeps the order of the suggestions: it works item by item. */
  lemma {:induction false} FilterCompletedAppend(a: seq<string>, b: seq<string>, done: set<string>)
    ensures FilterCompleted(a + b, done) == FilterCompleted(a, done) + FilterCompleted(b, done)
  {
    if a == [] {
      assert a + b == b;
    } else {
      assert (a + b)[1..] == a[1..] + b;
      FilterCompletedAppend(a[1..], b, done);
    }
  }

  /**
   * The courses finish_course and process_suggested_course offer: the
   * suggestions, minus every title that is a skill already finished.
   */
  function OfferedSuggestions(skill: string, l: Ledger, suggestions: Option<seq<string>>): (r: seq<string>)
    ensures |r| <= Gemini.SuggestionCount
    ensures forall x :: x in r <==> x in CourseSuggestions(skill, suggestions) && (x, LastDay) !in l
  {
    FilterCompleted(CourseSuggestions(skill, suggestions), CompletedSkills(l))
  }

  /**
   * `int(data.split("_")[1])` on a suggestion button: None where Python
   * raises (no "_", or not a plain decimal number).
   */
  function SuggestionIndex(data: string): (r: Option<nat>)
    ensures !Contains(data, "_") ==> r.None?
  {
    SplitShape(data, "_");
    var parts := Split(data, "_");
    if |parts| < 2 then None else ParseNat(parts[1])
  }

  /** The buttons finish_course draws decode back to their position. */
  lemma SuggestionIndexRoundTrip(i: nat)
    ensures SuggestionIndex("suggested_" + NatToString(i)) == Some(i)
  {
    var digits := NatToString(i);
    var data := "suggested_" + digits;
    var head := "suggested";
    assert data == head + "_" + digits;
    NoUnderscore(head);
    NoUnderscore(digits);
    SplitAtSeparator(head, "_", digits);
    ParseNatToString(i);
  }

  lemma NoUnderscore(s: string)
    requires forall k :: 0 <= k < |s| ==> s[k] != '_'
    ensures !Contains(s, "_")
  {
    forall i | 0 <= i <= |s| - 1 ensures !OccursAt(s, "_", i) {
      assert s[i..i + 1][0] == s[i];
    }
  }

  /** Splitting `a + sep + b` on a one-character `sep` that neither side holds gives the two sides. */
  lemma SplitAtSeparator(a: string, sep: string, b: string)
    requires |sep| == 1 && !Contains(a, sep) && !Contains(b, sep)
    ensures Split(a + sep + b, sep) == [a, b]
  {
    var s := a + sep + b;
    var r := Split(s, sep);
    assert OccursAt(s, sep, |a|) by { assert s[|a|..|a| + |sep|] == sep; }
    assert FindFrom(s, sep, 0) == Some(|a|) by {
      var f := FindFrom(s, sep, 0);
      assert f.Some?;
      if f.value < |a| {
        Overlap(a, sep, b, f.value);
      }
    }
    assert s[..|a|] == a;
    assert s[|a| + |sep|..] == b;
    var rest := Split(b, sep);
    SplitShape(b, sep);
    assert |rest| == 1;
    assert rest == [b] by { assert Join(rest, sep) == rest[0]; }
  }

  /** A one-character separator found before position |a| in `a + sep + b` would lie inside `a`. */
  lemma Overlap(a: string, sep: string, b: string, i: nat)
    requires |sep| == 1 && !Contains(a, sep) && i < |a|
    ensures !OccursAt(a + sep + b, sep, i)
  {
    var s := a + sep + b;
    assert a[i..i + |sep|] == s[i..i + |sep|];
    assert !OccursAt(a, sep, i);
  }

  /**
   * schedule_reminders' loop test on the user's current record: None where
   * the partial record makes it raise.
   */
  function RemindersContinue(entry: Option<Entry>): (r: Option<bool>)
    ensures r.None? <==> entry.Some? && entry.value.Partial?
    ensures r == Some(true) <==> entry.Some? && entry.value.Active? && entry.value.currentDay < LastDay
  {
    match entry
    case None => Some(false)
    case Some(Partial(_)) => None
    case Some(e) => Some(e.currentDay < LastDay)
  }

  /** Six presses from a fresh record end the reminders. */
  lemma RemindersEnd(e: Entry)
    requires e.Active? && EntryValid(e) && e.currentDay == 0
    ensures RemindersContinue(Some(AdvanceTimes(e, 6))) == Some(false)
  {
    AdvanceTimesReaches(e, 6);
  }
}
