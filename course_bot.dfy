/**
 * The course handlers of handlers/course.py as one object: the shared
 * `user_courses` table, the per-user dialogue kept by the FSM storage, and the
 * records handed to save_user_course. Each handler is a method; what the
 * generator functions returned is a parameter, and what the bot sends back is
 * returned as a list of abstract messages.
 */
module CourseBot {
  import opened Wrappers
  import opened Text
  import opened CourseRecord
  import Forms
  import Gemini

  type UserId = int

  /** The fixed texts the handlers send, by their role. */
  datatype Notice =
    | AskSkill           // "Чему хотите научиться?"
    | AskGoal
    | AskExperience
    | AskPreferences     // with the "skip" button
    | NeedSkill          // the re-prompts for blank text
    | NeedGoal
    | NeedExperience
    | NeedEditRequest
    | NeedWishes
    | PlanFailed
    | PlanUpdateFailed
    | CourseFailed
    | AskEdit
    | Restarted
    | AskQuestion
    | AskWishes
    | LessonUpdated(day: int)
    | NotStarted         // "Сначала начни курс с помощью /start!"
    | HelpText           // the fixed answer to a "how do I ..." question
    | Cancelled
    | NoActiveCourse
    | AllCoursesDone
    | BadChoice

  /** A message the bot sends. `Crash` stands for a KeyError that ends the handler. */
  datatype Out =
    | Say(notice: Notice)
    | ShowPlan(plan: seq<string>)
    | ShowLesson(lesson: string, keyboard: seq<string>)
    | ShowProgress(percent: int)
    | ShowSimpler(text: string, keyboard: seq<string>)
    | ShowAnswer(text: string)
    | ShowSuggestions(courses: seq<string>)
    | ShowChoice(course: string)
    | Crash

  /** An update from Telegram: a text message, or a button press with its data. */
  datatype Event =
    | Message(user: UserId, text: string)
    | Callback(user: UserId, data: string, chatId: int)

  /**
   * What the generator functions returned during one update (a handler calls
   * at most one of them): generate_plan, generate_course,
   * generate_course_suggestions (None when they raised), answer_question and
   * update_lesson.
   */
  datatype Generated = Generated(plan: Option<seq<string>>, course: Option<seq<string>>,
                                 suggestions: Option<seq<string>>, answer: string, updatedLesson: string)

  /** The handlers' `not result or len(result) != n` test, negated. */
  predicate Usable(result: Option<seq<string>>, n: nat)
  {
    result.Some? && |result.value| == n
  }

  /** generate_plan's results always pass the handlers' length test unless the call failed. */
  lemma GeneratedPlanUsable(response: Option<string>)
    ensures Usable(Gemini.GeneratePlan(response), Gemini.PlanLength) <==> response.Some?
  {
  }

  /** So do generate_course's. */
  lemma GeneratedCourseUsable(response: Option<string>, skill: string, goal: string)
    ensures Usable(Gemini.CourseFromResponse(response, skill, goal), Gemini.PlanLength) <==> response.Some?
  {
  }

  /** The handler functions register_course_handlers installs. */
  datatype Handler =
    | ProcessSkill | ProcessGoal | ProcessExperience | ProcessPreferences | SkipPreferences
    | ProcessPlan | ProcessEditPlan | NextLesson | CustomQuestion | ProcessCustomQuestion
    | ReturnToLesson | ChangePlan | ProcessChangePlan | SimplifyLesson | CancelCourse
    | ProcessSuggestedCourse | FinishCourse

  /** The handlers registered with register_message_handler: typed text reaches only these. */
  const MessageHandlers: set<Handler> :=
    {ProcessSkill, ProcessGoal, ProcessExperience, ProcessPreferences, ProcessEditPlan, ProcessCustomQuestion, ProcessChangePlan}

  /** The button handlers registered without `state=`: aiogram then requires no state. */
  const Stateless: set<Handler> :=
    {NextLesson, ChangePlan, SimplifyLesson, CancelCourse, ProcessSuggestedCourse, FinishCourse}

  /**
   * register_course_handlers: the first registered handler whose filters
   * accept the update. A handler registered without a state fires only when
   * the user has no state; "custom_question" is registered for every state.
   */
  function Route(state: Forms.FormState, ev: Event): (r: Option<Handler>)
    ensures r.Some? && ev.Message? ==> r.value in MessageHandlers
    ensures r.Some? && ev.Callback? ==> r.value !in MessageHandlers
    ensures r.Some? && r.value in Stateless ==> state == Forms.NoState
    ensures r == Some(CustomQuestion) <==> ev.Callback? && ev.data == "custom_question"
  {
    match ev
    case Message(_, _) =>
      (match state
       case Skill => Some(ProcessSkill)
       case Goal => Some(ProcessGoal)
       case Experience => Some(ProcessExperience)
       case Preferences => Some(ProcessPreferences)
       case EditPlan => Some(ProcessEditPlan)
       case CustomQuestion => Some(ProcessCustomQuestion)
       case ChangePlan => Some(ProcessChangePlan)
       case _ => None)
    case Callback(_, data, _) =>
      if state == Forms.Preferences && data == "skip_preferences" then Some(SkipPreferences)
      else if state == Forms.Plan && data in ["approve_plan", "edit_plan", "restart"] then Some(ProcessPlan)
      else if state == Forms.NoState && data == "next_lesson" then Some(NextLesson)
      else if data == "custom_question" then Some(CustomQuestion)
      else if state == Forms.NoState && data == "return_to_lesson" then Some(ReturnToLesson)
      else if state == Forms.CustomQuestion && data == "return_to_lesson" then Some(ReturnToLesson)
      else if state == Forms.NoState && data == "change_plan" then Some(ChangePlan)
      else if state == Forms.NoState && data == "simplify_lesson" then Some(SimplifyLesson)
      else if state == Forms.NoState && data == "cancel_course" then Some(CancelCourse)
      else if state == Forms.NoState && StartsWith(data, "suggested_") then Some(ProcessSuggestedCourse)
      else if state == Forms.NoState && data == "restart" then Some(ProcessPlan)
      else if state == Forms.NoState && data == "finish_course" then Some(FinishCourse)
      else None
  }

  /** Text reaches a handler exactly in the states that wait for typed input. */
  lemma TextRouting(state: Forms.FormState, user: UserId, text: string)
    ensures Route(state, Message(user, text)).Some? <==> state !in {Forms.NoState, Forms.Plan}
  {
  }

  /**
   * The lesson buttons act only outside a dialogue: while a form state is
   * set, pressing them does nothing (restart aside, which the plan step uses).
   */
  lemma LessonButtonsNeedNoState(state: Forms.FormState, user: UserId, data: string, chatId: int)
    requires data in ["next_lesson", "change_plan", "simplify_lesson", "cancel_course", "finish_course"]
    ensures Route(state, Callback(user, data, chatId)).Some? <==> state == Forms.NoState
  {
  }

  /** "Ask a question" is accepted in every state. */
  lemma QuestionFromAnywhere(state: Forms.FormState, user: UserId, chatId: int)
    ensures Route(state, Callback(user, "custom_question", chatId)) == Some(CustomQuestion)
  {
  }

  /** The suggestion buttons finish_course draws reach process_suggested_course. */
  lemma SuggestionButtonsRouted(i: nat, user: UserId, chatId: int)
    ensures Route(Forms.NoState, Callback(user, "suggested_" + NatToString(i), chatId)) == Some(ProcessSuggestedCourse)
  {
    var data := "suggested_" + NatToString(i);
    assert data[..|"suggested_"|] == "suggested_";
    assert data != "next_lesson" && data != "custom_question" && data != "return_to_lesson" by {
      assert |data| > |"suggested_"|;
      assert data[0] == 's';
    }
    assert data != "change_plan" && data != "simplify_lesson" && data != "cancel_course" by {
      assert data[0] == 's';
      assert data[1] == 'u';
    }
  }

  /**
   * send_lesson: the current lesson with its keyboard; the "/start" hint when
   * the user has no record; a KeyError on the partial record.
   */
  function LessonView(entry: Option<Entry>): (r: seq<Out>)
    requires entry.Some? && entry.value.Active? ==> 0 <= entry.value.currentDay < |entry.value.course|
    ensures |r| == 1
    ensures entry.None? ==> r == [Say(NotStarted)]
    ensures entry.Some? && entry.value.Partial? ==> r == [Crash]
    ensures entry.Some? && entry.value.Active? ==>
      r[0].ShowLesson? && r[0].lesson == entry.value.course[entry.value.currentDay]
      && ("next_lesson" in r[0].keyboard <==> entry.value.currentDay < LastDay)
      && ("finish_course" in r[0].keyboard <==> entry.value.currentDay == LastDay)
  {
    match entry
    case None => [Say(NotStarted)]
    case Some(Partial(_)) => [Crash]
    case Some(e) => [ShowLesson(e.course[e.currentDay], LessonKeyboard(e.currentDay))]
  }

  /**
   * simplify_lesson: the generator's simpler explanation (or its apology)
   * under the lesson keyboard; it changes nothing.
   */
  function SimplifyLessonView(entry: Option<Entry>, answer: string): (r: seq<Out>)
    ensures |r| == 1
    ensures entry.None? ==> r == [Say(NotStarted)]
    ensures entry.Some? && entry.value.Partial? ==> r == [Crash]
    ensures entry.Some? && entry.value.Active? ==>
      && r[0].ShowSimpler? && r[0].text == answer
      && ("next_lesson" in r[0].keyboard <==> entry.value.currentDay < LastDay)
      && ("finish_course" in r[0].keyboard <==> entry.value.currentDay == LastDay)
  {
    match entry
    case None => [Say(NotStarted)]
    case Some(Partial(_)) => [Crash]
    case Some(e) => [ShowSimpler(answer, LessonKeyboard(e.currentDay))]
  }

  /** Every record of the course table is valid. */
  ghost predicate TableValid(table: map<UserId, Entry>)
  {
    forall u :: u in table ==> EntryValid(table[u])
  }

  /** Every stored dialogue holds the keys its state relies on. */
  ghost predicate DialoguesValid(dialogues: map<UserId, Forms.Dialogue>)
  {
    forall u :: u in dialogues ==> Forms.DialogueValid(dialogues[u])
  }

  lemma TableUpdate(table: map<UserId, Entry>, u: UserId, e: Entry)
    requires TableValid(table) && EntryValid(e)
    ensures TableValid(table[u := e])
  {
  }

  lemma TableRemove(table: map<UserId, Entry>, u: UserId)
    requires TableValid(table)
    ensures TableValid(table - {u})
  {
  }

  lemma DialoguesUpdate(dialogues: map<UserId, Forms.Dialogue>, u: UserId, d: Forms.Dialogue)
    requires DialoguesValid(dialogues) && Forms.DialogueValid(d)
    ensures DialoguesValid(dialogues[u := d])
  {
  }

  class Bot {
    /** `user_courses` */
    var userCourses: map<UserId, Entry>
    /** The FSM storage; a user missing here has no state and no data. */
    var dialogues: map<UserId, Forms.Dialogue>
    /** Every save_user_course call, in order. */
    var saved: seq<(UserId, Entry)>

    ghost predicate Valid()
      reads this
    {
      TableValid(userCourses) && DialoguesValid(dialogues)
    }

    /**
     * What every handler keeps to: it changes only the record and the
     * dialogue of the user it serves, and only appends that user's records
     * to the save log.
     */
    twostate predicate TouchesOnly(u: UserId)
      reads this
    {
      && (forall v :: v != u ==> (v in userCourses <==> v in old(userCourses)))
      && (forall v :: v != u && v in userCourses ==> userCourses[v] == old(userCourses)[v])
      && (forall v :: v != u ==> (v in dialogues <==> v in old(dialogues)))
      && (forall v :: v != u && v in dialogues ==> dialogues[v] == old(dialogues)[v])
      && |old(saved)| <= |saved| && saved[..|old(saved)|] == old(saved)
      && (forall k :: |old(saved)| <= k < |saved| ==> saved[k].0 == u)
    }

    function DialogueOf(u: UserId): Forms.Dialogue
      reads this
    {
      if u in dialogues then dialogues[u] else Forms.Idle
    }

    function Lookup(u: UserId): Option<Entry>
      reads this
    {
      if u in userCourses then Some(userCourses[u]) else None
    }

    constructor ()
      ensures Valid()
      ensures userCourses == map[] && dialogues == map[] && saved == []
    {
      userCourses := map[];
      dialogues := map[];
      saved := [];
    }

    /** start: asks for the skill and enters the skill state, keeping the data. */
    method Start(u: UserId) returns (out: seq<Out>)
      requires Valid()
      modifies this
      ensures Valid()
      ensures TouchesOnly(u)
      ensures userCourses == old(userCourses) && saved == old(saved)
      ensures dialogues == old(dialogues)[u := Forms.Dialogue(Forms.Skill, old(DialogueOf(u)).data)]
      ensures out == [Say(AskSkill)]
    {
      dialogues := dialogues[u := Forms.Dialogue(Forms.Skill, DialogueOf(u).data)];
      out := [Say(AskSkill)];
    }

    /**
     * process_skill: stores the skill and asks for the goal; a user with no
     * record gets the partial one holding only an empty ledger.
     */
    method ProcessSkill(u: UserId, text: string) returns (out: seq<Out>)
      requires Valid()
      modifies this
      ensures Valid()
      ensures TouchesOnly(u)
      ensures ClassifyInput(text).Command? ==> unchanged(this) && out == []
      ensures ClassifyInput(text).Blank? ==> unchanged(this) && out == [Say(NeedSkill)]
      ensures ClassifyInput(text).Value? ==>
        && userCourses == (if u in old(userCourses) then old(userCourses) else old(userCourses)[u := Partial([])])
        && dialogues == old(dialogues)[u := Forms.Dialogue(Forms.Goal, old(DialogueOf(u)).data.(skill := Some(ClassifyInput(text).text)))]
        && saved == old(saved)
        && out == [Say(AskGoal)]
    {
      match ClassifyInput(text)
      case Command => out := [];
      case Blank => out := [Say(NeedSkill)];
      case Value(skill) =>
        if u !in userCourses {
          TableUpdate(userCourses, u, Partial([]));
          userCourses := userCourses[u := Partial([])];
        }
        dialogues := dialogues[u := Forms.Dialogue(Forms.Goal, DialogueOf(u).data.(skill := Some(skill)))];
        out := [Say(AskGoal)];
    }

    /** process_goal: stores the goal and asks about experience. */
    method ProcessGoal(u: UserId, text: string) returns (out: seq<Out>)
      requires Valid() && DialogueOf(u).state == Forms.Goal
      modifies this
      ensures Valid()
      ensures TouchesOnly(u)
      ensures ClassifyInput(text).Command? ==> unchanged(this) && out == []
      ensures ClassifyInput(text).Blank? ==> unchanged(this) && out == [Say(NeedGoal)]
      ensures ClassifyInput(text).Value? ==>
        && dialogues == old(dialogues)[u := Forms.Dialogue(Forms.Experience, old(DialogueOf(u)).data.(goal := Some(ClassifyInput(text).text)))]
        && userCourses == old(userCourses) && saved == old(saved)
        && out == [Say(AskExperience)]
    {
      match ClassifyInput(text)
      case Command => out := [];
      case Blank => out := [Say(NeedGoal)];
      case Value(goal) =>
        dialogues := dialogues[u := Forms.Dialogue(Forms.Experience, DialogueOf(u).data.(goal := Some(goal)))];
        out := [Say(AskExperience)];
    }

    /** process_experience: stores the experience and asks for preferences. */
    method ProcessExperience(u: UserId, text: string) returns (out: seq<Out>)
      requires Valid() && DialogueOf(u).state == Forms.Experience
      modifies this
      ensures Valid()
      ensures TouchesOnly(u)
      ensures ClassifyInput(text).Command? ==> unchanged(this) && out == []
      ensures ClassifyInput(text).Blank? ==> unchanged(this) && out == [Say(NeedExperience)]
      ensures ClassifyInput(text).Value? ==>
        && dialogues == old(dialogues)[u := Forms.Dialogue(Forms.Preferences, old(DialogueOf(u)).data.(experience := Some(ClassifyInput(text).text)))]
        && userCourses == old(userCourses) && saved == old(saved)
        && out == [Say(AskPreferences)]
    {
      match ClassifyInput(text)
      case Command => out := [];
      case Blank => out := [Say(NeedExperience)];
      case Value(experience) =>
        dialogues := dialogues[u := Forms.Dialogue(Forms.Preferences, DialogueOf(u).data.(experience := Some(experience)))];
        out := [Say(AskPreferences)];
    }

    /** process_preferences: stores the stripped text, even an empty one, then shows a plan. */
    method ProcessPreferences(u: UserId, text: string, plan: Option<seq<string>>) returns (out: seq<Out>)
      requires Valid() && DialogueOf(u).state == Forms.Preferences
      modifies this
      ensures Valid()
      ensures TouchesOnly(u)
      ensures StartsWith(text, "/") ==> unchanged(this) && out == []
      ensures !StartsWith(text, "/") ==>
        PlanShown(u, old(DialogueOf(u)).data.(preferences := Some(Strip(text))), plan, old(dialogues), dialogues, out)
      ensures userCourses == old(userCourses) && saved == old(saved)
    {
      if StartsWith(text, "/") {
        return [];
      }
      dialogues := dialogues[u := Forms.Dialogue(Forms.Preferences, DialogueOf(u).data.(preferences := Some(Strip(text))))];
      out := GenerateAndShowPlan(u, plan);
    }

    /** skip_preferences: stores "Не указано" as the preferences, then shows a plan. */
    method SkipPreferences(u: UserId, plan: Option<seq<string>>) returns (out: seq<Out>)
      requires Valid() && DialogueOf(u).state == Forms.Preferences
      modifies this
      ensures Valid()
      ensures TouchesOnly(u)
      ensures PlanShown(u, old(DialogueOf(u)).data.(preferences := Some(NotGiven)), plan, old(dialogues), dialogues, out)
      ensures userCourses == old(userCourses) && saved == old(saved)
    {
      dialogues := dialogues[u := Forms.Dialogue(Forms.Preferences, DialogueOf(u).data.(preferences := Some(NotGiven)))];
      out := GenerateAndShowPlan(u, plan);
    }

    /**
     * generate_and_show_plan after the preferences were stored as `data`: a
     * failed generation keeps the preferences state; a plan is stored and
     * shown, and the plan state entered.
     */
    ghost predicate PlanShown(u: UserId, data: Forms.Scratch, plan: Option<seq<string>>,
                              before: map<UserId, Forms.Dialogue>, after: map<UserId, Forms.Dialogue>, out: seq<Out>)
    {
      if Usable(plan, Gemini.PlanLength) then
        after == before[u := Forms.Dialogue(Forms.Plan, data.(plan := plan))] && out == [ShowPlan(plan.value)]
      else
        after == before[u := Forms.Dialogue(Forms.Preferences, data)] && out == [Say(PlanFailed)]
    }

    method GenerateAndShowPlan(u: UserId, plan: Option<seq<string>>) returns (out: seq<Out>)
      requires Valid() && DialogueOf(u).state == Forms.Preferences && DialogueOf(u).data.preferences.Some?
      modifies this
      ensures Valid()
      ensures TouchesOnly(u)
      ensures !Usable(plan, Gemini.PlanLength) ==> unchanged(this) && out == [Say(PlanFailed)]
      ensures Usable(plan, Gemini.PlanLength) ==>
        && dialogues == old(dialogues)[u := Forms.Dialogue(Forms.Plan, old(DialogueOf(u)).data.(plan := plan))]
        && userCourses == old(userCourses) && saved == old(saved)
        && out == [ShowPlan(plan.value)]
    {
      if !Usable(plan, Gemini.PlanLength) {
        return [Say(PlanFailed)];
      }
      dialogues := dialogues[u := Forms.Dialogue(Forms.Plan, DialogueOf(u).data.(plan := plan))];
      out := [ShowPlan(plan.value)];
    }

    /**
     * process_plan. Approval generates the course; on success it writes the
     * new record (day 0, progress 0, the earlier ledger carried over), saves
     * it, shows the first lesson and ends the dialogue; on failure nothing
     * changes. "edit_plan" and "restart" only move the dialogue.
     */
    method ProcessPlan(u: UserId, action: string, chatId: int, course: Option<seq<string>>) returns (out: seq<Out>)
      requires Valid() && (DialogueOf(u).state == Forms.Plan || action == "restart")
      modifies this
      ensures Valid()
      ensures TouchesOnly(u)
      ensures action == "approve_plan" ==>
        var data := old(DialogueOf(u)).data;
        if !Usable(course, Gemini.PlanLength) then unchanged(this) && out == [Say(CourseFailed)]
        else
          var entry := NewEntry(course.value, chatId, data.skill.value, data.experience.value, data.goal.value,
                                data.preferences.value, old(Lookup(u)));
          && userCourses == old(userCourses)[u := entry]
          && saved == old(saved) + [(u, entry)]
          && dialogues == old(dialogues)[u := Forms.Idle]
          && out == LessonView(Some(entry))
      ensures action == "edit_plan" ==>
        && dialogues == old(dialogues)[u := Forms.Dialogue(Forms.EditPlan, old(DialogueOf(u)).data)]
        && userCourses == old(userCourses) && saved == old(saved) && out == [Say(AskEdit)]
      ensures action == "restart" ==>
        && dialogues == old(dialogues)[u := Forms.Dialogue(Forms.Skill, old(DialogueOf(u)).data)]
        && userCourses == old(userCourses) && saved == old(saved) && out == [Say(Restarted)]
      ensures action !in ["approve_plan", "edit_plan", "restart"] ==> unchanged(this) && out == []
    {
      var data := DialogueOf(u).data;
      if action == "approve_plan" {
        if !Usable(course, Gemini.PlanLength) {
          return [Say(CourseFailed)];
        }
        var entry := NewEntry(course.value, chatId, data.skill.value, data.experience.value, data.goal.value,
                              data.preferences.value, Lookup(u));
        NewEntryValid(course.value, chatId, data.skill.value, data.experience.value, data.goal.value,
                      data.preferences.value, Lookup(u));
        TableUpdate(userCourses, u, entry);
        userCourses := userCourses[u := entry];
        saved := saved + [(u, entry)];
        out := LessonView(Some(entry));
        dialogues := dialogues[u := Forms.Idle];
      } else if action == "edit_plan" {
        dialogues := dialogues[u := Forms.Dialogue(Forms.EditPlan, data)];
        out := [Say(AskEdit)];
      } else if action == "restart" {
        dialogues := dialogues[u := Forms.Dialogue(Forms.Skill, data)];
        out := [Say(Restarted)];
      } else {
        out := [];
      }
    }

    /** process_edit_plan: asks the generator for a new plan and shows it, or keeps the old one. */
    method ProcessEditPlan(u: UserId, text: string, plan: Option<seq<string>>) returns (out: seq<Out>)
      requires Valid() && DialogueOf(u).state == Forms.EditPlan
      modifies this
      ensures Valid()
      ensures TouchesOnly(u)
      ensures ClassifyInput(text).Command? ==> unchanged(this) && out == []
      ensures ClassifyInput(text).Blank? ==> unchanged(this) && out == [Say(NeedEditRequest)]
      ensures ClassifyInput(text).Value? && !Usable(plan, Gemini.PlanLength) ==>
        unchanged(this) && out == [Say(PlanUpdateFailed)]
      ensures ClassifyInput(text).Value? && Usable(plan, Gemini.PlanLength) ==>
        && dialogues == old(dialogues)[u := Forms.Dialogue(Forms.Plan, old(DialogueOf(u)).data.(plan := plan))]
        && userCourses == old(userCourses) && saved == old(saved)
        && out == [ShowPlan(plan.value)]
    {
      match ClassifyInput(text)
      case Command => out := [];
      case Blank => out := [Say(NeedEditRequest)];
      case Value(_) =>
        if !Usable(plan, Gemini.PlanLength) {
          out := [Say(PlanUpdateFailed)];
        } else {
          dialogues := dialogues[u := Forms.Dialogue(Forms.Plan, DialogueOf(u).data.(plan := plan))];
          out := [ShowPlan(plan.value)];
        }
    }

    /**
     * next_lesson: before the last day the record advances (ledger, day,
     * progress), is saved, and the progress and the next lesson are shown; on
     * the last day nothing happens.
     */
    method NextLesson(u: UserId) returns (out: seq<Out>)
      requires Valid()
      modifies this
      ensures Valid()
      ensures TouchesOnly(u)
      ensures dialogues == old(dialogues)
      ensures old(Lookup(u)).None? ==> unchanged(this) && out == [Say(NotStarted)]
      ensures old(Lookup(u)).Some? && old(Lookup(u)).value.Partial? ==> unchanged(this) && out == [Crash]
      ensures old(Lookup(u)).Some? && old(Lookup(u)).value.Active? ==>
        var e := old(Lookup(u)).value;
        if e.currentDay < LastDay then
          && userCourses == old(userCourses)[u := Advance(e)]
          && saved == old(saved) + [(u, Advance(e))]
          && out == [ShowProgress(Advance(e).progress)] + LessonView(Some(Advance(e)))
        else unchanged(this) && out == []
    {
      match Lookup(u)
      case None => out := [Say(NotStarted)];
      case Some(Partial(_)) => out := [Crash];
      case Some(e) =>
        if e.currentDay < LastDay {
          var next := Advance(e);
          AdvanceValid(e);
          userCourses := userCourses[u := next];
          saved := saved + [(u, next)];
          out := [ShowProgress(next.progress)] + LessonView(Some(next));
        } else {
          out := [];
        }
    }

    /** custom_question: enters the question state from any state, keeping the data. */
    method CustomQuestion(u: UserId) returns (out: seq<Out>)
      requires Valid()
      modifies this
      ensures Valid()
      ensures TouchesOnly(u)
      ensures dialogues == old(dialogues)[u := Forms.Dialogue(Forms.CustomQuestion, old(DialogueOf(u)).data)]
      ensures userCourses == old(userCourses) && saved == old(saved)
      ensures out == [Say(AskQuestion)]
    {
      dialogues := dialogues[u := Forms.Dialogue(Forms.CustomQuestion, DialogueOf(u).data)];
      out := [Say(AskQuestion)];
    }

    /**
     * process_custom_question: a help question gets the fixed answer, any
     * other the generator's answer (or its apology); the dialogue then ends.
     * Only the generator branch reads the record.
     */
    method ProcessCustomQuestion(u: UserId, text: string, answer: string) returns (out: seq<Out>)
      requires Valid()
      modifies this
      ensures Valid()
      ensures TouchesOnly(u)
      ensures userCourses == old(userCourses) && saved == old(saved)
      ensures StartsWith(text, "/") ==> unchanged(this) && out == []
      ensures !StartsWith(text, "/") && old(Lookup(u)).None? ==> unchanged(this) && out == [Say(NotStarted)]
      ensures !StartsWith(text, "/") && old(Lookup(u)).Some? && IsHelpQuestion(Question(text)) ==>
        dialogues == old(dialogues)[u := Forms.Idle] && out == [Say(HelpText)]
      ensures !StartsWith(text, "/") && old(Lookup(u)).Some? && !IsHelpQuestion(Question(text)) ==>
        if old(Lookup(u)).value.Partial? then unchanged(this) && out == [Crash]
        else dialogues == old(dialogues)[u := Forms.Idle] && out == [ShowAnswer(answer)]
    {
      if StartsWith(text, "/") {
        return [];
      }
      if u !in userCourses {
        return [Say(NotStarted)];
      }
      if IsHelpQuestion(Question(text)) {
        out := [Say(HelpText)];
      } else if userCourses[u].Partial? {
        return [Crash];
      } else {
        out := [ShowAnswer(answer)];
      }
      dialogues := dialogues[u := Forms.Idle];
    }

    /** change_plan: enters the change-plan state when the user has a record. */
    method ChangePlan(u: UserId) returns (out: seq<Out>)
      requires Valid()
      modifies this
      ensures Valid()
      ensures TouchesOnly(u)
      ensures userCourses == old(userCourses) && saved == old(saved)
      ensures u !in old(userCourses) ==> unchanged(this) && out == [Say(NotStarted)]
      ensures u in old(userCourses) ==>
        dialogues == old(dialogues)[u := Forms.Dialogue(Forms.ChangePlan, old(DialogueOf(u)).data)] && out == [Say(AskWishes)]
    {
      if u !in userCourses {
        return [Say(NotStarted)];
      }
      dialogues := dialogues[u := Forms.Dialogue(Forms.ChangePlan, DialogueOf(u).data)];
      out := [Say(AskWishes)];
    }

    /**
     * process_change_plan: rewrites the current lesson only (update_lesson
     * keeps it on any failure), saves the record, shows the lesson and ends
     * the dialogue.
     */
    method ProcessChangePlan(u: UserId, text: string, updated: string) returns (out: seq<Out>)
      requires Valid()
      modifies this
      ensures Valid()
      ensures TouchesOnly(u)
      ensures ClassifyInput(text).Command? ==> unchanged(this) && out == []
      ensures ClassifyInput(text).Blank? ==> unchanged(this) && out == [Say(NeedWishes)]
      ensures ClassifyInput(text).Value? && old(Lookup(u)).None? ==> unchanged(this) && out == [Say(NotStarted)]
      ensures ClassifyInput(text).Value? && old(Lookup(u)).Some? && old(Lookup(u)).value.Partial? ==>
        unchanged(this) && out == [Crash]
      ensures ClassifyInput(text).Value? && old(Lookup(u)).Some? && old(Lookup(u)).value.Active? ==>
        var e := old(Lookup(u)).value;
        var changed := ReplaceCurrentLesson(e, updated);
        && userCourses == old(userCourses)[u := changed]
        && saved == old(saved) + [(u, changed)]
        && dialogues == old(dialogues)[u := Forms.Idle]
        && out == [Say(LessonUpdated(e.currentDay + 1))] + LessonView(Some(changed))
    {
      match ClassifyInput(text)
      case Command => out := [];
      case Blank => out := [Say(NeedWishes)];
      case Value(_) =>
        match Lookup(u)
        case None => out := [Say(NotStarted)];
        case Some(Partial(_)) => out := [Crash];
        case Some(e) =>
          var changed := ReplaceCurrentLesson(e, updated);
          ReplaceCurrentLessonValid(e, updated);
          TableUpdate(userCourses, u, changed);
          userCourses := userCourses[u := changed];
          saved := saved + [(u, changed)];
          out := [Say(LessonUpdated(e.currentDay + 1))] + LessonView(Some(changed));
          dialogues := dialogues[u := Forms.Idle];
    }

    /**
     * finish_course: records the last lesson in the ledger, then offers the
     * suggestions not yet finished; with none left it asks for a new skill
     * and saves nothing.
     */
    method FinishCourse(u: UserId, suggestions: Option<seq<string>>) returns (out: seq<Out>)
      requires Valid()
      modifies this
      ensures Valid()
      ensures TouchesOnly(u)
      ensures old(Lookup(u)).None? ==> unchanged(this) && out == [Say(NotStarted)]
      ensures old(Lookup(u)).Some? && old(Lookup(u)).value.Partial? ==> unchanged(this) && out == [Crash]
      ensures old(Lookup(u)).Some? && old(Lookup(u)).value.Active? ==>
        var e := old(Lookup(u)).value;
        var finished := e.(completed := AppendIfAbsent(e.completed, (e.skill, LastDay)));
        var offered := OfferedSuggestions(e.skill, finished.completed, suggestions);
        && userCourses == old(userCourses)[u := finished]
        && (offered == [] ==>
              && dialogues == old(dialogues)[u := Forms.Dialogue(Forms.Skill, old(DialogueOf(u)).data)]
              && saved == old(saved) && out == [Say(AllCoursesDone)])
        && (offered != [] ==>
              dialogues == old(dialogues) && saved == old(saved) + [(u, finished)] && out == [ShowSuggestions(offered)])
    {
      match Lookup(u)
      case None => out := [Say(NotStarted)];
      case Some(Partial(_)) => out := [Crash];
      case Some(e) =>
        var finished := e.(completed := AppendIfAbsent(e.completed, (e.skill, LastDay)));
        AppendIfAbsentValid(e.completed, (e.skill, LastDay));
        userCourses := userCourses[u := finished];
        var offered := OfferedSuggestions(e.skill, finished.completed, suggestions);
        if offered == [] {
          dialogues := dialogues[u := Forms.Dialogue(Forms.Skill, DialogueOf(u).data)];
          out := [Say(AllCoursesDone)];
        } else {
          saved := saved + [(u, finished)];
          out := [ShowSuggestions(offered)];
        }
    }

    /** cancel_course: drops the user's record and saves one holding only the ledger. */
    method CancelCourse(u: UserId) returns (out: seq<Out>)
      requires Valid()
      modifies this
      ensures Valid()
      ensures TouchesOnly(u)
      ensures dialogues == old(dialogues)
      ensures u !in old(userCourses) ==> unchanged(this) && out == [Say(NoActiveCourse)]
      ensures u in old(userCourses) ==>
        && userCourses == old(userCourses) - {u}
        && saved == old(saved) + [(u, Partial(old(userCourses)[u].completed))]
        && out == [Say(Cancelled)]
    {
      if u in userCourses {
        var ledger := userCourses[u].completed;
        TableRemove(userCourses, u);
        userCourses := userCourses - {u};
        saved := saved + [(u, Partial(ledger))];
        out := [Say(Cancelled)];
      } else {
        out := [Say(NoActiveCourse)];
      }
    }

    /**
     * process_suggested_course: decodes the chosen position among the
     * offered courses; a position past their end changes nothing; a valid one
     * starts a new dialogue on that course (asking for the goal) and drops
     * the record, saving only its ledger.
     */
    method ProcessSuggestedCourse(u: UserId, data: string, suggestions: Option<seq<string>>) returns (out: seq<Out>)
      requires Valid()
      modifies this
      ensures Valid()
      ensures TouchesOnly(u)
      ensures old(Lookup(u)).None? ==> unchanged(this) && out == [Say(NotStarted)]
      ensures old(Lookup(u)).Some? && old(Lookup(u)).value.Partial? ==> unchanged(this) && out == [Crash]
      ensures old(Lookup(u)).Some? && old(Lookup(u)).value.Active? ==>
        var e := old(Lookup(u)).value;
        var offered := OfferedSuggestions(e.skill, e.completed, suggestions);
        if offered == [] then
          && dialogues == old(dialogues)[u := Forms.Dialogue(Forms.Skill, old(DialogueOf(u)).data)]
          && userCourses == old(userCourses) && saved == old(saved) && out == [Say(AllCoursesDone)]
        else match SuggestionIndex(data)
          case None => unchanged(this) && out == [Crash]
          case Some(i) =>
            if i >= |offered| then unchanged(this) && out == [Say(BadChoice)]
            else
              && dialogues == old(dialogues)[u := Forms.Dialogue(Forms.Goal, old(DialogueOf(u)).data.(skill := Some(offered[i])))]
              && userCourses == old(userCourses) - {u}
              && saved == old(saved) + [(u, Partial(e.completed))]
              && out == [ShowChoice(offered[i])]
    {
      match Lookup(u)
      case None => out := [Say(NotStarted)];
      case Some(Partial(_)) => out := [Crash];
      case Some(e) =>
        var offered := OfferedSuggestions(e.skill, e.completed, suggestions);
        if offered == [] {
          dialogues := dialogues[u := Forms.Dialogue(Forms.Skill, DialogueOf(u).data)];
          return [Say(AllCoursesDone)];
        }
        match SuggestionIndex(data)
        case None => out := [Crash];
        case Some(i) =>
          if i >= |offered| {
            out := [Say(BadChoice)];
          } else {
            DialoguesUpdate(dialogues, u, Forms.Dialogue(Forms.Goal, DialogueOf(u).data.(skill := Some(offered[i]))));
            TableRemove(userCourses, u);
            dialogues := dialogues[u := Forms.Dialogue(Forms.Goal, DialogueOf(u).data.(skill := Some(offered[i])))];
            userCourses := userCourses - {u};
            saved := saved + [(u, Partial(e.completed))];
            out := [ShowChoice(offered[i])];
          }
    }

    /**
     * One update through the dispatcher: the routed handler runs; nothing
     * else happens. Whatever runs touches only the sender's record and
     * dialogue, and only appends to the save log.
     */
    method Dispatch(ev: Event, gen: Generated) returns (out: seq<Out>)
      requires Valid()
      modifies this
      ensures Valid()
      ensures Route(old(DialogueOf(ev.user)).state, ev).None? ==> unchanged(this) && out == []
      ensures TouchesOnly(ev.user)
    {
      var u := ev.user;
      match Route(DialogueOf(u).state, ev)
      case None => out := [];
      case Some(h) =>
        match h
        case ProcessSkill => out := this.ProcessSkill(u, ev.text);
        case ProcessGoal => out := this.ProcessGoal(u, ev.text);
        case ProcessExperience => out := this.ProcessExperience(u, ev.text);
        case ProcessPreferences => out := this.ProcessPreferences(u, ev.text, gen.plan);
        case SkipPreferences => out := this.SkipPreferences(u, gen.plan);
        case ProcessPlan => out := this.ProcessPlan(u, ev.data, ev.chatId, gen.course);
        case ProcessEditPlan => out := this.ProcessEditPlan(u, ev.text, gen.plan);
        case NextLesson => out := this.NextLesson(u);
        case CustomQuestion => out := this.CustomQuestion(u);
        case ProcessCustomQuestion => out := this.ProcessCustomQuestion(u, ev.text, gen.answer);
        case ReturnToLesson => out := LessonView(Lookup(u));
        case ChangePlan => out := this.ChangePlan(u);
        case ProcessChangePlan => out := this.ProcessChangePlan(u, ev.text, gen.updatedLesson);
        case SimplifyLesson => out := SimplifyLessonView(Lookup(u), gen.answer);
        case CancelCourse => out := this.CancelCourse(u);
        case ProcessSuggestedCourse => out := this.ProcessSuggestedCourse(u, ev.data, gen.suggestions);
        case FinishCourse => out := this.FinishCourse(u, gen.suggestions);
    }
  }
}
