/**
 * Two runs of the handlers that show how the course table behaves across a
 * dialogue: the partial record that process_skill inserts, and the ledger
 * that cancellation drops from memory.
 */
module Scenarios {
  import opened Wrappers
  import opened CourseRecord
  import opened CourseBot
  import opened Text
  import Forms

  /**
   * A user who has only named a skill is "in user_courses", yet the lesson
   * buttons fail on the missing keys. Every step below is an update that
   * aiogram routes to the handler called: the skill, "ask a question" from
   * the goal state, a help question that ends the dialogue, and then the two
   * lesson buttons, which crash in next_lesson and finish_course.
   */
  method PartialRecordCrashes(skill: string, answer: string, suggestions: Option<seq<string>>)
    returns (known: bool, routes: seq<Option<Handler>>, help: seq<Out>, next: seq<Out>, finish: seq<Out>)
    requires ClassifyInput(skill).Value?
    ensures known
    ensures routes == [Some(Handler.ProcessSkill), Some(Handler.CustomQuestion),
                       Some(Handler.ProcessCustomQuestion), Some(Handler.NextLesson), Some(Handler.FinishCourse)]
    ensures help == [Say(HelpText)]
    ensures next == [Crash] && finish == [Crash]
  {
    var question := "что делать";
    CrashRoutes(skill, question);
    QuestionIsHelp(question);
    var bot := new Bot();
    var _ := bot.Start(1);
    var r1 := Route(bot.DialogueOf(1).state, Message(1, skill));
    var _ := bot.ProcessSkill(1, skill);
    assert bot.DialogueOf(1).state == Forms.Goal && bot.Lookup(1) == Some(Partial([]));
    var r2 := Route(bot.DialogueOf(1).state, Callback(1, "custom_question", 1));
    var _ := bot.CustomQuestion(1);
    assert bot.DialogueOf(1).state == Forms.CustomQuestion && bot.Lookup(1) == Some(Partial([]));
    var r3 := Route(bot.DialogueOf(1).state, Message(1, question));
    help := bot.ProcessCustomQuestion(1, question, answer);
    assert bot.DialogueOf(1).state == Forms.NoState && bot.Lookup(1) == Some(Partial([]));
    known := 1 in bot.userCourses;
    var r4 := Route(bot.DialogueOf(1).state, Callback(1, "next_lesson", 1));
    next := bot.NextLesson(1);
    assert bot.DialogueOf(1).state == Forms.NoState && bot.Lookup(1) == Some(Partial([]));
    var r5 := Route(bot.DialogueOf(1).state, Callback(1, "finish_course", 1));
    finish := bot.FinishCourse(1, suggestions);
    routes := [r1, r2, r3, r4, r5];
  }

  /** How aiogram routes each update of PartialRecordCrashes in the state it arrives in. */
  lemma CrashRoutes(skill: string, question: string)
    ensures Route(Forms.Skill, Message(1, skill)) == Some(Handler.ProcessSkill)
    ensures Route(Forms.Goal, Callback(1, "custom_question", 1)) == Some(Handler.CustomQuestion)
    ensures Route(Forms.CustomQuestion, Message(1, question)) == Some(Handler.ProcessCustomQuestion)
    ensures Route(Forms.NoState, Callback(1, "next_lesson", 1)) == Some(Handler.NextLesson)
    ensures Route(Forms.NoState, Callback(1, "finish_course", 1)) == Some(Handler.FinishCourse)
  {
    assert !StartsWith("finish_course", "suggested_") by {
      assert "finish_course"[0] != "suggested_"[0];
    }
  }

  /** The help phrase typed as it is, in lower case, is a help question and no command. */
  lemma QuestionIsHelp(question: string)
    requires question == HelpPhrases[2]
    ensures IsHelpQuestion(Question(question)) && !StartsWith(question, "/")
  {
    HelpPhrasesLower(2);
    StrippedIsFixed(question);
    assert OccursAt(question, question, 0);
    HelpQuestionRecognised(question, question, 2);
  }

  /**
   * Whatever a user had completed, cancelling removes the record from the
   * course table (only the save log keeps the ledger), so naming a skill
   * again starts from an empty ledger, and the record written when the next
   * plan is approved carries that empty ledger over.
   */
  method CancelForgetsLedger(e: Entry, skill: string, course: seq<string>, chatId: int)
    returns (written: Entry, after: Ledger, approved: Ledger)
    requires EntryValid(e) && ClassifyInput(skill).Value?
    ensures written == Partial(e.completed)
    ensures after == []
    ensures approved == []
  {
    var bot := new Bot();
    bot.userCourses := map[1 := e];
    var _ := bot.CancelCourse(1);
    written := bot.saved[|bot.saved| - 1].1;
    var _ := bot.ProcessSkill(1, skill);
    after := bot.userCourses[1].completed;
    approved := NewEntry(course, chatId, skill, "", "", "", bot.Lookup(1)).completed;
  }
}
