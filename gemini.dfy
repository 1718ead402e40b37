/**
 * The post-processing that the generator client applies to the model's raw
 * answer (gemini_service.py). The network call and the prompt are not part of
 * the model: every operation receives the response text, or None when the
 * call raised, and returns what the Python function returns.
 */
module Gemini {
  import opened Wrappers
  import opened Text

  const PlanLength: nat := 7
  const SuggestionCount: nat := 3
  const PlanFiller := "Дополнительный урок"
  const SuggestionFiller := "Дополнительный курс"
  /** answer_question's apology, in three pieces so that its ends are visible to the verifier. */
  const AnswerFallbackHead := "<b>Ой, не переживай!</b> 🎯"
  const AnswerFallbackMiddle := " Я помогу! Задай вопрос ещё раз,"
  const AnswerFallbackEnd := " и мы разберёмся вместе. ✍️"
  const AnswerFallback := AnswerFallbackHead + AnswerFallbackMiddle + AnswerFallbackEnd

  function Repeat(x: string, n: nat): (r: seq<string>)
    ensures |r| == n && forall k :: 0 <= k < n ==> r[k] == x
  {
    seq(n, _ => x)
  }

  /**
   * The shape correction of generate_plan and generate_course_suggestions:
   * a list of the wrong length is cut to its first `n` items or padded with
   * `filler`. The result always has `n` items and starts with the input.
   */
  function Fit(items: seq<string>, n: nat, filler: string): (r: seq<string>)
    ensures |r| == n
    ensures forall k :: 0 <= k < n ==> r[k] == if k < |items| then items[k] else filler
  {
    if |items| != n then
      (if |items| > n then items[..n] else items + Repeat(filler, n - |items|))
    else items
  }

  /**
   * `[l.strip() for l in text.strip().split(sep) if l.strip()]`, with `sep`
   * "\n" for plans and suggestions and "---" for lesson bodies.
   */
  function ResponsePieces(text: string, sep: string): (r: seq<string>)
    requires |sep| > 0
    ensures forall k :: 0 <= k < |r| ==> r[k] != [] && IsStripped(r[k])
  {
    NonBlankStripped(Split(Strip(text), sep))
  }

  /**
   * generate_plan: None when the call raised, otherwise exactly seven titles,
   * the response's non-blank lines first and in order.
   */
  function GeneratePlan(response: Option<string>): (r: Option<seq<string>>)
    ensures r.Some? <==> response.Some?
    ensures r.Some? ==> |r.value| == PlanLength
    ensures r.Some? ==> var lines := ResponsePieces(response.value, "\n");
      forall k :: 0 <= k < PlanLength ==> r.value[k] == if k < |lines| then lines[k] else PlanFiller
  {
    match response
    case None => None
    case Some(text) => Some(Fit(ResponsePieces(text, "\n"), PlanLength, PlanFiller))
  }

  /**
   * generate_course_suggestions: None when the call raised, otherwise exactly
   * three suggestions, the response's non-blank lines first and in order.
   */
  function GenerateCourseSuggestions(response: Option<string>): (r: Option<seq<string>>)
    ensures r.Some? <==> response.Some?
    ensures r.Some? ==> |r.value| == SuggestionCount
    ensures r.Some? ==> var lines := ResponsePieces(response.value, "\n");
      forall k :: 0 <= k < SuggestionCount ==> r.value[k] == if k < |lines| then lines[k] else SuggestionFiller
  {
    match response
    case None => None
    case Some(text) => Some(Fit(ResponsePieces(text, "\n"), SuggestionCount, SuggestionFiller))
  }

  /** One slot of an f-string template: literal text or a substituted value. */
  datatype Slot = Literal(text: string) | DayNumber | SkillName | GoalName

  /** The f-string of the lesson generate_course appends for a missing day. */
  const FillerTemplate: seq<Slot> := [
    Literal("<b>День "), DayNumber, Literal(":"), Literal(" Дополнительный шаг к '"), SkillName,
    Literal("'</b>\n<b>Краткое введение 🎯</b>: Ты близок к цели '"), GoalName,
    Literal("' — продолжай!\n<b>Основной шаг 🚀</b>: Практикуй '"), SkillName,
    Literal("' каждый день. Не уверен? Задай мне вопрос!\n<b>Практический пример 🌟</b>: Примени '"), SkillName,
    Literal("' в жизни.\n<b>Практическое задание 1 ✍️</b>: Сделай простой шаг.\n<b>Практическое задание 2 ✍️</b>: Закрепи результат.\n💡 Полезный совет: Постоянство — ключ к успеху.\nНе стесняйся задавать вопросы — я здесь, чтобы помочь!\nПо любому поводу можешь задать мне вопрос! 🚀\n<b>Спрашивай обо всём! 🤓</b>")
  ]

  function Render(template: seq<Slot>, day: nat, skill: string, goal: string): string
  {
    if template == [] then ""
    else
      var head := match template[0]
        case Literal(text) => text
        case DayNumber => NatToString(day)
        case SkillName => skill
        case GoalName => goal;
      head + Render(template[1..], day, skill, goal)
  }

  lemma {:induction false} RenderAppend(a: seq<Slot>, b: seq<Slot>, day: nat, skill: string, goal: string)
    ensures Render(a + b, day, skill, goal) == Render(a, day, skill, goal) + Render(b, day, skill, goal)
  {
    if a == [] {
      assert a + b == b;
    } else {
      assert (a + b)[1..] == a[1..] + b;
      RenderAppend(a[1..], b, day, skill, goal);
    }
  }

  /** The lesson generate_course appends at 0-based `position`, numbered position + 1. */
  function FillerLesson(position: nat, skill: string, goal: string): string
  {
    Render(FillerTemplate, position + 1, skill, goal)
  }

  /** The first three slots of the filler template render as "<b>День n:". */
  lemma FillerHeading(day: nat, skill: string, goal: string)
    ensures StartsWith(Render(FillerTemplate, day, skill, goal), "<b>День " + NatToString(day) + ":")
  {
    var t := FillerTemplate;
    var h := t[..3];
    var heading := "<b>День " + NatToString(day) + ":";
    RenderAppend(h, t[3..], day, skill, goal);
    assert h + t[3..] == t;
    assert h == [Literal("<b>День "), DayNumber, Literal(":")];
    assert Render(h[2..], day, skill, goal) == ":" by {
      assert h[2..][1..] == [];
    }
    assert Render(h[1..], day, skill, goal) == NatToString(day) + ":" by {
      assert h[1..][1..] == h[2..];
    }
    assert Render(t, day, skill, goal)[..|heading|] == heading;
  }

  /** Rendering a template names whatever value fills one of its slots. */
  lemma {:induction false} RenderNames(template: seq<Slot>, i: nat, day: nat, skill: string, goal: string)
    requires i < |template|
    ensures template[i] == SkillName ==> Contains(Render(template, day, skill, goal), skill)
    ensures template[i] == GoalName ==> Contains(Render(template, day, skill, goal), goal)
  {
    var before, after := Render(template[..i], day, skill, goal), Render(template[i + 1..], day, skill, goal);
    assert template == template[..i] + template[i..];
    RenderAppend(template[..i], template[i..], day, skill, goal);
    assert template[i..][1..] == template[i + 1..];
    var r := Render(template, day, skill, goal);
    if template[i] == SkillName {
      assert Render(template[i..], day, skill, goal) == skill + after;
      assert r == before + skill + after;
      ContainsInfix(before, skill, after);
    } else if template[i] == GoalName {
      assert Render(template[i..], day, skill, goal) == goal + after;
      assert r == before + goal + after;
      ContainsInfix(before, goal, after);
    }
  }

  /** A filler lesson is headed "<b>День position+1:" and names the skill and the goal. */
  lemma FillerLessonShape(position: nat, skill: string, goal: string)
    ensures StartsWith(FillerLesson(position, skill, goal), "<b>День " + NatToString(position + 1) + ":")
    ensures Contains(FillerLesson(position, skill, goal), skill)
    ensures Contains(FillerLesson(position, skill, goal), goal)
  {
    FillerHeading(position + 1, skill, goal);
    assert FillerTemplate[4] == SkillName && FillerTemplate[6] == GoalName;
    RenderNames(FillerTemplate, 4, position + 1, skill, goal);
    RenderNames(FillerTemplate, 6, position + 1, skill, goal);
  }

  /**
   * What generate_course returns: None when the call raised; otherwise seven
   * lessons, the response's non-empty '---' pieces first and in order, and
   * after them the filler lesson for each missing position.
   */
  function CourseFromResponse(response: Option<string>, skill: string, goal: string): (r: Option<seq<string>>)
    ensures r.Some? <==> response.Some?
    ensures r.Some? ==> |r.value| == PlanLength
    ensures r.Some? ==> var pieces := ResponsePieces(response.value, "---");
      && (forall k :: 0 <= k < PlanLength && k < |pieces| ==> r.value[k] == pieces[k])
      && (forall k :: |pieces| <= k < PlanLength ==> r.value[k] == FillerLesson(k, skill, goal))
  {
    match response
    case None => None
    case Some(text) =>
      var pieces := ResponsePieces(text, "---");
      var lessons := seq(PlanLength, k requires 0 <= k < PlanLength => Expected(pieces, k, skill, goal));
      assert forall k :: 0 <= k < PlanLength && k < |pieces| ==> lessons[k] == pieces[k];
      assert forall k :: |pieces| <= k < PlanLength ==> lessons[k] == FillerLesson(k, skill, goal);
      Some(lessons)
  }

  /** generate_course: pads with a loop, one filler lesson at a time, then cuts to seven. */
  method GenerateCourse(response: Option<string>, skill: string, goal: string) returns (lessons: Option<seq<string>>)
    ensures lessons == CourseFromResponse(response, skill, goal)
  {
    if response.None? {
      return None;
    }
    var pieces := ResponsePieces(response.value, "---");
    var ls := pieces;
    if |ls| != PlanLength {
      ls := PadWith(ls, PlanLength, (k: nat) => FillerLesson(k, skill, goal));
      ls := ls[..PlanLength];
    }
    CourseFromLessons(response.value, skill, goal, ls);
    lessons := Some(ls);
  }

  /** Seven lessons that agree with `Expected` at every position are the course. */
  lemma CourseFromLessons(text: string, skill: string, goal: string, ls: seq<string>)
    requires |ls| == PlanLength
    requires forall k :: 0 <= k < PlanLength ==> ls[k] == Expected(ResponsePieces(text, "---"), k, skill, goal)
    ensures CourseFromResponse(Some(text), skill, goal) == Some(ls)
  {
    var spec := CourseFromResponse(Some(text), skill, goal).value;
    assert spec == ls;
  }

  /**
   * `while len(items) < n: items.append(filler(len(items)))`: the items keep
   * their places and every new position k holds filler(k).
   */
  method PadWith(items: seq<string>, n: nat, filler: nat -> string) returns (padded: seq<string>)
    ensures |padded| == if |items| < n then n else |items|
    ensures forall k :: 0 <= k < |padded| ==> padded[k] == if k < |items| then items[k] else filler(k)
  {
    padded := items;
    while |padded| < n
      invariant |items| <= |padded| <= if |items| < n then n else |items|
      invariant forall k :: 0 <= k < |padded| ==> padded[k] == if k < |items| then items[k] else filler(k)
    {
      padded := padded + [filler(|padded|)];
    }
  }

  /** The lesson generate_course returns at position `k`: the response's own, or the filler. */
  function Expected(pieces: seq<string>, k: nat, skill: string, goal: string): string
  {
    if k < |pieces| then pieces[k] else FillerLesson(k, skill, goal)
  }

  /** answer_question never fails: on an exception it answers with a fixed apology. */
  function AnswerQuestion(response: Option<string>): (r: string)
    ensures response.None? ==> r == AnswerFallback
    ensures response.Some? ==> r == Strip(response.value)
    ensures IsStripped(r)
  {
    assert AnswerFallback[0] == AnswerFallbackHead[0] == '<';
    assert AnswerFallback[|AnswerFallback| - 1] == AnswerFallbackEnd[|AnswerFallbackEnd| - 1] == '\U{fe0f}';
    match response
    case None => AnswerFallback
    case Some(text) => Strip(text)
  }

  /** The first line of a lesson with its <b> and </b> tags removed. */
  function Heading(lesson: string): string
  {
    Replace(Replace(Split(lesson, "\n")[0], "<b>", ""), "</b>", "")
  }

  /**
   * update_lesson's title extraction, `heading.split(": ")[1].strip()`: an
   * IndexError, here None, when the heading has no ": ".
   */
  function LessonTitle(lesson: string): (r: Option<string>)
    ensures r.None? <==> !Contains(Heading(lesson), ": ")
    ensures r.Some? ==> IsStripped(r.value)
  {
    SplitShape(Heading(lesson), ": ");
    var parts := Split(Heading(lesson), ": ");
    if |parts| < 2 then None else Some(Strip(parts[1]))
  }

  /**
   * update_lesson: any failure, the title extraction included, gives back the
   * current lesson; a successful answer is returned stripped, whatever its
   * length (an out-of-range length is only logged).
   */
  function UpdateLesson(currentLesson: string, response: Option<string>): (r: string)
    ensures LessonTitle(currentLesson).None? ==> r == currentLesson
    ensures response.None? ==> r == currentLesson
    ensures LessonTitle(currentLesson).Some? && response.Some? ==> r == Strip(response.value)
  {
    match LessonTitle(currentLesson)
    case None => currentLesson
    case Some(_) =>
      match response
      case None => currentLesson
      case Some(text) => Strip(text)
  }

  /**
   * A lesson whose first line is a bold title, the shape generate_course
   * asks for, yields that title as its heading.
   */
  lemma HeadingOfBoldLine(title: string, rest: string)
    requires !Contains(title, "\n") && !Contains(title, "<b>") && !Contains(title, "</b>")
    ensures Heading("<b>" + title + "</b>\n" + rest) == title
  {
    var line := "<b>" + title + "</b>";
    assert "<b>" + title + "</b>\n" + rest == line + "\n" + rest;
    BoldLineSingle(title);
    FirstLine(line, rest);
    DropOpenTag(title);
    DropCloseTag(title);
  }

  lemma DropOpenTag(title: string)
    requires !Contains(title, "<b>")
    ensures Replace("<b>" + title + "</b>", "<b>", "") == title + "</b>"
  {
    var line := "<b>" + title + "</b>";
    assert line[..3] == "<b>";
    FindFromFirst(line, "<b>", 0);
    ReplaceFirst(line, "<b>", "", 0);
    assert line[3..] == title + "</b>";
    OpenTagOnlyAtStart(title);
  }

  lemma DropCloseTag(title: string)
    requires !Contains(title, "</b>")
    ensures Replace(title + "</b>", "</b>", "") == title
  {
    var u := title + "</b>";
    CloseTagOnlyAtEnd(title);
    FindFromFirst(u, "</b>", |title|);
    ReplaceFirst(u, "</b>", "", |title|);
    assert u[..|title|] == title;
    assert u[|title| + 4..] == "";
  }

  /** A single character occurs in `s` exactly where `s` holds it. */
  lemma OccursChar(s: string, c: char, k: nat)
    requires k < |s|
    ensures OccursAt(s, [c], k) <==> s[k] == c
  {
    assert s[k..k + 1] == [s[k]];
  }

  lemma BoldLineSingle(title: string)
    requires !Contains(title, "\n")
    ensures !Contains("<b>" + title + "</b>", "\n")
  {
    var line := "<b>" + title + "</b>";
    forall k | 0 <= k < |line|
      ensures !OccursAt(line, "\n", k)
    {
      OccursChar(line, '\n', k);
      if 3 <= k < 3 + |title| {
        OccursChar(title, '\n', k - 3);
      }
    }
  }

  /** The first line of `line + "\n" + rest` is `line` when it holds no newline. */
  lemma FirstLine(line: string, rest: string)
    requires !Contains(line, "\n")
    ensures Split(line + "\n" + rest, "\n")[0] == line
  {
    var s := line + "\n" + rest;
    forall j | 0 <= j < |line|
      ensures !OccursAt(s, "\n", j)
    {
      OccursChar(s, '\n', j);
      OccursChar(line, '\n', j);
    }
    assert s[|line|..|line| + 1] == "\n";
    FindFromFirst(s, "\n", |line|);
    assert s[..|line|] == line;
  }

  /** Without "<b>" in the title, closing the bold text adds none. */
  lemma OpenTagOnlyAtStart(title: string)
    requires !Contains(title, "<b>")
    ensures !Contains(title + "</b>", "<b>")
  {
    forall j | 0 <= j <= |title| + 1
      ensures !OccursAt(title + "</b>", "<b>", j)
    {
      if j + 3 <= |title| {
        NoTagInside(title, "</b>", "<b>", j);
      } else {
        NoOpenTagAcross(title, j);
      }
    }
  }

  /** An occurrence lying inside `a` would be one in `a` itself. */
  lemma NoTagInside(a: string, b: string, tag: string, j: nat)
    requires !Contains(a, tag) && j + |tag| <= |a|
    ensures !OccursAt(a + b, tag, j)
  {
    assert (a + b)[j..j + |tag|] == a[j..j + |tag|];
    assert !OccursAt(a, tag, j);
  }

  lemma NoOpenTagAcross(title: string, j: nat)
    requires |title| < j + 3 <= |title| + 4
    ensures !OccursAt(title + "</b>", "<b>", j)
  {
    var u := title + "</b>";
    var w := u[j..j + 3];
    assert u[|title|] == '<' && u[|title| + 1] == '/';
    if j < |title| {
      var d := |title| - j;
      assert w[d] == '<' && "<b>"[d] != '<';
    } else if j == |title| {
      assert w[1] == '/' && "<b>"[1] == 'b';
    } else {
      assert w[0] == '/' && "<b>"[0] == '<';
    }
  }

  /** Without "</b>" in the title, the closing tag is first found right after it. */
  lemma CloseTagOnlyAtEnd(title: string)
    requires !Contains(title, "</b>")
    ensures OccursAt(title + "</b>", "</b>", |title|)
    ensures forall j :: 0 <= j < |title| ==> !OccursAt(title + "</b>", "</b>", j)
  {
    var u := title + "</b>";
    assert u[|title|..] == "</b>";
    forall j | 0 <= j < |title|
      ensures !OccursAt(u, "</b>", j)
    {
      if j + 4 <= |title| {
        NoTagInside(title, "</b>", "</b>", j);
      } else {
        NoCloseTagAcross(title, j);
      }
    }
  }

  lemma NoCloseTagAcross(title: string, j: nat)
    requires j < |title| < j + 4
    ensures !OccursAt(title + "</b>", "</b>", j)
  {
    var u := title + "</b>";
    var w := u[j..j + 4];
    var d := |title| - j;
    assert u[|title|] == '<';
    assert w[d] == '<' && "</b>"[d] != '<';
  }
}
