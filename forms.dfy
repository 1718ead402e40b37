/**
 * The dialogue of one user: the CourseForm state group of states.py, plus
 * "no state", and the scratch data the setup handlers store with
 * `state.update_data`.
 */
module Forms {
  import opened Wrappers

  /** The eight CourseForm states and the absence of a state. */
  datatype FormState =
    | NoState
    | Skill
    | Goal
    | Experience
    | Preferences
    | Plan
    | EditPlan
    | CustomQuestion
    | ChangePlan

  /** The keys the handlers write into the state data; None is a missing key. */
  datatype Scratch = Scratch(skill: Option<string>, goal: Option<string>, experience: Option<string>,
                             preferences: Option<string>, plan: Option<seq<string>>)

  const EmptyScratch := Scratch(None, None, None, None, None)

  datatype Dialogue = Dialogue(state: FormState, data: Scratch)

  /** What `state.finish()` leaves: no state and no data. */
  const Idle := Dialogue(NoState, EmptyScratch)

  /**
   * The keys each setup state can rely on: the ones the handlers before it
   * stored. generate_and_show_plan, process_plan and process_edit_plan read
   * them without a default.
   */
  predicate DialogueValid(d: Dialogue)
  {
    && (d.state in {Goal, Experience, Preferences, Plan, EditPlan} ==> d.data.skill.Some?)
    && (d.state in {Experience, Preferences, Plan, EditPlan} ==> d.data.goal.Some?)
    && (d.state in {Preferences, Plan, EditPlan} ==> d.data.experience.Some?)
    && (d.state in {Plan, EditPlan} ==> d.data.preferences.Some? && d.data.plan.Some?)
  }
}
