/** Record shapes shared by the services, the dashboard and the question
    components: flat records of the remote store, as the front-end reads them. */
module Records {

  datatype Option<+T> = None | Some(value: T)

  function Min(a: int, b: int): int { if a <= b then a else b }

  /** Timestamps are milliseconds since the epoch. */
  type Millis = int

  /** One completed attempt at a level's question set (an `activity_c` row). */
  datatype Activity = Activity(
    completedAt: Millis,   // completed_at_c
    starsEarned: int,      // stars_earned_c, 0..3
    timeSpent: int,        // time_spent_c, seconds
    correctAnswers: int,   // correct_answers_c
    totalQuestions: int    // total_questions_c
  )

  /** One child's mastery of one skill area within one subject (a `progress_c` row). */
  datatype ProgressRecord = ProgressRecord(
    id: int,                       // Id, assigned by the store
    name: string,                  // Name
    childId: string,               // child_id_c, stored as a string
    subject: string,               // subject_c
    skillArea: string,             // skill_area_c
    masteryLevel: int,             // mastery_level_c, 0..100
    practiceCount: Option<nat>,    // practice_count_c, may be missing
    lastPracticed: Millis          // last_practiced_c
  )

  /** A multiple-choice question (a `question_c` row). */
  datatype Question = Question(
    id: int,
    text: string,                  // question_c
    correctAnswer: string,         // correct_answer_c
    options: seq<string>           // the candidate answers shown as buttons
  )
}
