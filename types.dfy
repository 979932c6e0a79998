/** The entities of the quiz engine: questions, per-question history, per-tag
    statistics, answer records and the persisted application state.
    Calendar dates are integer day numbers; an empty date string is `None`. */
module Types {

  datatype Option<+T> = None | Some(value: T)

  /** The eleven question categories. */
  datatype Tag =
    | Radical
    | StrokeCount
    | Okurigana
    | JukugoMaking
    | Homophone
    | Reading
    | OnKun
    | AntonymSynonym
    | CompoundStructure
    | ThreeCharCompound
    | Writing

  /** Every tag once, in the order the ledger initialises them. */
  const AllTags: seq<Tag> := [
    Radical, StrokeCount, Okurigana, JukugoMaking, Homophone,
    Reading, OnKun, AntonymSynonym, CompoundStructure,
    ThreeCharCompound, Writing
  ]

  lemma AllTagsComplete(t: Tag)
    ensures t in AllTags
  {
  }

  /** `label` is a Dafny keyword, so the field is called `labelText`. */
  datatype Choice = Choice(labelText: string, desc: Option<string>)

  /** A quiz question; `choices == None` marks a handwriting question. */
  datatype Question = Question(
    id: string,
    tag: Tag,
    source: string,
    points: int,
    difficulty: int,
    question: string,
    context: string,
    target: string,
    answer: string,
    choices: Option<seq<Choice>>,
    hint: Option<string>,
    explanation: Option<string>)

  datatype ErrorType = Mimicry | CrystalDefect | Weathering | Misidentify | LayerShift

  datatype SelfScore = Perfect | Close | MissScore

  datatype Outcome = Correct | Miss

  /** Per-question record, created on the first answer. */
  datatype QuestionHistory = QuestionHistory(
    correct: nat,
    miss: nat,
    lastAnswered: Option<int>,
    lastResult: Outcome,
    consecutiveCorrect: nat,
    lastErrorType: Option<ErrorType>,
    bookmarked: bool)

  datatype TagStats = TagStats(correct: nat, miss: nat)

  datatype Title = Trainee | Surveyor | Assistant | Researcher | Doctor | Professor

  /** `total` is the optional extra field the badge check looks for. */
  datatype ExamResult = ExamResult(date: int, score: int, breakdown: map<Tag, int>, duration: int, total: Option<int>)

  datatype Profile = Profile(name: string, createdAt: int, streak: int, lastStudyDate: Option<int>, title: Title)

  datatype AppState = AppState(
    version: int,
    profile: Profile,
    history: map<string, QuestionHistory>,
    tagStats: map<Tag, TagStats>,
    examResults: seq<ExamResult>,
    minerals: map<string, int>,
    badges: seq<string>)

  /** The six quiz modes, and `ModeUnknown` for the default branch of the mode switch. */
  datatype QuizMode =
    | ModeDaily | ModeTrial | ModeLayer | ModeExamShort | ModeExamFull | ModeRepair
    | ModeUnknown(name: string)

  datatype AnswerRecord = AnswerRecord(
    questionId: string,
    tag: Tag,
    correct: bool,
    selfScore: Option<SelfScore>,
    errorType: Option<ErrorType>,
    timeSpent: int)

  /** `state.history[id]`, or `None` when the question was never answered. */
  function HistoryOf(history: map<string, QuestionHistory>, id: string): Option<QuestionHistory>
  {
    if id in history then Some(history[id]) else None
  }

  /** `state.tagStats[tag] ?? { correct: 0, miss: 0 }` */
  function StatsOf(stats: map<Tag, TagStats>, t: Tag): TagStats
  {
    if t in stats then stats[t] else TagStats(0, 0)
  }

  /** Number of questions of `s` carrying tag `t`. */
  function CountTag(s: seq<Question>, t: Tag): nat
  {
    if s == [] then 0 else (if s[0].tag == t then 1 else 0) + CountTag(s[1..], t)
  }

  /** No two positions of `s` hold questions with the same id. */
  predicate UniqueIds(s: seq<Question>)
  {
    forall i, j | 0 <= i < j < |s| :: s[i].id != s[j].id
  }

  function IdSet(s: seq<Question>): set<string>
  {
    set q | q in s :: q.id
  }
}
