/** The shared vocabulary of the "Today's Challenge" app: category keys, the
    per-category challenge content, activity log entries, user information and
    the persisted aggregate `AppData`. */
module Types {

  datatype Option<+T> = None | Some(value: T)

  /** The closed set of challenge categories. */
  datatype CategoryKey = Fortune | Economics | Health | Quiz | Conversation

  /** The string a category key is written as (in URLs and cache keys). */
  function KeyName(k: CategoryKey): string {
    match k
    case Fortune => "fortune"
    case Economics => "economics"
    case Health => "health"
    case Quiz => "quiz"
    case Conversation => "conversation"
  }

  /** The five key names start with five different letters. */
  lemma KeyNameInitials(a: CategoryKey, b: CategoryKey)
    requires a != b
    ensures |KeyName(a)| > 0 && |KeyName(b)| > 0 && KeyName(a)[0] != KeyName(b)[0]
  {
  }

  lemma KeyNameInjective(a: CategoryKey, b: CategoryKey)
    requires KeyName(a) == KeyName(b)
    ensures a == b
  {
    match a
    case Fortune => assert KeyName(a)[0] == 'f';
    case Economics => assert KeyName(a)[0] == 'e';
    case Health => assert KeyName(a)[0] == 'h';
    case Quiz => assert KeyName(a)[0] == 'q';
    case Conversation => assert KeyName(a)[0] == 'c';
  }

  datatype HealthStep = HealthStep(description: string, imagePrompt: string, imageUrl: Option<string>)

  datatype QuizType = MultipleChoice | ShortAnswer

  datatype LanguageContent = LanguageContent(phrase: string, translation: string, context: string,
                                             pronunciation: Option<string>)

  /** One shape per category; the ledger stores and replays it verbatim. */
  datatype ChallengeContent =
    | FortuneContent(text: string)
    | EconomicsContent(term: string, description: string)
    | HealthContent(title: string, steps: seq<HealthStep>)
    | QuizContent(question: string, options: seq<string>, answer: string, explanation: string,
                  quizType: QuizType)
    | ConversationContent(english: LanguageContent, japanese: LanguageContent)

  datatype Provider = Kakao | Google

  /** Every field of the stored user information is optional. */
  datatype UserInfo = UserInfo(birthDate: Option<string>, id: Option<string>, name: Option<string>,
                               email: Option<string>, provider: Option<Provider>,
                               profileImage: Option<string>)

  const EmptyUserInfo: UserInfo := UserInfo(None, None, None, None, None, None)

  /** `userInfo.birthDate` is truthy: present and not the empty string. */
  predicate HasBirthDate(u: UserInfo) {
    u.birthDate.Some? && u.birthDate.value != ""
  }

  /** One completed challenge; `date` is a `YYYY-MM-DD` string. */
  datatype ActivityLog = ActivityLog(date: string, categoryKey: CategoryKey, categoryName: string,
                                     content: ChallengeContent)

  /** Per-category completion counts; an absent key counts as 0. */
  type CategoryStats = map<CategoryKey, nat>

  function Stat(stats: CategoryStats, k: CategoryKey): nat {
    if k in stats then stats[k] else 0
  }

  /** The persisted aggregate. */
  datatype AppData = AppData(userInfo: UserInfo, activityLog: seq<ActivityLog>, categoryStats: CategoryStats)

  const EmptyAppData: AppData := AppData(EmptyUserInfo, [], map[])
}
