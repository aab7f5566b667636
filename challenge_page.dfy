/** The challenge page's own rules: the fortune birth-date form, the quiz's
    select/submit state and per-option styling, recording a completion, the
    day-change tick and the birth-date reset when a fortune page is left. */
module ChallengePage {
  import opened Types
  import opened AppContext

  /** `/^\d{8}$/`: exactly eight characters, each an ASCII digit. */
  predicate IsBirthDateInput(s: string) {
    |s| == 8 && forall i :: 0 <= i < |s| ==> '0' <= s[i] <= '9'
  }

  /** The fortune form: the text typed so far and whether it was accepted. */
  class FortuneForm {
    var inputBirthDate: string
    var isSubmitted: bool

    /** The form starts prefilled from the stored birth date, and submitted iff one is set. */
    constructor(user: UserInfo)
      ensures isSubmitted <==> HasBirthDate(user)
      ensures inputBirthDate == if HasBirthDate(user) then user.birthDate.value else ""
    {
      inputBirthDate := if HasBirthDate(user) then user.birthDate.value else "";
      isSubmitted := HasBirthDate(user);
    }

    method Edit(text: string)
      modifies this
      ensures inputBirthDate == text && isSubmitted == old(isSubmitted)
    {
      inputBirthDate := text;
    }

    /** `handleSubmit`: an eight-digit input is stored and the form marked
        submitted; any other input only raises the alert. */
    method HandleSubmit(store: AppStore) returns (alerted: bool)
      modifies this, store
      ensures alerted <==> !IsBirthDateInput(old(inputBirthDate))
      ensures inputBirthDate == old(inputBirthDate)
      ensures !alerted ==> isSubmitted && store.userInfo == old(store.userInfo).(birthDate := Some(inputBirthDate))
      ensures alerted ==> isSubmitted == old(isSubmitted) && store.userInfo == old(store.userInfo)
      ensures store.activityLog == old(store.activityLog) && store.categoryStats == old(store.categoryStats)
      ensures store.isInitialized == old(store.isInitialized) && store.storage == old(store.storage)
    {
      if IsBirthDateInput(inputBirthDate) {
        store.SetBirthDate(inputBirthDate);
        isSubmitted := true;
        alerted := false;
      } else {
        alerted := true;
      }
    }
  }

  /** An accepted birth date is one the content hook treats as present. */
  lemma AcceptedBirthDateIsPresent(s: string, u: UserInfo)
    requires IsBirthDateInput(s)
    ensures HasBirthDate(u.(birthDate := Some(s)))
  {
  }

  /** The quiz's state: the chosen option and whether the answer was checked. */
  class QuizState {
    var selectedOption: Option<string>
    var isSubmitted: bool

    constructor()
      ensures selectedOption == None && !isSubmitted
    {
      selectedOption, isSubmitted := None, false;
    }

    /** Clicking an option selects it, unless the answer was already checked. */
    method Select(option: string)
      modifies this
      ensures isSubmitted == old(isSubmitted)
      ensures selectedOption == if old(isSubmitted) then old(selectedOption) else Some(option)
    {
      if !isSubmitted {
        selectedOption := Some(option);
      }
    }

    /** Checking the answer succeeds only with a (non-empty) option selected. */
    method HandleSubmit()
      modifies this
      ensures selectedOption == old(selectedOption)
      ensures isSubmitted == (old(isSubmitted) || (selectedOption.Some? && selectedOption.value != ""))
    {
      if selectedOption.Some? && selectedOption.value != "" {
        isSubmitted := true;
      }
    }
  }

  /** The four looks of a quiz option button. */
  datatype ButtonLook = Neutral | Correct | Wrong | Dimmed

  /** `getButtonClass(option)`. */
  function ButtonClass(option: string, answer: string, selected: Option<string>, isSubmitted: bool): (r: ButtonLook)
    ensures r == Neutral <==> !isSubmitted
    ensures r == Correct <==> isSubmitted && option == answer
    ensures r == Wrong <==> isSubmitted && option != answer && selected == Some(option)
  {
    if !isSubmitted then Neutral
    else if option == answer then Correct
    else if selected == Some(option) then Wrong
    else Dimmed
  }

  /** How many of `options` get look `look`. */
  function CountLook(options: seq<string>, answer: string, selected: Option<string>, isSubmitted: bool,
                     look: ButtonLook): nat
  {
    if options == [] then 0
    else (if ButtonClass(options[0], answer, selected, isSubmitted) == look then 1 else 0)
         + CountLook(options[1..], answer, selected, isSubmitted, look)
  }

  /** How often `x` occurs in `options`. */
  function Occurrences(options: seq<string>, x: string): nat {
    if options == [] then 0 else (if options[0] == x then 1 else 0) + Occurrences(options[1..], x)
  }

  /** After checking, the green buttons are exactly the occurrences of the
      answer, the red ones exactly the occurrences of a wrong selection, and
      all others are dimmed; before checking every button is neutral. */
  lemma {:induction false} QuizLooks(options: seq<string>, answer: string, selected: Option<string>, isSubmitted: bool)
    ensures !isSubmitted ==> CountLook(options, answer, selected, isSubmitted, Neutral) == |options|
    ensures isSubmitted ==> CountLook(options, answer, selected, isSubmitted, Correct) == Occurrences(options, answer)
    ensures isSubmitted ==>
              CountLook(options, answer, selected, isSubmitted, Wrong)
              == if selected.Some? && selected.value != answer then Occurrences(options, selected.value) else 0
    ensures isSubmitted ==> CountLook(options, answer, selected, isSubmitted, Neutral) == 0
  {
    if options != [] {
      QuizLooks(options[1..], answer, selected, isSubmitted);
    }
  }

  /** The page state: the route's category and the page's notion of today. */
  class PageState {
    const categoryKey: Option<CategoryKey>
    var today: string

    constructor(categoryKey: Option<CategoryKey>, today: string)
      ensures this.categoryKey == categoryKey && this.today == today
    {
      this.categoryKey := categoryKey;
      this.today := today;
    }

    /** The minute tick: `today` is set only when the clock's date differs,
        so afterwards it always equals the clock's date. */
    method DayTick(clockToday: string) returns (updated: bool)
      modifies this
      ensures updated <==> old(today) != clockToday
      ensures today == clockToday
    {
      updated := today != clockToday;
      if updated {
        today := clockToday;
      }
    }

    /** `handleComplete`: records a completion only with both a category and
        content; the ledger dates it by its own clock, `ledgerToday`. */
    method HandleComplete(content: Option<ChallengeContent>, ledgerToday: string, store: AppStore)
      returns (navigatedHome: bool)
      modifies store
      ensures navigatedHome <==> categoryKey.Some? && content.Some?
      ensures navigatedHome ==> store.Data() == Complete(old(store.Data()), ledgerToday, categoryKey.value, content.value)
      ensures !navigatedHome ==> store.Data() == old(store.Data())
      ensures store.isInitialized == old(store.isInitialized) && store.storage == old(store.storage)
    {
      navigatedHome := false;
      if categoryKey.Some? && content.Some? {
        store.CompleteChallenge(ledgerToday, categoryKey.value, content.value);
        navigatedHome := true;
      }
    }

    /** Leaving a fortune page clears the stored birth date to `''`. */
    method Unmount(store: AppStore)
      modifies store
      ensures categoryKey == Some(Fortune) ==> store.userInfo == old(store.userInfo).(birthDate := Some(""))
                                               && !HasBirthDate(store.userInfo)
      ensures categoryKey != Some(Fortune) ==> store.userInfo == old(store.userInfo)
      ensures store.activityLog == old(store.activityLog) && store.categoryStats == old(store.categoryStats)
      ensures store.isInitialized == old(store.isInitialized) && store.storage == old(store.storage)
    {
      if categoryKey == Some(Fortune) {
        store.SetBirthDate("");
      }
    }
  }
}
