/** The challenge-content hook: `fetchContent` picks a session-cache key for
    (date, category), adding the birth date for fortune, drops the legacy
    un-suffixed fortune key, serves a cache hit, and otherwise asks the content
    service and caches a successful answer. The session store is a map from
    key to content (its JSON round trip is the identity); the generative
    service itself is an oracle whose answer is a parameter. */
module ContentCache {
  import opened Types

  const CACHE_PREFIX: string := "challengeCache_"

  /** The un-suffixed fortune key of earlier versions, removed before each fortune fetch. */
  function LegacyFortuneKey(date: string): string {
    CACHE_PREFIX + date + "_" + KeyName(Fortune)
  }

  /** The cache key: fortune keys carry `_<birthDate>` (or `_no_birthdate`), other keys do not. */
  function CacheKey(date: string, key: CategoryKey, user: UserInfo): string {
    if key == Fortune then
      CACHE_PREFIX + date + "_" + KeyName(key) + "_" + (if HasBirthDate(user) then user.birthDate.value else "no_birthdate")
    else CACHE_PREFIX + date + "_" + KeyName(key)
  }

  /** Different birth dates give different fortune keys for the same date. */
  lemma FortuneKeySeparatesBirthDates(date: string, u1: UserInfo, u2: UserInfo)
    requires HasBirthDate(u1) && HasBirthDate(u2)
    ensures CacheKey(date, Fortune, u1) == CacheKey(date, Fortune, u2) <==> u1.birthDate == u2.birthDate
  {
    var p := CACHE_PREFIX + date + "_" + KeyName(Fortune) + "_";
    var b1, b2 := u1.birthDate.value, u2.birthDate.value;
    if CacheKey(date, Fortune, u1) == CacheKey(date, Fortune, u2) {
      assert p + b1 == p + b2;
      assert b1 == (p + b1)[|p|..];
      assert b2 == (p + b2)[|p|..];
    }
  }

  /** Keys of other categories do not depend on the user. */
  lemma OtherKeysIgnoreBirthDate(date: string, key: CategoryKey, u1: UserInfo, u2: UserInfo)
    requires key != Fortune
    ensures CacheKey(date, key, u1) == CacheKey(date, key, u2)
  {
  }

  /** Different categories never share a cache key for the same date and user. */
  lemma CacheKeysSeparateCategories(date: string, k1: CategoryKey, k2: CategoryKey, user: UserInfo)
    requires k1 != k2
    ensures CacheKey(date, k1, user) != CacheKey(date, k2, user)
  {
    var n := |CACHE_PREFIX + date + "_"|;
    assert CacheKey(date, k1, user)[n] == KeyName(k1)[0];
    assert CacheKey(date, k2, user)[n] == KeyName(k2)[0];
    KeyNameInitials(k1, k2);
  }

  /** Removing the legacy key never removes a current fortune key. */
  lemma LegacyKeyIsNotCurrent(date: string, user: UserInfo)
    ensures LegacyFortuneKey(date) != CacheKey(date, Fortune, user)
  {
    assert |LegacyFortuneKey(date)| < |CacheKey(date, Fortune, user)|;
  }

  /** What the content service does when called: returns content or null, or throws. */
  datatype ServiceOutcome = Returned(content: Option<ChallengeContent>) | Threw(apiKeyMissing: bool)

  /** The category's fetcher table of the content service as written: it has
      entries for fortune, economics, health, quiz and `language`, none for conversation. */
  predicate HasFetcherAsWritten(key: CategoryKey) {
    key != Conversation
  }

  /** `getChallengeContentForDate` as written: a category without a fetcher
      answers null, fortune without a birth date answers null, otherwise the
      fetcher's own outcome. */
  function DispatchAsWritten(key: CategoryKey, user: UserInfo, fetcher: ServiceOutcome): ServiceOutcome {
    if !HasFetcherAsWritten(key) then Returned(None)
    else if key == Fortune && !HasBirthDate(user) then Returned(None)
    else fetcher
  }

  /** As written, conversation content can never be obtained, whatever its fetcher would do. */
  lemma ConversationNeverFetchedAsWritten(user: UserInfo, fetcher: ServiceOutcome)
    ensures DispatchAsWritten(Conversation, user, fetcher) == Returned(None)
  {
  }

  /** The dispatch with the conversation fetcher registered under its own key:
      it differs from the dispatch as written only on conversation, which now
      reaches its fetcher. */
  function Dispatch(key: CategoryKey, user: UserInfo, fetcher: ServiceOutcome): (r: ServiceOutcome)
    ensures key != Conversation ==> r == DispatchAsWritten(key, user, fetcher)
    ensures key == Conversation ==> r == fetcher
  {
    if key == Fortune && !HasBirthDate(user) then Returned(None) else fetcher
  }

  /** Every category reaches its fetcher once the fortune birth-date gate is passed. */
  lemma DispatchReachesEveryFetcher(key: CategoryKey, user: UserInfo, c: ChallengeContent)
    requires key != Fortune || HasBirthDate(user)
    ensures Dispatch(key, user, Returned(Some(c))) == Returned(Some(c))
  {
  }

  /** The error messages the hook sets. */
  datatype FetchError =
    | LoadFailed        // the service answered null
    | ApiKeyMissing     // the service threw an error mentioning the API key
    | LoadFailedRetry   // the service threw any other error

  /** The hook's state and the browser session store it uses. */
  class ContentLoader {
    var content: Option<ChallengeContent>
    var isLoading: bool
    var error: Option<FetchError>
    var session: map<string, ChallengeContent>

    constructor(session0: map<string, ChallengeContent>)
      ensures content == None && !isLoading && error == None && session == session0
    {
      content, isLoading, error, session := None, false, None, session0;
    }

    /** `fetchContent` for the route's `categoryKey` and the page's `date`.
        `fetcher` is what the category's fetcher would do if called (the
        content service routes through `DispatchAsWritten`, so conversation
        answers null), `sessionWriteSucceeds` whether caching the answer
        succeeds, and `called` tells whether the service was asked. */
    method FetchContent(categoryKey: Option<CategoryKey>, date: string, user: UserInfo, fetcher: ServiceOutcome,
                        sessionWriteSucceeds: bool)
      returns (called: bool)
      modifies this
      // No category: nothing happens.
      ensures categoryKey.None? ==>
                !called && content == old(content) && isLoading == old(isLoading)
                && error == old(error) && session == old(session)
      // Fortune without a birth date: cleared, and neither the cache nor the service is touched.
      ensures categoryKey == Some(Fortune) && !HasBirthDate(user) ==>
                !called && content == None && !isLoading && error == None && session == old(session)
      ensures categoryKey.Some? && (categoryKey.value != Fortune || HasBirthDate(user)) ==>
                var k := categoryKey.value;
                var key := CacheKey(date, k, user);
                // for fortune, exactly the legacy key is dropped first
                var s0 := if k == Fortune then old(session) - {LegacyFortuneKey(date)} else old(session);
                var outcome := DispatchAsWritten(k, user, fetcher);
                && !isLoading
                && called == (key !in s0)
                // a hit: the stored content, and the service is not called
                && (key in s0 ==> content == Some(s0[key]) && error == None && session == s0)
                // a successful fetch is shown and stored under the same key; if
                // the store refuses the write, it is shown with the retry error
                && (key !in s0 && outcome.Returned? && outcome.content.Some? && sessionWriteSucceeds ==>
                      content == outcome.content && error == None && session == s0[key := outcome.content.value])
                && (key !in s0 && outcome.Returned? && outcome.content.Some? && !sessionWriteSucceeds ==>
                      content == outcome.content && error == Some(LoadFailedRetry) && session == s0)
                // a null answer or a thrown error sets the error and writes nothing
                && (key !in s0 && outcome.Returned? && outcome.content.None? ==>
                      content == old(content) && error == Some(LoadFailed) && session == s0)
                && (key !in s0 && outcome.Threw? ==>
                      content == old(content) && session == s0
                      && error == Some(if outcome.apiKeyMissing then ApiKeyMissing else LoadFailedRetry))
    {
      called := false;
      if categoryKey.None? {
        return;
      }
      var k := categoryKey.value;
      if k == Fortune && !HasBirthDate(user) {
        content := None;
        isLoading := false;
        error := None;
        return;
      }
      if k == Fortune && HasBirthDate(user) {
        session := session - {LegacyFortuneKey(date)};
      }
      isLoading := true;
      error := None;
      var key := CacheKey(date, k, user);
      if key in session {
        content := Some(session[key]);
        isLoading := false;
        return;
      }
      called := true;
      var outcome := DispatchAsWritten(k, user, fetcher);
      match outcome {
        case Returned(Some(c)) =>
          content := Some(c);
          if sessionWriteSucceeds {
            session := session[key := c];
          } else {
            error := Some(LoadFailedRetry);
          }
        case Returned(None) =>
          error := Some(LoadFailed);
        case Threw(apiKeyMissing) =>
          error := Some(if apiKeyMissing then ApiKeyMissing else LoadFailedRetry);
      }
      isLoading := false;
    }
  }

  /** A fetch followed at once by a second one for the same category, date
      and user (the same birth date, for fortune), for a category the service
      has a fetcher for: if the first one fetched and cached successfully, the
      second is a cache hit that serves the same content without calling the
      service. */
  method RefetchIsCacheHit(loader: ContentLoader, k: CategoryKey, date: string, user: UserInfo,
                           c: ChallengeContent, anyFetcher: ServiceOutcome, anyWrite: bool)
    returns (firstCalled: bool, secondCalled: bool)
    requires HasFetcherAsWritten(k)
    requires k != Fortune || HasBirthDate(user)
    modifies loader
    ensures !secondCalled && !loader.isLoading && loader.error == None && loader.content.Some?
    ensures firstCalled ==> loader.content == Some(c)
  {
    firstCalled := loader.FetchContent(Some(k), date, user, Returned(Some(c)), true);
    LegacyKeyIsNotCurrent(date, user);
    secondCalled := loader.FetchContent(Some(k), date, user, anyFetcher, anyWrite);
  }

  /** As written, a conversation fetch that misses the cache always ends with
      the load-failed error, whatever the fetcher would return, and caches
      nothing; so a refetch misses again. */
  method ConversationMissFails(loader: ContentLoader, date: string, user: UserInfo,
                               fetcher: ServiceOutcome, write: bool)
    returns (called: bool)
    requires CacheKey(date, Conversation, user) !in loader.session
    modifies loader
    ensures called && loader.error == Some(LoadFailed) && !loader.isLoading
    ensures loader.session == old(loader.session) && loader.content == old(loader.content)
    ensures CacheKey(date, Conversation, user) !in loader.session
  {
    called := loader.FetchContent(Some(Conversation), date, user, fetcher, write);
  }
}
