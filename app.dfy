/** The App component's logic: its state, the observer's reaction to each
    event, and the guard in front of a search. Rendering is not modelled
    beyond the condition for showing the related-words card. */
module App {
  import opened Wrappers
  import opened Text
  import opened DictionaryTypes
  import opened Observer
  import opened DictionaryService

  /** The App's six pieces of state. */
  datatype AppState = AppState(word: string, searchType: SearchType,
                               definitions: seq<DictionaryEntry>,
                               dicionarioAbertoDefinitions: seq<DicionarioAbertoEntry>,
                               nearWords: seq<string>, loading: bool)

  /** The state the App mounts with. */
  const Initial := AppState("", Normal, [], [], [], false)

  /** The observer's `update`: each known event replaces one piece of
      state wholesale; `error` and unknown events change nothing. */
  function Update(s: AppState, e: Event): (t: AppState)
    ensures t.word == s.word && t.searchType == s.searchType
    ensures t.loading == if e.Loading? then e.value else s.loading
    ensures t.definitions == if e.English? then e.definitions else s.definitions
    ensures t.dicionarioAbertoDefinitions == if e.DicionarioAberto? then e.entries else s.dicionarioAbertoDefinitions
    ensures t.nearWords == if e.NearWords? then (if e.words.Some? then e.words.value else []) else s.nearWords
  {
    match e
    case Loading(b) => s.(loading := b)
    case English(definitions) => s.(definitions := definitions)
    case DicionarioAberto(entries) => s.(dicionarioAbertoDefinitions := entries)
    case NearWords(words) => s.(nearWords := if words.Some? then words.value else [])
    case Error(_) => s
    case Other(_) => s
  }

  /** The state after the observer has received `events` in order. */
  function Replay(s: AppState, events: seq<Event>): AppState
    decreases |events|
  {
    if events == [] then s else Replay(Update(s, events[0]), events[1..])
  }

  /** searchWord's guard: a blank word is refused, except by the two
      modes that take no word. */
  predicate SearchAllowed(word: string, mode: SearchType) {
    Trim(word) != "" || mode == Random || mode == Wotd
  }

  /** The standalone related-words card is shown. */
  predicate ShowsRelatedCard(s: AppState) {
    |s.nearWords| > 0 && s.searchType == Near
  }

  /** searchWord: runs the search for the current word and mode, unless
      the guard refuses it, in which case nothing happens. */
  method SearchWord(subject: DictionarySubject, s: AppState,
                    portuguese: string -> Fetch<Body>, english: string -> Fetch<seq<DictionaryEntry>>)
    returns (requests: seq<string>)
    modifies subject, set o | o in subject.observers
    ensures subject.observers == old(subject.observers)
    ensures !SearchAllowed(s.word, s.searchType) ==>
              && requests == []
              && subject.loading == old(subject.loading)
              && subject.deliveries == old(subject.deliveries)
              && forall o :: o in subject.observers ==> o.received == old(o.received)
    ensures SearchAllowed(s.word, s.searchType) ==>
              && requests == SearchRequests(s.word, s.searchType, portuguese)
              && !subject.IsLoading()
              && subject.deliveries == old(subject.deliveries)
                   + BroadcastAll(subject.observers, SearchTrace(s.word, s.searchType, portuguese, english))
              && forall o :: o in subject.observers ==>
                   o.received == old(o.received)
                                 + Stutter(SearchTrace(s.word, s.searchType, portuguese, english),
                                           multiset(subject.observers)[o])
  {
    if !SearchAllowed(s.word, s.searchType) {
      // The user is alerted; no search is made.
      return [];
    }
    requests := Search(subject, s.word, s.searchType, portuguese, english);
  }

  // ---------------------------------------------------------------------
  // Properties

  /** The App mounts idle: no word, normal mode, no results, not loading,
      and no related-words card. */
  lemma InitialIsIdle()
    ensures Initial.word == "" && Initial.searchType == Normal
    ensures Initial.definitions == [] && Initial.dicionarioAbertoDefinitions == [] && Initial.nearWords == []
    ensures !Initial.loading && !ShowsRelatedCard(Initial)
  {
  }

  /** Only the guard's two exceptions search with a blank word; any word
      with a non-whitespace character is searched in every mode. */
  lemma GuardRefusesOnlyBlankWords(word: string, mode: SearchType)
    ensures SearchAllowed(word, mode) <==> !AllWhitespace(word) || mode == Random || mode == Wotd
  {
  }

  /** Receiving the same event twice is the same as receiving it once. */
  lemma UpdateIdempotent(s: AppState, e: Event)
    ensures Update(Update(s, e), e) == Update(s, e)
  {
  }

  /** Which piece of state an event replaces (0 for none). */
  function Target(e: Event): nat {
    match e
    case Loading(_) => 1
    case English(_) => 2
    case DicionarioAberto(_) => 3
    case NearWords(_) => 4
    case Error(_) => 0
    case Other(_) => 0
  }

  /** Results replace rather than merge: of two events for the same piece
      of state, the later one wins. */
  lemma LastWriteWins(s: AppState, e1: Event, e2: Event)
    requires Target(e1) == Target(e2) != 0
    ensures Update(Update(s, e1), e2) == Update(s, e2)
  {
  }

  /** Events for different pieces of state do not interfere. */
  lemma IndependentEventsCommute(s: AppState, e1: Event, e2: Event)
    requires Target(e1) != Target(e2)
    ensures Update(Update(s, e1), e2) == Update(Update(s, e2), e1)
  {
  }

  lemma {:induction false} ReplayAppend(s: AppState, a: seq<Event>, b: seq<Event>)
    ensures Replay(s, a + b) == Replay(Replay(s, a), b)
    decreases |a|
  {
    if a != [] {
      assert (a + b)[0] == a[0] && (a + b)[1..] == a[1..] + b;
      ReplayAppend(Update(s, a[0]), a[1..], b);
    } else {
      assert a + b == b;
    }
  }

  /** Receiving one more event is one more update. */
  lemma ReplaySnoc(s: AppState, events: seq<Event>, e: Event)
    ensures Replay(s, events + [e]) == Update(Replay(s, events), e)
  {
    ReplayAppend(s, events, [e]);
    assert Replay(Replay(s, events), [e]) == Replay(Update(Replay(s, events), e), []);
  }

  /** An event delivered several times in a row acts as one delivery. */
  lemma {:induction false} ReplayRepeat(s: AppState, e: Event, n: nat)
    requires n >= 1
    ensures Replay(s, Repeat(e, n)) == Update(s, e)
  {
    ReplayAppend(s, Repeat(e, n - 1), [e]);
    if n > 1 {
      ReplayRepeat(s, e, n - 1);
      UpdateIdempotent(s, e);
    }
  }

  /** An App observer registered several times ends in the same state as
      one registered once. */
  lemma {:induction false} ReplayStutter(s: AppState, t: seq<Event>, n: nat)
    requires n >= 1
    ensures Replay(s, Stutter(t, n)) == Replay(s, t)
  {
    if t != [] {
      var init, last := t[..|t| - 1], t[|t| - 1];
      assert t == init + [last];
      StutterSnoc(init, last, n);
      ReplayAppend(s, Stutter(init, n), Repeat(last, n));
      ReplayStutter(s, init, n);
      ReplayRepeat(Replay(s, init), last, n);
      ReplaySnoc(s, init, last);
    }
  }

  /** The App's state after a search: not loading, the query unchanged,
      the English and Portuguese results as published, and the similar
      words replaced only by a similar-word search. */
  lemma SearchOutcome(s: AppState, word: string, mode: SearchType,
                      portuguese: string -> Fetch<Body>, english: string -> Fetch<seq<DictionaryEntry>>)
    ensures var t := Replay(s, SearchTrace(word, mode, portuguese, english));
            var found := SearchDicionarioAberto(word, mode, portuguese).found;
            && !t.loading
            && t.word == s.word && t.searchType == s.searchType
            && t.definitions == EnglishResult(word, mode, english)
            && t.dicionarioAbertoDefinitions == (if mode == Near then [] else found.entries)
            && t.nearWords == (if mode == Near then found.words else s.nearWords)
  {
    var trace := SearchTrace(word, mode, portuguese, english);
    SearchEvents(word, mode, portuguese, english);
    var s1 := Update(s, trace[0]);
    assert Replay(s, trace) == Replay(s1, trace[1..]);
    var s2 := Update(s1, trace[1]);
    assert Replay(s1, trace[1..]) == Replay(s2, trace[2..]);
    var s3 := Update(s2, trace[2]);
    assert Replay(s2, trace[2..]) == Replay(s3, trace[3..]);
    var s4 := Update(s3, trace[3]);
    assert Replay(s3, trace[3..]) == Replay(s4, trace[4..]);
    if mode == Near {
      var s5 := Update(s4, trace[4]);
      assert Replay(s4, trace[4..]) == Replay(s5, trace[5..]);
      assert trace[5..] == [];
    } else {
      assert trace[4..] == [];
    }
  }

  /** Each registered App observer ends a search in the state above,
      however many times it is registered. */
  lemma ObserverAfterSearch(s: AppState, word: string, mode: SearchType,
                            portuguese: string -> Fetch<Body>, english: string -> Fetch<seq<DictionaryEntry>>, n: nat)
    requires n >= 1
    ensures Replay(s, Stutter(SearchTrace(word, mode, portuguese, english), n))
            == Replay(s, SearchTrace(word, mode, portuguese, english))
  {
    ReplayStutter(s, SearchTrace(word, mode, portuguese, english), n);
  }

  /** After a similar-word search in similar-word mode the related-words
      card is shown exactly when some word came back; after a search in
      any other mode it is not shown. */
  lemma RelatedCardAfterSearch(s: AppState, portuguese: string -> Fetch<Body>,
                               english: string -> Fetch<seq<DictionaryEntry>>)
    ensures var t := Replay(s, SearchTrace(s.word, s.searchType, portuguese, english));
            var found := SearchDicionarioAberto(s.word, s.searchType, portuguese).found;
            ShowsRelatedCard(t) <==> s.searchType == Near && |found.words| > 0
  {
    SearchOutcome(s, s.word, s.searchType, portuguese, english);
  }
}
