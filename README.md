# Dictionary client: search service, observer subject and App state

This project models the core of a small bilingual dictionary client. The
client looks words up in the Portuguese "Dicionário Aberto" service and, for
exact searches, in an English dictionary service. It publishes what it finds
to its observers, and the App component keeps that in its state.

The model covers three parts of the source.

- **`DictionarySubject`** (`observer.dfy`) is a class holding the list of
  observers (duplicates allowed) and the loading flag. It supports:
  - registration and removal of observers;
  - in-order notification, where an observer registered `k` times receives
    each event `k` times;
  - `setLoading` and `isLoading`.

  An `Observer` is an object that records the events it receives.
- **`DictionaryService`** (`dictionary_service.dfy`) covers:
  - `parseXMLContent`, with the lazy regular expressions modelled exactly;
  - the search-mode to endpoint mapping;
  - the per-mode reshaping of the Portuguese responses, including the second
    request of a random search and the failure fallback to an empty list;
  - the `search` method, which publishes `loading true`, the Portuguese
    result, the English result and `loading false`.

  The two remote services are oracle functions from what is requested to what
  comes back, and `search` returns the URLs it requested.
- **`App`** (`app.dfy`) covers:
  - the App's initial state;
  - the observer's `update` switch, as a function on the state, with `Replay`
    folding it over a sequence of events;
  - the blank-word guard of `searchWord`;
  - the condition for showing the related-words card.

`text.dfy` holds the JavaScript string operations the core relies on:
- `trim`, with the ECMAScript whitespace set written out;
- `toLowerCase`;
- substring search;
- global replacement of line feeds.

`types.dfy` holds the entry and event types.

Two behaviours of the code worth noting:
- A definition is trimmed first, then each line feed becomes one space, so a
  run of line feeds becomes a run of spaces and is not collapsed to one
  (`DictionaryService.NewlineExample`).
- The word of the day carries a grammatical class but no preview.

## Model

| member | source | states |
|---|---|---|
| Text.Trim | src/services/DictionaryService.ts:24-25 | The result is `s` without its maximal leading whitespace run and a trailing all-whitespace run. It neither starts nor ends with whitespace, and it is empty exactly when `s` is all whitespace (ECMAScript whitespace and line terminators). |
| Text.LeadingWhitespace | src/services/DictionaryService.ts:24-25 | The leading run that `trim` removes is all whitespace and maximal. |
| Text.TrailingWhitespace | src/services/DictionaryService.ts:24-25 | The trailing run that `trim` removes is all whitespace and maximal. |
| Text.ReplaceNewlines | src/services/DictionaryService.ts:24 | Same length as the input; each line feed becomes one space and every other character is kept. |
| Text.TrimClean | src/services/DictionaryService.ts:24-25 | Text with no whitespace at either end is left unchanged by `trim`. |
| Text.ReplaceNoNewlines | src/services/DictionaryService.ts:24 | Text without line feeds is left unchanged by the replacement. |
| Text.Lower | src/services/DictionaryService.ts:69 | `toLowerCase` keeps the length, maps each character by `LowerChar`, and leaves only lower-case characters. |
| Text.LowerIdempotent | src/services/DictionaryService.ts:69 | Lower-casing twice is the same as lower-casing once. |
| Text.IndexOf | src/services/DictionaryService.ts:20-21 | Returns the first occurrence of the pattern at or after `from`, or `None` when there is none. |
| Text.IndexOfFirst | src/services/DictionaryService.ts:20-21 | Conversely, the first occurrence at or after `from` is exactly what the search returns. |
| DictionaryService.Capture | src/services/DictionaryService.ts:20-21 | `/<open>(.*?)<close>/s` fails exactly when no `open` is followed by a non-overlapping `close`. Otherwise the capture comes from the leftmost starting match and is the shortest text followed by `close`. |
| DictionaryService.NormalizeDefinition | src/services/DictionaryService.ts:24 | A captured definition, once cleaned, contains no line feed, has no whitespace at either end, and is as long as the trimmed capture. |
| DictionaryService.ParseXmlContent | src/services/DictionaryService.ts:19-27 | A missing element yields "", never an error. The definition has no line feed. Neither field starts or ends with whitespace. What a present element yields is stated by `ParsedDefinition` and `ParsedGrammarClass`. |
| DictionaryService.CaptureIsLazyMatch | src/services/DictionaryService.ts:20-21 | Whenever `/<open>(.*?)<close>/s` matches with a given capture, `Capture` returns exactly that capture. |
| DictionaryService.ParsedDefinition | src/services/DictionaryService.ts:20-24 | When the lazy `<def>…</def>` match captures `c`, the definition is `c` trimmed with each line feed then turned into a space. |
| DictionaryService.ParsedGrammarClass | src/services/DictionaryService.ts:21-25 | When the lazy `<gramGrp>…</gramGrp>` match captures `c`, the grammatical class is `c` trimmed, its inner line feeds kept. |
| DictionaryService.CaptureAt | src/services/DictionaryService.ts:20-21 | With the first `open` at `i` and the first later `close` at `k`, the capture is exactly the text between them. |
| DictionaryService.PreviewRoundTrip | src/services/DictionaryService.ts:108-113 | Markup built as `<def>preview</def>` reads back through parseXMLContent as the cleaned preview, unless the preview itself contains `</def>`. |
| DictionaryService.NoBracketNoClose | src/services/DictionaryService.ts:111 | A preview without '<' cannot contain the closing tag. |
| DictionaryService.GramOfGrammarThenDefinition | src/services/DictionaryService.ts:21 | For a class `g` without '<', the grammar capture of `<gramGrp>g</gramGrp><def>d</def>` is `g`. |
| DictionaryService.DefOfGrammarThenDefinition | src/services/DictionaryService.ts:20 | For a class `g` and a definition `d` without '<', the definition capture of `<gramGrp>g</gramGrp><def>d</def>` is `d`. |
| DictionaryService.GrammarThenDefinition | src/services/DictionaryService.ts:19-27 | For a class `g` and a definition `d` without '<', parseXMLContent of `<gramGrp>g</gramGrp><def>d</def>` gives the cleaned `d` and the trimmed `g`. |
| DictionaryService.CleanDefinition | src/services/DictionaryService.ts:24-25 | Text with no line feed and no whitespace at either end comes through both clean-ups unchanged. |
| DictionaryService.NounExample | src/services/DictionaryService.ts:19-27 | `<gramGrp>noun</gramGrp><def>a thing</def>` parses to definition "a thing" and class "noun". |
| DictionaryService.NewlineExample | src/services/DictionaryService.ts:24-25 | Inside the definition, each line feed becomes one space ("casa\n\ngrande" gives "casa  grande"). The class keeps its line feed. |
| DictionaryService.EndpointRoundTrip | src/services/DictionaryService.ts:66-89 | The endpoint path determines the search mode and, for the five word searches, the lower-cased word. `random` and `wotd` carry no word. |
| DictionaryService.EndpointInjective | src/services/DictionaryService.ts:66-89 | Two searches hit the same endpoint exactly when their modes are equal and, for word searches, their lower-cased words are equal. |
| DictionaryService.EndpointIgnoresCase | src/services/DictionaryService.ts:69-81 | The endpoint does not depend on the word's letter case. |
| DictionaryService.Endpoint | src/services/DictionaryService.ts:66-89 | No contract of its own: the endpoint path of a search. What it computes is stated by `EndpointRoundTrip`, `EndpointInjective` and `EndpointIgnoresCase`. |
| DictionaryService.Nothing | src/services/DictionaryService.ts:119-122 | What a failed lookup yields: an empty list, of words exactly for a similar-word search. |
| DictionaryService.SearchDicionarioAberto | src/services/DictionaryService.ts:65-122 | The first request goes to the base URL plus the mode's endpoint. A second request happens exactly for a random search whose first response names a word. A failed request yields an empty list. Similar-word searches, and only they, yield a word list. |
| DictionaryService.PreviewEntries | src/services/DictionaryService.ts:107-113 | One reshaped entry per preview item. Its contract states the length; `PreviewEntriesAt` states each entry's contents. |
| DictionaryService.PreviewEntriesAt | src/services/DictionaryService.ts:107-113 | The i-th reshaped entry keeps the i-th item's word, sense and preview, has markup `<def>preview</def>` and no grammatical class. |
| DictionaryService.PreviewSearch | src/services/DictionaryService.ts:107-113 | A prefix, suffix or infix search yields one entry per item, in order. Each entry's markup reads back as the item's cleaned preview when that preview does not contain `</def>`. |
| DictionaryService.PrefixExample | src/services/DictionaryService.ts:107-113 | A prefix search for "cat" with one item previewing "cat-like" yields one entry whose markup reads back as "cat-like". |
| DictionaryService.WordOfTheDay | src/services/DictionaryService.ts:94-102 | The word of the day becomes a single entry with sense 1, the response's word and markup, and the grammatical class parsed from that markup. It makes one request. |
| DictionaryService.RandomWord | src/services/DictionaryService.ts:103-106 | A random search requests `random`, then `word/` plus the returned word (not lower-cased), and yields the second response rather than the first. |
| DictionaryService.RandomWordSecondFails | src/services/DictionaryService.ts:103-122 | When the second request of a random search fails, the search yields an empty list. |
| DictionaryService.PassThrough | src/services/DictionaryService.ts:114-118 | Exact and similar-word searches forward the response unchanged. |
| DictionaryService.Search | src/services/DictionaryService.ts:29-63 | Returns the URLs requested (`SearchRequests`). Ends with loading off and the observer list unchanged. The subject's calls are the events of `SearchTrace`, each broadcast to the list in list order. Each observer's log is extended by the trace, each event repeated once per registration. |
| DictionaryService.SearchTrace | src/services/DictionaryService.ts:29-63 | No contract of its own: the event sequence of one search. What it contains is stated by `SearchEvents` and `LoadingBracketsEverySearch`. |
| DictionaryService.SearchRequests | src/services/DictionaryService.ts:29-106 | No contract of its own: the URLs one search requests. Stated by `EnglishOnlyForNormal` and `RandomSearchRequests`, with `SearchDicionarioAberto`'s request clauses. |
| DictionaryService.EnglishResult | src/services/DictionaryService.ts:43-56 | No contract of its own: the English definitions one search publishes. Stated by `EnglishOnlyForNormal`. |
| DictionaryService.PortugueseEvents | src/services/DictionaryService.ts:36-41 | No contract of its own: the events publishing the Portuguese result. Stated by `SearchEvents`. |
| DictionaryService.PublishLoading | src/services/DictionaryService.ts:30 | `setLoading` as a step of search: sets the flag, keeps the list, and extends the calls made and each observer's log by `loading`. |
| DictionaryService.PublishPortuguese | src/services/DictionaryService.ts:36-41 | The Portuguese step of search: extends the calls made and each observer's log by `PortugueseEvents`, keeping the list and the flag. |
| DictionaryService.PublishEnglish | src/services/DictionaryService.ts:43-56 | The English step of search: requests the lower-cased word only in exact mode, and extends the calls made and each observer's log by the English result. |
| DictionaryService.LogStep | src/services/DictionaryService.ts:29-63 | A log of calls that holds a trace's broadcasts, extended by one more broadcast, holds the broadcasts of the longer trace. |
| DictionaryService.Publish | src/services/DictionaryService.ts:37-55 | One notification as a step of search: extends the calls made and each observer's log by the event, keeping the list and the flag. |
| DictionaryService.LoadingBracketsEverySearch | src/services/DictionaryService.ts:29-63 | Every search publishes 4 or 5 events. The first is `loading true` and the last is `loading false`, with no loading event in between and no `error` event, whatever the services answer. |
| DictionaryService.SearchEvents | src/services/DictionaryService.ts:34-56 | A similar-word search publishes `near` with the word list, then an empty `dicionarioAberto`. Other modes publish `dicionarioAberto` with the entries. The `english` result follows in every mode. |
| DictionaryService.EnglishOnlyForNormal | src/services/DictionaryService.ts:43-56 | Only exact searches request the English service, on the lower-cased word. Every other mode publishes an empty English result. Any failure of the English lookup, a 404 or any other, publishes an empty result. |
| DictionaryService.RandomSearchRequests | src/services/DictionaryService.ts:83-106 | A random search whose first response names a word makes exactly two requests, to `random` and then to `word/` plus that word. |
| Observer.Observer.constructor | src/patterns/Observer.ts:9-11 | A new observer has received nothing. |
| Observer.Observer.Update | src/patterns/Observer.ts:9-11 | `update` appends the event to what the observer has received. |
| Observer.StutterSnoc | src/patterns/Observer.ts:26-28 | Notifying one more event extends each observer's log by that event, repeated once per registration. |
| Observer.StutterOnce | src/patterns/Observer.ts:26-28 | An observer registered once receives exactly the notified events, in order. |
| Observer.StutterNone | src/patterns/Observer.ts:26-28 | An observer that is not registered receives nothing. |
| Observer.Without | src/patterns/Observer.ts:23 | The filtered list contains no occurrence of the removed observer. |
| Observer.WithoutCounts | src/patterns/Observer.ts:23 | Removal keeps every other observer's number of registrations and drops all of the removed one's. |
| Observer.WithoutAppend | src/patterns/Observer.ts:23 | Filtering works piece by piece, so the remaining observers keep their relative order. |
| Observer.WithoutAbsent | src/patterns/Observer.ts:23 | Removing an observer that is not registered changes nothing. |
| Observer.AddThenRemove | src/patterns/Observer.ts:18-24 | Adding a new observer and then removing it restores the list. |
| Observer.CountIsMultiplicity | src/patterns/Observer.ts:27 | The number of times `forEach` reaches an observer equals its number of registrations. |
| Observer.DictionarySubject.constructor | src/patterns/Observer.ts:15-16 | A new subject has no observers, is not loading and has made no `update` call. |
| Observer.DictionarySubject.AddObserver | src/patterns/Observer.ts:18-20 | Appends the observer to the list, duplicates included. The loading flag is unchanged and no `update` call is made. |
| Observer.DictionarySubject.RemoveObserver | src/patterns/Observer.ts:22-24 | The list becomes the old list with every occurrence of the observer filtered out. The loading flag is unchanged and no `update` call is made. |
| Observer.Broadcast | src/patterns/Observer.ts:27 | One notification makes one `update` call per list entry, the i-th call going to the i-th entry. |
| Observer.BroadcastAllSnoc | src/patterns/Observer.ts:27 | Notifying one more event appends one more broadcast, in list order, to the calls already made. |
| Observer.DictionarySubject.NotifyObservers | src/patterns/Observer.ts:26-28 | Calls `update` once per list entry, in list order: the log of calls grows by exactly the entries in order, each with the event. So each registered observer receives the event once per registration. The list, the flag and every other object are unchanged. |
| Observer.DictionarySubject.Deliver | src/patterns/Observer.ts:27 | One `update` call: appends the event to that observer's log and the pair to the log of calls, changing nothing else of the subject. |
| Observer.DictionarySubject.IsLoading | src/patterns/Observer.ts:35-37 | No contract of its own: it returns the loading flag. What it returns is stated by `SetLoading` (`IsLoading() == b`) and `Search` (not loading at the end). |
| Observer.DictionarySubject.SetLoading | src/patterns/Observer.ts:30-37 | Sets the flag, so `isLoading` returns the new value, then notifies `loading` with that value to the list entries in list order. Each observer receives it once per registration. The list is unchanged. |
| App.Update | src/App.tsx:52-70 | Each known event replaces exactly one piece of state. A missing similar-word list becomes []. `error` and unknown events change nothing. The query word and mode are never touched. |
| App.Initial | src/App.tsx:40-45 | No contract of its own: the state the App mounts with. Stated by `InitialIsIdle`. |
| App.SearchAllowed | src/App.tsx:83 | No contract of its own: the guard of searchWord. Stated by `GuardRefusesOnlyBlankWords`. |
| App.ShowsRelatedCard | src/App.tsx:103 | No contract of its own: the condition for the related-words card. Stated by `InitialIsIdle` and `RelatedCardAfterSearch`. |
| App.Replay | src/App.tsx:52-70 | No contract of its own: the App's state after receiving a sequence of events. Stated by `ReplayAppend`, `ReplaySnoc`, `ReplayRepeat` and `ReplayStutter`. |
| App.InitialIsIdle | src/App.tsx:40-45 | The App mounts with no word, in exact mode, with no results, not loading, and without the related-words card. |
| App.GuardRefusesOnlyBlankWords | src/App.tsx:83-86 | A search runs exactly when the word has a non-whitespace character or the mode is random or word of the day. |
| App.SearchWord | src/App.tsx:82-88 | A refused search requests nothing, makes no `update` call and leaves the flag. An allowed one behaves exactly as the service's search, on the untrimmed word. |
| App.UpdateIdempotent | src/App.tsx:52-70 | Receiving the same event twice in a row has the same effect as receiving it once. |
| App.LastWriteWins | src/App.tsx:52-70 | Of two events for the same piece of state, the later one wins. |
| App.IndependentEventsCommute | src/App.tsx:52-70 | Events for different pieces of state commute. |
| App.ReplayAppend | src/App.tsx:52-70 | Receiving `a` and then `b` is the same as receiving `a + b`. |
| App.ReplaySnoc | src/App.tsx:52-70 | Receiving one more event is one more `update`. |
| App.ReplayRepeat | src/App.tsx:52-70 | An event received several times in a row acts as one. |
| App.ReplayStutter | src/App.tsx:52-74 | An App observer registered several times ends in the same state as one registered once. |
| App.SearchOutcome | src/App.tsx:52-70 | After a search the App is not loading, the query is unchanged, and it shows the published English and Portuguese results. Its similar-word list changes only in similar-word mode. |
| App.ObserverAfterSearch | src/App.tsx:74 | However many times the App's observer is registered, it ends a search in the same state. |
| App.RelatedCardAfterSearch | src/App.tsx:103-109 | After a search, the related-words card shows exactly when the mode is similar-word and some similar word came back. |

## Left out

- HTTP requests (axios) are oracle functions from the endpoint, or the lower-cased word, to a decoded body or a failure. Timing, headers and URL encoding are not modelled.
- Response bodies are typed by endpoint. A body of another shape counts as a failure of that lookup. In JavaScript it would sometimes be forwarded untyped, for example a normal search answered with a non-list.
- A 404 and any other failure of the English lookup publish the same empty result; the difference in logging is not modelled. All `console.error` calls and the `alert` of a refused search are left out.
- An observer that throws, and the outer `catch` of `search` that publishes `error`, are not modelled. No modelled observer throws, so the outer `catch` is unreachable, and `LoadingBracketsEverySearch` proves that no `error` event is published.
- Overlapping searches and notifications made from inside `update` are left out. The model runs one search at a time. `await` points are sequential steps.
- The subject's `deliveries` log, which records every `update` call in order, is ghost state added for the proofs; the source keeps no such log.
- `DictionaryService.getInstance` (the singleton) is left out. `Search` takes the subject it publishes through as a parameter instead of inheriting from it.
- `Text.Lower` lower-cases ASCII and Latin-1 capitals only. Other Unicode case mappings are left out.
- Strings are sequences of Unicode characters rather than UTF-16 code units.
- React rendering is left out, apart from the condition for showing the related-words card. So are the components, the styling, and the `useEffect` registration lifecycle; the registrations are what `AddObserver` and `RemoveObserver` model.
- The `near` event with a missing list is handled by `App.Update`, but the modelled service never publishes one: bodies are typed, so a `null` body forwarded by the near branch (src/services/DictionaryService.ts:114-115) is not represented.
