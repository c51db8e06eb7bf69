/** The search service: markup extraction, the mode-to-endpoint mapping,
    the per-mode reshaping of Dicionário Aberto responses, and the events
    one search publishes. The two remote services are oracles: functions
    from what is requested to what comes back. */
module DictionaryService {
  import opened Wrappers
  import opened Text
  import opened DictionaryTypes
  import opened Observer

  const DicionarioAbertoBase := "https://api.dicionario-aberto.net/"
  const DictionaryApiBase := "https://api.dictionaryapi.dev/api/v2/entries/en/"

  /** The outcome of one HTTP GET: the decoded body, or a failure carrying
      the HTTP status when the server answered at all. */
  datatype Fetch<T> = Fetched(data: T) | Failed(status: Option<int>)

  /** One item of a prefix, suffix or infix search. */
  datatype PreviewItem = PreviewItem(word: string, sense: int, preview: string)

  /** The bodies the Dicionário Aberto endpoints answer with, one shape per
      kind of endpoint. */
  datatype Body =
    | Entries(entries: seq<DicionarioAbertoEntry>)  // word/<w>
    | Previews(items: seq<PreviewItem>)              // prefix/<w>, suffix/<w>, infix/<w>
    | Words(words: seq<string>)                      // near/<w>
    | Record(word: string, xml: string)              // random, wotd

  /** What searchDicionarioAberto returns, with the URLs it requested. */
  datatype Lookup = Lookup(found: Body, requests: seq<string>)

  datatype Parsed = Parsed(definition: string, grammarClass: string)

  // ---------------------------------------------------------------------
  // parseXMLContent

  /** The regular expression `/<open>(.*?)<close>/s` matches at `i` with
      capture `c`: `i` is the leftmost position where some match starts,
      and `c` is the shortest text there that is followed by `close`. */
  ghost predicate LazyMatch(s: string, open: string, close: string, i: int, c: string) {
    && OccursAt(s, open, i)
    && OccursAt(s, close, i + |open| + |c|)
    && s[i + |open|..i + |open| + |c|] == c
    && (forall k :: i + |open| <= k < i + |open| + |c| ==> !OccursAt(s, close, k))
    && (forall j, k :: 0 <= j < i && j + |open| <= k ==> !(OccursAt(s, open, j) && OccursAt(s, close, k)))
  }

  /** Some `open` is followed, later and without overlapping it, by a `close`. */
  ghost predicate HasPair(s: string, open: string, close: string) {
    exists i, k :: i + |open| <= k && OccursAt(s, open, i) && OccursAt(s, close, k)
  }

  /** The capture group of `/<open>(.*?)<close>/s`, or `None` when the
      expression does not match: the text between the first `open` and the
      first `close` after it. */
  function Capture(s: string, open: string, close: string): (r: Option<string>)
    ensures r.None? <==> !HasPair(s, open, close)
    ensures r.Some? ==> exists i :: LazyMatch(s, open, close, i, r.value)
  {
    match IndexOf(s, open, 0)
    case None => None
    case Some(i) =>
      match IndexOf(s, close, i + |open|)
      case None =>
        assert forall j, k :: j + |open| <= k && OccursAt(s, open, j) ==> !OccursAt(s, close, k) by {
          forall j, k | j + |open| <= k && OccursAt(s, open, j) ensures !OccursAt(s, close, k) {
            assert i <= j;
          }
        }
        None
      case Some(k) =>
        var c := s[i + |open|..k];
        assert LazyMatch(s, open, close, i, c);
        Some(c)
  }

  /** How a captured definition is cleaned up: trimmed, then each line
      feed replaced by one space. */
  function NormalizeDefinition(c: string): (r: string)
    ensures '\n' !in r
    ensures r == [] || (!IsWhitespace(r[0]) && !IsWhitespace(r[|r| - 1]))
    ensures |r| == |Trim(c)|
  {
    var t := Trim(c);
    var r := ReplaceNewlines(t);
    assert forall i :: 0 <= i < |r| ==> r[i] != '\n';
    r
  }

  /** parseXMLContent: the definition and the grammatical class of a
      Dicionário Aberto markup fragment; a missing element yields "". */
  function ParseXmlContent(xml: string): (r: Parsed)
    ensures !HasPair(xml, "<def>", "</def>") ==> r.definition == ""
    ensures !HasPair(xml, "<gramGrp>", "</gramGrp>") ==> r.grammarClass == ""
    ensures '\n' !in r.definition
    ensures r.definition == [] || (!IsWhitespace(r.definition[0]) && !IsWhitespace(r.definition[|r.definition| - 1]))
    ensures r.grammarClass == [] || (!IsWhitespace(r.grammarClass[0]) && !IsWhitespace(r.grammarClass[|r.grammarClass| - 1]))
  {
    var def := Capture(xml, "<def>", "</def>");
    var gram := Capture(xml, "<gramGrp>", "</gramGrp>");
    Parsed(if def.Some? then NormalizeDefinition(def.value) else "",
           if gram.Some? then Trim(gram.value) else "")
  }

  // ---------------------------------------------------------------------
  // searchDicionarioAberto

  /** The endpoint path for a search: the five word searches put the
      lower-cased word after their path, `random` and `wotd` take none. */
  function Endpoint(word: string, mode: SearchType): string {
    match mode
    case Normal => "word/" + Lower(word)
    case Prefix => "prefix/" + Lower(word)
    case Suffix => "suffix/" + Lower(word)
    case Infix => "infix/" + Lower(word)
    case Near => "near/" + Lower(word)
    case Random => "random"
    case Wotd => "wotd"
  }

  /** Reads an endpoint path back: the mode it selects and the word it
      carries ("" for `random` and `wotd`). */
  function ParseEndpoint(path: string): Option<(SearchType, string)> {
    if path == "random" then Some((Random, ""))
    else if path == "wotd" then Some((Wotd, ""))
    else if |path| >= 5 && path[..5] == "word/" then Some((Normal, path[5..]))
    else if |path| >= 7 && path[..7] == "prefix/" then Some((Prefix, path[7..]))
    else if |path| >= 7 && path[..7] == "suffix/" then Some((Suffix, path[7..]))
    else if |path| >= 6 && path[..6] == "infix/" then Some((Infix, path[6..]))
    else if |path| >= 5 && path[..5] == "near/" then Some((Near, path[5..]))
    else None
  }

  predicate TakesWord(mode: SearchType) {
    mode != Random && mode != Wotd
  }

  /** Reshapes prefix, suffix and infix items into entries whose markup is
      a single `<def>` element holding the preview. */
  function PreviewEntries(items: seq<PreviewItem>): (r: seq<DicionarioAbertoEntry>)
    ensures |r| == |items|
  {
    if items == [] then []
    else
      var item := items[0];
      [DicionarioAbertoEntry(item.word, item.sense, "<def>" + item.preview + "</def>", Some(item.preview), None)]
      + PreviewEntries(items[1..])
  }

  /** What the lookup yields when it fails: an empty list. */
  function Nothing(mode: SearchType): (r: Body)
    ensures r.Words? <==> mode == Near
    ensures r == Words([]) || r == Entries([])
  {
    if mode == Near then Words([]) else Entries([])
  }

  /** searchDicionarioAberto: one request to the mode's endpoint (two for
      `random`), reshaped per mode; any failure yields an empty list. A
      body of a shape the mode does not read counts as a failure. */
  function SearchDicionarioAberto(word: string, mode: SearchType, portuguese: string -> Fetch<Body>): (r: Lookup)
    ensures r.found.Words? <==> mode == Near
    ensures r.found.Entries? || r.found.Words?
    ensures 1 <= |r.requests| <= 2 && r.requests[0] == DicionarioAbertoBase + Endpoint(word, mode)
    ensures |r.requests| == 2 <==> mode == Random && portuguese("random").Fetched? && portuguese("random").data.Record?
    ensures portuguese(Endpoint(word, mode)).Failed? ==> r.found == Nothing(mode)
  {
    var endpoint := Endpoint(word, mode);
    var request := DicionarioAbertoBase + endpoint;
    var fail := Lookup(Nothing(mode), [request]);
    match portuguese(endpoint)
    case Failed(_) => fail
    case Fetched(data) =>
      match mode
      case Wotd =>
        if data.Record? then
          var grammarClass := ParseXmlContent(data.xml).grammarClass;
          Lookup(Entries([DicionarioAbertoEntry(data.word, 1, data.xml, None, Some(grammarClass))]), [request])
        else fail
      case Random =>
        if data.Record? then
          var second := "word/" + data.word;
          var requests := [request, DicionarioAbertoBase + second];
          match portuguese(second)
          case Fetched(Entries(entries)) => Lookup(Entries(entries), requests)
          case _ => Lookup(Nothing(mode), requests)
        else fail
      case Prefix | Suffix | Infix =>
        if data.Previews? then Lookup(Entries(PreviewEntries(data.items)), [request]) else fail
      case Near =>
        if data.Words? then Lookup(data, [request]) else fail
      case Normal =>
        if data.Entries? then Lookup(data, [request]) else fail
  }

  // ---------------------------------------------------------------------
  // search

  /** The English definitions published for a search: the lookup result
      for `normal` searches when it succeeds, otherwise nothing. */
  function EnglishResult(word: string, mode: SearchType, english: string -> Fetch<seq<DictionaryEntry>>): seq<DictionaryEntry> {
    if mode == Normal then
      match english(Lower(word))
      case Fetched(definitions) => definitions
      case Failed(_) => []
    else []
  }

  /** The events publishing the Portuguese result: `near` and an empty
      `dicionarioAberto` list for similar-word searches, otherwise the
      `dicionarioAberto` list alone. */
  function PortugueseEvents(mode: SearchType, found: Body): seq<Event>
    requires found.Words? <==> mode == Near
    requires found.Entries? || found.Words?
  {
    if mode == Near then [NearWords(Some(found.words)), DicionarioAberto([])]
    else [DicionarioAberto(found.entries)]
  }

  /** The events one search publishes, in order. */
  function SearchTrace(word: string, mode: SearchType, portuguese: string -> Fetch<Body>,
                       english: string -> Fetch<seq<DictionaryEntry>>): seq<Event>
  {
    var found := SearchDicionarioAberto(word, mode, portuguese).found;
    [Loading(true)] + PortugueseEvents(mode, found) + [English(EnglishResult(word, mode, english)), Loading(false)]
  }

  /** The URLs one search requests, in order. */
  function SearchRequests(word: string, mode: SearchType, portuguese: string -> Fetch<Body>): seq<string> {
    SearchDicionarioAberto(word, mode, portuguese).requests
    + (if mode == Normal then [DictionaryApiBase + Lower(word)] else [])
  }

  /** Since the snapshot `before` of the observers' logs and `log` of the
      subject's deliveries were taken, the subject has notified the events
      `sent`: every list entry, in list order, got each event, so every
      registered observer received each event once per registration. */
  ghost predicate Delivered(subject: DictionarySubject, before: map<Observer, seq<Event>>,
                            log: seq<(Observer, Event)>, sent: seq<Event>)
    reads subject, set o | o in subject.observers
  {
    && subject.deliveries == log + BroadcastAll(subject.observers, sent)
    && forall o :: o in subject.observers ==>
         o in before && o.received == before[o] + Stutter(sent, multiset(subject.observers)[o])
  }

  /** One more notification extends the subject's log by one broadcast. */
  lemma LogStep(obs: seq<Observer>, log: seq<(Observer, Event)>, sent: seq<Event>, e: Event,
                logged: seq<(Observer, Event)>, now: seq<(Observer, Event)>)
    requires logged == log + BroadcastAll(obs, sent) && now == logged + Broadcast(obs, e)
    ensures now == log + BroadcastAll(obs, sent + [e])
  {
    BroadcastAllSnoc(obs, sent, e);
  }

  /** notifyObservers, keeping track of what has been delivered. */
  method Publish(subject: DictionarySubject, e: Event, ghost before: map<Observer, seq<Event>>,
                 ghost log: seq<(Observer, Event)>, ghost sent: seq<Event>)
    requires Delivered(subject, before, log, sent)
    modifies subject, set o | o in subject.observers
    ensures subject.observers == old(subject.observers) && subject.loading == old(subject.loading)
    ensures Delivered(subject, before, log, sent + [e])
  {
    ghost var obs, logged := subject.observers, subject.deliveries;
    subject.NotifyObservers(e);
    LogStep(obs, log, sent, e, logged, subject.deliveries);
    forall o | o in subject.observers
      ensures o.received == before[o] + Stutter(sent + [e], multiset(subject.observers)[o])
    {
      StutterSnoc(sent, e, multiset(subject.observers)[o]);
    }
  }

  /** setLoading, keeping track of what has been delivered. */
  method PublishLoading(subject: DictionarySubject, b: bool, ghost before: map<Observer, seq<Event>>,
                        ghost log: seq<(Observer, Event)>, ghost sent: seq<Event>)
    requires Delivered(subject, before, log, sent)
    modifies subject, set o | o in subject.observers
    ensures subject.observers == old(subject.observers) && subject.loading == b
    ensures Delivered(subject, before, log, sent + [Loading(b)])
  {
    ghost var obs, logged := subject.observers, subject.deliveries;
    subject.SetLoading(b);
    LogStep(obs, log, sent, Loading(b), logged, subject.deliveries);
    forall o | o in subject.observers
      ensures o.received == before[o] + Stutter(sent + [Loading(b)], multiset(subject.observers)[o])
    {
      StutterSnoc(sent, Loading(b), multiset(subject.observers)[o]);
    }
  }

  /** The first step of search: publishing what searchDicionarioAberto found. */
  method PublishPortuguese(subject: DictionarySubject, mode: SearchType, found: Body,
                           ghost before: map<Observer, seq<Event>>, ghost log: seq<(Observer, Event)>,
                           ghost sent: seq<Event>)
    requires found.Words? <==> mode == Near
    requires found.Entries? || found.Words?
    requires Delivered(subject, before, log, sent)
    modifies subject, set o | o in subject.observers
    ensures subject.observers == old(subject.observers) && subject.loading == old(subject.loading)
    ensures Delivered(subject, before, log, sent + PortugueseEvents(mode, found))
  {
    if mode == Near {
      Publish(subject, NearWords(Some(found.words)), before, log, sent);
      Publish(subject, DicionarioAberto([]), before, log, sent + [NearWords(Some(found.words))]);
      assert sent + [NearWords(Some(found.words))] + [DicionarioAberto([])] == sent + PortugueseEvents(mode, found);
    } else {
      Publish(subject, DicionarioAberto(found.entries), before, log, sent);
    }
  }

  /** The second step of search: the English lookup, made only for `normal`
      searches. Returns the URLs it requested. */
  method PublishEnglish(subject: DictionarySubject, word: string, mode: SearchType,
                        english: string -> Fetch<seq<DictionaryEntry>>,
                        ghost before: map<Observer, seq<Event>>, ghost log: seq<(Observer, Event)>,
                        ghost sent: seq<Event>)
    returns (requests: seq<string>)
    requires Delivered(subject, before, log, sent)
    modifies subject, set o | o in subject.observers
    ensures subject.observers == old(subject.observers) && subject.loading == old(subject.loading)
    ensures requests == if mode == Normal then [DictionaryApiBase + Lower(word)] else []
    ensures Delivered(subject, before, log, sent + [English(EnglishResult(word, mode, english))])
  {
    if mode == Normal {
      var lower := Lower(word);
      requests := [DictionaryApiBase + lower];
      match english(lower)
      case Fetched(definitions) =>
        Publish(subject, English(definitions), before, log, sent);
      case Failed(_) =>
        // A 404 is expected and silent; any other failure is logged. Both
        // publish an empty English result.
        Publish(subject, English([]), before, log, sent);
    } else {
      requests := [];
      Publish(subject, English([]), before, log, sent);
    }
  }

  /** search: publishes `loading true`, the Portuguese result, the English
      result and `loading false`, and returns the URLs it requested. */
  method Search(subject: DictionarySubject, word: string, mode: SearchType,
                portuguese: string -> Fetch<Body>, english: string -> Fetch<seq<DictionaryEntry>>)
    returns (requests: seq<string>)
    modifies subject, set o | o in subject.observers
    ensures subject.observers == old(subject.observers)
    ensures !subject.IsLoading()
    ensures requests == SearchRequests(word, mode, portuguese)
    ensures subject.deliveries
            == old(subject.deliveries) + BroadcastAll(subject.observers, SearchTrace(word, mode, portuguese, english))
    ensures forall o :: o in subject.observers ==>
              o.received == old(o.received)
                            + Stutter(SearchTrace(word, mode, portuguese, english), multiset(subject.observers)[o])
  {
    ghost var before := map o | o in subject.observers :: o.received;
    ghost var log := subject.deliveries;
    assert Delivered(subject, before, log, []) by {
      forall o | o in subject.observers ensures o.received == before[o] + Stutter([], multiset(subject.observers)[o]) {
      }
    }

    PublishLoading(subject, true, before, log, []);
    var lookup := SearchDicionarioAberto(word, mode, portuguese);
    ghost var sent := [Loading(true)] + PortugueseEvents(mode, lookup.found);
    PublishPortuguese(subject, mode, lookup.found, before, log, [Loading(true)]);
    var englishRequests := PublishEnglish(subject, word, mode, english, before, log, sent);
    requests := lookup.requests + englishRequests;
    ghost var englishEvent := English(EnglishResult(word, mode, english));
    PublishLoading(subject, false, before, log, sent + [englishEvent]);
    assert sent + [englishEvent] + [Loading(false)] == SearchTrace(word, mode, portuguese, english) by {
      TraceShape(word, mode, portuguese, english);
    }
  }

  /** A proof step for `Search`: the trace regrouped as the steps publish it. */
  lemma TraceShape(word: string, mode: SearchType, portuguese: string -> Fetch<Body>,
                   english: string -> Fetch<seq<DictionaryEntry>>)
    ensures var found := SearchDicionarioAberto(word, mode, portuguese).found;
            SearchTrace(word, mode, portuguese, english)
            == [Loading(true)] + PortugueseEvents(mode, found) + [English(EnglishResult(word, mode, english))] + [Loading(false)]
  {
  }

  // ---------------------------------------------------------------------
  // Properties of markup extraction

  /** The capture is the text between the first `open` and the first
      `close` that follows it. */
  lemma CaptureAt(s: string, open: string, close: string, i: nat, k: nat)
    requires OccursAt(s, open, i) && forall j :: 0 <= j < i ==> !OccursAt(s, open, j)
    requires i + |open| <= k && OccursAt(s, close, k)
    requires forall j :: i + |open| <= j < k ==> !OccursAt(s, close, j)
    ensures Capture(s, open, close) == Some(s[i + |open|..k])
  {
    IndexOfFirst(s, open, 0, i);
    IndexOfFirst(s, close, i + |open|, k);
  }

  /** Conversely, whatever the regular expression matches is what the
      capture returns. */
  lemma CaptureIsLazyMatch(s: string, open: string, close: string, i: nat, c: string)
    requires LazyMatch(s, open, close, i, c)
    ensures Capture(s, open, close) == Some(c)
  {
    var k := i + |open| + |c|;
    forall j | 0 <= j < i ensures !OccursAt(s, open, j) {
      assert j + |open| <= k;
    }
    CaptureAt(s, open, close, i, k);
  }

  /** The definition is the lazy `<def>` capture, trimmed, with each line
      feed then turned into a space. */
  lemma ParsedDefinition(xml: string, i: nat, c: string)
    requires LazyMatch(xml, "<def>", "</def>", i, c)
    ensures ParseXmlContent(xml).definition == NormalizeDefinition(c)
  {
    CaptureIsLazyMatch(xml, "<def>", "</def>", i, c);
  }

  /** The grammatical class is the lazy `<gramGrp>` capture, trimmed, its
      inner line feeds kept. */
  lemma ParsedGrammarClass(xml: string, i: nat, c: string)
    requires LazyMatch(xml, "<gramGrp>", "</gramGrp>", i, c)
    ensures ParseXmlContent(xml).grammarClass == Trim(c)
  {
    CaptureIsLazyMatch(xml, "<gramGrp>", "</gramGrp>", i, c);
  }

  /** A tag does not occur where one of its characters is missing. */
  lemma NotAt(s: string, tag: string, j: int, m: nat)
    requires m < |tag| && 0 <= j && j + m < |s| && s[j + m] != tag[m]
    ensures !OccursAt(s, tag, j)
  {
    if j + |tag| <= |s| {
      assert s[j..j + |tag|][m] == s[j + m];
    }
  }

  /** Markup synthesised from a preview reads back as the preview, trimmed
      and with its line feeds turned into spaces, provided the preview does
      not itself close the element. */
  lemma {:induction false} PreviewRoundTrip(preview: string)
    requires forall j :: !OccursAt(preview, "</def>", j)
    ensures ParseXmlContent("<def>" + preview + "</def>").definition == NormalizeDefinition(preview)
  {
    var s := "<def>" + preview + "</def>";
    var end := 5 + |preview|;
    assert s[5..end] == preview;
    assert s[..5] == "<def>";
    assert s[end..] == "</def>";
    assert OccursAt(s, "<def>", 0);
    assert OccursAt(s, "</def>", end);
    forall j | 5 <= j < end
      ensures !OccursAt(s, "</def>", j)
    {
      if j + 6 <= end {
        assert !OccursAt(preview, "</def>", j - 5);
        assert s[j..j + 6] == preview[j - 5..j + 1];
      } else {
        NotAt(s, "</def>", j, end - j);
      }
    }
    CaptureAt(s, "<def>", "</def>", 0, end);
  }

  /** A preview without '<' cannot close the element. */
  lemma NoBracketNoClose(preview: string)
    requires '<' !in preview
    ensures forall j :: !OccursAt(preview, "</def>", j)
  {
    forall j | 0 <= j < |preview|
      ensures !OccursAt(preview, "</def>", j)
    {
      NotAt(preview, "</def>", j, 0);
    }
  }

  /** Where the pieces of a grammatical class followed by a definition
      sit: "</gramGrp>" at `g`, "<def>" at `d` and "</def>" at `e`. */
  lemma GrammarThenDefinitionLayout(s: string, gram: string, def: string, g: nat, d: nat, e: nat)
    requires s == "<gramGrp>" + gram + "</gramGrp><def>" + def + "</def>"
    requires g == 9 + |gram| && d == g + 10 && e == d + 5 + |def|
    ensures |s| == e + 6
    ensures s[..9] == "<gramGrp>" && s[9..g] == gram && s[g..d] == "</gramGrp>"
    ensures s[d..d + 5] == "<def>" && s[d + 5..e] == def && s[e..] == "</def>"
  {
  }

  /** No "<def>" starts before the one that follows the grammatical class. */
  lemma NoDefinitionBefore(s: string, gram: string, g: nat, d: nat)
    requires '<' !in gram && g == 9 + |gram| && d == g + 10 && d + 5 <= |s|
    requires s[..9] == "<gramGrp>" && s[9..g] == gram && s[g..d] == "</gramGrp>"
    ensures forall j :: 0 <= j < d ==> !OccursAt(s, "<def>", j)
  {
    forall j | 0 <= j < d
      ensures !OccursAt(s, "<def>", j)
    {
      if j == 0 || j == g {
        assert s[j + 1] == (if j == 0 then s[..9] else s[g..d])[1];
        NotAt(s, "<def>", j, 1);
      } else if j < 9 {
        assert s[j] == s[..9][j];
        NotAt(s, "<def>", j, 0);
      } else if j < g {
        assert s[j] == s[9..g][j - 9];
        NotAt(s, "<def>", j, 0);
      } else {
        assert s[j] == s[g..d][j - g];
        NotAt(s, "<def>", j, 0);
      }
    }
  }

  /** No tag starts inside text without '<'. */
  lemma NoTagInside(s: string, tag: string, lo: nat, hi: nat)
    requires |tag| > 0 && tag[0] == '<'
    requires lo <= hi <= |s| && '<' !in s[lo..hi]
    ensures forall j :: lo <= j < hi ==> !OccursAt(s, tag, j)
  {
    forall j | lo <= j < hi
      ensures !OccursAt(s, tag, j)
    {
      assert s[j] == s[lo..hi][j - lo];
      NotAt(s, tag, j, 0);
    }
  }

  /** In a grammatical class followed by a definition, the class is the
      first `<gramGrp>` element. */
  lemma GramOfGrammarThenDefinition(s: string, gram: string, def: string)
    requires '<' !in gram
    requires s == "<gramGrp>" + gram + "</gramGrp><def>" + def + "</def>"
    ensures Capture(s, "<gramGrp>", "</gramGrp>") == Some(gram)
  {
    var g := 9 + |gram|;     // where "</gramGrp>" starts
    var d := g + 10;
    GrammarThenDefinitionLayout(s, gram, def, g, d, d + 5 + |def|);
    NoTagInside(s, "</gramGrp>", 9, g);
    CaptureAt(s, "<gramGrp>", "</gramGrp>", 0, g);
  }

  /** In a grammatical class followed by a definition, the definition is
      the first `<def>` element. */
  lemma DefOfGrammarThenDefinition(s: string, gram: string, def: string)
    requires '<' !in gram && '<' !in def
    requires s == "<gramGrp>" + gram + "</gramGrp><def>" + def + "</def>"
    ensures Capture(s, "<def>", "</def>") == Some(def)
  {
    var g := 9 + |gram|;     // where "</gramGrp>" starts
    var d := g + 10;         // where "<def>" starts
    var e := d + 5 + |def|;  // where "</def>" starts
    GrammarThenDefinitionLayout(s, gram, def, g, d, e);
    NoDefinitionBefore(s, gram, g, d);
    NoTagInside(s, "</def>", d + 5, e);
    CaptureAt(s, "<def>", "</def>", d, e);
  }

  /** The shape of a typical entry: a grammatical class followed by a
      definition. Both are extracted; only the definition has its line
      feeds turned into spaces. */
  lemma GrammarThenDefinition(gram: string, def: string)
    requires '<' !in gram && '<' !in def
    ensures ParseXmlContent("<gramGrp>" + gram + "</gramGrp><def>" + def + "</def>")
            == Parsed(NormalizeDefinition(def), Trim(gram))
  {
    var s := "<gramGrp>" + gram + "</gramGrp><def>" + def + "</def>";
    GramOfGrammarThenDefinition(s, gram, def);
    DefOfGrammarThenDefinition(s, gram, def);
  }

  /** Text without line feeds and without whitespace at either end comes
      through normalisation unchanged. */
  lemma CleanDefinition(s: string)
    requires s != [] && !IsWhitespace(s[0]) && !IsWhitespace(s[|s| - 1]) && '\n' !in s
    ensures Trim(s) == s && NormalizeDefinition(s) == s
  {
    TrimClean(s);
    ReplaceNoNewlines(s);
  }

  // The concrete examples below take their literals as parameters fixed by
  // `requires`, which keeps the verifier from unfolding the extraction
  // functions on literal text.

  lemma NounShape(xml: string, gram: string, def: string)
    requires gram == "noun" && def == "a thing"
    requires xml == "<gramGrp>noun</gramGrp><def>a thing</def>"
    ensures xml == "<gramGrp>" + gram + "</gramGrp><def>" + def + "</def>"
  {
  }

  /** A grammatical class followed by a definition, as a concrete entry. */
  lemma NounExample(xml: string, gram: string, def: string)
    requires gram == "noun" && def == "a thing"
    requires xml == "<gramGrp>noun</gramGrp><def>a thing</def>"
    ensures ParseXmlContent(xml) == Parsed(def, gram)
  {
    NounShape(xml, gram, def);
    CleanDefinition(gram);
    CleanDefinition(def);
    GrammarThenDefinition(gram, def);
  }

  lemma NewlineShape(xml: string, gram: string, def: string)
    requires gram == "n.\nm." && def == "casa\n\ngrande"
    requires xml == "<gramGrp>n.\nm.</gramGrp><def>casa\n\ngrande</def>"
    ensures xml == "<gramGrp>" + gram + "</gramGrp><def>" + def + "</def>"
  {
  }

  lemma NewlineDefinition(def: string)
    requires def == "casa\n\ngrande"
    ensures NormalizeDefinition(def) == "casa  grande"
  {
    TrimClean(def);
    var r := ReplaceNewlines(def);
    assert r == "casa  grande";
  }

  /** Line feeds inside a definition become spaces, one each; inside a
      grammatical class they are kept. */
  lemma NewlineExample(xml: string, gram: string, def: string)
    requires gram == "n.\nm." && def == "casa\n\ngrande"
    requires xml == "<gramGrp>n.\nm.</gramGrp><def>casa\n\ngrande</def>"
    ensures ParseXmlContent(xml) == Parsed("casa  grande", gram)
  {
    NewlineShape(xml, gram, def);
    TrimClean(gram);
    NewlineDefinition(def);
    GrammarThenDefinition(gram, def);
  }

  // ---------------------------------------------------------------------
  // Properties of the endpoint mapping and the lookup

  /** The endpoint determines the mode and, for the five word searches, the
      lower-cased word. */
  lemma EndpointRoundTrip(word: string, mode: SearchType)
    ensures ParseEndpoint(Endpoint(word, mode)) == Some((mode, if TakesWord(mode) then Lower(word) else ""))
  {
    var w := Lower(word);
    var path := Endpoint(word, mode);
    match mode
    case Normal =>
      assert path[..5] == "word/" && path[0] == 'w';
    case Prefix =>
      assert path[..7] == "prefix/" && path[..5][0] == 'p';
    case Suffix =>
      assert path[..7] == "suffix/" && path[..5][0] == 's' && path[..7][0] == 's';
    case Infix =>
      assert path[..6] == "infix/" && path[..5][0] == 'i';
      assert |path| >= 7 ==> path[..7][0] == 'i';
    case Near =>
      assert path[..5] == "near/" && path[..5][0] == 'n';
      assert |path| >= 7 ==> path[..7][0] == 'n';
      assert |path| >= 6 ==> path[..6][0] == 'n';
    case Random =>
    case Wotd =>
  }

  /** Two searches hit the same endpoint exactly when they have the same
      mode and, for word searches, the same lower-cased word. */
  lemma EndpointInjective(w1: string, m1: SearchType, w2: string, m2: SearchType)
    ensures Endpoint(w1, m1) == Endpoint(w2, m2) <==> m1 == m2 && (TakesWord(m1) ==> Lower(w1) == Lower(w2))
  {
    EndpointRoundTrip(w1, m1);
    EndpointRoundTrip(w2, m2);
  }

  /** The word's letter case never matters to the endpoint. */
  lemma EndpointIgnoresCase(word: string, mode: SearchType)
    ensures Endpoint(Lower(word), mode) == Endpoint(word, mode)
  {
    LowerIdempotent(word);
  }

  /** Each reshaped entry keeps the item's word, sense and preview, in the
      same position, and carries the preview wrapped in `<def>`. */
  lemma {:induction false} PreviewEntriesAt(items: seq<PreviewItem>, i: nat)
    requires i < |items|
    ensures var e := PreviewEntries(items)[i];
            && e.word == items[i].word && e.sense == items[i].sense
            && e.preview == Some(items[i].preview)
            && e.xml == "<def>" + items[i].preview + "</def>"
            && e.grammarClass == None
  {
    if i > 0 {
      PreviewEntriesAt(items[1..], i - 1);
    }
  }

  /** What a prefix, suffix or infix search publishes: one entry per item,
      in order; an item's markup reads back as its cleaned preview when
      that preview does not contain `</def>`. */
  lemma PreviewSearch(word: string, mode: SearchType, portuguese: string -> Fetch<Body>, i: nat)
    requires mode == Prefix || mode == Suffix || mode == Infix
    requires portuguese(Endpoint(word, mode)).Fetched? && portuguese(Endpoint(word, mode)).data.Previews?
    requires i < |portuguese(Endpoint(word, mode)).data.items|
    requires forall j :: !OccursAt(portuguese(Endpoint(word, mode)).data.items[i].preview, "</def>", j)
    ensures var items := portuguese(Endpoint(word, mode)).data.items;
            var found := SearchDicionarioAberto(word, mode, portuguese).found;
            && found == Entries(PreviewEntries(items))
            && |found.entries| == |items|
            && found.entries[i].word == items[i].word && found.entries[i].sense == items[i].sense
            && found.entries[i].preview == Some(items[i].preview)
            && ParseXmlContent(found.entries[i].xml).definition == NormalizeDefinition(items[i].preview)
  {
    var items := portuguese(Endpoint(word, mode)).data.items;
    PreviewEntriesAt(items, i);
    PreviewRoundTrip(items[i].preview);
  }

  lemma PrefixCat(word: string)
    requires word == "cat"
    ensures Endpoint(word, Prefix) == "prefix/cat"
  {
    assert Lower(word) == word;
  }

  /** A prefix search for "cat" whose one item previews "cat-like" yields
      one entry whose markup reads back as "cat-like". */
  lemma PrefixExample(portuguese: string -> Fetch<Body>, word: string, preview: string)
    requires word == "cat" && preview == "cat-like"
    requires portuguese("prefix/cat") == Fetched(Previews([PreviewItem(word, 1, preview)]))
    ensures var found := SearchDicionarioAberto(word, Prefix, portuguese).found;
            && |found.entries| == 1 && found.entries[0].word == word && found.entries[0].sense == 1
            && ParseXmlContent(found.entries[0].xml).definition == preview
  {
    PrefixCat(word);
    NoBracketNoClose(preview);
    CleanDefinition(preview);
    PreviewSearch(word, Prefix, portuguese, 0);
  }

  /** The word of the day becomes exactly one entry, sense 1, with the
      response's word and markup and the grammatical class read from it. */
  lemma WordOfTheDay(word: string, portuguese: string -> Fetch<Body>, w: string, xml: string)
    requires portuguese("wotd") == Fetched(Record(w, xml))
    ensures SearchDicionarioAberto(word, Wotd, portuguese)
            == Lookup(Entries([DicionarioAbertoEntry(w, 1, xml, None, Some(ParseXmlContent(xml).grammarClass))]),
                      [DicionarioAbertoBase + "wotd"])
  {
  }

  /** A random search requests `random`, then `word/` with the word it got
      back (as returned, not lower-cased), and yields the second response. */
  lemma RandomWord(word: string, portuguese: string -> Fetch<Body>, w: string, xml: string, entries: seq<DicionarioAbertoEntry>)
    requires portuguese("random") == Fetched(Record(w, xml))
    requires portuguese("word/" + w) == Fetched(Entries(entries))
    ensures SearchDicionarioAberto(word, Random, portuguese)
            == Lookup(Entries(entries), [DicionarioAbertoBase + "random", DicionarioAbertoBase + "word/" + w])
  {
    assert Endpoint(word, Random) == "random";
    var r := SearchDicionarioAberto(word, Random, portuguese);
    assert r.requests == [DicionarioAbertoBase + "random", DicionarioAbertoBase + ("word/" + w)];
    assert DicionarioAbertoBase + ("word/" + w) == DicionarioAbertoBase + "word/" + w;
    assert r.found == Entries(entries);
  }

  /** A random search whose second request fails yields nothing. */
  lemma RandomWordSecondFails(word: string, portuguese: string -> Fetch<Body>, w: string, xml: string)
    requires portuguese("random") == Fetched(Record(w, xml))
    requires portuguese("word/" + w).Failed?
    ensures SearchDicionarioAberto(word, Random, portuguese).found == Entries([])
  {
  }

  /** Normal and similar-word searches forward the response unchanged. */
  lemma PassThrough(word: string, mode: SearchType, portuguese: string -> Fetch<Body>)
    requires mode == Normal || mode == Near
    requires portuguese(Endpoint(word, mode)).Fetched?
    requires var data := portuguese(Endpoint(word, mode)).data;
             if mode == Normal then data.Entries? else data.Words?
    ensures SearchDicionarioAberto(word, mode, portuguese)
            == Lookup(portuguese(Endpoint(word, mode)).data, [DicionarioAbertoBase + Endpoint(word, mode)])
  {
  }

  // ---------------------------------------------------------------------
  // Properties of search

  /** Every search opens with `loading true`, closes with `loading false`,
      publishes no other loading event and never publishes `error`. */
  lemma {:induction false} LoadingBracketsEverySearch(word: string, mode: SearchType, portuguese: string -> Fetch<Body>,
                                                      english: string -> Fetch<seq<DictionaryEntry>>)
    ensures var t := SearchTrace(word, mode, portuguese, english);
            && 4 <= |t| <= 5
            && t[0] == Loading(true) && t[|t| - 1] == Loading(false)
            && (forall i :: 0 < i < |t| - 1 ==> !t[i].Loading?)
            && (forall i :: 0 <= i < |t| ==> !t[i].Error?)
  {
    TraceShape(word, mode, portuguese, english);
  }

  /** The events of a search, mode by mode: similar-word searches publish
      the word list and then clear the Portuguese entries; every other
      mode publishes its entries. The English result comes next. */
  lemma SearchEvents(word: string, mode: SearchType, portuguese: string -> Fetch<Body>,
                     english: string -> Fetch<seq<DictionaryEntry>>)
    ensures var found := SearchDicionarioAberto(word, mode, portuguese).found;
            var en := English(EnglishResult(word, mode, english));
            SearchTrace(word, mode, portuguese, english)
            == if mode == Near then [Loading(true), NearWords(Some(found.words)), DicionarioAberto([]), en, Loading(false)]
               else [Loading(true), DicionarioAberto(found.entries), en, Loading(false)]
  {
    TraceShape(word, mode, portuguese, english);
  }

  /** English definitions are looked up for normal searches only, on the
      lower-cased word; a failure of that lookup, a 404 or any other,
      publishes an empty English result rather than an error. */
  lemma EnglishOnlyForNormal(word: string, mode: SearchType, portuguese: string -> Fetch<Body>,
                             english: string -> Fetch<seq<DictionaryEntry>>)
    ensures var requests := SearchRequests(word, mode, portuguese);
            var lookup := SearchDicionarioAberto(word, mode, portuguese);
            && (mode == Normal ==> requests == lookup.requests + [DictionaryApiBase + Lower(word)])
            && (mode != Normal ==> requests == lookup.requests && EnglishResult(word, mode, english) == [])
            && (mode == Normal && english(Lower(word)).Failed? ==> EnglishResult(word, mode, english) == [])
            && (mode == Normal && english(Lower(word)).Fetched? ==> EnglishResult(word, mode, english) == english(Lower(word)).data)
  {
  }

  /** A random search whose first response names a word makes exactly two
      requests, both to the Portuguese service. */
  lemma RandomSearchRequests(word: string, portuguese: string -> Fetch<Body>, w: string, xml: string)
    requires portuguese("random") == Fetched(Record(w, xml))
    ensures SearchRequests(word, Random, portuguese)
            == [DicionarioAbertoBase + "random", DicionarioAbertoBase + "word/" + w]
  {
    assert Endpoint(word, Random) == "random";
    assert DicionarioAbertoBase + ("word/" + w) == DicionarioAbertoBase + "word/" + w;
  }
}
