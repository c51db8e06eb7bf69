/** The value types the dictionary client passes around: the search modes,
    the entries of the two dictionary services, and the events the search
    service publishes to its observers. */
module DictionaryTypes {
  import opened Wrappers

  /** The seven search modes offered by the search bar. */
  datatype SearchType = Normal | Prefix | Suffix | Infix | Near | Random | Wotd

  /** English dictionary entries, as the English dictionary service returns them. */
  datatype Phonetic = Phonetic(text: string, audio: Option<string>)
  datatype Definition = Definition(definition: string, example: Option<string>,
                                   synonyms: seq<string>, antonyms: seq<string>)
  datatype Meaning = Meaning(partOfSpeech: string, definitions: seq<Definition>)
  datatype DictionaryEntry = DictionaryEntry(word: string, phonetic: string, phonetics: seq<Phonetic>,
                                             origin: Option<string>, meanings: seq<Meaning>)

  /** A Portuguese entry of the Dicionário Aberto service: one sense of a
      word with its markup fragment, and optionally a short preview and the
      grammatical class extracted from the markup. */
  datatype DicionarioAbertoEntry = DicionarioAbertoEntry(word: string, sense: int, xml: string,
                                                         preview: Option<string>,
                                                         grammarClass: Option<string>)

  /** The `{type, value}` messages a subject sends to its observers. `Other`
      stands for a message whose type is none of the five the client knows. */
  datatype Event =
    | Loading(value: bool)
    | English(definitions: seq<DictionaryEntry>)
    | DicionarioAberto(entries: seq<DicionarioAbertoEntry>)
    | NearWords(words: Option<seq<string>>)
    | Error(cause: string)
    | Other(kind: string)
}
