/**
 * The English-to-Turkish word dictionary and the lookup that the layout uses
 * to find the Turkish word drawn under each English word.
 */
module Translation {

  datatype Option<T> = None | Some(value: T)

  /** The marker drawn under an English word that has no Turkish entry. */
  const Missing: string := "-"

  /**
   * The dictionary shipped with the program. Keys are matched exactly:
   * case-sensitive, trailing punctuation included.
   */
  const WordMapping: map<string, string> := map[
    "Hello," := "Merhaba,",
    "World!" := "Dünya!",
    "This" := "Bu",
    "is" := "-",
    "a" := "bir",
    "longer" := "daha uzun",
    "English" := "inglizce",
    "sentence." := "cümle."
  ]

  /** The English sentence, as the words it splits into at single spaces. */
  const EnglishText: seq<string> :=
    ["Hello,", "World!", "This", "is", "a", "longer", "English", "sentence."]

  /** The entry for `word`, if the dictionary has one. */
  function Find(mapping: map<string, string>, word: string): (r: Option<string>)
    ensures r.Some? <==> word in mapping
    ensures r.Some? ==> r.value == mapping[word]
  {
    if word in mapping then Some(mapping[word]) else None
  }

  /**
   * The Turkish word drawn under `word`: its dictionary entry, or the
   * `Missing` marker when there is none. The lookup is total: an absent
   * key is never an error.
   */
  function Lookup(mapping: map<string, string>, word: string): (t: string)
    ensures word in mapping ==> t == mapping[word]
    ensures word !in mapping ==> t == Missing
  {
    match Find(mapping, word)
    case Some(entry) => entry
    case None => Missing
  }

  /**
   * Every word of the shipped sentence has an entry, so the fallback never
   * fires on it; the only marker drawn comes from the explicit entry for "is".
   */
  lemma SampleWordsAllMapped()
    ensures forall w :: w in EnglishText ==> w in WordMapping
    ensures forall w :: w in EnglishText && Lookup(WordMapping, w) == Missing ==> w == "is"
  {
  }
}
