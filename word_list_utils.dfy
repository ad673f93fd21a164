/**
 * `normalizeWordList` (src/utils/wordListUtils.ts): a word list may hold
 * entries in the compact tuple form `[tajik, english]` or
 * `[tajik, english, transliteration]`, or as full word objects; the games
 * receive every entry as a word object.
 */
module WordListUtils {
  import opened Vocab
  import opened Decimal

  /** An entry of a stored word list. */
  datatype RawEntry =
    | TupleEntry(tajik: string, english: string, transliteration: Option<string>)
    | ObjectEntry(word: VocabWord)

  datatype RawWordList = RawWordList(id: string, name: string, description: string, words: seq<RawEntry>)

  datatype NormalizedList = NormalizedList(id: string, name: string, description: string, words: seq<VocabWord>)

  /** The word built for the entry at position `index`. */
  function NormalizeEntry(entry: RawEntry, index: nat): (w: VocabWord)
    ensures entry.ObjectEntry? ==> w == entry.word
    ensures entry.TupleEntry? ==>
      && IsCanonicalNumeral(w.id) && DecimalValue(w.id) == index + 1
      && w.tajik == entry.tajik && w.english == entry.english
      && (w.transliteration == None <==> entry.transliteration == None || entry.transliteration.value == "")
      && (w.transliteration != None ==> w.transliteration == entry.transliteration)
      && w.category == None && w.level == None
  {
    match entry
    case TupleEntry(tajik, english, translit) =>
      DecimalRoundTrip(index + 1);
      VocabWord(
        id := DecimalString(index + 1),
        tajik := tajik,
        english := english,
        // `word[2] || undefined`
        transliteration := if translit.Some? && translit.value != "" then translit else None,
        category := None,
        level := None)
    case ObjectEntry(word) => word
  }

  /** `wordList.words.map(...)` */
  function NormalizeEntries(entries: seq<RawEntry>): (ws: seq<VocabWord>)
    ensures |ws| == |entries|
    ensures forall i :: 0 <= i < |entries| ==> ws[i] == NormalizeEntry(entries[i], i)
  {
    seq(|entries|, i requires 0 <= i < |entries| => NormalizeEntry(entries[i], i))
  }

  /**
   * `normalizeWordList`. The list's own fields are copied, and the words
   * keep their number and order, each normalised at its own position.
   */
  function NormalizeWordList(list: RawWordList): (r: NormalizedList)
    ensures r.id == list.id && r.name == list.name && r.description == list.description
    ensures |r.words| == |list.words|
    ensures forall i :: 0 <= i < |list.words| ==> r.words[i] == NormalizeEntry(list.words[i], i)
  {
    NormalizedList(list.id, list.name, list.description, NormalizeEntries(list.words))
  }

  /** The entries of a list stored entirely in object form. */
  function AsObjects(words: seq<VocabWord>): seq<RawEntry> {
    seq(|words|, i requires 0 <= i < |words| => ObjectEntry(words[i]))
  }

  /** Normalising a list already in object form leaves its words as they are. */
  lemma NormalizeObjectsIdentity(id: string, name: string, description: string, words: seq<VocabWord>)
    ensures NormalizeWordList(RawWordList(id, name, description, AsObjects(words))).words == words
  {
  }

  /** Normalising twice gives what normalising once gives. */
  lemma NormalizeIdempotent(list: RawWordList)
    ensures var once := NormalizeWordList(list);
      NormalizeWordList(RawWordList(once.id, once.name, once.description, AsObjects(once.words))) == once
  {
  }

  /** In a list stored entirely in tuple form, the generated ids are pairwise distinct. */
  lemma TupleIdsDistinct(list: RawWordList, i: nat, j: nat)
    requires forall k :: 0 <= k < |list.words| ==> list.words[k].TupleEntry?
    requires i < j < |list.words|
    ensures NormalizeWordList(list).words[i].id != NormalizeWordList(list).words[j].id
  {
  }
}
