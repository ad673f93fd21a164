/** Shared value types of the vocabulary app (src/types/vocab.ts). */
module Vocab {

  /** An optional value. A JavaScript field that is `undefined` or `null` is `None`. */
  datatype Option<T> = None | Some(value: T)

  /** One vocabulary entry: the uniform shape every game works on. */
  datatype VocabWord = VocabWord(
    id: string,
    tajik: string,
    english: string,
    transliteration: Option<string>,
    category: Option<string>,
    level: Option<string>)
}
