# Tajik vocabulary trainer: word-list utilities in Dafny

This project models the data-shaping utilities of a browser-based Tajik
vocabulary trainer and proves properties about them:

- the word-list import script (`scripts/import-words.js`): the slug generator
  `generateId` and the record conversion in `convertWordList`, which turns a
  loosely shaped JSON record into a word list using `||` fallbacks and
  position-based default ids;
- `normalizeWordList` (`src/utils/wordListUtils.ts`), which turns a list that
  mixes compact tuple entries `[tajik, english, transliteration?]` and full
  word objects into a list of word objects;
- the random word selection for the four games (`src/utils/wordSelection.ts`).

All three are pure code, so the model is datatypes, functions and lemmas,
one module per source file:

| file | module | contents |
|---|---|---|
| `vocab.dfy` | `Vocab` | `Option` and the `VocabWord` record (src/types/vocab.ts) |
| `decimal.dfy` | `Decimal` | JavaScript `String(n)` for the default ids, with its round trips |
| `import_words.dfy` | `ImportWords` | `generateId`, step by step, and the `convertWordList` record |
| `word_list_utils.dfy` | `WordListUtils` | `normalizeWordList` |
| `word_selection.dfy` | `WordSelection` | `selectRandomWords` and the four game wrappers |

The modelling choices are these:

- JavaScript values that may be missing are `Option<string>`. `undefined` and
  `null` are both `None`. A value is truthy when it is present and non-empty
  (`ImportWords.Truthy`), which is what `||` tests for strings.
- `toLowerCase` lowers the ASCII letters `A`–`Z` only. Any other character
  counts as outside `[a-z0-9]`.
- The shuffle `[...words].sort(() => Math.random() - 0.5)` is given as a
  parameter: a permutation `perm` of the positions, where the shuffled copy
  holds `words[perm[k]]` at position `k`. `WordSelection.EveryRearrangementIsAShuffle`
  shows that this parameter allows every order the sort could produce, and
  `WordSelection.ShuffleKeepsMultiset` shows that it allows no other.
  Likewise, `WordSelection.EverySelectionIsPossible` shows that every choice
  of `count` words can come out of `selectRandomWords`.
- `generateId` is modelled step by step, one function per `toLowerCase` or
  `replace` call. Its properties are proved about that chain. The chain is
  also proved equal to `ImportWords.IdSpec`, a separate description that
  reads the name once, character by character.
- `count` in `selectRandomWords` is an integer. `slice(0, count)` with a
  negative `count` counts from the end, as JavaScript does.

## Model

| member | source | states |
|---|---|---|
| `Decimal.DecimalString` | src/utils/wordListUtils.ts:16 | `String(n)` is a non-empty string of decimal digits with no superfluous leading zero; it starts with '0' exactly when n is 0 |
| `Decimal.DecimalRoundTrip` | scripts/import-words.js:24 | reading back the numeral `String(n)` gives n |
| `Decimal.NumeralRoundTrip` | src/utils/wordListUtils.ts:16 | every canonical numeral is `String` of the number it denotes (the other direction of the round trip) |
| `Decimal.DecimalStringInjective` | src/utils/wordListUtils.ts:16 | different positions get different default ids |
| `ImportWords.ToLowerCase` | scripts/import-words.js:46 | no upper-case ASCII letter is left; every other character is kept as it is; a character becomes a lower-case letter or digit exactly when it was an ASCII letter or digit |
| `ImportWords.MaskNonAlnum` | scripts/import-words.js:47 | the result is over `[a-z0-9-]`; a position holds something other than '-' exactly when the input held a lower-case letter or digit there, and then holds that character |
| `ImportWords.CollapseDashes` | scripts/import-words.js:48 | no contract of its own; `CollapseKeepsEnds`, `CollapseNoDoubleDash`, `CollapseAlphabet`, `CollapseRemoveDashes` and `CollapseIdentity` state its properties |
| `ImportWords.MaskKeepsAlnums` | scripts/import-words.js:46-47 | after lower-casing and masking, only `[a-z0-9-]` remain, and deleting the dashes leaves exactly the ASCII letters and digits of the input, lower-cased, in order |
| `ImportWords.CollapseKeepsEnds` | scripts/import-words.js:48 | collapsing dash runs keeps the first and the last character |
| `ImportWords.CollapseNoDoubleDash` | scripts/import-words.js:48 | after collapsing, no two '-' are adjacent |
| `ImportWords.CollapseAlphabet` | scripts/import-words.js:48 | collapsing introduces no character outside `[a-z0-9-]` |
| `ImportWords.CollapseRemoveDashes` | scripts/import-words.js:48 | collapsing deletes dashes only: the non-dash characters and their order are unchanged |
| `ImportWords.CollapseIdentity` | scripts/import-words.js:48 | a string without "--" is left unchanged |
| `ImportWords.DropLeadingDash` | scripts/import-words.js:49 | no contract of its own; it is the `^-` alternative of the last `replace`, and `TrimMakesSlug`, `TrimRemoveDashes` and `TrimIdentity` state what the trim does |
| `ImportWords.DropTrailingDash` | scripts/import-words.js:49 | no contract of its own; it is the `-$` alternative of the last `replace`, covered by the same trim lemmas |
| `ImportWords.TrimDashes` | scripts/import-words.js:49 | no contract of its own; `TrimMakesSlug`, `TrimRemoveDashes` and `TrimIdentity` state that it yields a slug, deletes dashes only and leaves a slug unchanged |
| `ImportWords.TrimMakesSlug` | scripts/import-words.js:49 | stripping one leading and one trailing '-' from a dash-collapsed string over `[a-z0-9-]` yields a slug: no '-' at either end, none doubled |
| `ImportWords.TrimRemoveDashes` | scripts/import-words.js:49 | the trim deletes dashes only |
| `ImportWords.TrimIdentity` | scripts/import-words.js:49 | a slug is left unchanged by the trim |
| `ImportWords.GenerateId` | scripts/import-words.js:44-50 | the id contains only `a`–`z`, `0`–`9` and '-', never two adjacent '-', and neither starts nor ends with '-'; deleting its dashes gives exactly the ASCII letters and digits of the name, lower-cased, in their original order |
| `ImportWords.GenerateIdEmptyIff` | scripts/import-words.js:45-49 | the id is empty exactly when the name has no ASCII letter or digit |
| `ImportWords.GenerateIdFixesSlugs` | scripts/import-words.js:45-49 | a slug is its own id |
| `ImportWords.GenerateIdFixpointIff` | scripts/import-words.js:45-49 | the strings `generateId` leaves unchanged are exactly the slugs |
| `ImportWords.GenerateIdIdempotent` | scripts/import-words.js:45-49 | `generateId(generateId(s)) == generateId(s)` |
| `ImportWords.IdSpec` | scripts/import-words.js:44-50 | no contract of its own; the independent one-pass reference for `generateId`, tied to it on every name by `GenerateIdMatchesSpec` |
| `ImportWords.MaskedCons` | scripts/import-words.js:46-47 | lower-casing and masking work character by character: a letter or digit becomes its lower-case form, anything else becomes '-' |
| `ImportWords.CollapseCons` | scripts/import-words.js:48 | a letter or digit in front of a non-empty string passes through the collapse unchanged |
| `ImportWords.TrimAfterLetter` | scripts/import-words.js:49 | on a string that starts with a letter or digit, the trim only drops a trailing '-' |
| `ImportWords.DashLedTrim` | scripts/import-words.js:49 | on a dash-collapsed string that starts with '-', dropping only the trailing '-' keeps the leading '-' exactly when the trim leaves something |
| `ImportWords.CollapseAndTrimSkipsDash` | scripts/import-words.js:48-49 | a '-' in front does not change the result of collapsing and trimming |
| `ImportWords.CollapseAndTrimKeepsLetter` | scripts/import-words.js:48-49 | a letter or digit in front is kept by collapsing and trimming, followed by a '-' exactly when the rest starts with '-' and does not trim away to nothing |
| `ImportWords.GenerateIdSkipsSeparator` | scripts/import-words.js:45-49 | a name that starts with a character other than an ASCII letter or digit has the same id as the name without that character |
| `ImportWords.GenerateIdPrependsAlnum` | scripts/import-words.js:45-49 | a leading ASCII letter or digit appears lower-cased at the front of the id; a single '-' follows it exactly when the next character is a separator and the rest of the id is not empty |
| `ImportWords.GenerateIdMatchesSpec` | scripts/import-words.js:44-50 | on every name, `generateId` equals `IdSpec`, an independent description that reads the name once, character by character: each ASCII letter or digit contributes itself, lower-cased, followed by a single '-' when a separator comes next and more of the id follows; every other character contributes nothing |
| `ImportWords.DefaultIdSeedIsSlug` | scripts/import-words.js:19 | the fallback seed "word-list" is already a slug |
| `ImportWords.Or` | scripts/import-words.js:24-28 | JavaScript's logical or of two optional strings: the result is one of the operands, `a` whenever `a` is truthy, and it is truthy exactly when either operand is |
| `ImportWords.OrDefault` | scripts/import-words.js:19-22 | JavaScript's logical or of an optional string and a string default: the result is `d` or the value of `a`, it is `a`'s value whenever `a` is truthy, and it is non-empty exactly when `a` is truthy or `d` is non-empty |
| `ImportWords.ListId` | scripts/import-words.js:19 | no contract of its own; `ConvertWordList` and `ConvertedListId` state the list id |
| `ImportWords.ConvertWord` | scripts/import-words.js:23-29 | a word's id is its own truthy id, else the numeral of its position plus one, so it is never empty; `tajik` is the first truthy of `tajik`, `tajik_word`, else `word`; `english` likewise with `english_word`, `translation`; `transliteration` is the first truthy of `transliteration`, `translit`, else null, and never empty; `category` is the truthy category, else null |
| `ImportWords.ConvertWords` | scripts/import-words.js:23 | one converted word per input word, at the same position, converted with its own index |
| `ImportWords.ConvertWordList` | scripts/import-words.js:18-30 | no list when `words` is missing (the `.map` throws); otherwise the id is the truthy input id or `generateId(name or "word-list")`; a missing or empty name, description or difficulty becomes "Imported Word List", "Words imported from external source" or "beginner"; the words keep their number and order |
| `ImportWords.ConvertedListId` | scripts/import-words.js:19 | without a truthy input id the list id is a slug, and it is "word-list" when the name is missing or empty too |
| `ImportWords.ConvertedDefaultIdsDistinct` | scripts/import-words.js:24 | when no input word has an id, the converted words' ids are pairwise distinct |
| `WordListUtils.NormalizeEntry` | src/utils/wordListUtils.ts:13-24 | an object entry is returned unchanged; a tuple entry at position i gets the id `String(i+1)`, `tajik = word[0]`, `english = word[1]`, the transliteration `word[2]` when present and non-empty (else none), and no category or level |
| `WordListUtils.NormalizeEntries` | src/utils/wordListUtils.ts:12-25 | one word per entry, at the same position, normalised with its own index |
| `WordListUtils.NormalizeWordList` | src/utils/wordListUtils.ts:6-33 | `id`, `name` and `description` are copied; the words keep their number and order |
| `WordListUtils.NormalizeObjectsIdentity` | src/utils/wordListUtils.ts:12-25 | normalising a list whose entries are all objects leaves its words as they are |
| `WordListUtils.NormalizeIdempotent` | src/utils/wordListUtils.ts:6-33 | normalising an already normalised list changes nothing |
| `WordListUtils.TupleIdsDistinct` | src/utils/wordListUtils.ts:16 | in a list stored entirely in tuple form, the generated ids are pairwise distinct |
| `WordSelection.ShuffleAt` | src/utils/wordSelection.ts:11 | no contract of its own; the shuffled copy holds `words[perm[k]]` at position k; `ShuffleKeepsMultiset` and `EveryRearrangementIsAShuffle` show these are exactly the rearrangements of the input |
| `WordSelection.Shuffle` | src/utils/wordSelection.ts:11 | the shuffled copy has the same length and the same multiset of words as the input |
| `WordSelection.ShuffleKeepsMultiset` | src/utils/wordSelection.ts:11 | rearranging by a permutation of the positions neither adds nor loses a word |
| `WordSelection.DropLastDraw` | src/utils/wordSelection.ts:11 | removing the last draw of a shuffle leaves a shuffle of the remaining words |
| `WordSelection.RemoveAt` | src/utils/wordSelection.ts:11 | removing one position removes exactly one copy of its word |
| `WordSelection.ExtendShuffle` | src/utils/wordSelection.ts:11 | a shuffle of the remaining words, extended by a last draw, is a shuffle of all the words |
| `WordSelection.EveryRearrangementIsAShuffle` | src/utils/wordSelection.ts:11 | every rearrangement of the words is the outcome of some permutation |
| `WordSelection.Slice` | src/utils/wordSelection.ts:12 | `slice(0, count)` is a prefix of the shuffled copy; its length is `count` clamped to the length, or `max(0, n + count)` for a negative `count` |
| `WordSelection.SelectRandomWords` | src/utils/wordSelection.ts:6-13 | with `count >= n` the input itself; with `0 <= count < n` exactly `count` words; with a negative count `max(0, n + count)` words, as `slice` does; the result's multiset is contained in the input's, so no word is invented or duplicated |
| `WordSelection.PrefixSubMultiset` | src/utils/wordSelection.ts:12 | a prefix holds no word more often than the whole sequence does |
| `WordSelection.SelectedWordsComeFromInput` | src/utils/wordSelection.ts:6-13 | every selected word is one of the input words |
| `WordSelection.EverySelectionIsPossible` | src/utils/wordSelection.ts:6-13 | any `count` of the input words (`0 <= count < n`), in any order, is the result for some permutation, so the model rules out no selection the source could make |
| `WordSelection.SelectWordsForQuiz` | src/utils/wordSelection.ts:18-20 | `min(10, n)` words, all from the input; the input itself when n <= 10 |
| `WordSelection.SelectWordsForWordSearch` | src/utils/wordSelection.ts:25-28 | `min(15, n)` words, all from the input; the input unchanged when n <= 15 |
| `WordSelection.SelectWordsForMemory` | src/utils/wordSelection.ts:33-35 | a permutation of the input: same length, same multiset |
| `WordSelection.SelectWordsForFlashcards` | src/utils/wordSelection.ts:40-42 | a permutation of the input: same length, same multiset |

## Left out

- File reading and writing, JSON parsing and printing, console output, the command line and `process.exit` in scripts/import-words.js (lines 9-15, 33-41 and 52-96). These are I/O. Of the failures the `try`/`catch` reports, only a missing `words` field is modelled, as "no list".
- Input fields that hold something other than a string (a number, an object, an array), an input that is not an object, and word entries that are `null`. The model gives every field the type "string or missing".
- The difference between `null` and `undefined`. It shows only in the JSON text: a missing `tajik` or `english` drops the key, while the `null` fallbacks print as `null`.
- Non-ASCII lower-casing in `toLowerCase`. A few non-ASCII characters lower-case to ASCII letters (the Kelvin sign becomes `k`), and the model treats them as non-alphanumeric. Surrogate pairs become two dashes in JavaScript and one in the model; the dash collapse makes the ids equal.
- Tuple entries with fewer than two elements. Their missing `tajik` or `english` would be `undefined`, which the word type does not admit. A tuple with more than three elements is covered: the source reads only `word[0]`, `word[1]` and `word[2]`, so it normalises exactly like its first three elements, which is what `TupleEntry` holds.
- The randomness of the shuffle and its distribution. The comparator `Math.random() - 0.5` gives no uniformity guarantee, and the model takes the permutation as a parameter.
- Object identity. `selectRandomWords` returns the very same array when `count >= n`, and the shuffle sorts a fresh copy, so the caller's array is never reordered. Values have no identity in the model, so "the same array" becomes "an equal sequence".
- A `count` that is fractional, `NaN` or infinite. The callers pass 10 or `min(15, n)`.
- The games themselves (src/app/**): flashcards, memory, quiz and the word-search puzzle with its grid construction and drag selection. They are React components built from state hooks, markup and timers. The home page's search filter and level grouping (src/app/page.tsx) are presentation code.
- src/utils/versionCheck.ts and src/app/VersionCheckScript.tsx (localStorage, DOM and timers), src/data/wordLists/index.ts (static data) and next.config.ts (build configuration).
