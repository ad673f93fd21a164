/**
 * The pure parts of the word-list import script (scripts/import-words.js):
 * the slug generator `generateId` and the record conversion inside
 * `convertWordList`. Reading and writing files, the console and the
 * command line are not modelled.
 */
module ImportWords {
  import opened Vocab
  import opened Decimal

  // ---------------------------------------------------------------------------
  // generateId: toLowerCase, then [^a-z0-9] -> '-', then -+ -> '-', then
  // strip one leading and one trailing '-'.
  // ---------------------------------------------------------------------------

  predicate IsLowerAlnum(c: char) { 'a' <= c <= 'z' || '0' <= c <= '9' }

  predicate IsUpper(c: char) { 'A' <= c <= 'Z' }

  /** An ASCII letter (either case) or digit. */
  predicate IsAsciiAlnum(c: char) { IsLowerAlnum(c) || IsUpper(c) }

  /** `toLowerCase` on one character, ASCII letters only. */
  function LowerChar(c: char): char {
    if IsUpper(c) then (c as int + 32) as char else c
  }

  /**
   * `.toLowerCase()` on ASCII: no upper-case letter is left, every other
   * character is kept, and a character becomes a lower-case letter or digit
   * exactly when it was an ASCII letter or digit.
   */
  function ToLowerCase(s: string): (r: string)
    ensures |r| == |s|
    ensures forall i :: 0 <= i < |r| ==> !IsUpper(r[i])
    ensures forall i :: 0 <= i < |s| && !IsUpper(s[i]) ==> r[i] == s[i]
    ensures forall i :: 0 <= i < |s| ==> (IsAsciiAlnum(s[i]) <==> IsLowerAlnum(r[i]))
  {
    seq(|s|, i requires 0 <= i < |s| => LowerChar(s[i]))
  }

  /**
   * `.replace(/[^a-z0-9]/g, '-')`: the result is over `[a-z0-9-]`, and a
   * position holds something other than '-' exactly when the input held a
   * lower-case letter or digit there, which is kept.
   */
  function MaskNonAlnum(s: string): (r: string)
    ensures |r| == |s|
    ensures OverSlugAlphabet(r)
    ensures forall i :: 0 <= i < |s| ==> (r[i] != '-' <==> IsLowerAlnum(s[i]))
    ensures forall i :: 0 <= i < |s| && r[i] != '-' ==> r[i] == s[i]
  {
    seq(|s|, i requires 0 <= i < |s| => if IsLowerAlnum(s[i]) then s[i] else '-')
  }

  /** The string after the first two steps, lower-casing and masking. */
  function Masked(name: string): string {
    MaskNonAlnum(ToLowerCase(name))
  }

  /** `.replace(/-+/g, '-')`: every run of '-' becomes a single '-'. */
  function CollapseDashes(s: string): string {
    if |s| <= 1 then s
    else if s[0] == '-' && s[1] == '-' then CollapseDashes(s[1..])
    else [s[0]] + CollapseDashes(s[1..])
  }

  /**
   * The `^-` half of `.replace(/^-|-$/g, '')`: at most one '-' goes, from the
   * front, and one goes exactly when the string starts with '-'.
   */
  function DropLeadingDash(s: string): (r: string)
  {
    if |s| > 0 && s[0] == '-' then s[1..] else s
  }

  /**
   * The `-$` half of `.replace(/^-|-$/g, '')`: at most one '-' goes, from the
   * back, and one goes exactly when the string ends with '-'.
   */
  function DropTrailingDash(s: string): (r: string)
  {
    if |s| > 0 && s[|s| - 1] == '-' then s[..|s| - 1] else s
  }

  /** `.replace(/^-|-$/g, '')`: drop one leading and one trailing '-'. */
  function TrimDashes(s: string): string {
    DropTrailingDash(DropLeadingDash(s))
  }

  /** The last two steps, collapsing and trimming. */
  function CollapseAndTrim(y: string): string {
    TrimDashes(CollapseDashes(y))
  }

  /**
   * `generateId(name)`. The id is a slug, and deleting its dashes leaves
   * exactly the letters and digits of `name`, lower-cased, in order.
   */
  function GenerateId(name: string): (id: string)
    ensures IsSlug(id)
    ensures RemoveDashes(id) == AlnumLowered(name)
  {
    var masked := Masked(name);
    MaskKeepsAlnums(name);
    CollapseNoDoubleDash(masked);
    CollapseAlphabet(masked);
    CollapseRemoveDashes(masked);
    TrimMakesSlug(CollapseDashes(masked));
    TrimRemoveDashes(CollapseDashes(masked));
    CollapseAndTrim(masked)
  }

  // ---------------------------------------------------------------------------
  // What every id looks like, and what each step contributes to it.
  // ---------------------------------------------------------------------------

  /** Every character is a lower-case ASCII letter, a digit or '-'. */
  predicate OverSlugAlphabet(s: string) {
    forall i :: 0 <= i < |s| ==> IsLowerAlnum(s[i]) || s[i] == '-'
  }

  /** No two adjacent '-'. */
  predicate NoDoubleDash(s: string) {
    forall i :: 0 <= i < |s| - 1 ==> !(s[i] == '-' && s[i + 1] == '-')
  }

  /** The shape of every id `generateId` produces. */
  predicate IsSlug(s: string) {
    && OverSlugAlphabet(s)
    && NoDoubleDash(s)
    && (|s| > 0 ==> s[0] != '-' && s[|s| - 1] != '-')
  }

  /** `s` with every '-' deleted. */
  function RemoveDashes(s: string): string {
    if |s| == 0 then []
    else (if s[0] == '-' then [] else [s[0]]) + RemoveDashes(s[1..])
  }

  /** The ASCII letters and digits of `s`, lower-cased, in their order. */
  function AlnumLowered(s: string): string {
    if |s| == 0 then []
    else (if IsAsciiAlnum(s[0]) then [LowerChar(s[0])] else []) + AlnumLowered(s[1..])
  }

  lemma {:induction false} RemoveDashesAppend(a: string, b: string)
    ensures RemoveDashes(a + b) == RemoveDashes(a) + RemoveDashes(b)
    decreases |a|
  {
    if |a| > 0 {
      assert (a + b)[1..] == a[1..] + b;
      RemoveDashesAppend(a[1..], b);
    } else {
      assert a + b == b;
    }
  }

  lemma {:induction false} MaskKeepsAlnums(s: string)
    ensures OverSlugAlphabet(Masked(s))
    ensures RemoveDashes(Masked(s)) == AlnumLowered(s)
    decreases |s|
  {
    if |s| > 0 {
      MaskKeepsAlnums(s[1..]);
      assert Masked(s)[1..] == Masked(s[1..]);
    }
  }

  /** Collapsing keeps the first and the last character. */
  lemma {:induction false} CollapseKeepsEnds(s: string)
    requires |s| > 0
    ensures var r := CollapseDashes(s); |r| > 0 && r[0] == s[0] && r[|r| - 1] == s[|s| - 1]
    decreases |s|
  {
    if |s| > 1 {
      CollapseKeepsEnds(s[1..]);
    }
  }

  /** After collapsing, no two '-' are adjacent. */
  lemma {:induction false} CollapseNoDoubleDash(s: string)
    ensures NoDoubleDash(CollapseDashes(s))
    decreases |s|
  {
    if |s| > 1 {
      CollapseNoDoubleDash(s[1..]);
      if !(s[0] == '-' && s[1] == '-') {
        var rest := CollapseDashes(s[1..]);
        CollapseKeepsEnds(s[1..]);
        var r := [s[0]] + rest;
        forall i | 0 <= i < |r| - 1 ensures !(r[i] == '-' && r[i + 1] == '-') {
          if i > 0 {
            assert r[i] == rest[i - 1] && r[i + 1] == rest[i];
          }
        }
      }
    }
  }

  /** Collapsing introduces no new character. */
  lemma {:induction false} CollapseAlphabet(s: string)
    requires OverSlugAlphabet(s)
    ensures OverSlugAlphabet(CollapseDashes(s))
    decreases |s|
  {
    if |s| > 1 {
      CollapseAlphabet(s[1..]);
    }
  }

  /** Collapsing only deletes dashes. */
  lemma {:induction false} CollapseRemoveDashes(s: string)
    ensures RemoveDashes(CollapseDashes(s)) == RemoveDashes(s)
    decreases |s|
  {
    if |s| > 1 {
      CollapseRemoveDashes(s[1..]);
      if !(s[0] == '-' && s[1] == '-') {
        var rest := CollapseDashes(s[1..]);
        assert ([s[0]] + rest)[1..] == rest;
      }
    }
  }

  /** A string without "--" is left unchanged. */
  lemma {:induction false} CollapseIdentity(s: string)
    requires NoDoubleDash(s)
    ensures CollapseDashes(s) == s
    decreases |s|
  {
    if |s| > 1 {
      assert NoDoubleDash(s[1..]) by {
        forall i | 0 <= i < |s| - 2 ensures !(s[1..][i] == '-' && s[1..][i + 1] == '-') {
          assert s[1..][i] == s[i + 1] && s[1..][i + 1] == s[i + 2];
        }
      }
      CollapseIdentity(s[1..]);
      assert s == [s[0]] + s[1..];
    }
  }

  /** Trimming a dash-collapsed string over `[a-z0-9-]` yields a slug. */
  lemma TrimMakesSlug(s: string)
    requires OverSlugAlphabet(s) && NoDoubleDash(s)
    ensures IsSlug(TrimDashes(s))
  {
  }

  /** Trimming deletes dashes only. */
  lemma TrimRemoveDashes(s: string)
    ensures RemoveDashes(TrimDashes(s)) == RemoveDashes(s)
  {
    var a := DropLeadingDash(s);
    if |a| > 0 && a[|a| - 1] == '-' {
      RemoveDashesAppend(a[..|a| - 1], "-");
      assert a == a[..|a| - 1] + "-";
    }
  }

  /** A slug is left unchanged by trimming. */
  lemma TrimIdentity(s: string)
    requires IsSlug(s)
    ensures TrimDashes(s) == s
  {
  }

  // ---------------------------------------------------------------------------
  // Properties of generateId as a whole.
  // ---------------------------------------------------------------------------

  lemma {:induction false} AlnumLoweredEmpty(s: string)
    ensures AlnumLowered(s) == [] <==> forall i :: 0 <= i < |s| ==> !IsAsciiAlnum(s[i])
    decreases |s|
  {
    if |s| > 0 {
      AlnumLoweredEmpty(s[1..]);
      if !IsAsciiAlnum(s[0]) {
        forall i | 0 < i < |s| ensures s[i] == s[1..][i - 1] { }
      }
    }
  }

  lemma {:induction false} RemoveDashesEmpty(s: string)
    ensures RemoveDashes(s) == [] <==> forall i :: 0 <= i < |s| ==> s[i] == '-'
    decreases |s|
  {
    if |s| > 0 {
      RemoveDashesEmpty(s[1..]);
      if s[0] == '-' {
        forall i | 0 < i < |s| ensures s[i] == s[1..][i - 1] { }
      }
    }
  }

  /** The id is empty exactly when the name has no ASCII letter or digit. */
  lemma GenerateIdEmptyIff(name: string)
    ensures GenerateId(name) == [] <==> forall i :: 0 <= i < |name| ==> !IsAsciiAlnum(name[i])
  {
    var id := GenerateId(name);
    AlnumLoweredEmpty(name);
    RemoveDashesEmpty(id);
  }

  /** A slug passes through `generateId` unchanged. */
  lemma GenerateIdFixesSlugs(t: string)
    requires IsSlug(t)
    ensures GenerateId(t) == t
  {
    assert ToLowerCase(t) == t;
    assert MaskNonAlnum(t) == t;
    CollapseIdentity(t);
    TrimIdentity(t);
  }

  /** The fixed points of `generateId` are exactly the slugs. */
  lemma GenerateIdFixpointIff(t: string)
    ensures GenerateId(t) == t <==> IsSlug(t)
  {
    if IsSlug(t) {
      GenerateIdFixesSlugs(t);
    }
  }

  /** `generateId(generateId(s)) == generateId(s)` */
  lemma GenerateIdIdempotent(name: string)
    ensures GenerateId(GenerateId(name)) == GenerateId(name)
  {
    GenerateIdFixesSlugs(GenerateId(name));
  }

  // ---------------------------------------------------------------------------
  // An independent description of the id, character by character, and the
  // proof that generateId agrees with it.
  // ---------------------------------------------------------------------------

  /**
   * An independent, character-by-character description of the id: a
   * character that is not an ASCII letter or digit contributes nothing by
   * itself; a letter or digit contributes itself, lower-cased, followed by a
   * single '-' when a separator comes next and more of the id follows.
   */
  function IdSpec(name: string): string
    decreases |name|
  {
    if |name| == 0 then []
    else if !IsAsciiAlnum(name[0]) then IdSpec(name[1..])
    else
      var rest := IdSpec(name[1..]);
      [LowerChar(name[0])] + (if |name| > 1 && !IsAsciiAlnum(name[1]) && rest != [] then "-" else "") + rest
  }

  /** Masking works character by character. */
  lemma MaskedCons(name: string)
    requires |name| > 0
    ensures Masked(name) == [if IsAsciiAlnum(name[0]) then LowerChar(name[0]) else '-'] + Masked(name[1..])
    ensures IsAsciiAlnum(name[0]) ==> LowerChar(name[0]) != '-'
  {
  }

  /** A letter or digit in front of a non-empty string is kept as it is by the collapse. */
  lemma CollapseCons(m: char, y: string)
    requires m != '-' && |y| > 0
    ensures CollapseDashes([m] + y) == [m] + CollapseDashes(y)
  {
  }

  /** Trimming a string that starts with a letter or digit only drops a trailing '-'. */
  lemma TrimAfterLetter(m: char, z: string)
    requires m != '-' && |z| > 0
    ensures TrimDashes([m] + z) == [m] + DropTrailingDash(z)
  {
  }

  /**
   * For a dash-collapsed string that starts with '-', dropping the trailing
   * dash keeps that leading '-' exactly when something remains after trimming.
   */
  lemma DashLedTrim(z: string)
    requires |z| > 0 && z[0] == '-' && NoDoubleDash(z)
    ensures DropTrailingDash(z) == if TrimDashes(z) == [] then [] else "-" + TrimDashes(z)
  {
  }

  /** A '-' in front does not change the result of the last two steps. */
  lemma CollapseAndTrimSkipsDash(y: string)
    ensures CollapseAndTrim("-" + y) == CollapseAndTrim(y)
  {
  }

  /**
   * A letter or digit in front is kept, followed by a '-' when `y` starts
   * with one and something remains of `y`.
   */
  lemma CollapseAndTrimKeepsLetter(m: char, y: string)
    requires m != '-'
    ensures var rest := CollapseAndTrim(y);
      CollapseAndTrim([m] + y) == [m] + (if |y| > 0 && y[0] == '-' && rest != [] then "-" else "") + rest
  {
    if |y| > 0 {
      var z := CollapseDashes(y);
      CollapseCons(m, y);
      CollapseKeepsEnds(y);
      TrimAfterLetter(m, z);
      assert CollapseAndTrim([m] + y) == [m] + DropTrailingDash(z);
      assert CollapseAndTrim(y) == TrimDashes(z);
      if y[0] == '-' {
        CollapseNoDoubleDash(y);
        DashLedTrim(z);
      } else {
        assert DropLeadingDash(z) == z;
      }
    } else {
      assert [m] + y == [m];
    }
  }

  /** A leading separator does not change the id. */
  lemma GenerateIdSkipsSeparator(name: string)
    requires |name| > 0 && !IsAsciiAlnum(name[0])
    ensures GenerateId(name) == GenerateId(name[1..])
  {
    MaskedCons(name);
    CollapseAndTrimSkipsDash(Masked(name[1..]));
  }

  /** A leading letter or digit is lowered and prepended, with a '-' when a separator and more id follow. */
  lemma GenerateIdPrependsAlnum(name: string)
    requires |name| > 0 && IsAsciiAlnum(name[0])
    ensures var rest := GenerateId(name[1..]);
      GenerateId(name)
      == [LowerChar(name[0])] + (if |name| > 1 && !IsAsciiAlnum(name[1]) && rest != [] then "-" else "") + rest
  {
    MaskedCons(name);
    if |name| > 1 {
      MaskedCons(name[1..]);
    }
    CollapseAndTrimKeepsLetter(LowerChar(name[0]), Masked(name[1..]));
  }

  /** `generateId` agrees with the character-by-character description on every name. */
  lemma {:induction false} GenerateIdMatchesSpec(name: string)
    ensures GenerateId(name) == IdSpec(name)
    decreases |name|
  {
    if |name| > 0 {
      GenerateIdMatchesSpec(name[1..]);
      if IsAsciiAlnum(name[0]) {
        GenerateIdPrependsAlnum(name);
      } else {
        GenerateIdSkipsSeparator(name);
      }
    }
  }

  // ---------------------------------------------------------------------------
  // convertWordList: the object literal built from the parsed input record.
  // ---------------------------------------------------------------------------

  /** One loosely shaped input word: every field may be missing. */
  datatype InputWord = InputWord(
    id: Option<string>,
    tajik: Option<string>,
    tajikWord: Option<string>,       // `tajik_word`
    word: Option<string>,
    english: Option<string>,
    englishWord: Option<string>,     // `english_word`
    translation: Option<string>,
    transliteration: Option<string>,
    translit: Option<string>,
    category: Option<string>)

  /** The parsed input file. `words` is `None` when the field is missing. */
  datatype InputList = InputList(
    id: Option<string>,
    name: Option<string>,
    description: Option<string>,
    difficulty: Option<string>,
    words: Option<seq<InputWord>>)

  /** A converted word; `None` in `transliteration` and `category` is `null`. */
  datatype ConvertedWord = ConvertedWord(
    id: string,
    tajik: Option<string>,
    english: Option<string>,
    transliteration: Option<string>,
    category: Option<string>)

  datatype ConvertedList = ConvertedList(
    id: string,
    name: string,
    description: string,
    difficulty: string,
    words: seq<ConvertedWord>)

  const DefaultIdSeed: string := "word-list"
  const DefaultName: string := "Imported Word List"
  const DefaultDescription: string := "Words imported from external source"
  const DefaultDifficulty: string := "beginner"

  /** JavaScript truthiness of an optional string: present and not empty. */
  predicate Truthy(v: Option<string>) { v.Some? && v.value != "" }

  /** `a || b`: `a` when it is truthy, else `b`; truthy when either operand is. */
  function Or(a: Option<string>, b: Option<string>): (r: Option<string>)
    ensures r == a || r == b
    ensures Truthy(a) ==> r == a
    ensures Truthy(r) <==> Truthy(a) || Truthy(b)
  {
    if Truthy(a) then a else b
  }

  /** `a || d` for a string default `d`: `a` when it is truthy, else `d`. */
  function OrDefault(a: Option<string>, d: string): (r: string)
    ensures r == d || Some(r) == a
    ensures Truthy(a) ==> r == a.value
    ensures r != "" <==> Truthy(a) || d != ""
  {
    if Truthy(a) then a.value else d
  }

  /** The object built for the word at position `index` of `inputData.words`. */
  function ConvertWord(w: InputWord, index: nat): (r: ConvertedWord)
    ensures r.id != ""
    ensures Truthy(w.id) ==> r.id == w.id.value
    ensures !Truthy(w.id) ==> IsCanonicalNumeral(r.id) && DecimalValue(r.id) == index + 1
    ensures Truthy(w.tajik) ==> r.tajik == w.tajik
    ensures !Truthy(w.tajik) && Truthy(w.tajikWord) ==> r.tajik == w.tajikWord
    ensures !Truthy(w.tajik) && !Truthy(w.tajikWord) ==> r.tajik == w.word
    ensures Truthy(w.english) ==> r.english == w.english
    ensures !Truthy(w.english) && Truthy(w.englishWord) ==> r.english == w.englishWord
    ensures !Truthy(w.english) && !Truthy(w.englishWord) ==> r.english == w.translation
    ensures Truthy(w.transliteration) ==> r.transliteration == w.transliteration
    ensures !Truthy(w.transliteration) && Truthy(w.translit) ==> r.transliteration == w.translit
    ensures r.transliteration == None || Truthy(r.transliteration)
    ensures r.transliteration == None <==> !Truthy(w.transliteration) && !Truthy(w.translit)
    ensures r.category == None || r.category == w.category
    ensures r.category == None <==> !Truthy(w.category)
  {
    DecimalRoundTrip(index + 1);
    ConvertedWord(
      id := OrDefault(w.id, DecimalString(index + 1)),
      tajik := Or(w.tajik, Or(w.tajikWord, w.word)),
      english := Or(w.english, Or(w.englishWord, w.translation)),
      transliteration := Or(w.transliteration, Or(w.translit, None)),
      category := Or(w.category, None))
  }

  /** `inputData.words.map(...)` */
  function ConvertWords(words: seq<InputWord>): (r: seq<ConvertedWord>)
    ensures |r| == |words|
    ensures forall i :: 0 <= i < |words| ==> r[i] == ConvertWord(words[i], i)
  {
    seq(|words|, i requires 0 <= i < |words| => ConvertWord(words[i], i))
  }

  /** `inputData.id || generateId(inputData.name || 'word-list')` */
  function ListId(input: InputList): string {
    OrDefault(input.id, GenerateId(OrDefault(input.name, DefaultIdSeed)))
  }

  /**
   * The converted list, or `None` when `inputData.words` is missing (the
   * `.map` call throws; the script reports the error and exits with status 1).
   */
  function ConvertWordList(input: InputList): (r: Option<ConvertedList>)
    ensures r.None? <==> input.words.None?
    ensures r.Some? ==>
      && (Truthy(input.id) ==> r.value.id == input.id.value)
      && (!Truthy(input.id) ==> r.value.id == GenerateId(OrDefault(input.name, DefaultIdSeed)))
      && (Truthy(input.name) ==> r.value.name == input.name.value)
      && (!Truthy(input.name) ==> r.value.name == DefaultName)
      && (Truthy(input.description) ==> r.value.description == input.description.value)
      && (!Truthy(input.description) ==> r.value.description == DefaultDescription)
      && (Truthy(input.difficulty) ==> r.value.difficulty == input.difficulty.value)
      && (!Truthy(input.difficulty) ==> r.value.difficulty == DefaultDifficulty)
    ensures r.Some? ==>
      && |r.value.words| == |input.words.value|
      && forall i :: 0 <= i < |r.value.words| ==> r.value.words[i] == ConvertWord(input.words.value[i], i)
  {
    match input.words
    case None => None
    case Some(words) =>
      Some(ConvertedList(
        id := ListId(input),
        name := OrDefault(input.name, DefaultName),
        description := OrDefault(input.description, DefaultDescription),
        difficulty := OrDefault(input.difficulty, DefaultDifficulty),
        words := ConvertWords(words)))
  }

  lemma DefaultIdSeedIsSlug()
    ensures IsSlug(DefaultIdSeed)
  {
  }

  /**
   * Without a truthy `id` in the input, the list id is a slug, and it is
   * "word-list" when the name is missing or empty too.
   */
  lemma ConvertedListId(input: InputList)
    requires input.words.Some? && !Truthy(input.id)
    ensures IsSlug(ConvertWordList(input).value.id)
    ensures !Truthy(input.name) ==> ConvertWordList(input).value.id == DefaultIdSeed
  {
    if !Truthy(input.name) {
      DefaultIdSeedIsSlug();
      GenerateIdFixesSlugs(DefaultIdSeed);
    }
  }

  /** When no input word carries an id, the converted words' ids are pairwise distinct. */
  lemma ConvertedDefaultIdsDistinct(input: InputList, i: nat, j: nat)
    requires input.words.Some?
    requires forall k :: 0 <= k < |input.words.value| ==> !Truthy(input.words.value[k].id)
    requires i < j < |input.words.value|
    ensures ConvertWordList(input).value.words[i].id != ConvertWordList(input).value.words[j].id
  {
  }
}
