/** The records the reader page works with: chapters (surahs), merged verses,
    the two display languages and their translation editions, and the
    already-decoded ayah records the text and translation endpoints return. */
module Quran {

  /** One entry of the chapter catalogue. */
  datatype Surah = Surah(
    number: nat,
    name: string,
    englishName: string,
    englishNameTranslation: string,
    numberOfAyahs: nat)

  datatype Translations = Translations(en: string, id: string)

  /** A verse as the page renders it. `number` is the position within the
      chapter (1-based); `audio` is the recitation URL. */
  datatype Verse = Verse(number: nat, text: string, translations: Translations, audio: string)

  /** An ayah of the Arabic text response: `number` is the global ayah
      number across the whole book, `numberInSurah` the position in the chapter. */
  datatype ArabicAyah = ArabicAyah(number: nat, numberInSurah: nat, text: string)

  /** An ayah of a translation response; only its text is used. */
  datatype TranslatedAyah = TranslatedAyah(text: string)

  datatype Language = En | Id

  function Code(lang: Language): string {
    match lang
    case En => "en"
    case Id => "id"
  }

  /** The translation edition fetched for each language. */
  function Edition(lang: Language): (e: string)
    ensures |e| > |Code(lang)| && e[..|Code(lang)| + 1] == Code(lang) + "."
  {
    match lang
    case En => "en.sahih"
    case Id => "id.indonesian"
  }

  /** The translation shown for the chosen display language. */
  function TranslationIn(t: Translations, lang: Language): string {
    match lang
    case En => t.en
    case Id => t.id
  }

  /** The page's working assumption about a loaded chapter: verse i (0-based)
      carries number i + 1, so a verse number minus one is its position. */
  ghost predicate WellNumbered(verses: seq<Verse>) {
    forall i :: 0 <= i < |verses| ==> verses[i].number == i + 1
  }
}
