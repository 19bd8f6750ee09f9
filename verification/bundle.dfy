/** Building a chapter's verse list from the three decoded responses (Arabic
    text, English and Indonesian translations), the recitation URL of each
    verse, and the bookkeeping of per-verse element references. */
module Bundle {
  import opened Wrappers
  import opened Quran
  import Decimal

  const AudioPrefix: string := "https://cdn.islamic.network/quran/audio/128/ar.alafasy/"
  const AudioSuffix: string := ".mp3"

  /** The recitation URL of the ayah with global number `n`. */
  function AudioUrl(n: nat): (u: string)
    ensures |u| > |AudioPrefix| + |AudioSuffix|
    ensures u[..|AudioPrefix|] == AudioPrefix
    ensures u[|u| - |AudioSuffix|..] == AudioSuffix
  {
    AudioPrefix + Decimal.FromNat(n) + AudioSuffix
  }

  /** Reads the global ayah number back out of a recitation URL; None for
      any string that is not exactly prefix, canonical decimal, suffix. */
  function ParseAudioUrl(u: string): Option<nat> {
    if |u| > |AudioPrefix| + |AudioSuffix|
       && u[..|AudioPrefix|] == AudioPrefix
       && u[|u| - |AudioSuffix|..] == AudioSuffix
       && Decimal.Canonical(u[|AudioPrefix|..|u| - |AudioSuffix|])
    then Some(Decimal.Value(u[|AudioPrefix|..|u| - |AudioSuffix|]))
    else None
  }

  /** The URL determines the global ayah number it was built from. */
  lemma AudioUrlRoundTrip(n: nat)
    ensures ParseAudioUrl(AudioUrl(n)) == Some(n)
  {
    var u := AudioUrl(n);
    assert u[|AudioPrefix|..|u| - |AudioSuffix|] == Decimal.FromNat(n);
    Decimal.ValueOfFromNat(n);
  }

  /** Every URL that reads back as `n` is the URL built for `n`: the
      template depends on the global number and on nothing else. */
  lemma ParseAudioUrlSound(u: string, n: nat)
    requires ParseAudioUrl(u) == Some(n)
    ensures u == AudioUrl(n)
  {
    var mid := u[|AudioPrefix|..|u| - |AudioSuffix|];
    Decimal.FromNatOfValue(mid);
    assert u == u[..|AudioPrefix|] + mid + u[|u| - |AudioSuffix|..];
  }

  /** Distinct ayahs never share a recitation URL. */
  lemma AudioUrlInjective(a: nat, b: nat)
    requires AudioUrl(a) == AudioUrl(b)
    ensures a == b
  {
    AudioUrlRoundTrip(a);
    AudioUrlRoundTrip(b);
  }

  /** One merged verse from the ayahs at the same index of the three responses. */
  function CombineVerse(a: ArabicAyah, en: TranslatedAyah, id: TranslatedAyah): Verse {
    Verse(a.numberInSurah, a.text, Translations(en.text, id.text), AudioUrl(a.number))
  }

  /** Index-wise merging only reads translation entries that exist when both
      translations have at least as many entries as the Arabic text. */
  predicate Aligned(ar: seq<ArabicAyah>, en: seq<TranslatedAyah>, id: seq<TranslatedAyah>) {
    |en| >= |ar| && |id| >= |ar|
  }

  /** The verse list of a chapter: one verse per Arabic ayah, in order. */
  function Merge(ar: seq<ArabicAyah>, en: seq<TranslatedAyah>, id: seq<TranslatedAyah>): (vs: seq<Verse>)
    requires Aligned(ar, en, id)
    ensures |vs| == |ar|
    ensures forall i :: 0 <= i < |vs| ==>
      && vs[i].number == ar[i].numberInSurah
      && vs[i].text == ar[i].text
      && vs[i].translations.en == en[i].text
      && vs[i].translations.id == id[i].text
      && vs[i].audio == AudioUrl(ar[i].number)
    decreases |ar|
  {
    if |ar| == 0 then []
    else [CombineVerse(ar[0], en[0], id[0])] + Merge(ar[1..], en[1..], id[1..])
  }

  /** Each merged verse's URL recovers the global number of its Arabic ayah. */
  lemma MergeAudioNamesAyah(ar: seq<ArabicAyah>, en: seq<TranslatedAyah>, id: seq<TranslatedAyah>, i: nat)
    requires Aligned(ar, en, id)
    requires i < |ar|
    ensures ParseAudioUrl(Merge(ar, en, id)[i].audio) == Some(ar[i].number)
  {
    AudioUrlRoundTrip(ar[i].number);
  }

  /** Translation entries past the Arabic length never reach the verse list. */
  lemma MergeIgnoresSurplus(
    ar: seq<ArabicAyah>, en: seq<TranslatedAyah>, id: seq<TranslatedAyah>,
    moreEn: seq<TranslatedAyah>, moreId: seq<TranslatedAyah>)
    requires Aligned(ar, en, id)
    ensures Merge(ar, en + moreEn, id + moreId) == Merge(ar, en, id)
  {
  }

  /** The translation shown under merged verse i in either display language
      is entry i of that language's translation response. */
  lemma ShownTranslation(ar: seq<ArabicAyah>, en: seq<TranslatedAyah>, id: seq<TranslatedAyah>, i: nat, lang: Language)
    requires Aligned(ar, en, id) && i < |ar|
    ensures TranslationIn(Merge(ar, en, id)[i].translations, lang) == (if lang == En then en[i] else id[i]).text
  {
  }

  /** Chapters whose Arabic ayahs are numbered 1, 2, ... yield verses numbered the same way. */
  lemma MergeWellNumbered(ar: seq<ArabicAyah>, en: seq<TranslatedAyah>, id: seq<TranslatedAyah>)
    requires Aligned(ar, en, id)
    requires forall i :: 0 <= i < |ar| ==> ar[i].numberInSurah == i + 1
    ensures WellNumbered(Merge(ar, en, id))
  {
  }

  /** Reading entry `i` of one of the translations goes past its end. */
  predicate MissingAt(i: int, en: seq<TranslatedAyah>, id: seq<TranslatedAyah>) {
    i >= |en| || i >= |id|
  }

  /** The merge as the page runs it: when the map over the Arabic ayahs
      reads a translation entry that does not exist, `.text` of `undefined`
      throws and no verse list results. */
  function TryMerge(ar: seq<ArabicAyah>, en: seq<TranslatedAyah>, id: seq<TranslatedAyah>): (r: Option<seq<Verse>>)
    ensures r.None? <==> exists i :: 0 <= i < |ar| && MissingAt(i, en, id)
    ensures r.Some? <==> Aligned(ar, en, id)
    ensures r.Some? ==> r.value == Merge(ar, en, id)
  {
    if Aligned(ar, en, id) then Some(Merge(ar, en, id))
    else
      assert MissingAt(if |en| < |ar| then |en| else |id|, en, id);
      None
  }

  /** `slice(0, n)` of the element-reference list: the first `n` entries,
      or the whole list when it is shorter. */
  function TruncateRefs<T>(refs: seq<T>, n: nat): (r: seq<T>)
    ensures |r| <= n && |r| <= |refs|
    ensures |r| == n || |r| == |refs|
    ensures forall i :: 0 <= i < |r| ==> r[i] == refs[i]
  {
    if n <= |refs| then refs[..n] else refs
  }

  /** The per-card reference callbacks after a render of `n` verses: the
      entries 0 .. n-1 are set (to a mounted element), the rest are kept. */
  function MountRefs(refs: seq<bool>, n: nat): (r: seq<bool>)
    ensures |r| == if n <= |refs| then |refs| else n
    ensures forall i :: 0 <= i < n ==> r[i]
    ensures forall i :: n <= i < |refs| ==> r[i] == refs[i]
  {
    var len := if n <= |refs| then |refs| else n;
    seq(len, i requires 0 <= i < len => if i < n then true else refs[i])
  }

  /** After a load of `n` verses and the render that follows it, exactly the
      positions 0 .. n-1 hold an element. */
  lemma RefsAfterLoad(refs: seq<bool>, n: nat)
    ensures |MountRefs(TruncateRefs(refs, n), n)| == n
    ensures forall i :: 0 <= i < n ==> MountRefs(TruncateRefs(refs, n), n)[i]
  {
  }
}
