# E-Tarteel reader page — Dafny model

E-Tarteel is a single-page Quran reader. For a chosen chapter (surah) it shows
each verse (ayah) in Arabic with an English or Indonesian translation, and it
plays each verse's recitation. With auto-scroll on, it brings the playing
verse into view and moves on to the next verse when a recitation ends. All
of its logic lives in the `Home` component of `app/page.tsx`. This project
pulls that logic out as pure functions and proves properties about them:

- `Quran` (`quran.dfy`): the records. These are `Surah`, `Verse`, the decoded
  ayah records of the Arabic and translation responses, the two display
  languages, and their translation editions.
- `Decimal` (`decimal.dfy`): how a template literal renders an integral
  number in decimal, and the reading back of such a rendering.
- `Bundle` (`bundle.dfy`): the verse-bundle merge.
  - It zips the Arabic ayahs with the two translations by index into `Verse`
    records.
  - It builds each recitation URL from the fixed CDN template and the ayah's
    global number.
  - It keeps the list of per-verse element references: `slice(0, n)` after a
    load, and the ref callbacks of the render that follows.
- `Playback` (`playback.dfy`): the playback controller as a reducer over an
  immutable `State`. Transitions are `Toggle` (`handleAudioPlay`),
  `Completion` (the `onended` closure), `ChapterChange` (the effect on the
  selected chapter), `Load` (arrival of the three responses), `Render` and
  `SetAutoScroll`. Scroll-into-view calls are emitted verse numbers.
- `Scenarios` (`scenarios.dfy`): properties that span several transitions.
  These cover the auto-advance chain, chapter changes and the auto-scroll
  switch during a chain, and the defect listed under Findings.
- `Wrappers` (`wrappers.dfy`): `Option`.

Modelling decisions:

- **Audio elements.** The audio element held in `audioRef` is the last entry
  of `State.audios`. That list holds every element the page has created. An
  element that has been replaced is kept in the list, paused, so that "at
  most one element plays" can be stated at all. Its URL is fixed when it is
  created.
- **The `onended` closure.** It is not read from the "current" state.
  `handleAudioPlay` and the `onended` closure it installs capture
  `playingVerse`, `autoScroll` and `verses` from the render in which the
  button was pressed. The recursive call inside `onended` is that same
  captured `handleAudioPlay`. So the whole auto-advance chain decides on the
  snapshot taken at the press. Each `Handle` carries this snapshot explicitly
  (`onEnded: Env`), and `Toggle` takes the snapshot as a parameter.
- **Verse numbering.** Verse numbers are positions: a loaded chapter has
  `verses[i].number == i + 1` (`WellNumbered`). This is an assumption of the
  page, and the lemmas that need it state it as a precondition.
  `MergeWellNumbered` derives it from the ayahs' `numberInSurah`.

Two facts about the code that the model follows:

- The page never checks that the three responses have the same length. It
  reads only translation entries `0 .. |arabic|-1`. Longer translations are
  harmless (`MergeIgnoresSurplus`). A shorter one throws inside the promise
  callback, and no state changes (`TryMerge`, `Load`).
- Auto-advance tests the auto-scroll flag captured at the press, not the
  current one (`Scenarios.ChainIgnoresAutoScrollSwitch`).

## Model

| member | source | states |
|---|---|---|
| Quran.Edition | app/page.tsx:47-52 | Data: the table of translation editions, one per display language. Each edition name starts with its language's code and a dot. |
| Decimal.FromNat | app/page.tsx:102 | Rendering a global ayah number gives a non-empty digit string with no leading zero; a positive number never starts with '0'. |
| Decimal.ValueOfFromNat | app/page.tsx:102 | Reading back a rendered number gives the number that was rendered. |
| Decimal.FromNatOfValue | app/page.tsx:102 | Every canonical digit string is the rendering of its value, so rendering is a bijection onto canonical digit strings. |
| Bundle.AudioUrl | app/page.tsx:102 | A recitation URL is the fixed CDN prefix, then digits, then `.mp3`. |
| Bundle.AudioUrlRoundTrip | app/page.tsx:102 | The global ayah number can be read back from its recitation URL. |
| Bundle.ParseAudioUrlSound | app/page.tsx:102 | Every URL that reads back as `n` is exactly the URL built for `n`, so the URL depends on the global number and nothing else. |
| Bundle.AudioUrlInjective | app/page.tsx:102 | Two ayahs with different global numbers never share a recitation URL. |
| Bundle.Merge | app/page.tsx:94-104 | The verse list has one verse per Arabic ayah. Verse i takes its number from ayah i's `numberInSurah`, its text from ayah i, its translations from entry i of each translation, and its URL from ayah i's global number. It is defined only when both translations are at least as long as the Arabic text. |
| Bundle.MergeAudioNamesAyah | app/page.tsx:102 | Each merged verse's URL reads back as the global number of the Arabic ayah at the same position. |
| Bundle.ShownTranslation | app/page.tsx:99-100 | The translation shown under merged verse i is entry i of the English response when the display language is `en`, and entry i of the Indonesian response when it is `id`. This is the lookup at line 266. |
| Bundle.MergeIgnoresSurplus | app/page.tsx:99-100 | Translation entries past the Arabic length never affect the verse list. |
| Bundle.MergeWellNumbered | app/page.tsx:96 | Ayahs numbered 1, 2, ... within the chapter give verses numbered 1, 2, ..., so a verse number minus one is its position. |
| Bundle.TryMerge | app/page.tsx:94-105 | There is no verse list exactly when, for some Arabic position i, entry i of a translation does not exist, so that the read of its `.text` at lines 99-100 throws. Equivalently, the merge succeeds exactly when neither translation is shorter than the Arabic text, and then the result is the merged list. |
| Bundle.TruncateRefs | app/page.tsx:107 | After a load, the reference list is a prefix of the old one and no longer than the new verse count. Its length is the new count, or the old length when that is smaller. |
| Bundle.MountRefs | app/page.tsx:229-232 | After a render of n cards, positions 0 .. n-1 hold an element and later entries are unchanged. |
| Bundle.RefsAfterLoad | app/page.tsx:107 | After a load of n verses and the render that follows, the reference list has exactly n entries, and all of them hold an element. |
| Playback.PauseCurrent | app/page.tsx:79-80 | Pausing the current element creates and removes nothing, changes only the current element, and leaves no element playing at the current position. |
| Playback.Toggle | app/page.tsx:111-141 | Pressing the verse that the snapshot says is playing pauses the current element and leaves every other element as it was, clears the playing verse, creates no element and requests no scroll. Pressing any other verse does four things. It pauses the previous element, leaves every earlier element as it was, and appends exactly one new playing element bound to the given URL. It makes that verse the playing one. It requests a scroll to that verse exactly when the snapshot's auto-scroll flag is on and an element is mounted at position v-1. |
| Playback.Click | app/page.tsx:249-251 | Pressing the playing verse's button stops playback. Pressing any other verse's button makes it the playing verse, with a playing element holding that verse's URL. |
| Playback.Completion | app/page.tsx:133-139 | When the playing element ends, the playing verse is cleared and that element paused first; no other existing element changes in any branch. If the captured flag is on and v < the captured verse count, the next verse v+1 starts with the URL at position v, and a scroll is requested exactly when position v is mounted. Otherwise nothing further starts. If the captured snapshot says v+1 is playing, nothing starts. An element that is not playing never ends. |
| Playback.CompletionFixed | app/page.tsx:133-138 | The corrected completion starts verse v+1 with the URL at position v whenever the captured flag is on and v < the captured verse count. Otherwise playback stops. |
| Playback.ChapterChange | app/page.tsx:76-81 | A chapter change clears the playing verse and pauses the current element, leaving every other element as it was, before the new requests are sent. It creates no element and keeps the verses and references. |
| Playback.Load | app/page.tsx:93-107 | When the responses arrive and neither translation is shorter than the Arabic text, the verse list becomes the merge and the references are truncated to it. Otherwise the state is unchanged. Playback is untouched either way. |
| Playback.Render | app/page.tsx:229-232 | After a render, every verse 1 .. |verses| has a mounted element to scroll to. |
| Playback.SetAutoScroll | app/page.tsx:174-178 | The switch sets the flag that later renders see and changes nothing else: no element, no playing verse, no verse list, no references. |
| Playback.ToggleKeepsInv | app/page.tsx:120-131 | A press, from any render, keeps the invariant: at most one element plays, and the playing verse is set exactly when an element plays, and equals that element's verse. |
| Playback.CompletionKeepsInv | app/page.tsx:133-139 | The end of a recitation, with or without auto-advance, keeps the same invariant. |
| Playback.CompletionFixedKeepsInv | app/page.tsx:133-138 | The corrected completion keeps the same invariant, and before starting the next verse it only pauses the element that ended. |
| Playback.RunKeepsInv | app/page.tsx:76-141 | Every sequence of presses, ends, chapter changes, loads, renders and switch changes keeps the invariant. |
| Playback.ReachableInv | app/page.tsx:59-63 | Every state reachable from the first render satisfies the invariant. |
| Scenarios.ChainPlaysThrough | app/page.tsx:133-138 | A chain starts at verse k with the captured flag on. Suppose the snapshot does not name any of the verses k+1 .. k+j as playing. Then after j ends the page plays verse k+j, with the URL at position k+j-1, as long as that verse exists. |
| Scenarios.ChainStopsAfterLastVerse | app/page.tsx:135 | Once the chapter's last verse ends, nothing plays and the chain is over. |
| Scenarios.NoAdvanceWithoutAutoScroll | app/page.tsx:134-135 | With the captured flag off, an end stops playback and creates no element. |
| Scenarios.ChapterChangeEndsChain | app/page.tsx:76-81 | After a chapter change no element is playing, so no end can fire and the old chapter's chain cannot continue. |
| Scenarios.ChainIgnoresAutoScrollSwitch | app/page.tsx:133-139 | Switching auto-scroll on or off does not change what an end does, because the closure decides on the captured flag. |
| Scenarios.ThreeVerseSession | app/page.tsx:120-141 | A chapter has three verses and auto-scroll is on. Pressing verse 1 plays it, its end plays verse 2, and pressing verse 2 then stops playback with nothing playing. |
| Scenarios.StaleSnapshotStopsChainAt | app/page.tsx:121-137 | A chain starts at verse k with the captured flag on, and its snapshot names a later verse k+j+1 of the chapter as playing. Then it plays k+1 .. k+j, and when verse k+j ends playback stops with nothing playing. |
| Scenarios.StaleEndStops | app/page.tsx:133-137 | One end whose captured snapshot names the next verse as playing leaves nothing playing. |
| Scenarios.StaleSnapshotStopsChain | app/page.tsx:121-137 | Verse 3 is playing and the user presses verse 2. When verse 2 ends, playback stops instead of moving on to verse 3. |
| Scenarios.FixedCompletionContinues | app/page.tsx:133-138 | With the corrected completion, the same presses play verse 3 after verse 2, with verse 3's URL. |
| Scenarios.FixedEndAdvances | app/page.tsx:133-138 | Under the corrected completion, one end with the captured flag on and a next verse in the captured list starts that verse, with the URL at the current verse's position. |
| Scenarios.FixedChainPlaysThrough | app/page.tsx:133-138 | With the corrected completion, a chain from any verse k with the captured flag on plays k+1, k+2, ... up to the last verse, whatever the snapshot said. |

## Left out

- Network requests and JSON decoding (app/page.tsx:67-74, 83-93): these are
  I/O against an external API. `Load` takes the three already-decoded ayah
  sequences as inputs. The chapter catalogue (`Surah`) is only a datatype,
  since loading it involves no logic.
- The `loading` flag: it is set before the fetch and cleared after it, and it
  is never cleared on a failed request. This is network-failure behaviour
  with nothing to verify.
- Real audio playback (`new Audio`, `play()`, its rejected promise, media
  errors) and `scrollIntoView`: these are browser APIs. They are modelled as
  an abstract element with a playing flag and as emitted verse numbers.
- Rendering, theme switching, the language and chapter selectors, and
  styling: these are presentation only. The one exception is the
  translation choice at line 266 (`TranslationIn`, stated by `Bundle.ShownTranslation`). When the spinner replaces
  the cards during a load, React calls the cards' ref callbacks with `null`;
  that unmounting is not modelled.
- React's batching and scheduling of state updates: each transition is one
  atomic update. The values a closure captured are explicit parameters or
  fields.
- Decimal.FromNat: renders every natural number in plain decimal. A
  JavaScript number switches to exponent notation from 10^21 and loses
  integer precision above 2^53. Global ayah numbers stay far below both
  limits.

## Findings

| source | as written | input that shows it | evidently intended | confidence | as-written member | corrected member |
|---|---|---|---|---|---|---|
| app/page.tsx:121-137 | The auto-advance in `onended` calls the `handleAudioPlay` of the render where the button was pressed. That handler's "already playing" test reads the `playingVerse` of that render, not the value just cleared at line 134. | Verse 3 of a chapter with at least 3 verses is playing, and auto-scroll is on. The user presses verse 2; that render still has `playingVerse == 3`. When verse 2 ends, `handleAudioPlay(3, …)` sees `3 === 3`, pauses, and clears the playing verse, so the chain stops. | When verse 2 ends, the chain moves on to verse 3, as it does from any other starting point. | not executed; high — follows from JavaScript closure semantics | Scenarios.StaleSnapshotStopsChainAt | Playback.CompletionFixed |
