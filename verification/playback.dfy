/** The page's playback controller as a reducer: an immutable state and pure
    transition functions for a verse button press (Toggle), the end of a
    recitation (Completion), a chapter change, the arrival of a chapter's
    verses, and the auto-scroll switch.

    The audio element the page keeps in a ref is modelled as the last entry
    of `audios`, the list of every element the page has created, in creation
    order; earlier entries are elements the page has let go of (after pausing
    them). A scroll-into-view call is an emitted verse number, not a DOM call. */
module Playback {
  import opened Wrappers
  import opened Quran
  import Bundle

  /** What one render of the page captures in its event-handler closures:
      the playing verse, the auto-scroll flag and the verse list as they were
      in that render. */
  datatype Env = Env(playingVerse: Option<nat>, autoScroll: bool, verses: seq<Verse>)

  /** An audio element. `verse` and `onEnded` are what its `onended` closure
      captured: the verse number it was started for and the render snapshot
      of the handler that created it. */
  datatype Handle = Handle(url: string, playing: bool, verse: nat, onEnded: Env)

  datatype State = State(
    playingVerse: Option<nat>,
    autoScroll: bool,
    verses: seq<Verse>,
    refs: seq<bool>,       // per-position element references: true when an element is mounted
    audios: seq<Handle>)   // every audio element created so far; the last is the current one

  /** A transition's new state and the verse numbers it asked to scroll into view. */
  datatype Outcome = Outcome(state: State, scrolls: seq<nat>)

  /** The page on first render: nothing playing, auto-scroll on, no verses, no audio. */
  function Initial(): State {
    State(None, true, [], [], [])
  }

  /** The closures of the latest render see the current state. */
  function Snapshot(st: State): Env {
    Env(st.playingVerse, st.autoScroll, st.verses)
  }

  function Last(audios: seq<Handle>): Handle
    requires |audios| > 0
  {
    audios[|audios| - 1]
  }

  /** The audio element the page currently holds. */
  function Current(st: State): Handle
    requires |st.audios| > 0
  {
    Last(st.audios)
  }

  /** The current audio element exists and is playing. */
  predicate Live(audios: seq<Handle>) {
    |audios| > 0 && Last(audios).playing
  }

  /** No audio element other than the current one is playing. */
  predicate AtMostOneLive(audios: seq<Handle>) {
    forall i :: 0 <= i < |audios| - 1 ==> !audios[i].playing
  }

  /** `b` holds the same elements as `a`, in the same order, with the same
      URLs and closures; only their playing flags may differ. */
  predicate SameElements(a: seq<Handle>, b: seq<Handle>) {
    && |a| == |b|
    && forall i :: 0 <= i < |a| ==> b[i] == a[i].(playing := b[i].playing)
  }

  /** The reachable-state invariant: at most one element plays, and the
      highlighted verse is exactly the verse of the playing element. */
  predicate Inv(st: State) {
    && AtMostOneLive(st.audios)
    && (st.playingVerse.Some? <==> Live(st.audios))
    && (Live(st.audios) ==> st.playingVerse == Some(Last(st.audios).verse))
  }

  lemma InitialInv()
    ensures Inv(Initial())
  {
  }

  /** `audioRef.current?.pause()`: pauses the current element, if there is one. */
  function PauseCurrent(audios: seq<Handle>): (r: seq<Handle>)
    ensures SameElements(audios, r)
    ensures !Live(r)
    ensures forall i :: 0 <= i < |r| - 1 ==> r[i] == audios[i]
  {
    if |audios| == 0 then []
    else audios[..|audios| - 1] + [Last(audios).(playing := false)]
  }

  /** Whether `scrollToVerse(v)` scrolls: auto-scroll is on (as the calling
      render saw it) and an element is mounted at position v - 1. */
  predicate ScrollsTo(autoScroll: bool, refs: seq<bool>, v: nat) {
    autoScroll && 1 <= v <= |refs| && refs[v - 1]
  }

  /** `handleAudioPlay(v, url)` as defined in the render whose snapshot is
      `env`. The already-playing test reads the snapshot, not the state. */
  function Toggle(st: State, v: nat, url: string, env: Env): (o: Outcome)
    ensures o.state.autoScroll == st.autoScroll
    ensures o.state.verses == st.verses && o.state.refs == st.refs
    // pressing the verse that is playing stops it and creates nothing
    ensures env.playingVerse == Some(v) ==>
      && o.state.playingVerse == None
      && o.state.audios == PauseCurrent(st.audios)
      && SameElements(st.audios, o.state.audios)
      && !Live(o.state.audios)
      && o.scrolls == []
    // any other verse: the old element is paused, one new element plays it
    ensures env.playingVerse != Some(v) ==>
      && o.state.playingVerse == Some(v)
      && |o.state.audios| == |st.audios| + 1
      && o.state.audios[..|st.audios|] == PauseCurrent(st.audios)
      && SameElements(st.audios, o.state.audios[..|st.audios|])
      && (forall i :: 0 <= i < |st.audios| - 1 ==> o.state.audios[i] == st.audios[i])
      && (|st.audios| > 0 ==> !o.state.audios[|st.audios| - 1].playing)
      && Last(o.state.audios) == Handle(url, true, v, env)
      && (ScrollsTo(env.autoScroll, st.refs, v) ==> o.scrolls == [v])
      && (!ScrollsTo(env.autoScroll, st.refs, v) ==> o.scrolls == [])
  {
    if env.playingVerse == Some(v) then
      Outcome(st.(playingVerse := None, audios := PauseCurrent(st.audios)), [])
    else
      var audios := PauseCurrent(st.audios) + [Handle(url, true, v, env)];
      assert audios[..|st.audios|] == PauseCurrent(st.audios);
      Outcome(st.(playingVerse := Some(v), audios := audios),
              if ScrollsTo(env.autoScroll, st.refs, v) then [v] else [])
  }

  /** The user presses the play button of the card at position `i`, in the
      latest render. */
  function Click(st: State, i: nat): (o: Outcome)
    requires i < |st.verses|
    ensures st.playingVerse == Some(st.verses[i].number) ==>
      o.state.playingVerse == None && !Live(o.state.audios)
    ensures st.playingVerse != Some(st.verses[i].number) ==>
      && o.state.playingVerse == Some(st.verses[i].number)
      && Live(o.state.audios)
      && Last(o.state.audios).url == st.verses[i].audio
  {
    Toggle(st, st.verses[i].number, st.verses[i].audio, Snapshot(st))
  }

  /** The captured closure asks for the next verse. */
  predicate Advances(h: Handle) {
    h.onEnded.autoScroll && h.verse < |h.onEnded.verses|
  }

  /** The current element reaches its end and its `onended` closure runs.
      Everything the closure decides on comes from the captured snapshot:
      the auto-scroll flag, the verse list and, through the captured
      handler, the already-playing test of the follow-up Toggle. An element
      that is not playing never ends, so then nothing happens. */
  function Completion(st: State): (o: Outcome)
    ensures !Live(st.audios) ==> o == Outcome(st, [])
    ensures Live(st.audios) && !Advances(Current(st)) ==>
      && o.state.playingVerse == None
      && o.state.audios == PauseCurrent(st.audios)
      && !Live(o.state.audios)
      && SameElements(st.audios, o.state.audios)
      && o.scrolls == []
    ensures Live(st.audios) && Advances(Current(st))
            && Current(st).onEnded.playingVerse != Some(Current(st).verse + 1) ==>
      && o.state.playingVerse == Some(Current(st).verse + 1)
      && |o.state.audios| == |st.audios| + 1
      && o.state.audios[..|st.audios|] == PauseCurrent(st.audios)
      && Last(o.state.audios) == Handle(Current(st).onEnded.verses[Current(st).verse].audio,
                                        true, Current(st).verse + 1, Current(st).onEnded)
      && (o.scrolls == [Current(st).verse + 1] <==> ScrollsTo(true, st.refs, Current(st).verse + 1))
      && (o.scrolls == [] <==> !ScrollsTo(true, st.refs, Current(st).verse + 1))
    // the captured snapshot claims the next verse is already playing: the chain stops
    ensures Live(st.audios) && Advances(Current(st))
            && Current(st).onEnded.playingVerse == Some(Current(st).verse + 1) ==>
      && o.state.playingVerse == None
      && o.state.audios == PauseCurrent(st.audios)
      && !Live(o.state.audios)
      && SameElements(st.audios, o.state.audios)
      && o.scrolls == []
    ensures o.state.autoScroll == st.autoScroll && o.state.verses == st.verses
  {
    if !Live(st.audios) then Outcome(st, [])
    else
      var h := Current(st);
      var cleared := st.(playingVerse := None, audios := PauseCurrent(st.audios));
      if Advances(h) then
        Toggle(cleared, h.verse + 1, h.onEnded.verses[h.verse].audio, h.onEnded)
      else
        Outcome(cleared, [])
  }

  /** Completion with the follow-up Toggle deciding on the playing verse as
      it stands after the clear, which is always none: auto-advance then
      starts the next verse whenever the captured flag and list allow it. */
  function CompletionFixed(st: State): (o: Outcome)
    ensures !Live(st.audios) ==> o == Outcome(st, [])
    ensures Live(st.audios) && !Advances(Current(st)) ==>
      && o.state.playingVerse == None
      && o.state.audios == PauseCurrent(st.audios)
      && !Live(o.state.audios)
      && SameElements(st.audios, o.state.audios)
    ensures Live(st.audios) && Advances(Current(st)) ==>
      && o.state.playingVerse == Some(Current(st).verse + 1)
      && |o.state.audios| == |st.audios| + 1
      && Last(o.state.audios).url == Current(st).onEnded.verses[Current(st).verse].audio
      && Last(o.state.audios).verse == Current(st).verse + 1
      && Last(o.state.audios).onEnded.autoScroll == Current(st).onEnded.autoScroll
      && Last(o.state.audios).onEnded.verses == Current(st).onEnded.verses
    ensures o.state.autoScroll == st.autoScroll && o.state.verses == st.verses
  {
    if !Live(st.audios) then Outcome(st, [])
    else
      var h := Current(st);
      var cleared := st.(playingVerse := None, audios := PauseCurrent(st.audios));
      if Advances(h) then
        Toggle(cleared, h.verse + 1, h.onEnded.verses[h.verse].audio,
               h.onEnded.(playingVerse := cleared.playingVerse))
      else
        Outcome(cleared, [])
  }

  /** The effect run when the selected chapter changes, up to the point
      where the new chapter's requests are sent. */
  function ChapterChange(st: State): (r: State)
    ensures r.playingVerse == None
    ensures !Live(r.audios)
    ensures r.audios == PauseCurrent(st.audios)
    ensures SameElements(st.audios, r.audios)
    ensures r.autoScroll == st.autoScroll && r.verses == st.verses && r.refs == st.refs
  {
    st.(playingVerse := None, audios := PauseCurrent(st.audios))
  }

  /** The three responses of the new chapter arrive. When a translation is
      shorter than the Arabic text the merge throws and nothing changes. */
  function Load(st: State, ar: seq<ArabicAyah>, en: seq<TranslatedAyah>, id: seq<TranslatedAyah>): (r: State)
    ensures Bundle.Aligned(ar, en, id) ==>
      && r.verses == Bundle.Merge(ar, en, id)
      && r.refs == Bundle.TruncateRefs(st.refs, |ar|)
      && |r.refs| <= |r.verses|
    ensures !Bundle.Aligned(ar, en, id) ==> r == st
    ensures r.playingVerse == st.playingVerse && r.audios == st.audios && r.autoScroll == st.autoScroll
  {
    match Bundle.TryMerge(ar, en, id)
    case None => st
    case Some(vs) => st.(verses := vs, refs := Bundle.TruncateRefs(st.refs, |vs|))
  }

  /** The render after a change of the verse list: every card's ref callback
      stores its element at the card's position. */
  function Render(st: State): (r: State)
    ensures forall v :: 1 <= v <= |st.verses| ==> ScrollsTo(true, r.refs, v)
    ensures r.playingVerse == st.playingVerse && r.audios == st.audios
    ensures r.autoScroll == st.autoScroll && r.verses == st.verses
  {
    st.(refs := Bundle.MountRefs(st.refs, |st.verses|))
  }

  /** The auto-scroll switch: it sets the flag later renders see and touches
      nothing else, in particular no element and no closure already captured. */
  function SetAutoScroll(st: State, on: bool): (r: State)
    ensures r.autoScroll == on
    ensures r.playingVerse == st.playingVerse && r.audios == st.audios
    ensures r.verses == st.verses && r.refs == st.refs
  {
    st.(autoScroll := on)
  }

  /** Everything that can happen to the page. */
  datatype Event =
    | Press(position: nat)
    | Ended
    | SelectChapter
    | Loaded(ar: seq<ArabicAyah>, en: seq<TranslatedAyah>, id: seq<TranslatedAyah>)
    | Rendered
    | SwitchAutoScroll(on: bool)

  function Step(st: State, e: Event): State {
    match e
    case Press(i) => if i < |st.verses| then Click(st, i).state else st
    case Ended => Completion(st).state
    case SelectChapter => ChapterChange(st)
    case Loaded(ar, en, id) => Load(st, ar, en, id)
    case Rendered => Render(st)
    case SwitchAutoScroll(on) => SetAutoScroll(st, on)
  }

  function Run(st: State, es: seq<Event>): State
    decreases |es|
  {
    if |es| == 0 then st else Run(Step(st, es[0]), es[1..])
  }

  /** A button press keeps the invariant, whatever render it came from. */
  lemma ToggleKeepsInv(st: State, v: nat, url: string, env: Env)
    requires Inv(st)
    ensures Inv(Toggle(st, v, url, env).state)
  {
  }

  lemma CompletionKeepsInv(st: State)
    requires Inv(st)
    ensures Inv(Completion(st).state)
  {
  }

  /** The corrected completion keeps the invariant too, and like the page's
      own it only pauses the element that ended before starting the next. */
  lemma CompletionFixedKeepsInv(st: State)
    requires Inv(st)
    ensures Inv(CompletionFixed(st).state)
    ensures Live(st.audios) && Advances(Current(st)) ==>
      CompletionFixed(st).state.audios[..|st.audios|] == PauseCurrent(st.audios)
  {
  }

  lemma StepKeepsInv(st: State, e: Event)
    requires Inv(st)
    ensures Inv(Step(st, e))
  {
  }

  /** In every state the page can reach, at most one audio element plays and
      the highlighted verse is the one it plays. */
  lemma {:induction false} RunKeepsInv(st: State, es: seq<Event>)
    requires Inv(st)
    ensures Inv(Run(st, es))
    decreases |es|
  {
    if |es| > 0 {
      StepKeepsInv(st, es[0]);
      RunKeepsInv(Step(st, es[0]), es[1..]);
    }
  }

  lemma ReachableInv(es: seq<Event>)
    ensures Inv(Run(Initial(), es))
  {
    InitialInv();
    RunKeepsInv(Initial(), es);
  }
}
