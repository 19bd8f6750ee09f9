/** Properties of the playback controller over several transitions: the
    auto-advance chain through a chapter, the interplay with chapter changes
    and the auto-scroll switch, and the stale-snapshot defect of the chain. */
module Scenarios {
  import opened Wrappers
  import opened Quran
  import opened Playback

  /** The state after the current element has ended `j` times in a row. */
  function EndTimes(st: State, j: nat): State
    decreases j
  {
    if j == 0 then st else Completion(EndTimes(st, j - 1)).state
  }

  /** The snapshot captured by the chain's first element does not claim any
      of the verses k + 1 .. k + j is playing, so none of the chain's first
      j follow-up Toggles takes the stale already-playing branch. */
  predicate SnapshotClear(e: Env, k: nat, j: nat) {
    e.playingVerse.None? || e.playingVerse.value <= k || e.playingVerse.value > k + j
  }

  /** Auto-advance: started from verse k with auto-scroll on in the captured
      snapshot, after j ends the page plays verse k + j with the URL of the
      verse at position k + j - 1, as long as that verse exists. */
  lemma {:induction false} ChainPlaysThrough(st: State, j: nat)
    requires Inv(st) && Live(st.audios)
    requires Current(st).onEnded.autoScroll
    requires Current(st).verse + j <= |Current(st).onEnded.verses|
    requires SnapshotClear(Current(st).onEnded, Current(st).verse, j)
    ensures Live(EndTimes(st, j).audios)
    ensures EndTimes(st, j).playingVerse == Some(Current(st).verse + j)
    ensures Current(EndTimes(st, j)).verse == Current(st).verse + j
    ensures Current(EndTimes(st, j)).onEnded == Current(st).onEnded
    ensures j > 0 ==> Current(EndTimes(st, j)).url
                      == Current(st).onEnded.verses[Current(st).verse + j - 1].audio
    decreases j
  {
    if j > 0 {
      ChainPlaysThrough(st, j - 1);
      var h := Current(EndTimes(st, j - 1));
      assert Advances(h);
      assert h.onEnded.playingVerse != Some(h.verse + 1);
    }
  }

  /** ... and when the last verse ends the chain stops with nothing playing. */
  lemma ChainStopsAfterLastVerse(st: State)
    requires Inv(st) && Live(st.audios)
    requires Current(st).onEnded.autoScroll
    requires Current(st).verse <= |Current(st).onEnded.verses|
    requires SnapshotClear(Current(st).onEnded, Current(st).verse, |Current(st).onEnded.verses| - Current(st).verse)
    ensures EndTimes(st, |Current(st).onEnded.verses| - Current(st).verse + 1).playingVerse == None
    ensures !Live(EndTimes(st, |Current(st).onEnded.verses| - Current(st).verse + 1).audios)
  {
    ChainPlaysThrough(st, |Current(st).onEnded.verses| - Current(st).verse);
  }

  /** The defect in general: a chain started at verse k whose snapshot names
      a later verse k + j + 1 of the chapter as playing plays k + 1 .. k + j
      and then stops with nothing playing when verse k + j ends. */
  lemma StaleSnapshotStopsChainAt(st: State, j: nat)
    requires Inv(st) && Live(st.audios)
    requires Current(st).onEnded.autoScroll
    requires Current(st).verse + j < |Current(st).onEnded.verses|
    requires Current(st).onEnded.playingVerse == Some(Current(st).verse + j + 1)
    ensures Live(EndTimes(st, j).audios)
    ensures EndTimes(st, j).playingVerse == Some(Current(st).verse + j)
    ensures EndTimes(st, j + 1).playingVerse == None
    ensures !Live(EndTimes(st, j + 1).audios)
  {
    ChainPlaysThrough(st, j);
    StaleEndStops(EndTimes(st, j));
  }

  /** One end whose snapshot names the next verse as playing stops playback. */
  lemma StaleEndStops(st: State)
    requires Live(st.audios) && Advances(Current(st))
    requires Current(st).onEnded.playingVerse == Some(Current(st).verse + 1)
    ensures Completion(st).state.playingVerse == None
    ensures !Live(Completion(st).state.audios)
  {
  }

  /** With auto-scroll off in the captured snapshot, an end stops playback. */
  lemma NoAdvanceWithoutAutoScroll(st: State)
    requires Live(st.audios)
    requires !Current(st).onEnded.autoScroll
    ensures Completion(st).state.playingVerse == None
    ensures !Live(Completion(st).state.audios)
    ensures |Completion(st).state.audios| == |st.audios|
  {
  }

  /** After a chapter change no element plays, so no end can fire and the
      old chapter's chain is over. */
  lemma ChapterChangeEndsChain(st: State)
    ensures Completion(ChapterChange(st)) == Outcome(ChapterChange(st), [])
  {
  }

  /** Turning the auto-scroll switch while a chain runs changes nothing the
      chain does: its closure decides on the flag captured at the press. */
  lemma ChainIgnoresAutoScrollSwitch(st: State, on: bool)
    ensures Completion(SetAutoScroll(st, on)).scrolls == Completion(st).scrolls
    ensures Completion(SetAutoScroll(st, on)).state == Completion(st).state.(autoScroll := on)
  {
  }

  /** A chapter of three verses with auto-scroll on: pressing verse 1 plays
      it; when it ends verse 2 plays; pressing verse 2 then stops playback. */
  lemma ThreeVerseSession(st: State)
    requires Inv(st)
    requires |st.verses| == 3 && WellNumbered(st.verses)
    requires st.autoScroll && st.playingVerse == None
    ensures Click(st, 0).state.playingVerse == Some(1)
    ensures Completion(Click(st, 0).state).state.playingVerse == Some(2)
    ensures Click(Completion(Click(st, 0).state).state, 1).state.playingVerse == None
    ensures !Live(Click(Completion(Click(st, 0).state).state, 1).state.audios)
  {
  }

  /** The defect, as the page is written: while verse 3 plays the user
      presses verse 2. The press's snapshot still says verse 3 is playing, so
      when verse 2 ends the chain's Toggle for verse 3 takes the "already
      playing" branch and playback stops instead of moving on to verse 3. */
  lemma StaleSnapshotStopsChain(st: State)
    requires Inv(st)
    requires |st.verses| >= 3 && WellNumbered(st.verses)
    requires st.autoScroll && st.playingVerse == Some(3)
    ensures Click(st, 1).state.playingVerse == Some(2)
    ensures Completion(Click(st, 1).state).state.playingVerse == None
    ensures !Live(Completion(Click(st, 1).state).state.audios)
  {
  }

  /** The same presses with the corrected completion: verse 3 follows verse 2. */
  lemma FixedCompletionContinues(st: State)
    requires Inv(st)
    requires |st.verses| >= 3 && WellNumbered(st.verses)
    requires st.autoScroll && st.playingVerse == Some(3)
    ensures CompletionFixed(Click(st, 1).state).state.playingVerse == Some(3)
    ensures Live(CompletionFixed(Click(st, 1).state).state.audios)
    ensures Last(CompletionFixed(Click(st, 1).state).state.audios).url == st.verses[2].audio
  {
  }

  /** The state after `j` ends under the corrected completion. */
  function EndTimesFixed(st: State, j: nat): State
    decreases j
  {
    if j == 0 then st else CompletionFixed(EndTimesFixed(st, j - 1)).state
  }

  /** With the corrected completion the chain plays through to the end of
      the chapter from any starting verse, whatever the press's snapshot said. */
  lemma {:induction false} FixedChainPlaysThrough(st: State, j: nat)
    requires Inv(st) && Live(st.audios)
    requires Current(st).onEnded.autoScroll
    requires Current(st).verse + j <= |Current(st).onEnded.verses|
    ensures Live(EndTimesFixed(st, j).audios)
    ensures EndTimesFixed(st, j).playingVerse == Some(Current(st).verse + j)
    ensures Current(EndTimesFixed(st, j)).verse == Current(st).verse + j
    ensures Current(EndTimesFixed(st, j)).onEnded.autoScroll
    ensures Current(EndTimesFixed(st, j)).onEnded.verses == Current(st).onEnded.verses
    ensures j > 0 ==> Current(EndTimesFixed(st, j)).url
                      == Current(st).onEnded.verses[Current(st).verse + j - 1].audio
    decreases j
  {
    if j > 0 {
      FixedChainPlaysThrough(st, j - 1);
      FixedEndAdvances(EndTimesFixed(st, j - 1), EndTimesFixed(st, j));
    } else {
      assert EndTimesFixed(st, j) == st;
    }
  }

  /** One end under the corrected completion, with the captured flag on and
      a next verse in the captured list, starts that next verse. */
  lemma FixedEndAdvances(st: State, next: State)
    requires Live(st.audios) && Advances(Current(st))
    requires next == CompletionFixed(st).state
    ensures Live(next.audios)
    ensures next.playingVerse == Some(Current(st).verse + 1)
    ensures Current(next).verse == Current(st).verse + 1
    ensures Current(next).url == Current(st).onEnded.verses[Current(st).verse].audio
    ensures Current(next).onEnded.autoScroll
    ensures Current(next).onEnded.verses == Current(st).onEnded.verses
  {
  }
}
