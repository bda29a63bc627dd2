// The playback sequencer of the audio player. One source plays one buffer
// at a time; its `onended` handler chains to the next buffer or, after the
// last one, stops and rewinds. The state is mirrored by a value of type
// `PlayerState` so that the transitions can be reasoned about as functions;
// the class `AudioPlayer` keeps the same fields and each of its methods
// performs one transition.
//
// Web Audio is abstract: a source is a record of the buffer index it plays,
// whether its `onended` handler is still attached and whether its playback
// has ended; `start` and `stop` calls are recorded in an event log; the
// decoding of a payload is a function parameter that may fail.

module Player {
  import opened Types
  import Wav

  /** A decoded buffer of audio frames. */
  datatype AudioBuffer = AudioBuffer(frames: seq<int>)

  /** An `AudioBufferSourceNode`: the buffer it plays, its `onended` handler, and whether it has finished. */
  datatype Source = Source(index: nat, handlerAttached: bool, ended: bool)

  /** A `start(0)` of a source playing buffer `index`, or a `stop()` on a source as it then was. */
  datatype Event = Started(index: nat) | Stopped(index: nat, handlerAttached: bool, ended: bool)

  datatype PlayerState = PlayerState(
    contexts: nat,                 // AudioContexts created so far
    buffers: seq<AudioBuffer>,     // audioBuffersRef
    isPlaying: bool,
    currentIndex: int,
    source: Option<Source>,        // sourceNodeRef
    log: seq<Event>)

  const Initial: PlayerState := PlayerState(0, [], false, 0, None, [])

  // ---------------------------------------------------------------------
  // The transitions
  // ---------------------------------------------------------------------

  /** The `stop()` of the previous source at the start of `playSegment`; its handler stays attached. */
  function StopPrevious(s: PlayerState): seq<Event> {
    match s.source
    case None => []
    case Some(src) => [Stopped(src.index, src.handlerAttached, src.ended)]
  }

  /** `playSegment(index)`. */
  function Play(s: PlayerState, index: int): PlayerState {
    if s.contexts == 0 || !(0 <= index < |s.buffers|) then s
    else s.(isPlaying := true, currentIndex := index, source := Some(Source(index, true, false)),
            log := s.log + StopPrevious(s) + [Started(index)])
  }

  /** The current source's playback ends and its `onended` handler, if still attached, runs. */
  function End(s: PlayerState): PlayerState {
    match s.source
    case None => s
    case Some(src) =>
      if src.ended then s
      else
        var t := s.(source := Some(src.(ended := true)));
        if !src.handlerAttached then t
        else if src.index + 1 < |t.buffers| then Play(t.(currentIndex := src.index + 1), src.index + 1)
        else t.(isPlaying := false, currentIndex := 0)
  }

  /** `stopAudio()`: detach the handler, stop, forget the source, clear `isPlaying`. */
  function Stop(s: PlayerState): PlayerState {
    match s.source
    case None => s.(isPlaying := false)
    case Some(src) => s.(source := None, isPlaying := false, log := s.log + [Stopped(src.index, false, src.ended)])
  }

  /** `togglePlay()`. */
  function Toggle(s: PlayerState): PlayerState {
    if s.isPlaying then Stop(s) else Play(s, s.currentIndex)
  }

  /** The reset button: `stopAudio(); setCurrentIndex(0)`. */
  function Reset(s: PlayerState): PlayerState {
    Stop(s).(currentIndex := 0)
  }

  /** Every payload decoded, in order (`Promise.all`), or `None` when one decoding rejects. */
  function DecodeAll(blobs: seq<string>, decode: string -> Option<AudioBuffer>): (r: Option<seq<AudioBuffer>>)
    ensures r.Some? <==> forall i :: 0 <= i < |blobs| ==> decode(blobs[i]).Some?
    ensures r.Some? ==> |r.value| == |blobs| && forall i :: 0 <= i < |blobs| ==> decode(blobs[i]) == Some(r.value[i])
  {
    if forall i :: 0 <= i < |blobs| ==> decode(blobs[i]).Some? then
      Some(seq(|blobs|, i requires 0 <= i < |blobs| => decode(blobs[i]).value))
    else None
  }

  /**
   * `loadAllBuffers()`: create the context if there is none, then replace
   * the buffers and rewind; a rejected decoding leaves the buffers as they were.
   */
  function Load(s: PlayerState, blobs: seq<string>, decode: string -> Option<AudioBuffer>): PlayerState {
    var t := if s.contexts == 0 then s.(contexts := 1) else s;
    match DecodeAll(blobs, decode)
    case None => t
    case Some(buffers) => t.(buffers := buffers, currentIndex := 0)
  }

  /** New payloads: the effect's cleanup `stopAudio()`, then `loadAllBuffers()`. */
  function Reload(s: PlayerState, blobs: seq<string>, decode: string -> Option<AudioBuffer>): PlayerState {
    Load(Stop(s), blobs, decode)
  }

  // ---------------------------------------------------------------------
  // The class
  // ---------------------------------------------------------------------

  class AudioPlayer {
    var contexts: nat
    var buffers: seq<AudioBuffer>
    var isPlaying: bool
    var currentIndex: int
    var source: Option<Source>
    var log: seq<Event>

    function State(): PlayerState
      reads this
    {
      PlayerState(contexts, buffers, isPlaying, currentIndex, source, log)
    }

    /** Mounting: no context, no buffers, stopped at the first segment. */
    constructor()
      ensures State() == Initial
    {
      contexts, buffers, isPlaying, currentIndex, source, log := 0, [], false, 0, None, [];
    }

    method PlaySegment(index: int)
      modifies this
      ensures State() == Play(old(State()), index)
    {
      if contexts == 0 || !(0 <= index < |buffers|) {
        return;
      }
      if source.Some? {
        log := log + [Stopped(source.value.index, source.value.handlerAttached, source.value.ended)];
      }
      source := Some(Source(index, true, false));
      log := log + [Started(index)];
      isPlaying := true;
      currentIndex := index;
    }

    /** The `ended` event of the current source. */
    method OnEnded()
      modifies this
      ensures State() == End(old(State()))
    {
      if source.None? || source.value.ended {
        return;
      }
      var src := source.value;
      source := Some(src.(ended := true));
      if src.handlerAttached {
        if src.index + 1 < |buffers| {
          currentIndex := src.index + 1;
          PlaySegment(src.index + 1);
        } else {
          isPlaying := false;
          currentIndex := 0;
        }
      }
    }

    method StopAudio()
      modifies this
      ensures State() == Stop(old(State()))
    {
      if source.Some? {
        log := log + [Stopped(source.value.index, false, source.value.ended)];
        source := None;
      }
      isPlaying := false;
    }

    method TogglePlay()
      modifies this
      ensures State() == Toggle(old(State()))
    {
      if isPlaying {
        StopAudio();
      } else {
        PlaySegment(currentIndex);
      }
    }

    method ResetPlayback()
      modifies this
      ensures State() == Reset(old(State()))
    {
      StopAudio();
      currentIndex := 0;
    }

    method LoadAllBuffers(blobs: seq<string>, decode: string -> Option<AudioBuffer>)
      modifies this
      ensures State() == Load(old(State()), blobs, decode)
    {
      if contexts == 0 {
        contexts := 1;
      }
      var decoded: seq<AudioBuffer> := [];
      for i := 0 to |blobs|
        invariant |decoded| == i
        invariant forall j :: 0 <= j < i ==> decode(blobs[j]) == Some(decoded[j])
      {
        var b := decode(blobs[i]);
        if b.None? {
          return;
        }
        decoded := decoded + [b.value];
      }
      ghost var d := DecodeAll(blobs, decode);
      assert d.Some?;
      assert d.value == decoded;
      buffers := decoded;
      currentIndex := 0;
    }

    /** The payload list changed: the effect's cleanup, then the new effect. */
    method BlobsChanged(blobs: seq<string>, decode: string -> Option<AudioBuffer>)
      modifies this
      ensures State() == Reload(old(State()), blobs, decode)
    {
      StopAudio();
      LoadAllBuffers(blobs, decode);
    }
  }

  // ---------------------------------------------------------------------
  // Properties of the transitions
  // ---------------------------------------------------------------------

  /** `playSegment` does nothing without a context or without a buffer at `index`. */
  lemma PlayGuard(s: PlayerState, index: int)
    ensures s.contexts == 0 || !(0 <= index < |s.buffers|) ==> Play(s, index) == s
  {
  }

  /**
   * Otherwise the previous source (if any) is stopped before exactly one new
   * source starts on buffer `index`, which becomes the current index.
   */
  lemma PlayStarts(s: PlayerState, index: int)
    requires s.contexts > 0 && 0 <= index < |s.buffers|
    ensures var t := Play(s, index);
      && t.isPlaying && t.currentIndex == index && t.source == Some(Source(index, true, false))
      && t.buffers == s.buffers && t.contexts == s.contexts
      && t.log == s.log + StopPrevious(s) + [Started(index)]
      && (s.source.Some? ==> t.log[|s.log|] == Stopped(s.source.value.index, s.source.value.handlerAttached, s.source.value.ended))
      && Starts(t.log) == Starts(s.log) + [index]
  {
    var t := Play(s, index);
    StartsAppend(s.log + StopPrevious(s), [Started(index)]);
    StartsAppend(s.log, StopPrevious(s));
  }

  /** The indices of the sources started, in order. */
  function Starts(log: seq<Event>): seq<nat> {
    if log == [] then []
    else Starts(log[..|log| - 1]) + (match log[|log| - 1] case Started(i) => [i] case Stopped(_, _, _) => [])
  }

  lemma {:induction false} StartsAppend(a: seq<Event>, b: seq<Event>)
    ensures Starts(a + b) == Starts(a) + Starts(b)
    decreases |b|
  {
    if b == [] {
      assert a + b == a;
    } else {
      var n := |b|;
      StartsAppend(a, b[..n - 1]);
      assert (a + b)[..|a + b| - 1] == a + b[..n - 1];
    }
  }

  /** A natural end of segment `i` with a next segment moves on to it and plays it. */
  lemma EndAdvances(s: PlayerState)
    requires s.source.Some? && !s.source.value.ended && s.source.value.handlerAttached
    requires s.contexts > 0 && s.source.value.index + 1 < |s.buffers|
    ensures var i, t := s.source.value.index, End(s);
      && t.isPlaying && t.currentIndex == i + 1 && t.source == Some(Source(i + 1, true, false))
      && t.log == s.log + [Stopped(i, true, true), Started(i + 1)]
  {
  }

  /** A natural end of the last segment stops playback and rewinds to the first. */
  lemma EndOfLast(s: PlayerState)
    requires s.source.Some? && !s.source.value.ended && s.source.value.handlerAttached
    requires s.source.value.index + 1 >= |s.buffers|
    ensures var t := End(s);
      && !t.isPlaying && t.currentIndex == 0 && t.log == s.log
      && t.source == Some(s.source.value.(ended := true))
  {
  }

  /** `k` natural ends in a row. */
  function Ends(s: PlayerState, k: nat): PlayerState {
    if k == 0 then s else End(Ends(s, k - 1))
  }

  function Range(n: nat): (r: seq<nat>)
    ensures |r| == n && forall i :: 0 <= i < n ==> r[i] == i
  {
    if n == 0 then [] else Range(n - 1) + [n - 1]
  }

  /**
   * After `k < n` natural ends from `playSegment(0)`, segment `k` plays and
   * 0..k have started once each, in order. Whatever was playing before is
   * stopped by the first step, so no `Reachable` requirement is needed.
   */
  lemma {:induction false} PlayThroughPrefix(s: PlayerState, k: nat)
    requires s.contexts > 0 && k < |s.buffers|
    ensures var t := Ends(Play(s, 0), k);
      && t.isPlaying && t.currentIndex == k && t.source == Some(Source(k, true, false))
      && t.buffers == s.buffers && t.contexts == s.contexts
      && Starts(t.log) == Starts(s.log) + Range(k + 1)
  {
    if k == 0 {
      PlayStarts(s, 0);
      assert Range(1) == [0];
    } else {
      PlayThroughPrefix(s, k - 1);
      var p := Play(s, 0);
      assert Ends(p, k) == End(Ends(p, k - 1));
      PrefixStep(s, Ends(p, k - 1), k);
    }
  }

  /** One more natural end while a segment before the last one plays. */
  lemma PrefixStep(s: PlayerState, u: PlayerState, k: nat)
    requires 0 < k < |s.buffers| && s.contexts > 0
    requires u.isPlaying && u.currentIndex == k - 1 && u.source == Some(Source(k - 1, true, false))
    requires u.buffers == s.buffers && u.contexts == s.contexts
    requires Starts(u.log) == Starts(s.log) + Range(k)
    ensures var t := End(u);
      && t.isPlaying && t.currentIndex == k && t.source == Some(Source(k, true, false))
      && t.buffers == s.buffers && t.contexts == s.contexts
      && Starts(t.log) == Starts(s.log) + Range(k + 1)
  {
    var t := End(u);
    EndAdvances(u);
    var e := [Stopped(k - 1, true, true), Started(k)];
    assert t.log == u.log + e;
    StartsAppend(u.log, e);
    StartsOfRestart(k - 1, k);
    assert Range(k + 1) == Range(k) + [k];
  }

  /** Stopping one source and starting another records one start. */
  lemma StartsOfRestart(i: nat, j: nat)
    ensures Starts([Stopped(i, true, true), Started(j)]) == [j]
  {
    var l, h := [Stopped(i, true, true), Started(j)], [Stopped(i, true, true)];
    assert l[..|l| - 1] == h && h[..|h| - 1] == [];
    assert Starts(h) == [];
    assert Starts(l) == Starts(h) + [j];
  }

  /**
   * From `playSegment(0)` with only natural ends, segments 0, 1, ..., n-1
   * are started exactly once each, in order, and playback then rests at
   * index 0, stopped; further ends change nothing. Only a context and a
   * segment are needed, so this holds in particular from every `Reachable`
   * state.
   */
  lemma PlayThrough(s: PlayerState, m: nat)
    requires s.contexts > 0 && |s.buffers| > 0
    ensures var n, t := |s.buffers|, Ends(Play(s, 0), |s.buffers|);
      && !t.isPlaying && t.currentIndex == 0
      && Starts(t.log) == Starts(s.log) + Range(n)
      && Ends(Play(s, 0), n + m) == t
  {
    var n := |s.buffers|;
    var p := Play(s, 0);
    LastEnd(s, p, n);
    EndsRest(p, n, m);
  }

  lemma LastEnd(s: PlayerState, p: PlayerState, n: nat)
    requires s.contexts > 0 && |s.buffers| == n > 0 && p == Play(s, 0)
    ensures var t := Ends(p, n);
      && !t.isPlaying && t.currentIndex == 0 && t.source.Some? && t.source.value.ended
      && Starts(t.log) == Starts(s.log) + Range(n)
  {
    PlayThroughPrefix(s, n - 1);
    var u := Ends(p, n - 1);
    EndOfLast(u);
    assert Range(n) == Range(n - 1) + [n - 1];
  }

  /** Once the current source has ended, natural ends do nothing. */
  lemma {:induction false} EndsRest(s: PlayerState, n: nat, m: nat)
    requires var t := Ends(s, n); t.source.None? || t.source.value.ended
    ensures Ends(s, n + m) == Ends(s, n)
    decreases m
  {
    if m > 0 {
      EndsRest(s, n, m - 1);
    }
  }

  /**
   * `stopAudio` detaches the handler before stopping, forgets the source,
   * clears `isPlaying` and keeps the current index; a second call changes nothing.
   */
  lemma StopProperties(s: PlayerState)
    ensures var t := Stop(s);
      && !t.isPlaying && t.source.None? && t.currentIndex == s.currentIndex && t.buffers == s.buffers
      && (s.source.Some? ==> t.log == s.log + [Stopped(s.source.value.index, false, s.source.value.ended)])
      && (s.source.None? ==> t.log == s.log)
    ensures Stop(Stop(s)) == Stop(s)
  {
  }

  /** After a stop no `onended` handler runs: no segment advances. */
  lemma NoAdvanceAfterStop(s: PlayerState, k: nat)
    ensures Ends(Stop(s), k) == Stop(s)
  {
    EndsRest(Stop(s), 0, k);
  }

  /** Pause then play resumes the same segment from a fresh source. */
  lemma PauseResume(s: PlayerState)
    requires s.isPlaying && s.contexts > 0 && 0 <= s.currentIndex < |s.buffers|
    ensures var t := Toggle(Toggle(s));
      t.isPlaying && t.currentIndex == s.currentIndex && t.source == Some(Source(s.currentIndex, true, false))
  {
  }

  /** While stopped, `togglePlay` plays the current index. */
  lemma ToggleWhileStopped(s: PlayerState)
    requires !s.isPlaying
    ensures Toggle(s) == Play(s, s.currentIndex)
  {
  }

  /** Reset stops and rewinds; play after reset starts again from the first segment. */
  lemma ResetRewinds(s: PlayerState)
    ensures var t := Reset(s); !t.isPlaying && t.source.None? && t.currentIndex == 0 && t.buffers == s.buffers
    ensures s.contexts > 0 && |s.buffers| > 0 ==>
      var t := Toggle(Reset(s)); t.isPlaying && t.currentIndex == 0 && t.source == Some(Source(0, true, false))
  {
  }

  /**
   * Loading creates a context only when there is none, replaces the buffer
   * list wholesale with one decoded buffer per payload, in order, and rewinds.
   */
  lemma LoadProperties(s: PlayerState, blobs: seq<string>, decode: string -> Option<AudioBuffer>)
    ensures var t := Load(s, blobs, decode);
      && t.contexts == (if s.contexts == 0 then 1 else s.contexts)
      && t.isPlaying == s.isPlaying && t.source == s.source && t.log == s.log
    ensures (forall i :: 0 <= i < |blobs| ==> decode(blobs[i]).Some?) ==>
      var t := Load(s, blobs, decode);
      && |t.buffers| == |blobs| && t.currentIndex == 0
      && forall i :: 0 <= i < |blobs| ==> decode(blobs[i]) == Some(t.buffers[i])
    ensures (exists i :: 0 <= i < |blobs| && decode(blobs[i]).None?) ==>
      var t := Load(s, blobs, decode); t.buffers == s.buffers && t.currentIndex == s.currentIndex
    ensures Load(Load(s, blobs, decode), blobs, decode).contexts == Load(s, blobs, decode).contexts
  {
  }

  // ---------------------------------------------------------------------
  // The invariant of reachable states
  // ---------------------------------------------------------------------

  /**
   * `isPlaying` holds exactly while the current source has not ended, the
   * current source always has its handler attached and exists only once a
   * context does.
   */
  predicate Valid(s: PlayerState) {
    && (s.isPlaying <==> s.source.Some? && !s.source.value.ended)
    && (s.source.Some? ==> s.source.value.handlerAttached && s.contexts > 0)
  }

  /** Every source stopped with its handler still attached had already ended. */
  predicate SafeStops(log: seq<Event>) {
    forall i :: 0 <= i < |log| && log[i].Stopped? && log[i].handlerAttached ==> log[i].ended
  }

  predicate Reachable(s: PlayerState) {
    Valid(s) && SafeStops(s.log)
  }

  lemma SafeStopsAppend(a: seq<Event>, b: seq<Event>)
    requires SafeStops(a) && SafeStops(b)
    ensures SafeStops(a + b)
  {
    forall i | 0 <= i < |a + b| && (a + b)[i].Stopped? && (a + b)[i].handlerAttached ensures (a + b)[i].ended {
      if i >= |a| {
        assert (a + b)[i] == b[i - |a|];
      }
    }
  }

  lemma InitialReachable()
    ensures Reachable(Initial)
  {
  }

  /** A source started over one that is absent or finished leaves a reachable state. */
  lemma PlayFromEnded(s: PlayerState, index: int)
    requires SafeStops(s.log) && (s.source.None? || s.source.value.ended)
    requires s.contexts > 0 && 0 <= index < |s.buffers|
    ensures Reachable(Play(s, index))
  {
    SafeStopsAppend(s.log, StopPrevious(s));
    SafeStopsAppend(s.log + StopPrevious(s), [Started(index)]);
  }

  /** `playSegment` on a reachable state whose source is absent or finished keeps the invariant. */
  lemma PlayKeeps(s: PlayerState, index: int)
    requires Reachable(s) && (s.source.None? || s.source.value.ended)
    ensures Reachable(Play(s, index))
  {
    if s.contexts > 0 && 0 <= index < |s.buffers| {
      PlayFromEnded(s, index);
    }
  }

  /**
   * Every event and every user action keeps the invariant. In particular the
   * `stop()` at the start of `playSegment`, which leaves the old handler
   * attached, only ever meets a source that has already ended, so that
   * handler can never fire again.
   */
  lemma ReachableKept(s: PlayerState, blobs: seq<string>, decode: string -> Option<AudioBuffer>)
    requires Reachable(s)
    ensures Reachable(End(s))
    ensures Reachable(Stop(s))
    ensures Reachable(Toggle(s))
    ensures Reachable(Reset(s))
    ensures Reachable(Load(s, blobs, decode))
    ensures Reachable(Reload(s, blobs, decode))
  {
    if s.source.Some? && !s.source.value.ended && s.source.value.handlerAttached {
      var src := s.source.value;
      var t := s.(source := Some(src.(ended := true)));
      if src.index + 1 < |t.buffers| {
        PlayFromEnded(t.(currentIndex := src.index + 1), src.index + 1);
      }
    }
    var stopped := Stop(s);
    if s.source.Some? {
      SafeStopsAppend(s.log, [Stopped(s.source.value.index, false, s.source.value.ended)]);
    }
    if !s.isPlaying {
      PlayKeeps(s, s.currentIndex);
    }
  }

  // ---------------------------------------------------------------------
  // The download
  // ---------------------------------------------------------------------

  /**
   * The PCM concatenation of `downloadFullPerformance`: `toBytes` is the
   * payload-to-bytes conversion it imports; the bytes are returned in
   * payload order, back to back.
   */
  method DownloadPcm(blobs: seq<string>, toBytes: string -> seq<uint8>) returns (combined: array<uint8>)
    ensures fresh(combined)
    ensures combined[..] == Wav.Concat(seq(|blobs|, i requires 0 <= i < |blobs| => toBytes(blobs[i])))
  {
    var allPcm := seq(|blobs|, i requires 0 <= i < |blobs| => toBytes(blobs[i]));
    combined := Wav.CombineBuffers(allPcm);
  }
}
