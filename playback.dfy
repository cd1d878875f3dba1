/** The `VideoPlayer` component of src/components/VideoPlayer.tsx: nine pieces
    of React state, the handlers that overwrite them, the subtitle-load effect
    and what the component renders. `SessionState` and `Step` give the state
    machine as values; the class `VideoPlayer` holds the same state in fields
    and its methods are proved to follow `Step`. */
module Playback {
  import opened Wrappers
  import opened Cues
  import TimeConversion
  import JsStrings

  /** A subtitle track prop; `src` and `content` are optional strings
      (`label` is a Dafny keyword, hence `trackLabel`). */
  datatype SubtitleTrack = SubtitleTrack(src: Option<string>, content: Option<string>, trackLabel: string, language: string)

  /** The outcome of `await fetch(src)` and `await response.text()`: some text,
      or a rejection of either promise. */
  datatype FetchOutcome = Fetched(body: string) | FetchFailed

  /** The component's `useState` fields. */
  datatype SessionState = SessionState(
    playing: bool,
    volume: real,
    muted: bool,
    played: real,        // fraction of the video played
    currentTime: real,   // seconds
    playbackRate: real,
    showSubtitles: bool,
    error: bool,
    cues: seq<Cue>)

  /** The `useState` initial values. */
  function Initial(): SessionState
  {
    SessionState(false, 0.8, false, 0.0, 0.0, 1.0, true, false, [])
  }

  /** The speeds the settings menu offers. */
  const RateOptions: seq<real> := [0.5, 1.0, 1.5, 2.0]

  /** Everything that changes the state: the handlers, the player's
      callbacks, and `setCues` at the end of a subtitle load. */
  datatype Event =
    | PlayPause
    | VolumeChange(value: real)
    | ToggleMute
    | Progress(fraction: real, seconds: real)
    | Seek(fraction: real)
    | PlaybackRateChange(rate: real)
    | ToggleSubtitles
    | PlayerError
    | CuesLoaded(loaded: seq<Cue>)

  /** The state after one event. */
  function Step(s: SessionState, e: Event): (r: SessionState)
    ensures e.PlayerError? ==> r.error
    ensures s.error ==> r.error
    ensures !e.CuesLoaded? ==> r.cues == s.cues
    ensures e.CuesLoaded? ==> r.cues == e.loaded
    ensures e.PlaybackRateChange? ==> r.playbackRate == e.rate
    ensures !e.PlaybackRateChange? ==> r.playbackRate == s.playbackRate
  {
    match e
    case PlayPause => s.(playing := !s.playing)
    case VolumeChange(v) => s.(volume := v)
    case ToggleMute => s.(muted := !s.muted)
    case Progress(f, t) => s.(played := f, currentTime := t)
    case Seek(f) => s.(played := f)
    case PlaybackRateChange(r) => s.(playbackRate := r)
    case ToggleSubtitles => s.(showSubtitles := !s.showSubtitles)
    case PlayerError => s.(error := true)
    case CuesLoaded(c) => s.(cues := c)
  }

  /** The state after a sequence of events, oldest first. */
  function Run(s: SessionState, events: seq<Event>): SessionState
    decreases |events|
  {
    if events == [] then s else Run(Step(s, events[0]), events[1..])
  }

  /** What the component renders: the error placeholder, or the player with
      its controls and the subtitle overlay. */
  datatype View =
    | ErrorPlaceholder
    | PlayerView(playing: bool, volume: real, muted: bool, playbackRate: real, played: real, subtitle: Option<string>)

  /** The render function: once `error` is set the placeholder replaces the
      player; otherwise the overlay shows the active cue's text. */
  function ViewOf(s: SessionState): (v: View)
    ensures v.ErrorPlaceholder? <==> s.error
    ensures v.PlayerView? ==> v.subtitle == Overlay(s.cues, s.currentTime, s.showSubtitles)
  {
    if s.error then ErrorPlaceholder
    else PlayerView(s.playing, s.volume, s.muted, s.playbackRate, s.played,
                    Overlay(s.cues, s.currentTime, s.showSubtitles))
  }

  /** The subtitle document `loadAndParse` reads from a track: a non-empty
      `content` first, otherwise the text fetched from a non-empty `src`;
      `None` when neither is present or the fetch fails. */
  function DocumentOf(track: SubtitleTrack, fetch: string -> FetchOutcome): (doc: Option<string>)
    ensures track.content.Some? && track.content.value != "" ==> doc == track.content
    ensures doc.Some? && (track.content.None? || track.content.value == "") ==>
              track.src.Some? && track.src.value != "" && fetch(track.src.value) == Fetched(doc.value)
    ensures ((track.content.None? || track.content.value == "") && track.src.Some? && track.src.value != ""
             && fetch(track.src.value).Fetched?) ==> doc == Some(fetch(track.src.value).body)
  {
    if track.content.Some? && track.content.value != "" then track.content
    else if track.src.Some? && track.src.value != "" then
      match fetch(track.src.value)
      case Fetched(body) => Some(body)
      case FetchFailed => None
    else None
  }

  /** The cues the subtitle-load effect passes to `setCues`, or `None` when it
      returns early or catches an exception and so leaves `cues` as it was.
      Only the first track is used. */
  function LoadedCues(subtitles: Option<seq<SubtitleTrack>>, fetch: string -> FetchOutcome,
                      fromSrt: string -> seq<SrtRecord>): (r: Option<seq<Cue>>)
    ensures subtitles.None? || subtitles.value == [] ==> r.None?
  {
    if subtitles.None? || |subtitles.value| == 0 then None
    else
      match DocumentOf(subtitles.value[0], fetch)
      case None => None
      case Some(doc) =>
        match ConvertRecords(fromSrt(doc))
        case Thrown(_) => None
        case Normal(cues) => Some(cues)
  }

  /** A load sets exactly the conversion of the first track's document, and
      happens whenever that document exists and converts without throwing. */
  lemma LoadedFromFirstDocument(subtitles: Option<seq<SubtitleTrack>>, fetch: string -> FetchOutcome,
                                fromSrt: string -> seq<SrtRecord>)
    ensures LoadedCues(subtitles, fetch, fromSrt).Some? <==>
              subtitles.Some? && subtitles.value != [] && DocumentOf(subtitles.value[0], fetch).Some?
              && ConvertRecords(fromSrt(DocumentOf(subtitles.value[0], fetch).value)).Normal?
    ensures LoadedCues(subtitles, fetch, fromSrt).Some? ==>
              LoadedCues(subtitles, fetch, fromSrt).value
              == ConvertRecords(fromSrt(DocumentOf(subtitles.value[0], fetch).value)).value
  {
  }

  /** Running `a` then `b` is running their concatenation. */
  lemma {:induction false} RunConcat(s: SessionState, a: seq<Event>, b: seq<Event>)
    ensures Run(s, a + b) == Run(Run(s, a), b)
    decreases |a|
  {
    if a == [] {
      assert a + b == b;
    } else {
      assert (a + b)[0] == a[0];
      assert (a + b)[1..] == a[1..] + b;
      RunConcat(Step(s, a[0]), a[1..], b);
    }
  }

  /** No event clears `error`: once set it stays set. */
  lemma {:induction false} ErrorIsTerminal(s: SessionState, events: seq<Event>)
    requires s.error
    ensures Run(s, events).error
    decreases |events|
  {
    if events != [] {
      ErrorIsTerminal(Step(s, events[0]), events[1..]);
    }
  }

  /** Once the player has reported an error, the placeholder is rendered
      whatever happens afterwards. */
  lemma ErrorPlaceholderStays(s: SessionState, events: seq<Event>)
    ensures ViewOf(Run(Step(s, PlayerError), events)) == ErrorPlaceholder
  {
    ErrorIsTerminal(Step(s, PlayerError), events);
  }

  /** Only a completed subtitle load changes `cues`; the handlers, the
      subtitle toggle included, leave them alone. */
  lemma {:induction false} CuesChangeOnlyOnLoad(s: SessionState, events: seq<Event>)
    requires forall i :: 0 <= i < |events| ==> !events[i].CuesLoaded?
    ensures Run(s, events).cues == s.cues
    decreases |events|
  {
    if events != [] {
      CuesChangeOnlyOnLoad(Step(s, events[0]), events[1..]);
    }
  }

  /** Playback rate stays one of the offered speeds as long as every change
      comes from the menu. */
  lemma {:induction false} RateStaysOffered(s: SessionState, events: seq<Event>)
    requires s.playbackRate in RateOptions
    requires forall i :: 0 <= i < |events| && events[i].PlaybackRateChange? ==> events[i].rate in RateOptions
    ensures Run(s, events).playbackRate in RateOptions
    decreases |events|
  {
    if events != [] {
      RateStaysOffered(Step(s, events[0]), events[1..]);
    }
  }

  /** Play/pause, mute and the subtitle toggle are involutions that touch
      only their own field. */
  lemma TogglesAreInvolutions(s: SessionState)
    ensures Step(Step(s, PlayPause), PlayPause) == s
    ensures Step(Step(s, ToggleMute), ToggleMute) == s
    ensures Step(Step(s, ToggleSubtitles), ToggleSubtitles) == s
    ensures Step(s, PlayPause) == s.(playing := !s.playing)
    ensures Step(s, ToggleMute) == s.(muted := !s.muted)
    ensures Step(s, ToggleSubtitles) == s.(showSubtitles := !s.showSubtitles)
  {
  }

  /** A progress report sets both positions to exactly the reported values;
      a seek sets only the fraction and leaves `currentTime` behind until the
      next report; a volume change is stored without clamping. */
  lemma PositionUpdates(s: SessionState, f: real, t: real, v: real)
    ensures Step(s, Progress(f, t)) == s.(played := f, currentTime := t)
    ensures Step(s, Seek(f)) == s.(played := f)
    ensures Step(s, Seek(f)).currentTime == s.currentTime
    ensures Step(s, VolumeChange(v)).volume == v
  {
  }

  /** A hidden overlay shows nothing whatever cues are loaded. */
  lemma HiddenSubtitlesShowNothing(s: SessionState)
    requires !s.error && !s.showSubtitles
    ensures ViewOf(s).subtitle == None
  {
  }

  /** A load with no tracks, or with a first track that has neither content
      nor a source, does not call `setCues`. */
  lemma NothingToLoad(subtitles: Option<seq<SubtitleTrack>>, fetch: string -> FetchOutcome,
                      fromSrt: string -> seq<SrtRecord>)
    requires subtitles.Some? && subtitles.value != [] ==>
               (subtitles.value[0].content.None? || subtitles.value[0].content.value == "")
               && (subtitles.value[0].src.None? || subtitles.value[0].src.value == "")
    ensures LoadedCues(subtitles, fetch, fromSrt) == None
  {
  }

  /** Only the first track matters. */
  lemma OnlyFirstTrack(first: SubtitleTrack, others: seq<SubtitleTrack>, fetch: string -> FetchOutcome,
                       fromSrt: string -> seq<SrtRecord>)
    ensures LoadedCues(Some([first] + others), fetch, fromSrt) == LoadedCues(Some([first]), fetch, fromSrt)
  {
  }

  /** Non-empty inline content takes precedence: the source is not fetched,
      so the outcome does not depend on the fetch. */
  lemma ContentTakesPrecedence(track: SubtitleTrack, fetch1: string -> FetchOutcome,
                               fetch2: string -> FetchOutcome, fromSrt: string -> seq<SrtRecord>)
    requires track.content.Some? && track.content.value != ""
    ensures LoadedCues(Some([track]), fetch1, fromSrt) == LoadedCues(Some([track]), fetch2, fromSrt)
  {
  }

  /** Without inline content, a successful fetch of the source is parsed:
      the load sets its conversion, or nothing when the conversion throws. */
  lemma FetchedSourceLoads(track: SubtitleTrack, others: seq<SubtitleTrack>, fetch: string -> FetchOutcome,
                           fromSrt: string -> seq<SrtRecord>)
    requires track.content.None? || track.content.value == ""
    requires track.src.Some? && track.src.value != "" && fetch(track.src.value).Fetched?
    ensures ConvertRecords(fromSrt(fetch(track.src.value).body)).Normal? ==>
              LoadedCues(Some([track] + others), fetch, fromSrt)
              == Some(ConvertRecords(fromSrt(fetch(track.src.value).body)).value)
    ensures ConvertRecords(fromSrt(fetch(track.src.value).body)).Thrown? ==>
              LoadedCues(Some([track] + others), fetch, fromSrt) == None
  {
    assert ([track] + others)[0] == track;
  }

  /** A failed fetch leaves `cues` untouched. */
  lemma FailedFetchLoadsNothing(track: SubtitleTrack, fetch: string -> FetchOutcome,
                                fromSrt: string -> seq<SrtRecord>)
    requires track.content.None? || track.content.value == ""
    requires track.src.Some? && fetch(track.src.value) == FetchFailed
    ensures LoadedCues(Some([track]), fetch, fromSrt) == None
  {
  }

  /** The scenario's one SubRip block: "Hello" from 00:00:01.000 to
      00:00:03.000 (the times are written field by field). */
  const HelloRecord := SrtRecord("1", HelloStartTime, HelloEndTime, "Hello")

  /** "00:00:01.000". */
  const HelloStartTime := "00" + ":" + "00" + ":" + "01" + "." + "000"

  /** "00:00:03.000". */
  const HelloEndTime := "00" + ":" + "00" + ":" + "03" + "." + "000"

  /** The cues the scenario loads. */
  const HelloCues := [Cue(1.0, 3.0, "Hello")]

  /** The start time of the block reads as 1 s. */
  lemma HelloStart()
    ensures TimeConversion.VttTimeToSeconds(HelloStartTime) == Normal(1.0)
  {
    assert TimeConversion.Seconds(JsStrings.DigitsValue("00"), JsStrings.DigitsValue("00"),
                                  JsStrings.DigitsValue("01"), JsStrings.DigitsValue("000")) == 1.0 by {
      assert JsStrings.DigitsValue("01") == 1;
      assert JsStrings.DigitsValue("00") == 0;
      assert JsStrings.DigitsValue("000") == 0;
      assert TimeConversion.Seconds(0, 0, 1, 0) == 1.0;
    }
    TimeConversion.DigitTimestampIs("00", "00", "01", "000", 1.0);
  }

  /** The end time of the block reads as 3 s. */
  lemma HelloEnd()
    ensures TimeConversion.VttTimeToSeconds(HelloEndTime) == Normal(3.0)
  {
    assert TimeConversion.Seconds(JsStrings.DigitsValue("00"), JsStrings.DigitsValue("00"),
                                  JsStrings.DigitsValue("03"), JsStrings.DigitsValue("000")) == 3.0 by {
      assert JsStrings.DigitsValue("03") == 3;
      assert JsStrings.DigitsValue("00") == 0;
      assert JsStrings.DigitsValue("000") == 0;
      assert TimeConversion.Seconds(0, 0, 3, 0) == 3.0;
    }
    TimeConversion.DigitTimestampIs("00", "00", "03", "000", 3.0);
  }

  /** The block converts, through `vttTimeToSeconds`, to the cue from 1 s to 3 s. */
  lemma HelloRecordConverts()
    ensures ConvertRecords([HelloRecord]) == Normal(HelloCues)
  {
    HelloStart();
    HelloEnd();
    ConvertSingle(HelloRecord, 1.0, 3.0);
  }

  /** The cues converted from the "Hello" block (`HelloRecordConverts`)
      loaded, then a progress report at 2 s: the overlay shows "Hello"; with
      subtitles toggled off it shows nothing. */
  lemma HelloScenario()
    ensures var v := ViewOf(Run(Initial(), [CuesLoaded(HelloCues), Progress(0.5, 2.0)]));
            v.PlayerView? && v.subtitle == Some("Hello")
    ensures var v := ViewOf(Run(Initial(), [CuesLoaded(HelloCues), Progress(0.5, 2.0), ToggleSubtitles]));
            v.PlayerView? && v.subtitle == None
  {
    var hello := HelloCues;
    var events := [CuesLoaded(hello), Progress(0.5, 2.0)];
    var s1 := Step(Initial(), events[0]);
    var s2 := Step(s1, events[1]);
    assert events[1..][1..] == [];
    assert Run(Initial(), events) == Run(s1, events[1..]) == Run(s2, []) == s2;
    assert ActiveCue(hello, 2.0) == Some(hello[0]);
    RunConcat(Initial(), events, [ToggleSubtitles]);
    assert Run(s2, [ToggleSubtitles]) == Step(s2, ToggleSubtitles);
  }

  /** One mounted player. The fields are the component's state; `seekRequests`
      records the `seekTo` instructions sent to the external player. */
  class VideoPlayer {
    const url: string
    var playing: bool
    var volume: real
    var muted: bool
    var played: real
    var currentTime: real
    var playbackRate: real
    var showSubtitles: bool
    var error: bool
    var cues: seq<Cue>
    var seekRequests: seq<real>

    /** The state as a value. */
    function Snapshot(): SessionState
      reads this
    {
      SessionState(playing, volume, muted, played, currentTime, playbackRate, showSubtitles, error, cues)
    }

    /** Mounting: every field takes its `useState` initial value. */
    constructor (url: string)
      ensures this.url == url
      ensures Snapshot() == Initial()
      ensures seekRequests == []
    {
      this.url := url;
      playing, volume, muted := false, 0.8, false;
      played, currentTime := 0.0, 0.0;
      playbackRate, showSubtitles, error := 1.0, true, false;
      cues := [];
      seekRequests := [];
    }

    /** `handlePlayPause`. */
    method HandlePlayPause()
      modifies this
      ensures Snapshot() == Step(old(Snapshot()), PlayPause)
      ensures playing == !old(playing)
      ensures seekRequests == old(seekRequests)
    {
      playing := !playing;
    }

    /** `handleVolumeChange`, given the parsed slider value. */
    method HandleVolumeChange(value: real)
      modifies this
      ensures Snapshot() == Step(old(Snapshot()), VolumeChange(value))
      ensures volume == value
      ensures seekRequests == old(seekRequests)
    {
      volume := value;
    }

    /** `handleToggleMute`. */
    method HandleToggleMute()
      modifies this
      ensures Snapshot() == Step(old(Snapshot()), ToggleMute)
      ensures muted == !old(muted)
      ensures seekRequests == old(seekRequests)
    {
      muted := !muted;
    }

    /** `handleProgress`: the player's periodic report. */
    method HandleProgress(fraction: real, seconds: real)
      modifies this
      ensures Snapshot() == Step(old(Snapshot()), Progress(fraction, seconds))
      ensures played == fraction && currentTime == seconds
      ensures seekRequests == old(seekRequests)
    {
      played := fraction;
      currentTime := seconds;
    }

    /** `handleSeek`: an optimistic update of the fraction, and a seek
      instruction to the player; `currentTime` waits for the next report. */
    method HandleSeek(fraction: real)
      modifies this
      ensures Snapshot() == Step(old(Snapshot()), Seek(fraction))
      ensures played == fraction && currentTime == old(currentTime)
      ensures seekRequests == old(seekRequests) + [fraction]
    {
      played := fraction;
      seekRequests := seekRequests + [fraction];
    }

    /** `handlePlaybackRateChange`. */
    method HandlePlaybackRateChange(rate: real)
      modifies this
      ensures Snapshot() == Step(old(Snapshot()), PlaybackRateChange(rate))
      ensures playbackRate == rate
      ensures seekRequests == old(seekRequests)
    {
      playbackRate := rate;
    }

    /** The subtitles on/off button. */
    method HandleToggleSubtitles()
      modifies this
      ensures Snapshot() == Step(old(Snapshot()), ToggleSubtitles)
      ensures showSubtitles == !old(showSubtitles) && cues == old(cues)
      ensures seekRequests == old(seekRequests)
    {
      showSubtitles := !showSubtitles;
    }

    /** `handleError`: the player reported an unrecoverable error. */
    method HandleError()
      modifies this
      ensures Snapshot() == Step(old(Snapshot()), PlayerError)
      ensures error
      ensures seekRequests == old(seekRequests)
    {
      error := true;
    }

    /** The subtitle-load effect, run to completion: `setCues` with the
      converted records, or nothing at all when there is no track, no
      document, or an exception. */
    method LoadSubtitles(subtitles: Option<seq<SubtitleTrack>>, fetch: string -> FetchOutcome,
                         fromSrt: string -> seq<SrtRecord>)
      modifies this
      ensures LoadedCues(subtitles, fetch, fromSrt).Some? ==>
                Snapshot() == Step(old(Snapshot()), CuesLoaded(LoadedCues(subtitles, fetch, fromSrt).value))
      ensures LoadedCues(subtitles, fetch, fromSrt).None? ==> Snapshot() == old(Snapshot())
      ensures seekRequests == old(seekRequests)
    {
      ghost var before := Snapshot();
      ghost var loaded := LoadedCues(subtitles, fetch, fromSrt);
      if subtitles.None? || |subtitles.value| == 0 {
        return;
      }
      var document := DocumentOf(subtitles.value[0], fetch);
      if document.None? {
        assert loaded == None;
        return;
      }
      var converted := ConvertRecords(fromSrt(document.value));
      if converted.Normal? {
        assert loaded == Some(converted.value);
        cues := converted.value;
        assert Snapshot() == before.(cues := converted.value);
      } else {
        assert loaded == None;
      }
    }

    /** What the component renders now. */
    function Render(): (v: View)
      reads this
      ensures v == ViewOf(Snapshot())
      ensures v.ErrorPlaceholder? <==> error
      ensures v.PlayerView? ==> v.playing == playing && v.subtitle == Overlay(cues, currentTime, showSubtitles)
    {
      ViewOf(Snapshot())
    }

    /** The subtitle text on screen now, if any: none while the error
      placeholder is shown. */
    method DisplayedSubtitle() returns (text: Option<string>)
      ensures text.Some? <==> !error && showSubtitles && exists i :: 0 <= i < |cues| && Covers(cues[i], currentTime)
      ensures text.Some? ==> exists i :: 0 <= i < |cues| && text.value == cues[i].text && Covers(cues[i], currentTime)
                                         && forall j :: 0 <= j < i ==> !Covers(cues[j], currentTime)
    {
      var v := Render();
      if v.PlayerView? {
        text := v.subtitle;
      } else {
        text := None;
      }
    }
  }
}
