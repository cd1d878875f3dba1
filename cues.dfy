/** Cue conversion (`parsedData.map` in `loadAndParse`) and the active-cue
    lookup of `SubtitlesOverlay`, from src/components/VideoPlayer.tsx. */
module Cues {
  import opened Wrappers
  import opened TimeConversion
  import opened JsStrings

  /** One block as the SubRip parser hands it over: times are still text. */
  datatype SrtRecord = SrtRecord(id: string, startTime: string, endTime: string, text: string)

  /** A timed subtitle, times in seconds. */
  datatype Cue = Cue(start: real, end: real, text: string)

  /** Both timestamps of a record have the two colons the converter needs
      in order not to throw. */
  predicate WellTimed(rec: SrtRecord)
  {
    Count(rec.startTime, ':') >= 2 && Count(rec.endTime, ':') >= 2
  }

  /** The callback `item => ({start, end, text})`: both times go through
      `vttTimeToSeconds`, start first, and either may throw. */
  function ConvertRecord(rec: SrtRecord): (r: Completion<Cue>)
    ensures r.Normal? <==> WellTimed(rec)
    ensures r.Normal? ==> VttTimeToSeconds(rec.startTime) == Normal(r.value.start)
                          && VttTimeToSeconds(rec.endTime) == Normal(r.value.end)
                          && r.value.text == rec.text
    ensures r.Thrown? ==> r.error == SplitOfUndefined
  {
    match VttTimeToSeconds(rec.startTime)
    case Thrown(e) => Thrown(e)
    case Normal(start) =>
      match VttTimeToSeconds(rec.endTime)
      case Thrown(e) => Thrown(e)
      case Normal(end) => Normal(Cue(start, end, rec.text))
  }

  /** `f(xs[i])` is the first call of `f` over `xs` that throws. */
  predicate FirstThrowAt<A, B>(xs: seq<A>, f: A -> Completion<B>, i: int)
  {
    0 <= i < |xs| && f(xs[i]).Thrown? && forall j :: 0 <= j < i ==> f(xs[j]).Normal?
  }

  /** `xs.map(f)` with a callback that may throw: the calls run in order and
      the first exception escapes the whole map. */
  function MapThrowing<A, B>(xs: seq<A>, f: A -> Completion<B>): (r: Completion<seq<B>>)
    ensures r.Normal? <==> forall i :: 0 <= i < |xs| ==> f(xs[i]).Normal?
    ensures r.Normal? ==> |r.value| == |xs| && forall i :: 0 <= i < |xs| ==> f(xs[i]) == Normal(r.value[i])
    ensures r.Thrown? ==> exists i :: FirstThrowAt(xs, f, i) && r.error == f(xs[i]).error
  {
    if xs == [] then Normal([])
    else
      match f(xs[0])
      case Thrown(e) =>
        assert FirstThrowAt(xs, f, 0);
        Thrown(e)
      case Normal(y) =>
        var rest := MapThrowing(xs[1..], f);
        assert forall i :: 0 < i < |xs| ==> xs[i] == xs[1..][i - 1];
        match rest
        case Thrown(e) =>
          assert exists i :: FirstThrowAt(xs, f, i) && e == f(xs[i]).error by {
            var k :| FirstThrowAt(xs[1..], f, k) && e == f(xs[1..][k]).error;
            assert FirstThrowAt(xs, f, k + 1);
          }
          Thrown(e)
        case Normal(ys) =>
          assert forall i :: 0 < i < |xs| ==> ([y] + ys)[i] == ys[i - 1];
          Normal([y] + ys)
  }

  /** A call that completes, mapped over one element, gives its one value. */
  lemma MapSingleton<A, B>(x: A, f: A -> Completion<B>)
    requires f(x).Normal?
    ensures MapThrowing([x], f) == Normal([f(x).value])
  {
    var r := MapThrowing([x], f);
    assert [x][0] == x;
    assert r.value == [f(x).value];
  }

  /** `parsedData.map(item => ({start, end, text}))`: the map throws as soon as
      one timestamp throws; otherwise it keeps the number, order and text of
      the records and converts both times. */
  function ConvertRecords(records: seq<SrtRecord>): (r: Completion<seq<Cue>>)
    ensures r.Normal? <==> forall i :: 0 <= i < |records| ==> WellTimed(records[i])
    ensures r.Normal? ==> |r.value| == |records|
    ensures r.Normal? ==> forall i :: 0 <= i < |records| ==> ConvertRecord(records[i]) == Normal(r.value[i])
    ensures r.Thrown? ==> r.error == SplitOfUndefined
  {
    MapThrowing(records, ConvertRecord)
  }

  /** A record whose two times read as `start` and `end` converts to the
      cue from `start` to `end` with its text. */
  lemma RecordConverts(rec: SrtRecord, start: real, end: real)
    requires VttTimeToSeconds(rec.startTime) == Normal(start) && VttTimeToSeconds(rec.endTime) == Normal(end)
    ensures ConvertRecord(rec) == Normal(Cue(start, end, rec.text))
  {
  }

  /** A document of one such record converts to that one cue. */
  lemma ConvertSingle(rec: SrtRecord, start: real, end: real)
    requires VttTimeToSeconds(rec.startTime) == Normal(start) && VttTimeToSeconds(rec.endTime) == Normal(end)
    ensures ConvertRecords([rec]) == Normal([Cue(start, end, rec.text)])
  {
    RecordConverts(rec, start, end);
    MapSingleton(rec, ConvertRecord);
  }

  /** `currentTime >= cue.start && currentTime <= cue.end`: bounds are inclusive. */
  predicate Covers(cue: Cue, time: real)
  {
    time >= cue.start && time <= cue.end
  }

  /** `cues.find(...)`: the first cue, in sequence order, covering `time`. */
  function ActiveCue(cues: seq<Cue>, time: real): (r: Option<Cue>)
    ensures r.None? <==> forall i :: 0 <= i < |cues| ==> !Covers(cues[i], time)
    ensures r.Some? ==> exists i :: 0 <= i < |cues| && cues[i] == r.value && Covers(cues[i], time)
                                    && forall j :: 0 <= j < i ==> !Covers(cues[j], time)
  {
    if cues == [] then None
    else if Covers(cues[0], time) then Some(cues[0])
    else
      var r := ActiveCue(cues[1..], time);
      assert r.Some? ==> exists i :: 0 <= i < |cues| && cues[i] == r.value && Covers(cues[i], time)
                                     && forall j :: 0 <= j < i ==> !Covers(cues[j], time) by {
        if r.Some? {
          var k :| 0 <= k < |cues[1..]| && cues[1..][k] == r.value && Covers(cues[1..][k], time)
                   && forall j :: 0 <= j < k ==> !Covers(cues[1..][j], time);
          assert cues[k + 1] == r.value;
          assert forall j :: 0 <= j < k + 1 ==> !Covers(cues[j], time) by {
            forall j | 0 <= j < k + 1 ensures !Covers(cues[j], time) {
              if j > 0 { assert cues[j] == cues[1..][j - 1]; }
            }
          }
        }
      }
      assert r.None? ==> forall i :: 0 <= i < |cues| ==> !Covers(cues[i], time) by {
        if r.None? {
          forall i | 0 <= i < |cues| ensures !Covers(cues[i], time) {
            if i > 0 { assert cues[i] == cues[1..][i - 1]; }
          }
        }
      }
      r
  }

  /** Earlier cues win: the lookup over `a + b` consults `b` only when no cue
      of `a` covers the time. */
  lemma {:induction false} FirstMatchWins(a: seq<Cue>, b: seq<Cue>, time: real)
    ensures ActiveCue(a + b, time) == if ActiveCue(a, time).Some? then ActiveCue(a, time) else ActiveCue(b, time)
  {
    if a == [] {
      assert a + b == b;
    } else {
      assert (a + b)[0] == a[0];
      assert (a + b)[1..] == a[1..] + b;
      FirstMatchWins(a[1..], b, time);
    }
  }

  /** A cue is active exactly on the closed interval from its start to its end. */
  lemma InclusiveBounds(cue: Cue, time: real)
    ensures ActiveCue([cue], time) == if cue.start <= time <= cue.end then Some(cue) else None
  {
  }

  /** `SubtitlesOverlay`: nothing when hidden or when no cue is active,
      otherwise the active cue's text. */
  function Overlay(cues: seq<Cue>, time: real, show: bool): (r: Option<string>)
    ensures !show ==> r == None
    ensures r.Some? <==> show && exists i :: 0 <= i < |cues| && Covers(cues[i], time)
    ensures r.Some? ==> exists i :: 0 <= i < |cues| && r.value == cues[i].text && Covers(cues[i], time)
                                    && forall j :: 0 <= j < i ==> !Covers(cues[j], time)
  {
    if !show then None
    else
      match ActiveCue(cues, time)
      case None => None
      case Some(cue) => Some(cue.text)
  }
}
