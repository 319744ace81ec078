/**
 * The control logic of `AudioIn` in audioin.js: lazy initialisation, the
 * start/stop guards, the `callback` helper and the dispatch of each
 * `audioprocess` frame, as pure transitions that return what the observers
 * receive.
 *
 * Browser objects are abstracted: `context` and `rsmp` are created together
 * by `init`, so `rsmp.Some?` also stands for `context != null`; `mediaStream`,
 * `source` and `processor` are set and cleared together, so `streamHeld`
 * stands for all three being non-null. A registered observer is `true`, a
 * null one `false`.
 */
module AudioInput {
  import opened Resampling

  datatype Option<T> = None | Some(value: T)

  /** What the observers receive: `onAudio(channel, buffer)` or `onError(message)`. */
  datatype Event = Audio(channel: nat, buf: seq<real>) | Error(msg: string)

  const UpsampleMessage := "Cannot upsample: not implemented"

  /** One `audioprocess` event: the input buffer's sample rate and the data of
      each of its channels, in channel order. */
  datatype Frame = Frame(rate: Rate, channels: seq<seq<real>>)

  datatype AudioIn = AudioIn(
    onAudio: bool,
    onError: bool,
    sampleRate: Option<Rate>,
    streamHeld: bool,
    rsmp: Option<Resampler>)

  /** The object as the constructor leaves it: no observers, no requested
      rate, nothing created yet. */
  const Initial := AudioIn(false, false, None, false, None)

  /** A stream is only ever held after `init` has run, because `start` calls
      `init` before asking for one. */
  predicate Valid(s: AudioIn)
  {
    s.streamHeld ==> s.rsmp.Some?
  }

  /** The `callback` helper: a registered observer receives the event, a
      null one nothing. */
  function Notify(registered: bool, e: Event): (r: seq<Event>)
    ensures forall x :: x in r ==> x == e
    ensures |r| == if registered then 1 else 0
  {
    if registered then [e] else []
  }

  /** `init`: creates the resampler on the first call only. */
  function Init(s: AudioIn): (r: AudioIn)
    ensures r.rsmp.Some?
    ensures s.rsmp.Some? ==> r == s
    ensures s.rsmp.None? ==> r == s.(rsmp := Some(Fresh))
  {
    if s.rsmp.None? then s.(rsmp := Some(Fresh)) else s
  }

  /** The outcome of `start`: the new state and whether access to the
      microphone was requested. */
  datatype Started = Started(state: AudioIn, accessRequested: bool)

  /** `start(sample_rate)`, where `None` is a null or missing rate. */
  function Start(s: AudioIn, sampleRate: Option<Rate>): (r: Started)
    ensures Valid(s) && s.streamHeld ==> r == Started(s, false)
    ensures !s.streamHeld ==>
              && r.accessRequested
              && r.state.sampleRate == (if sampleRate.Some? then sampleRate else s.sampleRate)
              && !r.state.streamHeld
    ensures r.state.rsmp == if s.rsmp.Some? then s.rsmp else Some(Fresh)
    ensures r.state.onAudio == s.onAudio && r.state.onError == s.onError
  {
    var s1 := Init(s);
    if s1.streamHeld then Started(s1, false)
    else
      var s2 := if sampleRate.Some? then s1.(sampleRate := sampleRate) else s1;
      Started(s2, true)
  }

  /** `onStreamOk`: the browser granted a stream, which is now held. The
      source reaches this callback only after `start`, hence after `init`. */
  function OnStreamOk(s: AudioIn): (r: AudioIn)
    requires s.rsmp.Some?
    ensures Valid(r) && r.streamHeld
    ensures r.sampleRate == s.sampleRate && r.rsmp == s.rsmp
  {
    s.(streamHeld := true)
  }

  /** `stop`: releases the stream when one is held; keeps the requested
      rate and the resampler with its phase. */
  function Stop(s: AudioIn): (r: AudioIn)
    ensures Valid(r) && !r.streamHeld
    ensures r.sampleRate == s.sampleRate
    ensures r.onAudio == s.onAudio && r.onError == s.onError
    ensures r.rsmp == if s.rsmp.Some? then s.rsmp else Some(Fresh)
    ensures s.rsmp.Some? && !s.streamHeld ==> r == s
  {
    var s1 := Init(s);
    if !s1.streamHeld then s1 else s1.(streamHeld := false)
  }

  /** `stop` is idempotent, and `start` on a running object is a no-op. */
  lemma StartStopIdempotent(s: AudioIn, sampleRate: Option<Rate>)
    ensures Stop(Stop(s)) == Stop(s)
    ensures Valid(s) && s.streamHeld ==> Start(s, sampleRate).state == s
    ensures Start(Start(s, sampleRate).state, sampleRate).state.rsmp == Start(s, sampleRate).state.rsmp
  {
  }

  /** One resampler serves every session: after a stop and a new start the
      resampler, phase included, is the one the previous session left. */
  lemma ResamplerOutlivesSessions(s: AudioIn, sampleRate: Option<Rate>)
    requires s.rsmp.Some?
    ensures Start(Stop(s), sampleRate).state.rsmp == s.rsmp
    ensures OnStreamOk(Start(Stop(s), sampleRate).state).rsmp == s.rsmp
  {
  }

  /** Every transition keeps `Valid`. */
  lemma TransitionsKeepValid(s: AudioIn, sampleRate: Option<Rate>, f: Frame)
    requires Valid(s)
    ensures Valid(Init(s))
    ensures Valid(Start(s, sampleRate).state)
    ensures Valid(Stop(s))
    ensures Deliverable(s, f) ==> Valid(OnAudioProcess(s, f).state)
  {
  }

  /** The rate frames are converted to: the requested rate, or the frame's
      own rate when none was requested yet. */
  function TargetRate(s: AudioIn, f: Frame): Rate
  {
    if s.sampleRate.Some? then s.sampleRate.value else f.rate
  }

  /** What the downsampling branch needs to run without a `TypeError`: a
      resampler, and channel data with a last sample (the script processor
      delivers `bufferSize = 2048` samples per channel). */
  predicate Deliverable(s: AudioIn, f: Frame)
  {
    TargetRate(s, f) < f.rate ==>
      s.rsmp.Some? && forall k :: 0 <= k < |f.channels| ==> |f.channels[k]| > 0
  }

  /** The shared resampler and the events after the downsampling loop. */
  datatype Dispatched = Dispatched(rsmp: Resampler, events: seq<Event>)

  /** The loop over channels in the downsampling branch: every channel goes
      through the same resampler, one after the other, and the resampler runs
      even when no audio observer is registered. */
  function DownsampleChannels(r: Resampler, chans: seq<seq<real>>, first: nat,
                              inRate: Rate, outRate: Rate, onAudio: bool): (d: Dispatched)
    requires forall k :: 0 <= k < |chans| ==> |chans[k]| > 0
    ensures |d.events| == if onAudio then |chans| else 0
    decreases |chans|
  {
    if |chans| == 0 then Dispatched(r, [])
    else
      var out := Downsample(r, chans[0], inRate, outRate);
      var rest := DownsampleChannels(out.next, chans[1..], first + 1, inRate, outRate, onAudio);
      Dispatched(rest.rsmp, Notify(onAudio, Audio(first, out.buf)) + rest.events)
  }

  /** The state of the shared resampler when channel `k` reaches it: the
      state channel `k - 1` left. */
  function StateBefore(r: Resampler, chans: seq<seq<real>>, k: nat, inRate: Rate, outRate: Rate): Resampler
    requires k <= |chans|
    requires forall j :: 0 <= j < |chans| ==> |chans[j]| > 0
    decreases k
  {
    if k == 0 then r
    else Downsample(StateBefore(r, chans, k - 1, inRate, outRate), chans[k - 1], inRate, outRate).next
  }

  lemma {:induction false} StateBeforeTail(r: Resampler, chans: seq<seq<real>>, k: nat, inRate: Rate, outRate: Rate)
    requires 0 < k <= |chans|
    requires forall j :: 0 <= j < |chans| ==> |chans[j]| > 0
    ensures StateBefore(r, chans, k, inRate, outRate)
              == StateBefore(Downsample(r, chans[0], inRate, outRate).next, chans[1..], k - 1, inRate, outRate)
    decreases k
  {
    if k > 1 {
      StateBeforeTail(r, chans, k - 1, inRate, outRate);
    }
  }

  /** After the loop the shared resampler is in the state the last channel
      left, and the audio observer was called once per channel. */
  lemma {:induction false} DownsampleChannelsState(r: Resampler, chans: seq<seq<real>>, first: nat,
                                                   inRate: Rate, outRate: Rate, onAudio: bool)
    requires forall k :: 0 <= k < |chans| ==> |chans[k]| > 0
    ensures var d := DownsampleChannels(r, chans, first, inRate, outRate, onAudio);
            && d.rsmp == StateBefore(r, chans, |chans|, inRate, outRate)
            && |d.events| == (if onAudio then |chans| else 0)
    decreases |chans|
  {
    if |chans| > 0 {
      var out := Downsample(r, chans[0], inRate, outRate);
      var rest := DownsampleChannels(out.next, chans[1..], first + 1, inRate, outRate, onAudio);
      assert DownsampleChannels(r, chans, first, inRate, outRate, onAudio).rsmp == rest.rsmp;
      DownsampleChannelsState(out.next, chans[1..], first + 1, inRate, outRate, onAudio);
      StateBeforeTail(r, chans, |chans|, inRate, outRate);
    }
  }

  /** Channel `k` receives, under its own channel number, the buffer the
      shared resampler produces from the state channel `k - 1` left. */
  lemma {:induction false} DownsampleChannelsEvent(r: Resampler, chans: seq<seq<real>>, first: nat,
                                                   inRate: Rate, outRate: Rate, k: nat)
    requires forall j :: 0 <= j < |chans| ==> |chans[j]| > 0
    requires k < |chans|
    ensures var d := DownsampleChannels(r, chans, first, inRate, outRate, true);
            k < |d.events| &&
            d.events[k] == Audio(first + k, Downsample(StateBefore(r, chans, k, inRate, outRate),
                                                       chans[k], inRate, outRate).buf)
    decreases k
  {
    var d := DownsampleChannels(r, chans, first, inRate, outRate, true);
    var out := Downsample(r, chans[0], inRate, outRate);
    var tail := chans[1..];
    var rest := DownsampleChannels(out.next, tail, first + 1, inRate, outRate, true);
    assert d.events == [Audio(first, out.buf)] + rest.events;
    if k > 0 {
      DownsampleChannelsEvent(out.next, tail, first + 1, inRate, outRate, k - 1);
      StateBeforeTail(r, chans, k, inRate, outRate);
      assert chans[k] == tail[k - 1];
      assert d.events[k] == rest.events[k - 1];
    }
  }

  lemma DownsampleChannelsShared(r: Resampler, chans: seq<seq<real>>, first: nat,
                                 inRate: Rate, outRate: Rate, onAudio: bool)
    requires forall k :: 0 <= k < |chans| ==> |chans[k]| > 0
    ensures var d := DownsampleChannels(r, chans, first, inRate, outRate, onAudio);
            && d.rsmp == StateBefore(r, chans, |chans|, inRate, outRate)
            && |d.events| == (if onAudio then |chans| else 0)
            && forall k :: 0 <= k < |d.events| ==>
                 d.events[k] == Audio(first + k, Downsample(StateBefore(r, chans, k, inRate, outRate),
                                                            chans[k], inRate, outRate).buf)
  {
    DownsampleChannelsState(r, chans, first, inRate, outRate, onAudio);
    if onAudio {
      forall k | 0 <= k < |chans|
        ensures DownsampleChannels(r, chans, first, inRate, outRate, onAudio).events[k]
                  == Audio(first + k, Downsample(StateBefore(r, chans, k, inRate, outRate),
                                                 chans[k], inRate, outRate).buf)
      {
        DownsampleChannelsEvent(r, chans, first, inRate, outRate, k);
      }
    }
  }

  /** The outcome of one frame: the new state and the events, in order. */
  datatype Processed = Processed(state: AudioIn, events: seq<Event>)

  /** `onAudioProcess(e)`. */
  function OnAudioProcess(s: AudioIn, f: Frame): (p: Processed)
    requires Deliverable(s, f)
    ensures p.state.sampleRate == Some(TargetRate(s, f))
    ensures s.sampleRate.Some? ==> p.state.sampleRate == s.sampleRate
    ensures p.state.streamHeld == s.streamHeld
    ensures p.state.onAudio == s.onAudio && p.state.onError == s.onError
    ensures p.state.rsmp.Some? <==> s.rsmp.Some?
    ensures forall e :: e in p.events ==> (e.Audio? ==> s.onAudio) && (e.Error? ==> s.onError)
    ensures TargetRate(s, f) == f.rate ==>
              && p.state == s.(sampleRate := Some(f.rate))
              && p.events == if s.onAudio
                             then seq(|f.channels|, k requires 0 <= k < |f.channels| => Audio(k, f.channels[k]))
                             else []
    ensures TargetRate(s, f) > f.rate ==>
              && p.state == s.(sampleRate := Some(TargetRate(s, f)))
              && p.events == Notify(s.onError, Error(UpsampleMessage))
    ensures TargetRate(s, f) < f.rate ==>
              && p.events == DownsampleChannels(s.rsmp.value, f.channels, 0, f.rate, TargetRate(s, f), s.onAudio).events
              && (forall e :: e in p.events ==> e.Audio?)
              && |p.events| == (if s.onAudio then |f.channels| else 0)
  {
    var s1 := if s.sampleRate.None? then s.(sampleRate := Some(f.rate)) else s;
    var target := s1.sampleRate.value;
    if target < f.rate then
      var d := DownsampleChannels(s1.rsmp.value, f.channels, 0, f.rate, target, s1.onAudio);
      DownsampleChannelsShared(s1.rsmp.value, f.channels, 0, f.rate, target, s1.onAudio);
      Processed(s1.(rsmp := Some(d.rsmp)), d.events)
    else if target > f.rate then
      Processed(s1, Notify(s1.onError, Error(UpsampleMessage)))
    else
      Processed(s1, if s1.onAudio
                    then seq(|f.channels|, k requires 0 <= k < |f.channels| => Audio(k, f.channels[k]))
                    else [])
  }

  /** The downsampling branch in full: channel `k` receives, under number
      `k`, the buffer the one shared resampler computes from the state
      channel `k - 1` left, of length `floor(L * target / frame rate)`; the
      object keeps the state the last channel left. */
  lemma DownsamplingDispatch(s: AudioIn, f: Frame)
    requires TargetRate(s, f) < f.rate
    requires Deliverable(s, f)
    ensures var p := OnAudioProcess(s, f);
            var target := TargetRate(s, f);
            && p.state.rsmp == Some(StateBefore(s.rsmp.value, f.channels, |f.channels|, f.rate, target))
            && |p.events| == (if s.onAudio then |f.channels| else 0)
            && forall k :: 0 <= k < |p.events| ==>
                 && p.events[k] == Audio(k, Downsample(StateBefore(s.rsmp.value, f.channels, k, f.rate, target),
                                                       f.channels[k], f.rate, target).buf)
                 && |p.events[k].buf| == |f.channels[k]| * target / f.rate
  {
    var target := TargetRate(s, f);
    var r := s.rsmp.value;
    var d := DownsampleChannels(r, f.channels, 0, f.rate, target, s.onAudio);
    DownsampleChannelsShared(r, f.channels, 0, f.rate, target, s.onAudio);
    var p := OnAudioProcess(s, f);
    assert p.events == d.events && p.state.rsmp == Some(d.rsmp);
    forall k | 0 <= k < |p.events|
      ensures |p.events[k].buf| == |f.channels[k]| * target / f.rate
    {
      var out := Downsample(StateBefore(r, f.channels, k, f.rate, target), f.channels[k], f.rate, target);
      assert p.events[k] == Audio(k, out.buf);
    }
  }

  /** The first frame of a session without a requested rate fixes the rate
      and is passed through. A later frame at that rate is passed through
      too, a slower one is refused with the upsampling error (reported only
      when an error observer is registered), and a faster one is downsampled
      to the first frame's rate. */
  lemma FirstFrameBindsRate(s: AudioIn, f: Frame, g: Frame)
    requires s.sampleRate.None?
    requires Deliverable(OnAudioProcess(s, f).state, g)
    ensures OnAudioProcess(s, f).state == s.(sampleRate := Some(f.rate))
    ensures OnAudioProcess(s, f).events
              == if s.onAudio then seq(|f.channels|, k requires 0 <= k < |f.channels| => Audio(k, f.channels[k])) else []
    ensures g.rate == f.rate ==>
              OnAudioProcess(OnAudioProcess(s, f).state, g).events
                == if s.onAudio then seq(|g.channels|, k requires 0 <= k < |g.channels| => Audio(k, g.channels[k])) else []
    ensures g.rate < f.rate ==>
              OnAudioProcess(OnAudioProcess(s, f).state, g).events == Notify(s.onError, Error(UpsampleMessage))
    ensures g.rate > f.rate ==>
              && s.rsmp.Some?
              && OnAudioProcess(OnAudioProcess(s, f).state, g).events
                   == DownsampleChannels(s.rsmp.value, g.channels, 0, g.rate, f.rate, s.onAudio).events
  {
  }
}
