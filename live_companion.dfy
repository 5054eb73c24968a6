/**
  The Zen companion of `components/LiveCompanionTab.tsx`: the status machine
  over `isActive` / `status`, the capture packing of `onaudioprocess`, and the
  playback scheduler of `onmessage` over the `nextStartTimeRef` watermark and
  the `sourcesRef` set. Every callback is one event, run to completion. The
  output context's `currentTime` is a parameter of the message event; audio
  sources are the ids `0, 1, 2, ...` in the order they are started.
*/
module LiveCompanion {
  import opened Common
  import Base64
  import AudioCodec
  import Playback

  const ReadyText := "Ready to breathe?"
  const ConnectingText := "Connecting..."
  const ListeningText := "I am listening..."
  const EndedText := "Session ended."
  const ErrorText := "Connection error."
  const FailedText := "Failed to start."
  const IntroText := "Connect with your inner self. Your Zen companion is here to listen and guide you through a moment of peace."
  const StartLabel := "Start Zen Mode"
  const EndLabel := "End Session"

  /** Sample rates of the output and input audio contexts, and the script processor's buffer size. */
  const OutputRate: nat := 24000
  const InputRate: nat := 16000
  const ProcessorBufferSize: nat := 4096
  const PcmMimeType := "audio/pcm;rate=16000"

  /** The realtime input sent for one capture batch. */
  datatype Blob = Blob(data: string, mimeType: string)

  /** What `onmessage` reads of a server message: whether it has a `modelTurn` without `parts`
      (reading `parts[0]` then throws a TypeError, and `audio` is not looked at), the first
      part's inline audio data, if any, and the `interrupted` flag. */
  datatype ServerMessage = ServerMessage(partsMissing: bool, audio: Option<string>, interrupted: bool)

  /** A started source: when it was told to start, and its buffer's duration. */
  datatype ScheduledSource = ScheduledSource(start: real, duration: real)

  function End(s: ScheduledSource): real {
    s.start + s.duration
  }

  /** `if (audioData)`: read without a throw, present and not the empty string. */
  predicate HasAudio(msg: ServerMessage) {
    !msg.partsMissing && msg.audio.Some? && msg.audio.value != ""
  }

  /** How a message's audio turns out: none, undecodable (the async handler throws), or a buffer. */
  datatype Chunk = NoAudio | Malformed | Decoded(buffer: AudioCodec.AudioBuffer)

  /** Base64 audio data decoded as mono at the output rate. */
  function AudioChunk(audio: string): (c: Chunk)
    ensures !c.NoAudio?
    ensures c.Decoded? ==> c.buffer.sampleRate == OutputRate && |c.buffer.channels| == 1
  {
    match AudioCodec.DecodedAudio(audio, OutputRate, 1)
    case None => Malformed
    case Some(b) => Decoded(b)
  }

  function ChunkOf(msg: ServerMessage): (c: Chunk)
    ensures c.NoAudio? <==> !HasAudio(msg)
  {
    if !HasAudio(msg) then NoAudio else AudioChunk(msg.audio.value)
  }

  /** The watermark once a message's audio is handled, before any interruption. */
  function WatermarkAfter(c: Chunk, w: real, clock: real): real {
    match c
    case NoAudio => w
    case Malformed => Playback.StartAt(w, clock)
    case Decoded(b) => Playback.StartAt(w, clock) + AudioCodec.Duration(b)
  }

  /** The source a message starts, if any. */
  function ScheduledBy(c: Chunk, w: real, clock: real): seq<ScheduledSource> {
    if c.Decoded? then [ScheduledSource(Playback.StartAt(w, clock), AudioCodec.Duration(c.buffer))] else []
  }

  /** The id a message adds to the active set, if any. */
  function NewIds(c: Chunk, next: nat): set<nat> {
    if c.Decoded? then {next} else {}
  }

  /** Consecutive sources do not overlap: each starts no earlier than the previous one ends. */
  predicate Sequential(s: seq<ScheduledSource>) {
    forall k :: 0 <= k < |s| - 1 ==> End(s[k]) <= s[k + 1].start
  }

  predicate NonNegativeDurations(s: seq<ScheduledSource>) {
    forall k :: 0 <= k < |s| ==> s[k].duration >= 0.0
  }

  /** `onaudioprocess`: the samples go into an Int16Array, whose bytes are base64-encoded and
      tagged with the input's PCM mime type. */
  method CaptureBlob(samples: seq<AudioCodec.int16>) returns (blob: Blob)
    ensures blob.mimeType == PcmMimeType
    ensures blob.data == Base64.Encode(AudioCodec.LittleEndian(samples))
  {
    var l := |samples|;
    var bytes := new Base64.byte[2 * l];
    for i := 0 to l
      invariant forall j :: 0 <= j < 2 * i ==> bytes[j] == AudioCodec.LittleEndian(samples)[j]
    {
      bytes[2 * i] := AudioCodec.LowByte(samples[i]);
      bytes[2 * i + 1] := AudioCodec.HighByte(samples[i]);
    }
    assert bytes[..] == AudioCodec.LittleEndian(samples);
    var data := AudioCodec.Encode(bytes);
    blob := Blob(data, PcmMimeType);
  }

  /** A capture batch of `l` samples carries `2 * l` bytes, and its text is the RFC 4648 length for them. */
  lemma CapturePayload(samples: seq<AudioCodec.int16>)
    ensures var data := Base64.Encode(AudioCodec.LittleEndian(samples));
      Base64.Decode(data) == Some(AudioCodec.LittleEndian(samples)) &&
      |AudioCodec.LittleEndian(samples)| == 2 * |samples| &&
      |data| == 4 * ((2 * |samples| + 2) / 3)
  {
    Base64.DecodeEncode(AudioCodec.LittleEndian(samples));
  }

  /** One full processor buffer: 8192 bytes, 10924 characters of base64. */
  lemma ProcessorBufferPayload(samples: seq<AudioCodec.int16>)
    requires |samples| == ProcessorBufferSize
    ensures |AudioCodec.LittleEndian(samples)| == 8192
    ensures |Base64.Encode(AudioCodec.LittleEndian(samples))| == 10924
  {
  }

  /** Capture and playback agree: a batch decoded as a mono buffer at the input rate gives the samples back. */
  lemma CaptureDecodes(samples: seq<AudioCodec.int16>)
    requires |samples| > 0
    ensures AudioCodec.DecodedAudio(Base64.Encode(AudioCodec.LittleEndian(samples)), InputRate, 1) ==
      Some(AudioCodec.AudioBuffer([samples], |samples|, InputRate))
  {
    AudioCodec.DecodedAudioOfEncoded(samples, InputRate);
  }

  /** `decodeAudioData(decode(audioData), outputCtx, 24000, 1)`: `Malformed` where either step throws. */
  method DecodeChunk(audio: string) returns (c: Chunk)
    ensures c == AudioChunk(audio)
  {
    var bytes := AudioCodec.Decode(audio);
    if bytes.None? {
      return Malformed;
    }
    var buffer := AudioCodec.DecodeAudioData(bytes.value, OutputRate, 1);
    if buffer.Failure? {
      return Malformed;
    }
    return Decoded(buffer.value);
  }

  /** Handling one decoded chunk is one step of the playback fold. */
  lemma MessageIsPlaybackStep(msg: ServerMessage, w: real, clock: real)
    requires ChunkOf(msg).Decoded?
    ensures var a := [Playback.Arrival(clock, AudioCodec.Duration(ChunkOf(msg).buffer))];
      WatermarkAfter(ChunkOf(msg), w, clock) == Playback.Watermark(w, a) &&
      ScheduledBy(ChunkOf(msg), w, clock)[0].start == Playback.Starts(w, a)[0]
  {
    var a := [Playback.Arrival(clock, AudioCodec.Duration(ChunkOf(msg).buffer))];
    assert a[1..] == [];
  }

  lemma SequentialSnoc(t: seq<ScheduledSource>, x: ScheduledSource)
    requires Sequential(t)
    requires |t| > 0 ==> End(t[|t| - 1]) <= x.start
    ensures Sequential(t + [x])
  {
    var u := t + [x];
    forall k | 0 <= k < |t|
      ensures End(u[k]) <= u[k + 1].start
    {
      if k + 1 < |t| {
        assert u[k] == t[k] && u[k + 1] == t[k + 1];
      } else {
        assert u[k] == t[|t| - 1] && u[k + 1] == x;
      }
    }
  }

  lemma NonNegativeSnoc(s: seq<ScheduledSource>, x: ScheduledSource)
    requires NonNegativeDurations(s) && x.duration >= 0.0
    ensures NonNegativeDurations(s + [x])
  {
    var u := s + [x];
    forall k | 0 <= k < |u|
      ensures u[k].duration >= 0.0
    {
      if k < |s| {
        assert u[k] == s[k];
      }
    }
  }

  /** A source starting no earlier than the last one ends extends the run that begins at `from`. */
  lemma RunExtends(s: seq<ScheduledSource>, from: nat, x: ScheduledSource)
    requires from <= |s| && Sequential(s[from..]) && NonNegativeDurations(s)
    requires from < |s| ==> End(s[|s| - 1]) <= x.start
    requires x.duration >= 0.0
    ensures Sequential((s + [x])[from..]) && NonNegativeDurations(s + [x])
    ensures (s + [x])[|s|] == x
  {
    var t := s[from..];
    assert (s + [x])[from..] == t + [x];
    if from < |s| {
      assert t[|t| - 1] == s[|s| - 1];
    }
    SequentialSnoc(t, x);
    NonNegativeSnoc(s, x);
  }

  /** Sources scheduled since the last interruption never overlap, whichever two are taken. */
  lemma {:induction false} SequentialNoOverlap(s: seq<ScheduledSource>, i: nat, j: nat)
    requires Sequential(s) && NonNegativeDurations(s)
    requires i < j < |s|
    ensures End(s[i]) <= s[j].start
    decreases j - i
  {
    if i + 1 < j {
      SequentialNoOverlap(s, i + 1, j);
      assert End(s[i]) <= s[i + 1].start;
      assert s[i + 1].start <= End(s[i + 1]);
    }
  }

  class Companion {
    var isActive: bool
    var status: string
    /** `sessionRef.current` is set. */
    var hasSession: bool
    /** How many times `close()` was called on the session. */
    var closeCalls: nat
    /** The script processor is connected and delivers capture batches. */
    var capturing: bool
    /** Realtime inputs handed to the session, oldest first. */
    var sent: seq<Blob>
    var nextStartTime: real
    /** Ids of the sources in `sourcesRef`. */
    var sources: set<nat>
    /** Every source started, by id. */
    var started: seq<ScheduledSource>
    /** Ids of the sources stopped by an interruption. */
    var stopped: set<nat>
    /** The first id started since the last interruption. */
    ghost var epoch: nat

    /**
      The display text is a live status only while active; the active sources
      all belong to the current run of chunks, which do not overlap and end by the
      watermark; a stopped source is never active again.
    */
    ghost predicate Valid()
      reads this
    {
      (isActive ==> status == ConnectingText || status == ListeningText) &&
      epoch <= |started| &&
      (forall id :: id in sources ==> epoch <= id < |started|) &&
      (forall id :: id in stopped ==> id < epoch) &&
      NonNegativeDurations(started) &&
      Sequential(started[epoch..]) &&
      (epoch < |started| ==> End(started[|started| - 1]) <= nextStartTime) &&
      nextStartTime >= 0.0
    }

    constructor ()
      ensures Valid()
      ensures !isActive && status == ReadyText && !hasSession && closeCalls == 0 && !capturing
      ensures sent == [] && nextStartTime == 0.0 && sources == {} && started == [] && stopped == {}
    {
      isActive := false;
      status := ReadyText;
      hasSession := false;
      closeCalls := 0;
      capturing := false;
      sent := [];
      nextStartTime := 0.0;
      sources := {};
      started := [];
      stopped := {};
      epoch := 0;
    }

    /** The paragraph under the title: the status while active, the introduction otherwise.
        The terminal texts are therefore never on screen. */
    function Caption(): (r: string)
      requires Valid()
      reads this
      ensures isActive ==> r == ConnectingText || r == ListeningText
      ensures !isActive ==> r == IntroText
      ensures r != EndedText && r != ErrorText && r != FailedText && r != ReadyText
    {
      if isActive then status else IntroText
    }

    function ButtonLabel(): (r: string)
      reads this
      ensures r == EndLabel <==> isActive
      ensures r == StartLabel <==> !isActive
    {
      if isActive then EndLabel else StartLabel
    }

    /** `startSession`, up to the first `await`. The watermark and the sources are left as they were. */
    method StartSession()
      requires Valid()
      modifies this`isActive, this`status
      ensures Valid()
      ensures isActive && status == ConnectingText
    {
      isActive := true;
      status := ConnectingText;
    }

    /** The `await sessionPromise` of `startSession` resolves. */
    method OnConnected()
      requires Valid()
      modifies this`hasSession
      ensures Valid()
      ensures hasSession
    {
      hasSession := true;
    }

    /** The `catch` of `startSession`: the microphone or the connection was refused. */
    method OnStartFailed()
      requires Valid()
      modifies this`isActive, this`status
      ensures Valid()
      ensures !isActive && status == FailedText
    {
      status := FailedText;
      isActive := false;
    }

    /** `onopen`: the session listens and the microphone is wired to the script processor. */
    method OnOpen()
      requires Valid()
      modifies this`status, this`capturing
      ensures Valid()
      ensures status == ListeningText && capturing
    {
      status := ListeningText;
      capturing := true;
    }

    /** `onaudioprocess`: one batch of captured samples is packed and sent. */
    method OnAudioProcess(samples: seq<AudioCodec.int16>)
      requires Valid() && capturing
      modifies this`sent
      ensures Valid()
      ensures sent == old(sent) + [Blob(Base64.Encode(AudioCodec.LittleEndian(samples)), PcmMimeType)]
    {
      var blob := CaptureBlob(samples);
      sent := sent + [blob];
    }

    /**
      `onmessage`. A `modelTurn` without `parts` makes the first line throw, and nothing
      changes. Audio is started at the watermark or the clock, whichever is later, and
      pushes the watermark by its duration; undecodable audio makes the async handler throw
      after the watermark was raised and before the interruption is looked at. An
      interruption stops every active source, empties the set and resets the watermark.
    */
    method OnMessage(msg: ServerMessage, clock: real)
      requires Valid()
      modifies this`nextStartTime, this`sources, this`started, this`stopped, this`epoch
      ensures Valid()
      ensures started == old(started) + ScheduledBy(ChunkOf(msg), old(nextStartTime), clock)
      ensures msg.partsMissing || ChunkOf(msg).Malformed? || !msg.interrupted ==>
        sources == old(sources) + NewIds(ChunkOf(msg), |old(started)|) &&
        stopped == old(stopped) &&
        nextStartTime == WatermarkAfter(ChunkOf(msg), old(nextStartTime), clock)
      ensures !msg.partsMissing && !ChunkOf(msg).Malformed? && msg.interrupted ==>
        sources == {} &&
        stopped == old(stopped) + old(sources) + NewIds(ChunkOf(msg), |old(started)|) &&
        nextStartTime == 0.0
    {
      if msg.partsMissing {
        return;
      }
      var handled := true;
      if msg.audio.Some? && msg.audio.value != "" {
        handled := ReceiveAudio(msg.audio.value, clock);
      }
      if handled && msg.interrupted {
        Interrupt();
      }
    }

    /** Lines 77-87 of `onmessage`, for present audio data: `false` where decoding throws. */
    method ReceiveAudio(audio: string, clock: real) returns (decoded: bool)
      requires Valid()
      modifies this`nextStartTime, this`sources, this`started
      ensures Valid()
      ensures decoded <==> AudioChunk(audio).Decoded?
      ensures started == old(started) + ScheduledBy(AudioChunk(audio), old(nextStartTime), clock)
      ensures sources == old(sources) + NewIds(AudioChunk(audio), |old(started)|)
      ensures nextStartTime == WatermarkAfter(AudioChunk(audio), old(nextStartTime), clock)
    {
      RaiseWatermark(clock);
      var chunk := DecodeChunk(audio);
      if chunk.Decoded? {
        Schedule(AudioCodec.Duration(chunk.buffer));
      }
      decoded := chunk.Decoded?;
    }

    /** `nextStartTimeRef.current = Math.max(nextStartTimeRef.current, currentTime)`. */
    method RaiseWatermark(clock: real)
      requires Valid()
      modifies this`nextStartTime
      ensures Valid()
      ensures nextStartTime == Playback.StartAt(old(nextStartTime), clock) && nextStartTime >= old(nextStartTime)
    {
      nextStartTime := Playback.StartAt(nextStartTime, clock);
    }

    /** Lines 80-86 of `onmessage`: a source of duration `d` starts at the watermark, joins the
        active set under the next id, and pushes the watermark past its end. */
    method Schedule(d: real)
      requires Valid() && d >= 0.0
      modifies this`nextStartTime, this`sources, this`started
      ensures Valid()
      ensures started == old(started) + [ScheduledSource(old(nextStartTime), d)]
      ensures sources == old(sources) + {|old(started)|}
      ensures nextStartTime == old(nextStartTime) + d
    {
      var id := |started|;
      var source := ScheduledSource(nextStartTime, d);
      RunExtends(started, epoch, source);
      started := started + [source];
      sources := sources + {id};
      nextStartTime := nextStartTime + d;
    }

    /** Lines 88-92 of `onmessage`: every active source is stopped, the set is emptied and the
        watermark goes back to 0; a new run of chunks begins. */
    method Interrupt()
      requires Valid()
      modifies this`nextStartTime, this`sources, this`stopped, this`epoch
      ensures Valid()
      ensures stopped == old(stopped) + old(sources)
      ensures sources == {} && nextStartTime == 0.0
    {
      stopped := stopped + sources;
      sources := {};
      nextStartTime := 0.0;
      epoch := |started|;
    }

    /** `onended` of source `id`: that source, and no other, leaves the active set. */
    method OnSourceEnded(id: nat)
      requires Valid()
      modifies this`sources
      ensures Valid()
      ensures sources == old(sources) - {id}
    {
      sources := sources - {id};
    }

    /** `onclose`. */
    method OnClose()
      requires Valid()
      modifies this`isActive, this`status
      ensures Valid()
      ensures !isActive && status == EndedText
    {
      isActive := false;
      status := EndedText;
    }

    /** `onerror`. */
    method OnError()
      requires Valid()
      modifies this`isActive, this`status
      ensures Valid()
      ensures !isActive && status == ErrorText
    {
      status := ErrorText;
      isActive := false;
    }

    /** `stopSession`: closes the session if one was stored, every time, and resets the display.
        The new `isActive` and `status` do not depend on the old state, so stopping twice
        leaves them as stopping once does. */
    method StopSession()
      requires Valid()
      modifies this`isActive, this`status, this`closeCalls
      ensures Valid()
      ensures !isActive && status == ReadyText
      ensures closeCalls == old(closeCalls) + (if hasSession then 1 else 0)
    {
      if hasSession {
        closeCalls := closeCalls + 1;
      }
      isActive := false;
      status := ReadyText;
    }

    /** The button: ends the session while active, starts one otherwise. */
    method OnButton()
      requires Valid()
      modifies this`isActive, this`status, this`closeCalls
      ensures Valid()
      ensures old(isActive) ==>
        (!isActive && status == ReadyText && closeCalls == old(closeCalls) + (if hasSession then 1 else 0))
      ensures !old(isActive) ==> (isActive && status == ConnectingText && closeCalls == old(closeCalls))
    {
      if isActive {
        StopSession();
      } else {
        StartSession();
      }
    }
  }

  /** What the invariant gives a reader of the state: no source is both stopped and active,
      the status on screen is never a terminal text while active, and every active source
      ends by the watermark. */
  lemma ValidConsequences(c: Companion, id: nat)
    requires c.Valid()
    ensures id in c.sources ==> id !in c.stopped && End(c.started[id]) <= c.nextStartTime
    ensures c.isActive ==> c.status != EndedText && c.status != ErrorText && c.status != FailedText
  {
    if id in c.sources && id + 1 < |c.started| {
      var run := c.started[c.epoch..];
      SequentialNoOverlap(run, id - c.epoch, |c.started| - 1 - c.epoch);
      assert run[id - c.epoch] == c.started[id];
      assert c.started[id].start <= End(c.started[id]);
    }
  }

  /** Two stops in a row: the display state is that of one stop, and `close()` is called twice
      once a session is stored. */
  method StopTwice(c: Companion)
    requires c.Valid()
    modifies c
    ensures c.Valid() && !c.isActive && c.status == ReadyText
    ensures c.closeCalls == old(c.closeCalls) + (if c.hasSession then 2 else 0)
  {
    c.StopSession();
    c.StopSession();
  }

  /** An interruption in the same message as a chunk stops that chunk too: nothing stays active. */
  method AudioThenInterrupt(c: Companion, audio: string, clock: real)
    requires c.Valid()
    requires ChunkOf(ServerMessage(false, Some(audio), true)).Decoded?
    modifies c
    ensures c.Valid() && c.sources == {} && c.nextStartTime == 0.0
    ensures |old(c.started)| in c.stopped
  {
    c.OnMessage(ServerMessage(false, Some(audio), true), clock);
  }

  /** An interruption carried by a message whose `modelTurn` has no `parts` is lost: the
      handler throws first, so the active sources play on and the watermark stays. */
  method InterruptWithoutParts(c: Companion, audio: Option<string>, clock: real)
    requires c.Valid()
    modifies c
    ensures c.Valid()
    ensures c.sources == old(c.sources) && c.stopped == old(c.stopped)
    ensures c.nextStartTime == old(c.nextStartTime) && c.started == old(c.started)
  {
    c.OnMessage(ServerMessage(true, audio, true), clock);
  }
}
