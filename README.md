# Bloom Journal — a Dafny model of its deterministic core

Bloom Journal is a React journaling app. It keeps a list of memories and a list of
daily habits. It also has a voice "Zen companion" that streams microphone audio to a
live speech model and plays back the audio chunks the model sends. Most of the
app is UI over a generative-AI service. This project models the parts that are
deterministic once each callback is treated as one event that runs to completion:

- **Live companion** (`components/LiveCompanionTab.tsx`). The `isActive`/`status`
  machine, the capture packing of `onaudioprocess`, and the playback scheduler of
  `onmessage`. The scheduler is the `nextStartTimeRef` watermark plus the set
  `sourcesRef` of active sources. It is a class `LiveCompanion.Companion` with one
  method per event. Its invariant `Valid()` states three things:
  - the terminal status texts are never on screen;
  - the sources started since the last interruption do not overlap and end by the
    watermark;
  - a stopped source never becomes active again.

  The pure fold over a run of chunks is in `Playback`.
- **Audio helpers** (`encode`, `decode` and `decodeAudioData` at the top of
  `components/LiveCompanionTab.tsx`, repeated in `components/HabitsTab.tsx`). They
  are methods over arrays with loops, in `AudioCodec`. The browser built-ins
  `btoa`/`atob` are written out in `Base64`:
  - `btoa` follows section 4 of RFC 4648;
  - `atob` is the HTML standard's forgiving-base64 decode.

  The round trip is proved.
- **Habits** (`components/HabitsTab.tsx`). The cyclic toggle, the "REMAINING" and
  "left" figures, and the affirmation panel (class `Habits.AffirmationPanel`) with
  its text-to-speech re-entry guard.
- **App** (`App.tsx`). Saving an entry with JavaScript `||` defaults, the newsletter
  field, and the tab → view dispatch. These are pure transitions of one state record.
- **Insight** (`components/StatsTab.tsx`). The context string, the links taken from
  the grounding chunks, the fallback and error texts, the `isReflecting` flag and
  the title truncation.
- **New entry** (`components/NewEntryView.tsx`). The empty-content guard, the first
  inline part, the data URL, and the save payload.

The external service's answers, the clock (`outputCtx.currentTime`), `Date.now()`
ids and the time of day are parameters of the events that use them.

Where the model departs from what the code might be assumed to do, it follows the
code:

- The capture processor is never disconnected, so `OnAudioProcess` does not look
  at `isActive`. Capture batches go on being sent after a stop.
- `sessionRef` is never cleared, so `StopSession` calls `close()` on every stop.
  Stopping is idempotent on `isActive` and `status` only.
- `StartSession` does not reset the watermark or the source set, although a new
  output context restarts its clock at 0.
- The fallback of the mount-time affirmation request is the initial text. The
  effect's closure captured the first `affirmation`.
- A decode that throws inside the async `onmessage` ends the handler early:
  - after the watermark was raised at line 78;
  - before the `interrupted` branch is seen (`Chunk.Malformed`).

  In `speakAffirmation` the same throw is caught, and the speaking flag drops.
- `onmessage` reads `modelTurn?.parts[0]` with no `?.` after `parts`. A message whose
  `modelTurn` has no `parts` therefore throws a TypeError before anything changes, and
  an interruption it carries is lost (`ServerMessage.partsMissing`).

## Model

| member | source | states |
|---|---|---|
| Base64.CharOf | components/LiveCompanionTab.tsx:10 | every 6-bit value has an alphabet character (section 4 of RFC 4648) |
| Base64.ValueOf | components/LiveCompanionTab.tsx:14 | the value of an alphabet character is the one whose character it is |
| Base64.ValueOfCharOf | components/LiveCompanionTab.tsx:14 | value and character are inverse on 6-bit values |
| Base64.EncodeUnpadded | components/LiveCompanionTab.tsx:10 | the unpadded text has only alphabet characters, 4 per group and 2 or 3 for a tail, never 1 mod 4 |
| Base64.Encode | components/LiveCompanionTab.tsx:10 | `btoa`'s text is 4·⌈n/3⌉ characters of alphabet or `=` |
| Base64.StripWhitespace | components/LiveCompanionTab.tsx:14 | `atob` drops ASCII whitespace: no whitespace is left, and a character is left iff it was in the text and is not whitespace |
| Base64.StripWhitespaceAppend | components/LiveCompanionTab.tsx:14 | stripping distributes over concatenation, so the kept characters stay in order |
| Base64.StripWhitespaceNone | components/LiveCompanionTab.tsx:14 | text without whitespace is left unchanged |
| Base64.BinaryString | components/LiveCompanionTab.tsx:6-9 | the binary string has one char per byte, char code i = byte i |
| Base64.CharCodes | components/LiveCompanionTab.tsx:16-18 | the char codes of a binary string, one per char |
| Base64.Btoa | components/LiveCompanionTab.tsx:10 | `btoa` throws iff some char code is above 255; otherwise its text has 4·⌈n/3⌉ characters of alphabet or `=` |
| Base64.DecodedLength | components/LiveCompanionTab.tsx:14 | unpadded text of length m decodes to ⌊3m/4⌋ bytes |
| Base64.Decode | components/LiveCompanionTab.tsx:14 | a successful forgiving-base64 decode yields ⌊3m/4⌋ bytes for the m characters left once whitespace and padding are dropped |
| Base64.StripPaddingKeeps | components/LiveCompanionTab.tsx:14 | removing padding keeps every character other than `=` |
| Base64.DecodeRejectsForeign | components/LiveCompanionTab.tsx:14 | `atob` throws on any character outside the alphabet, ASCII whitespace and `=` |
| Base64.Atob | components/LiveCompanionTab.tsx:14 | `atob` throws exactly when the forgiving decode fails; otherwise its answer is a binary string of ⌊3m/4⌋ chars |
| Base64.GroupInverse | components/LiveCompanionTab.tsx:14 | the three bytes of a group are recovered from its four sextets |
| Base64.DecodeUnpaddedStep | components/LiveCompanionTab.tsx:14 | decoding a text is decoding its first group, then the rest |
| Base64.DecodeQuadFront | components/LiveCompanionTab.tsx:14 | a full group in front decodes on its own |
| Base64.QuadRoundTrip | components/LiveCompanionTab.tsx:10-14 | a full group of three bytes survives encode then decode |
| Base64.TailOneRoundTrip | components/LiveCompanionTab.tsx:10-14 | a one-byte tail survives encode then decode (leftover bits dropped) |
| Base64.TailTwoRoundTrip | components/LiveCompanionTab.tsx:10-14 | a two-byte tail survives encode then decode |
| Base64.EncodeUnpaddedStep | components/LiveCompanionTab.tsx:10 | encoding is the first group's four characters, then the rest |
| Base64.DecodeEncodeUnpadded | components/LiveCompanionTab.tsx:10-14 | the unpadded decoder inverts the unpadded encoder on every byte string |
| Base64.UnpaddedLength | components/LiveCompanionTab.tsx:10 | unpadded length is ⌈4n/3⌉, 0/2/3 mod 4, and padding restores 4·⌈n/3⌉ |
| Base64.StripTwo | components/LiveCompanionTab.tsx:14 | a full-length text ending in `==` loses both |
| Base64.StripPaddingTwo | components/LiveCompanionTab.tsx:14 | `atob` removes the `==` that `btoa` adds after a one-byte tail |
| Base64.StripPaddingOne | components/LiveCompanionTab.tsx:14 | `atob` removes the `=` that `btoa` adds after a two-byte tail |
| Base64.StripPaddingNone | components/LiveCompanionTab.tsx:14 | text of whole groups with no `=` keeps every character |
| Base64.StripPaddingOfEncode | components/LiveCompanionTab.tsx:10-14 | stripping `btoa`'s padding gives back the unpadded encoding |
| Base64.DecodeEncode | components/LiveCompanionTab.tsx:10-14 | forgiving-base64 decode inverts the encoder on every byte string |
| Base64.BinaryStringIsBinary | components/LiveCompanionTab.tsx:6-9 | a string built from bytes is binary and its char codes are those bytes |
| Base64.BtoaOfBinaryString | components/LiveCompanionTab.tsx:10 | `btoa` never throws on `encode`'s binary string and answers its encoding |
| Base64.AtobBtoa | components/LiveCompanionTab.tsx:10-14 | `atob(btoa(s)) == s` for every string `btoa` accepts |
| AudioCodec.Encode | components/LiveCompanionTab.tsx:5-11 | the char-code loop then `btoa` yields the base64 text of the array's bytes |
| AudioCodec.Decode | components/LiveCompanionTab.tsx:13-20 | throws exactly when `atob` does; otherwise length = string length, byte i = char code i, and the bytes are the decoded ones |
| AudioCodec.Int16View | components/LiveCompanionTab.tsx:23 | an even byte buffer viewed as Int16 has half as many elements |
| AudioCodec.LittleEndian | components/LiveCompanionTab.tsx:64-67 | l samples occupy 2·l bytes |
| AudioCodec.SampleBytes | components/LiveCompanionTab.tsx:67 | a sample's low and high bytes read back as the sample |
| AudioCodec.Int16ViewOfLittleEndian | components/LiveCompanionTab.tsx:23 | the Int16 view inverts the capture byte layout |
| AudioCodec.Duration | components/LiveCompanionTab.tsx:84 | a buffer's duration is never negative |
| AudioCodec.InterleavedIndex | components/LiveCompanionTab.tsx:29 | index `i*numChannels + c` is in bounds for every frame and channel |
| AudioCodec.Deinterleaved | components/LiveCompanionTab.tsx:24-31 | one array per channel, each of `length / numChannels` frames |
| AudioCodec.FillChannel | components/LiveCompanionTab.tsx:27-30 | channel data i is interleaved sample `i*numChannels + channel` |
| AudioCodec.DeinterleavedUnique | components/LiveCompanionTab.tsx:26-31 | channels that agree sample by sample with the de-interleave are it |
| AudioCodec.DecodeAudioData | components/LiveCompanionTab.tsx:22-33 | the nested loops build exactly the specified buffer, or the RangeError / NotSupportedError |
| AudioCodec.AudioOf | components/LiveCompanionTab.tsx:22-33 | the error is RangeError iff the byte count is odd; a buffer has `numChannels` channels of `(bytes/2)/numChannels` frames each, both positive, at the given positive rate |
| AudioCodec.AudioOfIndexing | components/LiveCompanionTab.tsx:23-30 | frameCount = (bytes/2) / numChannels, and channel c frame i = Int16 element `i*numChannels + c` |
| AudioCodec.AudioOfFails | components/LiveCompanionTab.tsx:23-25 | the model's decode fails iff the byte count is odd, or there is no channel, rate or frame; RangeError iff odd. At the program's calls (24000 Hz, one channel) these are all the throws of `Int16Array` and `createBuffer` |
| AudioCodec.AudioOfMono | components/HabitsTab.tsx:82 | with one channel the buffer is the Int16 view itself |
| AudioCodec.MonoRoundTrip | components/LiveCompanionTab.tsx:22-33 | captured bytes decode to a mono buffer holding exactly the samples |
| AudioCodec.DecodedAudioOfEncoded | components/LiveCompanionTab.tsx:67-79 | base64 of captured bytes, decoded as mono audio, gives the samples back |
| Playback.StartAt | components/LiveCompanionTab.tsx:78 | the start is the later of watermark and clock |
| Playback.Starts | components/LiveCompanionTab.tsx:78-84 | one start per chunk; the first at `max(watermark, clock)` |
| Playback.StartsAreSequential | components/LiveCompanionTab.tsx:78-84 | each chunk starts at or after the previous one's end, and exactly there when it arrived before that end |
| Playback.StartsAfterArrival | components/LiveCompanionTab.tsx:78-83 | no chunk starts before its arrival or the initial watermark |
| Playback.WatermarkIsLastEnd | components/LiveCompanionTab.tsx:84 | the final watermark is the last chunk's start plus its duration |
| Playback.BackToBackSpan | components/LiveCompanionTab.tsx:78-84 | gapless chunks span the sum of their durations |
| Playback.ThreeHalfSecondChunks | components/LiveCompanionTab.tsx:78-84 | three 0.5 s chunks arriving at 0 start at 0, 0.5, 1.0 and end at 1.5 |
| LiveCompanion.AudioChunk | components/LiveCompanionTab.tsx:79 | a decoded chunk is mono at 24000 Hz |
| LiveCompanion.ChunkOf | components/LiveCompanionTab.tsx:76-77 | a message has no audio exactly when its data is missing or empty |
| LiveCompanion.DecodeChunk | components/LiveCompanionTab.tsx:79 | `decodeAudioData(decode(audioData), …, 24000, 1)` yields the specified chunk, or `Malformed` where either throws |
| LiveCompanion.CaptureBlob | components/LiveCompanionTab.tsx:62-69 | the blob is the base64 of the little-endian samples, tagged `audio/pcm;rate=16000` |
| LiveCompanion.CapturePayload | components/LiveCompanionTab.tsx:63-67 | l samples make 2·l bytes, whose base64 has the RFC length and decodes back to them |
| LiveCompanion.ProcessorBufferPayload | components/LiveCompanionTab.tsx:60-67 | one 4096-sample buffer is 8192 bytes and 10924 base64 characters |
| LiveCompanion.CaptureDecodes | components/LiveCompanionTab.tsx:62-69 | a capture batch decoded as mono at 16000 Hz is the samples |
| LiveCompanion.MessageIsPlaybackStep | components/LiveCompanionTab.tsx:78-84 | handling one decoded chunk is one step of the `Playback` fold |
| LiveCompanion.SequentialSnoc | components/LiveCompanionTab.tsx:83-84 | a chunk starting at the previous end keeps the run non-overlapping |
| LiveCompanion.NonNegativeSnoc | components/LiveCompanionTab.tsx:84 | durations stay non-negative as sources are added |
| LiveCompanion.RunExtends | components/LiveCompanionTab.tsx:83-85 | appending at the watermark extends the current run without overlap |
| LiveCompanion.SequentialNoOverlap | components/LiveCompanionTab.tsx:78-84 | any two sources of one run are in order and do not overlap |
| LiveCompanion.Companion.constructor | components/LiveCompanionTab.tsx:36-41 | inactive, `Ready to breathe?`, no session, watermark 0, no sources |
| LiveCompanion.Companion.Caption | components/LiveCompanionTab.tsx:144 | the status while active (only `Connecting...` / `I am listening...`), the introduction otherwise; the terminal texts never show |
| LiveCompanion.Companion.ButtonLabel | components/LiveCompanionTab.tsx:156 | `End Session` iff active, `Start Zen Mode` iff not |
| LiveCompanion.Companion.StartSession | components/LiveCompanionTab.tsx:44-45 | active and `Connecting...`; nothing else changes |
| LiveCompanion.Companion.OnConnected | components/LiveCompanionTab.tsx:110 | the session is stored |
| LiveCompanion.Companion.OnStartFailed | components/LiveCompanionTab.tsx:111-114 | inactive and `Failed to start.` |
| LiveCompanion.Companion.OnOpen | components/LiveCompanionTab.tsx:57-74 | `I am listening...` and capture connected |
| LiveCompanion.Companion.OnAudioProcess | components/LiveCompanionTab.tsx:61-70 | exactly one blob of the batch is appended to what was sent |
| LiveCompanion.Companion.OnMessage | components/LiveCompanionTab.tsx:75-93 | a `modelTurn` without `parts` throws at once and nothing changes; otherwise the chunk is started at the old `max(watermark, clock)` and the watermark moves past it; an interruption (unless decoding threw) stops every active source and the new one, empties the set, resets the watermark to 0 |
| LiveCompanion.Companion.ReceiveAudio | components/LiveCompanionTab.tsx:77-87 | started once, under the next id, iff the audio decodes; the watermark ends as specified either way |
| LiveCompanion.Companion.RaiseWatermark | components/LiveCompanionTab.tsx:78 | the watermark becomes `max(watermark, clock)` and never decreases |
| LiveCompanion.Companion.Schedule | components/LiveCompanionTab.tsx:80-86 | the source starts at the watermark, joins the active set, and the watermark advances by its duration |
| LiveCompanion.Companion.Interrupt | components/LiveCompanionTab.tsx:88-92 | every active source is stopped, the set is emptied, the watermark is 0 |
| LiveCompanion.Companion.OnSourceEnded | components/LiveCompanionTab.tsx:86 | that source and no other leaves the active set |
| LiveCompanion.Companion.OnClose | components/LiveCompanionTab.tsx:94-97 | inactive and `Session ended.` |
| LiveCompanion.Companion.OnError | components/LiveCompanionTab.tsx:98-102 | inactive and `Connection error.` |
| LiveCompanion.Companion.StopSession | components/LiveCompanionTab.tsx:118-122 | inactive and `Ready to breathe?`; `close()` is called once more if a session is stored |
| LiveCompanion.Companion.OnButton | components/LiveCompanionTab.tsx:149 | stops while active, starts otherwise |
| LiveCompanion.StopTwice | components/LiveCompanionTab.tsx:118-122 | two stops leave the display state of one; `close()` is called twice once a session is stored |
| LiveCompanion.AudioThenInterrupt | components/LiveCompanionTab.tsx:76-92 | a message with audio and `interrupted` leaves no source active, including its own |
| LiveCompanion.InterruptWithoutParts | components/LiveCompanionTab.tsx:76-92 | an interruption in a message whose `modelTurn` has no `parts` is lost: sources, watermark and schedule are unchanged |
| LiveCompanion.ValidConsequences | components/LiveCompanionTab.tsx:36-41 | under the invariant no source is both stopped and active, every active source ends by the watermark, and no terminal status shows while active |
| LiveCompanion.Companion.Valid | components/LiveCompanionTab.tsx:36-41 | the invariant every event keeps: live status only while active; the current run of sources does not overlap and ends by the watermark; stopped ids are older than the run |
| Habits.Toggled | components/HabitsTab.tsx:100 | other fields kept; the counter goes to 0 or one up; range `0..total` kept |
| Habits.ToggleHabit | components/HabitsTab.tsx:97-104 | same length, same ids in the same order |
| Habits.Iterate | components/HabitsTab.tsx:100 | repeated toggles change only the counter |
| Habits.ToggleTimes | components/HabitsTab.tsx:97-104 | repeated clicks keep the length |
| Habits.ToggleHabitEffect | components/HabitsTab.tsx:98-103 | the habit with the id goes to 0 if done, else one up, other fields kept; the others are unchanged |
| Habits.ToggleHabitInRange | components/HabitsTab.tsx:100 | a toggle keeps every counter in range |
| Habits.IterateCycle | components/HabitsTab.tsx:100 | k toggles give `(current + k) mod (total + 1)` |
| Habits.ToggleCycle | components/HabitsTab.tsx:100 | `total + 1` toggles bring a habit back |
| Habits.ToggleTimesAt | components/HabitsTab.tsx:97-104 | n clicks act on each habit with the id separately |
| Habits.ToggleTimesRestores | components/HabitsTab.tsx:97-104 | `total + 1` clicks restore the whole list |
| Habits.Left | components/HabitsTab.tsx:185-198 | "left" is ≤ 0 iff shown done; in range it is 0 iff done |
| Habits.Pending | components/HabitsTab.tsx:176 | the filter keeps exactly the habits not done |
| Habits.Remaining | components/HabitsTab.tsx:176 | "REMAINING" is at most the number of habits |
| Habits.RemainingZero | components/HabitsTab.tsx:176-185 | nothing remains iff every habit is shown done |
| Habits.RemainingUpdate | components/HabitsTab.tsx:176 | replacing one habit moves the count by its own contribution |
| Habits.ToggleRemaining | components/HabitsTab.tsx:97-176 | with one habit carrying the id, a click moves "REMAINING" by that habit's change |
| Habits.InitialFigures | constants.tsx:37-42 | the starting habits are in range, with 3 remaining |
| Habits.InitialClickFinished | components/HabitsTab.tsx:97-176 | clicking the finished habit resets it and makes 4 remaining |
| Habits.InitialClickUnstarted | components/HabitsTab.tsx:97-176 | clicking an unstarted one-step habit finishes it, leaving 2 |
| Habits.Leading | components/HabitsTab.tsx:48 | the count of leading white space characters, and the next char is not one |
| Habits.Trailing | components/HabitsTab.tsx:48 | the count of trailing white space characters, and the char before is not one |
| Habits.Trim | components/HabitsTab.tsx:48 | the result is a slice of the input with only white space cut from each end, and it neither starts nor ends with white space |
| Habits.AffirmationOf | components/HabitsTab.tsx:48 | the trimmed answer if it is non-empty, else the initial affirmation |
| Habits.AffirmationPanel.constructor | components/HabitsTab.tsx:34-37 | the initial text, not loading, not speaking, no context |
| Habits.AffirmationPanel.Shown | components/HabitsTab.tsx:144 | the loading text while loading, else the affirmation in quotes |
| Habits.AffirmationPanel.CanSpeak | components/HabitsTab.tsx:133 | the button is enabled iff neither speaking nor loading |
| Habits.AffirmationPanel.BeginFetch | components/HabitsTab.tsx:41 | loading |
| Habits.AffirmationPanel.OnAffirmation | components/HabitsTab.tsx:48-52 | the text becomes `AffirmationOf(answer)` and loading ends |
| Habits.AffirmationPanel.OnAffirmationFailed | components/HabitsTab.tsx:49-52 | the text is kept and loading ends |
| Habits.AffirmationPanel.Speak | components/HabitsTab.tsx:58-60 | a request is made iff not already speaking; speaking afterwards |
| Habits.AffirmationPanel.OnSpeech | components/HabitsTab.tsx:76-94 | no audio, or audio that throws while decoding, lowers the flag; decodable audio is played and keeps it |
| Habits.AffirmationPanel.OnSpeechFailed | components/HabitsTab.tsx:91-94 | not speaking |
| Habits.AffirmationPanel.OnPlaybackEnded | components/HabitsTab.tsx:86 | not speaking |
| Habits.SpeakTwice | components/HabitsTab.tsx:58-60 | a second click before the answer sends nothing |
| App.OrElse | App.tsx:23-29 | `v \|\| d`: the value unless missing or empty |
| App.MemoryOf | App.tsx:20-30 | title defaults to `Untitled Moment`, content to `''`, image to the placeholder, mood to `Happy`; date `Today`, kind event, the given id and time |
| App.MemoryOfNonEmpty | App.tsx:23-29 | a saved memory always has a title, an image and a mood |
| App.SaveEntry | App.tsx:31-32 | the new memory is prepended, the old list is the tail, the editor closes, nothing else changes |
| App.SaveEntryKeeps | App.tsx:31 | memory i moves to i + 1 |
| App.OpenNewEntry | App.tsx:120 | the editor opens, nothing else changes |
| App.CloseNewEntry | App.tsx:132 | the editor closes, nothing else changes |
| App.TypeEmail | App.tsx:84 | the e-mail field takes the typed text |
| App.NewsletterSubmit | App.tsx:35-39 | the e-mail field is cleared, nothing else changes |
| App.SelectTab | App.tsx:128 | the tab changes, nothing else |
| App.RenderActiveTab | App.tsx:41-100 | each tab shows its own view, both directions |
| App.RenderActiveTabInverse | App.tsx:41-100 | the view determines the tab, and views get the current lists |
| App.ShowsAddButton | App.tsx:118 | the add button shows iff the view is not the live companion |
| App.SavedMemoryShown | App.tsx:31-46 | a save from the journal tab shows the new memory first |
| Insight.JoinLines | components/StatsTab.tsx:15 | joining one line is that line, none is empty |
| Insight.Lines | components/StatsTab.tsx:15 | one `title: content` line per memory, in order |
| Insight.RecentContext | components/StatsTab.tsx:15 | the first three memories at most, in order, joined by newlines |
| Insight.RecentContextFirstThree | components/StatsTab.tsx:15 | memories past the third do not affect the context |
| Insight.RecentContextAfterSave | components/StatsTab.tsx:15 | after a save the new memory heads the context |
| Insight.LinkOf | components/StatsTab.tsx:35-38 | title defaults to `Wellness Source`, uri to `#`; never empty |
| Insight.WebCount | components/StatsTab.tsx:34 | at most one per chunk |
| Insight.LinksOf | components/StatsTab.tsx:33-38 | one link per chunk with `web`, never empty fields |
| Insight.LinksOfAppend | components/StatsTab.tsx:33-38 | the links keep the chunks' order |
| Insight.LinksOfNoWeb | components/StatsTab.tsx:34 | chunks without `web` add no link |
| Insight.LinksOfAllWeb | components/StatsTab.tsx:33-38 | when every chunk has `web`, link i comes from chunk i |
| Insight.WebCountAll | components/StatsTab.tsx:34 | when every chunk has `web`, all count |
| Insight.ReportOf | components/StatsTab.tsx:31-40 | empty or missing text gives the fallback sentence; missing grounding gives no links |
| Insight.ErrorReport | components/StatsTab.tsx:43 | the error sentence with no links |
| Insight.BeginReflection | components/StatsTab.tsx:12 | reflecting, the insight kept |
| Insight.FinishReflection | components/StatsTab.tsx:40-46 | not reflecting; the report of the answer, or the error report |
| Insight.Dismiss | components/StatsTab.tsx:97 | the report is closed |
| Insight.CardOf | components/StatsTab.tsx:69-102 | prompt iff idle with no report; reflecting card iff reflecting; otherwise the report |
| Insight.ReflectionEndsInReport | components/StatsTab.tsx:11-46 | however the request ends, the card shows a report; without links on error |
| Insight.DisplayTitle | components/StatsTab.tsx:117 | ≤ 20 chars unchanged, else the first 20 plus `...`; never over 23 |
| Insight.DefaultTitleFits | components/StatsTab.tsx:117 | `Wellness Source` is displayed whole |
| NewEntry.DataUrl | components/NewEntryView.tsx:42 | `data:image/png;base64,` followed by the data, or `undefined` |
| NewEntry.FirstInline | components/NewEntryView.tsx:39-40 | the first part with inline data, all before it have none; none exists when absent |
| NewEntry.FirstInlineUnique | components/NewEntryView.tsx:39-44 | the first inline index is where inline data first appears |
| NewEntry.ChosenImageIgnoresLater | components/NewEntryView.tsx:43 | parts after the first inline one play no part |
| NewEntry.SelectImage | components/NewEntryView.tsx:39-45 | the loop with `break` picks the first inline part's data URL, else keeps the image |
| NewEntry.BeginDreamscape | components/NewEntryView.tsx:21-26 | a request iff content is non-empty; without one nothing changes, with one the flag is raised |
| NewEntry.FinishDreamscape | components/NewEntryView.tsx:39-51 | the flag drops either way; the image is kept on failure, else the chosen one |
| NewEntry.ChosenImageNonEmpty | components/NewEntryView.tsx:16-42 | the form's image is never empty |
| NewEntry.SavePayload | components/NewEntryView.tsx:61 | the payload is exactly the title, content, mood and image |
| NewEntry.SavedFromEditor | components/NewEntryView.tsx:61 | a memory saved from the editor keeps its content, mood and image, and its title unless empty |

## Left out

- All calls to the generative-AI service (`generateContent`, `live.connect`,
  `sendRealtimeInput`, `close`). Their answers are event inputs, and `close()` is
  counted.
- The Web Audio API and media devices. The clock is a parameter and sources are the
  ids 0, 1, 2, …. Playback timing, `onended` timing, the script processor and
  `getUserMedia` are not modelled.
- Interleaving of concurrent async `onmessage` handlers, and the fire-and-forget
  `sessionPromise.then(... sendRealtimeInput ...)`. Every event runs atomically.
- Float sample conversion (`* 32768` and `/ 32768.0`) and the float-to-Int16 cast.
  Samples are `int16` values.
- `Int16Array` is read little-endian. The platform's byte order is not modelled.
- `frameCount = dataInt16.length / numChannels` is a float. The model uses integer
  division, which `createBuffer`'s unsigned-long conversion performs. Only one channel
  is ever used.
- `AudioCodec.AudioOf` rejects only zero channels, zero frames or a zero sample rate.
  `createBuffer` also rejects more channels than the browser supports (at least 32) and
  a sample rate outside its supported range. The program's calls (24000 Hz,
  one channel) never pass those, so they are not modelled.
- `Habits.Trim`: `String.prototype.trim` strips all Unicode white space. The model
  strips ten listed characters.
- `Insight.DisplayTitle`: `substring` counts UTF-16 code units. The model counts chars.
- The `TypeError` of `response.candidates[0]` on an empty answer is folded into the
  request's failure (`ImageFailed`).
- `Date.now()` ids, `toLocaleTimeString` and `Math.random` bar heights. The ids and
  times are parameters.
- JSX rendering, CSS classes, `alert`s and `console.error`.
- The editor's plain field setters (`setSelectedMood`, `setTitle`, `setContent`).
  They only assign one field.
- The unreachable `default` branch of `renderActiveTab`, because `Tab` is a closed set.
- `Habit.current` and `Habit.total` are `number` in `types.ts`; the model uses `int`.
  Every value the app can reach is an integer: `INITIAL_HABITS`, `+ 1` and `0`.
- The `INITIAL_MEMORIES` fixture, which is sample data only. `INITIAL_HABITS` is
  `Habits.InitialHabits`.
- The presentational files `components/NavigationBar.tsx`, `components/JournalTab.tsx`
  and `bloom/components/MemoriesGalleryTab.tsx`, and the hard-coded mock figures
  (weekly 85 %, the mood chart data).
