/**
  The habit list of `components/HabitsTab.tsx`: the cyclic toggle of one
  habit's counter, the "remaining" and "left" figures derived from the list,
  and the daily-affirmation panel with its text-to-speech re-entry guard.
  The tab's own copy of `decode` and `decodeAudioData` is the one modelled in
  `AudioCodec`.
*/
module Habits {
  import opened Common
  import opened Types
  import AudioCodec

  // ---------------------------------------------------------------------------
  // Toggling

  /** A habit's counter runs from 0 up to its total. */
  predicate InRange(h: Habit) {
    0 <= h.current <= h.total
  }

  /** The habit as `toggleHabit` rewrites it: done habits start over, others advance by one. */
  function Toggled(h: Habit): (r: Habit)
    ensures r.id == h.id && r.title == h.title && r.goal == h.goal && r.total == h.total
    ensures r.icon == h.icon && r.color == h.color
    ensures InRange(h) ==> InRange(r)
    ensures r.current == 0 || r.current == h.current + 1
  {
    h.(current := if h.current >= h.total then 0 else h.current + 1)
  }

  /** `toggleHabit(id)`: every habit carrying `id` is toggled, every other one is kept. */
  function ToggleHabit(habits: seq<Habit>, id: string): (r: seq<Habit>)
    ensures |r| == |habits|
    ensures forall i :: 0 <= i < |habits| ==> r[i].id == habits[i].id
  {
    seq(|habits|, i requires 0 <= i < |habits| => if habits[i].id == id then Toggled(habits[i]) else habits[i])
  }

  /** A habit toggled `n` times. */
  function Iterate(h: Habit, n: nat): (r: Habit)
    ensures r == h.(current := r.current)
  {
    if n == 0 then h else Toggled(Iterate(h, n - 1))
  }

  /** The list after `n` clicks on the habit `id`. */
  function ToggleTimes(habits: seq<Habit>, id: string, n: nat): (r: seq<Habit>)
    ensures |r| == |habits|
  {
    if n == 0 then habits else ToggleHabit(ToggleTimes(habits, id, n - 1), id)
  }

  /** Toggling changes exactly the habits with that id, each by one step of its cycle,
      and keeps the order and the length of the list. */
  lemma ToggleHabitEffect(habits: seq<Habit>, id: string, i: nat)
    requires i < |habits|
    ensures habits[i].id == id ==>
      ToggleHabit(habits, id)[i].current == (if habits[i].current >= habits[i].total then 0 else habits[i].current + 1)
    ensures habits[i].id == id ==> ToggleHabit(habits, id)[i] == habits[i].(current := ToggleHabit(habits, id)[i].current)
    ensures habits[i].id != id ==> ToggleHabit(habits, id)[i] == habits[i]
  {
  }

  /** Toggling a habit list keeps every counter in range. */
  lemma ToggleHabitInRange(habits: seq<Habit>, id: string)
    requires forall i :: 0 <= i < |habits| ==> InRange(habits[i])
    ensures forall i :: 0 <= i < |habits| ==> InRange(ToggleHabit(habits, id)[i])
  {
  }

  lemma ModStep(x: nat, n: nat)
    requires n > 0
    ensures (x + 1) % n == (if x % n == n - 1 then 0 else x % n + 1)
  {
    var q, r := x / n, x % n;
    assert x == q * n + r;
    if r == n - 1 {
      assert x + 1 == (q + 1) * n;
      ModOfMultiple(q + 1, n);
    } else {
      assert x + 1 == q * n + (r + 1);
      ModOfSum(q, n, r + 1);
    }
  }

  lemma ModOfMultiple(q: nat, n: nat)
    requires n > 0
    ensures (q * n) % n == 0
  {
    ModOfSum(q, n, 0);
  }

  lemma MulAtLeast(d: int, n: int)
    requires d >= 1 && n >= 0
    ensures d * n >= n
  {
  }

  /** The remainder of `q * n + s` by `n` is `s`, for `s < n`. */
  lemma ModOfSum(q: nat, n: nat, s: nat)
    requires s < n
    ensures (q * n + s) % n == s
  {
    var x := q * n + s;
    var q', s' := x / n, x % n;
    assert (q - q') * n == s' - s;
    if q > q' {
      MulAtLeast(q - q', n);
    } else if q' > q {
      MulAtLeast(q' - q, n);
    }
  }

  lemma ModWrap(s: nat, n: nat)
    requires s < n
    ensures (s + n) % n == s
  {
    ModOfSum(1, n, s);
  }

  /** From a counter in range, `k` toggles land on `(current + k) mod (total + 1)`. */
  lemma {:induction false} IterateCycle(h: Habit, k: nat)
    requires InRange(h)
    ensures Iterate(h, k) == h.(current := (h.current + k) % (h.total + 1))
  {
    if k > 0 {
      IterateCycle(h, k - 1);
      ModStep(h.current + k - 1, h.total + 1);
    } else {
      ModOfSum(0, h.total + 1, h.current);
    }
  }

  /** `total + 1` toggles bring a habit back to where it was. */
  lemma ToggleCycle(h: Habit)
    requires InRange(h)
    ensures Iterate(h, h.total + 1) == h
  {
    IterateCycle(h, h.total + 1);
    ModWrap(h.current, h.total + 1);
  }

  /** Repeated clicks act on each habit with the id separately. */
  lemma {:induction false} ToggleTimesAt(habits: seq<Habit>, id: string, n: nat, i: nat)
    requires i < |habits|
    ensures ToggleTimes(habits, id, n)[i] == if habits[i].id == id then Iterate(habits[i], n) else habits[i]
  {
    if n > 0 {
      ToggleTimesAt(habits, id, n - 1, i);
    }
  }

  /** Clicking `total + 1` times on a habit restores the whole list. */
  lemma ToggleTimesRestores(habits: seq<Habit>, id: string, total: int)
    requires total >= 0
    requires forall i :: 0 <= i < |habits| && habits[i].id == id ==> InRange(habits[i]) && habits[i].total == total
    ensures ToggleTimes(habits, id, total + 1) == habits
  {
    forall i | 0 <= i < |habits|
      ensures ToggleTimes(habits, id, total + 1)[i] == habits[i]
    {
      ToggleTimesAt(habits, id, total + 1, i);
      if habits[i].id == id {
        ToggleCycle(habits[i]);
      }
    }
  }

  // ---------------------------------------------------------------------------
  // Derived figures

  /** The check mark, the strike-through and the dimmed card. */
  predicate IsDone(h: Habit) {
    h.current >= h.total
  }

  /** "`n` left" under a habit. */
  function Left(h: Habit): (n: int)
    ensures IsDone(h) <==> n <= 0
    ensures InRange(h) ==> 0 <= n <= h.total && (IsDone(h) <==> n == 0)
  {
    h.total - h.current
  }

  /** `habits.filter(h => h.current < h.total)`. */
  function Pending(habits: seq<Habit>): (r: seq<Habit>)
    ensures |r| <= |habits|
    ensures forall h :: h in r ==> h in habits && !IsDone(h)
    ensures forall h :: h in habits && !IsDone(h) ==> h in r
  {
    if habits == [] then []
    else if habits[0].current < habits[0].total then [habits[0]] + Pending(habits[1..])
    else Pending(habits[1..])
  }

  /** "`n` REMAINING" in the section heading. */
  function Remaining(habits: seq<Habit>): (n: nat)
    ensures n <= |habits|
  {
    |Pending(habits)|
  }

  /** Nothing remains exactly when every habit is done. */
  lemma RemainingZero(habits: seq<Habit>)
    ensures Remaining(habits) == 0 <==> forall i :: 0 <= i < |habits| ==> IsDone(habits[i])
  {
    if Remaining(habits) != 0 {
      assert Pending(habits)[0] in Pending(habits);
    } else {
      forall i | 0 <= i < |habits|
        ensures IsDone(habits[i])
      {
        assert habits[i] in habits;
      }
    }
  }

  function PendingCount(h: Habit): nat {
    if IsDone(h) then 0 else 1
  }

  /** Replacing one habit changes the remaining count by that habit's own contribution. */
  lemma {:induction false} RemainingUpdate(habits: seq<Habit>, k: nat, h: Habit)
    requires k < |habits|
    ensures Remaining(habits[k := h]) == Remaining(habits) - PendingCount(habits[k]) + PendingCount(h)
  {
    if k > 0 {
      assert habits[k := h][1..] == habits[1..][k - 1 := h];
      RemainingUpdate(habits[1..], k - 1, h);
    } else {
      assert habits[k := h][1..] == habits[1..];
    }
  }

  /** With one habit carrying `id`, toggling it moves "remaining" by one, or not at all. */
  lemma ToggleRemaining(habits: seq<Habit>, id: string, k: nat)
    requires k < |habits| && habits[k].id == id
    requires forall i :: 0 <= i < |habits| && i != k ==> habits[i].id != id
    ensures ToggleHabit(habits, id) == habits[k := Toggled(habits[k])]
    ensures Remaining(ToggleHabit(habits, id)) ==
      Remaining(habits) - PendingCount(habits[k]) + PendingCount(Toggled(habits[k]))
  {
    assert ToggleHabit(habits, id) == habits[k := Toggled(habits[k])];
    RemainingUpdate(habits, k, Toggled(habits[k]));
  }

  /** `INITIAL_HABITS`. */
  function InitialHabits(): seq<Habit> {
    [ Habit("h1", "Drink Water", "8 glasses", 4, 8, "water_drop", "blue"),
      Habit("h2", "Meditate", "10 minutes", 0, 1, "self_improvement", "purple"),
      Habit("h3", "Read 10 Pages", "Daily", 1, 1, "menu_book", "primary"),
      Habit("h4", "Morning Stretch", "5 minutes", 0, 1, "fitness_center", "orange") ]
  }

  /** The starting list is in range, with three habits to go. */
  lemma InitialFigures()
    ensures forall i :: 0 <= i < |InitialHabits()| ==> InRange(InitialHabits()[i])
    ensures Remaining(InitialHabits()) == 3
  {
    var hs := InitialHabits();
    assert Pending(hs[3..]) == [hs[3]];
    assert Pending(hs[2..]) == [hs[3]] by {
      assert hs[2..][1..] == hs[3..];
    }
    assert Pending(hs[1..]) == [hs[1], hs[3]] by {
      assert hs[1..][1..] == hs[2..];
    }
    assert Pending(hs) == [hs[0], hs[1], hs[3]];
  }

  /** Clicking the finished habit starts it over and puts it back among those remaining. */
  lemma InitialClickFinished()
    ensures ToggleHabit(InitialHabits(), "h3")[2].current == 0
    ensures Remaining(ToggleHabit(InitialHabits(), "h3")) == 4
  {
    var hs := InitialHabits();
    InitialFigures();
    assert hs[0].id != "h3" && hs[1].id != "h3" && hs[3].id != "h3";
    ToggleRemaining(hs, "h3", 2);
  }

  /** Clicking an unstarted single-step habit finishes it. */
  lemma InitialClickUnstarted()
    ensures ToggleHabit(InitialHabits(), "h2")[1].current == 1
    ensures Remaining(ToggleHabit(InitialHabits(), "h2")) == 2
  {
    var hs := InitialHabits();
    InitialFigures();
    assert hs[0].id != "h2" && hs[2].id != "h2" && hs[3].id != "h2";
    ToggleRemaining(hs, "h2", 1);
  }

  // ---------------------------------------------------------------------------
  // Daily affirmation

  const DefaultAffirmation := "Your journey is beautiful. Keep blooming."
  const LoadingText := "Whispering inspiration to your soul..."
  const SpeechRate: nat := 24000

  /** The white space `String.prototype.trim` removes, as far as this model goes. */
  predicate IsTrimmed(c: char) {
    c == ' ' || c == '\t' || c == '\n' || c == '\r' || c == '\U{B}' || c == '\U{C}' ||
    c == '\U{A0}' || c == '\U{2028}' || c == '\U{2029}' || c == '\U{FEFF}'
  }

  /** How many white-space characters `s` starts with. */
  function Leading(s: string): (n: nat)
    ensures n <= |s|
    ensures forall k :: 0 <= k < n ==> IsTrimmed(s[k])
    ensures n < |s| ==> !IsTrimmed(s[n])
  {
    if s != [] && IsTrimmed(s[0]) then
      var n := Leading(s[1..]);
      assert forall k :: 1 <= k < n + 1 ==> s[k] == s[1..][k - 1];
      n + 1
    else 0
  }

  /** How many white-space characters `s` ends with. */
  function Trailing(s: string): (n: nat)
    ensures n <= |s|
    ensures forall k :: |s| - n <= k < |s| ==> IsTrimmed(s[k])
    ensures n < |s| ==> !IsTrimmed(s[|s| - n - 1])
  {
    if s != [] && IsTrimmed(s[|s| - 1]) then
      var n := Trailing(s[..|s| - 1]);
      assert forall k :: |s| - 1 - n <= k < |s| - 1 ==> s[k] == s[..|s| - 1][k];
      n + 1
    else 0
  }

  /** `r` is `s` without `i` white-space characters in front and some more at the back. */
  predicate TrimmedAt(s: string, r: string, i: nat) {
    i + |r| <= |s| && r == s[i..i + |r|] &&
    (forall k :: 0 <= k < i ==> IsTrimmed(s[k])) &&
    (forall k :: i + |r| <= k < |s| ==> IsTrimmed(s[k]))
  }

  /** `trim()`: the string without the white space at either end. */
  function Trim(s: string): (r: string)
    ensures r != [] ==> !IsTrimmed(r[0]) && !IsTrimmed(r[|r| - 1])
    ensures exists i: nat :: TrimmedAt(s, r, i)
  {
    var i := Leading(s);
    var j := |s| - Trailing(s[i..]);
    assert forall k :: j <= k < |s| ==> s[k] == s[i..][k - i];
    assert TrimmedAt(s, s[i..j], i);
    s[i..j]
  }

  /** The affirmation shown after the mount-time request answered with `text`. The fallback is
      the initial affirmation: the effect's closure was created with it. */
  function AffirmationOf(text: Option<string>): (r: string)
    ensures r == DefaultAffirmation || (text.Some? && r == Trim(text.value) && r != "")
  {
    if text.Some? && Trim(text.value) != "" then Trim(text.value) else DefaultAffirmation
  }

  /** The inspiration card: the text, the loading flag, and the speaking flag set around
      the text-to-speech request and the playback of its answer. */
  class AffirmationPanel {
    var affirmation: string
    var loadingAffirmation: bool
    var isSpeaking: bool
    /** `audioContextRef.current` is set. */
    var hasContext: bool
    /** Speech buffers started, oldest first. */
    var played: seq<AudioCodec.AudioBuffer>

    constructor ()
      ensures affirmation == DefaultAffirmation && !loadingAffirmation && !isSpeaking
      ensures !hasContext && played == []
    {
      affirmation := DefaultAffirmation;
      loadingAffirmation := false;
      isSpeaking := false;
      hasContext := false;
      played := [];
    }

    /** The card's text. */
    function Shown(): (r: string)
      reads this
      ensures loadingAffirmation ==> r == LoadingText
      ensures !loadingAffirmation ==> r == "\"" + affirmation + "\""
    {
      if loadingAffirmation then LoadingText else "\"" + affirmation + "\""
    }

    /** The play button is enabled while neither speaking nor loading. */
    function CanSpeak(): (r: bool)
      reads this
      ensures r <==> !isSpeaking && !loadingAffirmation
    {
      !isSpeaking && !loadingAffirmation
    }

    /** `fetchAffirmation`, at mount, until the request is sent. */
    method BeginFetch()
      modifies this`loadingAffirmation
      ensures loadingAffirmation
    {
      loadingAffirmation := true;
    }

    /** The request answered with `text` (`response.text`, possibly missing). */
    method OnAffirmation(text: Option<string>)
      modifies this`affirmation, this`loadingAffirmation
      ensures affirmation == AffirmationOf(text) && !loadingAffirmation
    {
      var trimmed := if text.Some? then Trim(text.value) else "";
      affirmation := if trimmed != "" then trimmed else DefaultAffirmation;
      loadingAffirmation := false;
    }

    /** The request failed: the text is kept. */
    method OnAffirmationFailed()
      modifies this`loadingAffirmation
      ensures !loadingAffirmation
    {
      loadingAffirmation := false;
    }

    /** `speakAffirmation`, up to the request: ignored while already speaking. */
    method Speak() returns (requested: bool)
      modifies this`isSpeaking
      ensures requested <==> !old(isSpeaking)
      ensures isSpeaking
    {
      if isSpeaking {
        return false;
      }
      isSpeaking := true;
      return true;
    }

    /** The speech request answered: audio that decodes is played and keeps the flag up until it
        ends; no audio, or audio that makes decoding throw into the `catch`, lowers it. */
    method OnSpeech(audio: Option<string>)
      modifies this`isSpeaking, this`hasContext, this`played
      ensures audio.None? || audio.value == "" ==> !isSpeaking && played == old(played) && hasContext == old(hasContext)
      ensures audio.Some? && audio.value != "" ==>
        hasContext &&
        match AudioCodec.DecodedAudio(audio.value, SpeechRate, 1)
        case None => !isSpeaking && played == old(played)
        case Some(b) => isSpeaking == old(isSpeaking) && played == old(played) + [b]
    {
      if audio.None? || audio.value == "" {
        isSpeaking := false;
        return;
      }
      if !hasContext {
        hasContext := true;
      }
      var bytes := AudioCodec.Decode(audio.value);
      if bytes.None? {
        isSpeaking := false;
        return;
      }
      var buffer := AudioCodec.DecodeAudioData(bytes.value, SpeechRate, 1);
      if buffer.Failure? {
        isSpeaking := false;
        return;
      }
      played := played + [buffer.value];
    }

    /** The speech request itself failed. */
    method OnSpeechFailed()
      modifies this`isSpeaking
      ensures !isSpeaking
    {
      isSpeaking := false;
    }

    /** `source.onended` of the speech. */
    method OnPlaybackEnded()
      modifies this`isSpeaking
      ensures !isSpeaking
    {
      isSpeaking := false;
    }
  }

  /** A second click while the first answer is pending sends nothing. */
  method SpeakTwice(p: AffirmationPanel) returns (first: bool, second: bool)
    modifies p
    ensures first <==> !old(p.isSpeaking)
    ensures !second && p.isSpeaking
  {
    first := p.Speak();
    second := p.Speak();
  }
}
