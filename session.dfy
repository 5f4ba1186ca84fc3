/** The typing-test session of the component (digitacao/src/App.jsx): the word list,
    the index of the current word, the typed entry, the started/paused/finished
    flags, the countdown, the counters of correct words and letters and the three
    figures shown. The state transitions are specified by `Step` over `State`
    values; the class `TypingSession` holds the same state in fields that its
    methods update in place, and each method is proved to follow `Step`. */
module Session {
  import opened Tokenizer
  import opened InputCheck
  import opened Metrics

  /** The component's state, field by field. */
  datatype State = State(
    cursor: nat,
    input: string,
    started: bool,
    paused: bool,
    finished: bool,
    timeLeft: nat,
    duration: nat,
    correctWords: nat,
    correctLetters: nat,
    wpm: nat,
    lpm: nat,
    accuracy: nat)

  /** What can happen to a session: a button or key, the one-second countdown, the
      choice of duration and the 200 ms refresh of the figures. */
  datatype Event =
    | StartPressed
    | ClockTick
    | PauseToggled
    | InputChanged(value: string)
    | KeyPressed(key: string)
    | DurationChosen(seconds: nat)
    | RefreshTimer

  /** Letters credited for a run of correctly typed words: each word plus its space. */
  function TypedLetters(ws: seq<string>): nat
  {
    if ws == [] then 0 else |ws[0]| + 1 + TypedLetters(ws[1..])
  }

  /** The state the component starts in (lines 12-26). */
  function Initial(): State
  {
    State(0, "", false, false, false, 60, 60, 0, 0, 0, 0, 100)
  }

  /** `startTest` (lines 61-72): everything but the duration is reset. */
  function Restarted(duration: nat): State
  {
    State(0, "", true, false, false, duration, duration, 0, 0, 0, 0, 100)
  }

  /** The three figures recomputed from the counters and the clock. */
  function WithMetrics(s: State): State
  {
    var m := Compute(s.correctWords, s.correctLetters, s.cursor, s.duration, s.timeLeft);
    s.(wpm := m.wpm, lpm := m.lpm, accuracy := m.accuracy)
  }

  /** `endTest` (lines 76-83). */
  function Ended(s: State): State
  {
    WithMetrics(s).(finished := true, started := false)
  }

  /** The countdown interval exists only in this phase (line 34). */
  predicate Running(s: State)
  {
    s.started && !s.finished && !s.paused
  }

  /** The interval callback (lines 36-43): at one second or less the test ends and
      the clock shows 0, otherwise one second goes. */
  function AfterTick(s: State): State
  {
    if !Running(s) then s
    else if s.timeLeft <= 1 then Ended(s).(timeLeft := 0)
    else s.(timeLeft := s.timeLeft - 1)
  }

  /** `handleInputChange` (lines 92-95): the entry is stored, then a session that
      has not started is started, which clears the entry again. */
  function AfterInput(s: State, value: string): State
  {
    var typed := s.(input := value);
    if typed.started then typed else Restarted(typed.duration)
  }

  /** The matching step of `handleSpacePress` (lines 100-108): a trimmed entry equal
      to the current word credits that word and clears the entry. A word index past
      the list reads as `undefined`, which no string equals. */
  function Credit(words: seq<string>, s: State): State
  {
    var trimmed := Trim(s.input);
    if s.cursor < |words| && trimmed == words[s.cursor] then
      s.(correctWords := s.correctWords + 1,
         correctLetters := s.correctLetters + |trimmed| + 1,
         cursor := s.cursor + 1,
         input := "")
    else s
  }

  /** `handleSpacePress` (lines 97-120): the end-of-text test uses the index from
      before the press. */
  function AfterKey(words: seq<string>, s: State, key: string): State
  {
    if !(key == " " && !s.finished && !s.paused) then s
    else if s.cursor + 1 >= |words| then Ended(Credit(words, s))
    else Credit(words, s)
  }

  /** One event applied to the state. */
  function Step(words: seq<string>, s: State, e: Event): State
  {
    match e
    case StartPressed => Restarted(s.duration)
    case ClockTick => AfterTick(s)
    case PauseToggled => s.(paused := !s.paused)
    case InputChanged(value) => AfterInput(s, value)
    case KeyPressed(key) => AfterKey(words, s, key)
    case DurationChosen(seconds) => if s.started then s else s.(duration := seconds)
    case RefreshTimer => if s.started then WithMetrics(s) else s
  }

  /** A sequence of events applied in order. */
  function Run(words: seq<string>, s: State, es: seq<Event>): State
    decreases es
  {
    if es == [] then s else Run(words, Step(words, s, es[0]), es[1..])
  }

  /** `n` copies of one event. */
  function Repeat(e: Event, n: nat): (r: seq<Event>)
    ensures |r| == n && forall i :: 0 <= i < n ==> r[i] == e
  {
    if n == 0 then [] else [e] + Repeat(e, n - 1)
  }

  /** The counters and the index move together over the words typed correctly. */
  ghost predicate Counted(words: seq<string>, s: State)
  {
    && |words| >= 1
    && s.cursor <= |words|
    && s.correctWords == s.cursor
    && s.correctLetters == TypedLetters(words[..s.cursor])
    && (s.cursor == |words| ==> s.input == "")
  }

  /** What holds of every state the component can reach. */
  ghost predicate Inv(words: seq<string>, s: State)
  {
    && Counted(words, s)
    && (!s.finished ==> s.cursor < |words|)
    && !(s.started && s.finished)
    && (s.started ==> s.timeLeft <= s.duration)
    && (s.accuracy == 0 || s.accuracy == 100)
    && s.wpm <= s.lpm
  }

  /** Each credited word brings at least one letter, its space. */
  lemma {:induction false} TypedLettersAtLeastWords(ws: seq<string>)
    ensures TypedLetters(ws) >= |ws|
  {
    if ws != [] {
      TypedLettersAtLeastWords(ws[1..]);
    }
  }

  /** Crediting one more word adds its length and its space. */
  lemma {:induction false} TypedLettersAppend(ws: seq<string>, w: string)
    ensures TypedLetters(ws + [w]) == TypedLetters(ws) + |w| + 1
  {
    if ws != [] {
      assert (ws + [w])[1..] == ws[1..] + [w];
      TypedLettersAppend(ws[1..], w);
    }
  }

  /** The letters credited for the words before the index are exactly the text of
      those words joined by spaces, plus the space typed after the last one. */
  lemma {:induction false} TypedLettersIsJoinedText(ws: seq<string>)
    requires |ws| >= 1
    ensures TypedLetters(ws) == |Join(ws)| + 1
  {
    if |ws| > 1 {
      TypedLettersIsJoinedText(ws[1..]);
    }
  }

  /** The figures computed from a counted state keep the invariant's bounds:
      accuracy 0 or 100, and no more words than letters per minute. */
  lemma MetricsOfCounted(words: seq<string>, s: State)
    requires Counted(words, s)
    ensures WithMetrics(s).accuracy == (if s.cursor == 0 then 0 else 100)
    ensures WithMetrics(s).wpm <= WithMetrics(s).lpm
  {
    AccuracyLockstep(s.cursor);
    TypedLettersAtLeastWords(words[..s.cursor]);
    LpmAtLeastWpm(s.correctWords, s.correctLetters, s.cursor, s.duration, s.timeLeft);
  }

  /** Ending a counted state gives a valid finished state. */
  lemma EndedIsValid(words: seq<string>, s: State)
    requires Counted(words, s)
    ensures Inv(words, Ended(s))
  {
    MetricsOfCounted(words, s);
  }

  /** A space press credits the current word, and only that word, when it matches. */
  lemma KeyKeepsCounted(words: seq<string>, s: State)
    requires Inv(words, s) && !s.finished
    ensures Counted(words, Credit(words, s))
  {
    if Credit(words, s) != s {
      assert words[..s.cursor + 1] == words[..s.cursor] + [words[s.cursor]];
      TypedLettersAppend(words[..s.cursor], words[s.cursor]);
    }
  }

  /** The space handler keeps the invariant. */
  lemma KeyPreservesInv(words: seq<string>, s: State, key: string)
    requires Inv(words, s)
    ensures Inv(words, AfterKey(words, s, key))
  {
    if key == " " && !s.finished && !s.paused {
      KeyKeepsCounted(words, s);
      if s.cursor + 1 >= |words| {
        EndedIsValid(words, Credit(words, s));
      }
    }
  }

  /** The invariant holds in the initial state. */
  lemma InitialIsValid(words: seq<string>)
    requires |words| >= 1
    ensures Inv(words, Initial())
  {
  }

  /** Every event keeps the invariant. */
  lemma StepPreservesInv(words: seq<string>, s: State, e: Event)
    requires Inv(words, s)
    ensures Inv(words, Step(words, s, e))
  {
    match e
    case ClockTick =>
      if Running(s) && s.timeLeft <= 1 {
        EndedIsValid(words, s);
      }
    case KeyPressed(key) =>
      KeyPreservesInv(words, s, key);
    case RefreshTimer =>
      if s.started {
        MetricsOfCounted(words, s);
      }
    case _ =>
  }

  /** The invariant holds after any sequence of events: in particular the number of
      correct words always equals the index, which never passes the end of the list,
      and accuracy is always 0 or 100. */
  lemma {:induction false} RunPreservesInv(words: seq<string>, s: State, es: seq<Event>)
    requires Inv(words, s)
    ensures Inv(words, Run(words, s, es))
    ensures var t := Run(words, s, es);
            t.correctWords == t.cursor <= |words| && (t.accuracy == 0 || t.accuracy == 100)
    decreases es
  {
    if es != [] {
      StepPreservesInv(words, s, es[0]);
      RunPreservesInv(words, Step(words, s, es[0]), es[1..]);
    }
  }

  /** Running events one batch after another is running them all. */
  lemma {:induction false} RunAppend(words: seq<string>, s: State, a: seq<Event>, b: seq<Event>)
    ensures Run(words, s, a + b) == Run(words, Run(words, s, a), b)
    decreases a
  {
    if a != [] {
      assert (a + b)[0] == a[0] && (a + b)[1..] == a[1..] + b;
      RunAppend(words, Step(words, s, a[0]), a[1..], b);
    } else {
      assert a + b == b;
    }
  }

  /** Apart from a restart, which clears them, nothing moves the index or the counters
      backwards: they only grow, and only by whole credited words. */
  lemma CountersNeverDecrease(words: seq<string>, s: State, e: Event)
    requires Inv(words, s)
    requires !e.StartPressed? && !(e.InputChanged? && !s.started)
    ensures var t := Step(words, s, e);
            s.cursor <= t.cursor <= s.cursor + 1
            && t.correctWords - s.correctWords == t.cursor - s.cursor
            && s.correctLetters <= t.correctLetters
  {
  }

  /** A space press with the entry matching the current word credits it: one more
      correct word, its letters plus one, the next index and an empty entry, and
      nothing else changes; when that was the last word the session ends, with
      the figures computed from the credited state. */
  lemma SpaceOnCorrectWord(words: seq<string>, s: State)
    requires Inv(words, s)
    requires !s.finished && !s.paused && Trim(s.input) == words[s.cursor]
    ensures var t := Step(words, s, KeyPressed(" "));
            && t.correctWords == s.correctWords + 1
            && t.correctLetters == s.correctLetters + |words[s.cursor]| + 1
            && t.cursor == s.cursor + 1
            && t.input == ""
            && t.finished == (t.cursor == |words|)
    ensures var c := s.(correctWords := s.correctWords + 1,
                        correctLetters := s.correctLetters + |words[s.cursor]| + 1,
                        cursor := s.cursor + 1,
                        input := "");
            Step(words, s, KeyPressed(" ")) == (if s.cursor + 1 == |words| then Ended(c) else c)
  {
  }

  /** A space press with a wrong entry changes nothing before the last word; at the
      last word it only ends the session. */
  lemma SpaceOnWrongWord(words: seq<string>, s: State)
    requires Inv(words, s)
    requires !s.finished && !s.paused && Trim(s.input) != words[s.cursor]
    ensures var t := Step(words, s, KeyPressed(" "));
            && t.cursor == s.cursor
            && t.correctWords == s.correctWords
            && t.correctLetters == s.correctLetters
            && t.input == s.input
            && t.finished == (s.cursor + 1 == |words|)
    ensures s.cursor + 1 < |words| ==> Step(words, s, KeyPressed(" ")) == s
    ensures s.cursor + 1 == |words| ==> Step(words, s, KeyPressed(" ")) == Ended(s)
  {
  }

  /** Key presses are ignored in a finished or paused session, and any key other
      than the space is ignored always. */
  lemma KeyIgnored(words: seq<string>, s: State, key: string)
    requires s.finished || s.paused || key != " "
    ensures Step(words, s, KeyPressed(key)) == s
  {
  }

  /** While paused, the clock is frozen. */
  lemma PausedClockFrozen(words: seq<string>, s: State, n: nat)
    requires s.paused
    ensures Run(words, s, Repeat(ClockTick, n)) == s
  {
  }

  /** In a running session with `t` seconds left, fewer than `t` ticks each take
      one second and change nothing else. */
  lemma {:induction false} TicksCountDown(words: seq<string>, s: State, n: nat)
    requires Running(s) && n < s.timeLeft
    ensures Run(words, s, Repeat(ClockTick, n)) == s.(timeLeft := s.timeLeft - n)
    decreases n
  {
    if n > 0 {
      var s1 := s.(timeLeft := s.timeLeft - 1);
      assert Step(words, s, ClockTick) == s1;
      assert Repeat(ClockTick, n)[1..] == Repeat(ClockTick, n - 1);
      TicksCountDown(words, s1, n - 1);
      assert s1.(timeLeft := s1.timeLeft - (n - 1)) == s.(timeLeft := s.timeLeft - n);
    }
  }

  /** After a start with duration `d`, the first `d - 1` ticks leave the session
      running, and the `d`-th ends it with the clock at 0. */
  lemma TimeoutAfterDuration(words: seq<string>, s: State, k: nat)
    requires s.duration >= 1 && k <= s.duration
    ensures var t := Run(words, s, [StartPressed] + Repeat(ClockTick, k));
            && (k < s.duration ==> Running(t) && t.timeLeft == s.duration - k)
            && (k == s.duration ==> t.finished && !t.started && t.timeLeft == 0)
  {
    var d := s.duration;
    var r := Restarted(d);
    assert ([StartPressed] + Repeat(ClockTick, k))[1..] == Repeat(ClockTick, k);
    assert Run(words, s, [StartPressed] + Repeat(ClockTick, k)) == Run(words, r, Repeat(ClockTick, k));
    if k < d {
      TicksCountDown(words, r, k);
    } else {
      assert Repeat(ClockTick, k) == Repeat(ClockTick, k - 1) + [ClockTick];
      RunAppend(words, r, Repeat(ClockTick, k - 1), [ClockTick]);
      TicksCountDown(words, r, k - 1);
    }
  }

  /** The live "wrong" flag of lines 123-124. The current word is read only when the
      trimmed entry is not empty, which in a valid state means the index is in range. */
  function WrongFlag(words: seq<string>, s: State): (r: bool)
    requires Inv(words, s)
    ensures r ==> s.cursor < |words| && Trim(s.input) != ""
  {
    Trim(s.input) != "" && IsWrong(s.input, words[s.cursor])
  }

  /** When the flag is on, finishing the word by typing more and pressing space will
      not credit it: the index stays where it is. */
  lemma FlagPredictsMiss(words: seq<string>, s: State, more: string)
    requires Inv(words, s) && s.started && !s.paused && WrongFlag(words, s)
    ensures Step(words, Step(words, s, InputChanged(s.input + more)), KeyPressed(" ")).cursor == s.cursor
  {
    WrongIsFinal(s.input, words[s.cursor], more);
  }

  /** The component's state held in fields and updated in place by its handlers. */
  class TypingSession {
    const words: seq<string>
    var cursor: nat
    var input: string
    var started: bool
    var paused: bool
    var finished: bool
    var timeLeft: nat
    var duration: nat
    var correctWords: nat
    var correctLetters: nat
    var wpm: nat
    var lpm: nat
    var accuracy: nat

    /** The fields as one value. */
    function Snapshot(): State
      reads this
    {
      State(cursor, input, started, paused, finished, timeLeft, duration,
            correctWords, correctLetters, wpm, lpm, accuracy)
    }

    ghost predicate Valid()
      reads this
    {
      Inv(words, Snapshot())
    }

    /** The component's first render over the reference text `text`. */
    constructor (text: string)
      ensures words == Tokenize(text)
      ensures Snapshot() == Initial() && Valid()
    {
      words := Tokenize(text);
      cursor, input := 0, "";
      started, paused, finished := false, false, false;
      timeLeft, duration := 60, 60;
      correctWords, correctLetters := 0, 0;
      wpm, lpm, accuracy := 0, 0, 100;
    }

    /** `startTest`. */
    method StartTest()
      requires |words| >= 1
      modifies this
      ensures Snapshot() == Restarted(old(duration)) && Valid()
    {
      started := true;
      finished := false;
      paused := false;
      cursor := 0;
      input := "";
      correctWords := 0;
      correctLetters := 0;
      accuracy := 100;
      wpm := 0;
      lpm := 0;
      timeLeft := duration;
    }

    /** `endTest`: reads the counters and the clock as they are when it is called. */
    method EndTest()
      requires Counted(words, Snapshot())
      modifies this`finished, this`started, this`wpm, this`lpm, this`accuracy
      ensures Snapshot() == Ended(old(Snapshot())) && Valid()
    {
      EndedIsValid(words, Snapshot());
      finished := true;
      started := false;
      var elapsed := ElapsedSeconds(duration, timeLeft);
      wpm := PerMinute(correctWords, elapsed);
      lpm := PerMinute(correctLetters, elapsed);
      accuracy := Accuracy(correctWords, cursor);
    }

    /** The countdown interval's callback, delivered only while running. */
    method Tick()
      requires Valid()
      modifies this
      ensures Snapshot() == Step(words, old(Snapshot()), ClockTick) && Valid()
    {
      if started && !finished && !paused {
        if timeLeft <= 1 {
          EndTest();
          timeLeft := 0;
        } else {
          timeLeft := timeLeft - 1;
        }
      }
    }

    /** The 200 ms refresh of the figures, active while the session is started. */
    method Refresh()
      requires Valid()
      modifies this`wpm, this`lpm, this`accuracy
      ensures Snapshot() == Step(words, old(Snapshot()), RefreshTimer) && Valid()
    {
      if started {
        MetricsOfCounted(words, Snapshot());
        var elapsed := ElapsedSeconds(duration, timeLeft);
        wpm := PerMinute(correctWords, elapsed);
        lpm := PerMinute(correctLetters, elapsed);
        accuracy := Accuracy(correctWords, cursor);
      }
    }

    /** `togglePause`. */
    method TogglePause()
      requires Valid()
      modifies this`paused
      ensures Snapshot() == Step(words, old(Snapshot()), PauseToggled) && Valid()
    {
      paused := !paused;
    }

    /** The duration selector, disabled while the session is started. */
    method SetDuration(seconds: nat)
      requires Valid()
      modifies this`duration
      ensures Snapshot() == Step(words, old(Snapshot()), DurationChosen(seconds)) && Valid()
    {
      if !started {
        duration := seconds;
      }
    }

    /** `handleInputChange`. */
    method HandleInputChange(value: string)
      requires Valid()
      modifies this
      ensures Snapshot() == Step(words, old(Snapshot()), InputChanged(value)) && Valid()
    {
      input := value;
      if !started {
        StartTest();
      }
    }

    /** `handleSpacePress`, the key-down handler of the entry field. */
    method HandleSpacePress(key: string)
      requires Valid()
      modifies this
      ensures Snapshot() == Step(words, old(Snapshot()), KeyPressed(key)) && Valid()
    {
      ghost var s := Snapshot();
      if key == " " && !finished && !paused {
        KeyKeepsCounted(words, s);
        var trimmed := Trim(input);
        var index := cursor;
        var correct := trimmed == words[index];
        if correct {
          correctWords := correctWords + 1;
          correctLetters := correctLetters + |trimmed| + 1;
          cursor := cursor + 1;
          input := "";
        }
        assert Snapshot() == Credit(words, s);
        if index + 1 >= |words| {
          EndTest();
        }
      }
      StepPreservesInv(words, s, KeyPressed(key));
    }
  }

  /** The reference text "gato casa" gives the two words. */
  lemma GatoCasaWords()
    ensures Tokenize("gato casa") == ["gato", "casa"]
  {
    var ws := ["gato", "casa"];
    assert Join(ws) == "gato casa";
    assert '\n' !in Join(ws);
    TokenizeWithoutNewlines(Join(ws));
    SplitJoin(ws);
  }

  /** Two words, the first typed correctly and the second wrongly: the session ends
      at the second space press with one word credited, the index still on the
      second word, the wrong entry kept and accuracy 100. The first keystroke only
      starts the session. */
  lemma TwoWordScenario()
    ensures var ws := ["gato", "casa"];
            var es := [InputChanged("g"), InputChanged("gato"), KeyPressed(" "),
                       InputChanged("xasa"), KeyPressed(" ")];
            var t := Run(ws, Initial(), es);
            && t.finished && !t.started
            && t.cursor == 1 && t.correctWords == 1 && t.correctLetters == 5
            && t.input == "xasa" && t.accuracy == 100
  {
    var ws := ["gato", "casa"];
    var es := [InputChanged("g"), InputChanged("gato"), KeyPressed(" "),
               InputChanged("xasa"), KeyPressed(" ")];
    TrimNoWhitespace("gato");
    TrimNoWhitespace("xasa");
    var s1 := Restarted(60);
    assert Step(ws, Initial(), es[0]) == s1;
    var s2 := s1.(input := "gato");
    assert Step(ws, s1, es[1]) == s2;
    var s3 := s2.(correctWords := 1, correctLetters := 5, cursor := 1, input := "");
    assert Step(ws, s2, es[2]) == s3;
    var s4 := s3.(input := "xasa");
    assert Step(ws, s3, es[3]) == s4;
    var s5 := Step(ws, s4, es[4]);
    assert s5 == Ended(s4);
    AccuracyLockstep(1);
    assert Run(ws, s4, es[4..]) == s5;
    assert Run(ws, s3, es[3..]) == s5 by { assert es[3..][1..] == es[4..]; }
    assert Run(ws, s2, es[2..]) == s5 by { assert es[2..][1..] == es[3..]; }
    assert Run(ws, s1, es[1..]) == s5 by { assert es[1..][1..] == es[2..]; }
    assert Run(ws, Initial(), es) == s5;
  }

  /** The same two-word session driven through the class's handlers. */
  method TwoWordSession()
  {
    GatoCasaWords();
    var session := new TypingSession("gato casa");
    session.HandleInputChange("g");
    session.HandleInputChange("gato");
    session.HandleSpacePress(" ");
    session.HandleInputChange("xasa");
    session.HandleSpacePress(" ");
    TwoWordScenario();
    assert session.finished && session.cursor == 1 && session.accuracy == 100;
  }
}
