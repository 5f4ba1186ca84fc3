# Typing-speed test: the session engine

The typing-speed test (a single React component, `digitacao/src/App.jsx`) shows a
reference text as a list of words. The user types each word into an entry field
and presses space to submit it. A countdown of 60, 120 or 180 seconds runs, and
the component shows words per minute (WPM), letters per minute (LPM) and
accuracy. This project models the component's session engine in Dafny and proves
properties of it:

- **Tokenizer** (`tokenizer.dfy`): the reference text becomes a word list by
  turning every line feed into a space and splitting on the single character
  `' '`. The model proves:
  - the split and the join with single spaces invert each other, in both
    directions;
  - the word count is the number of separators plus one;
  - empty words are kept.
- **InputCheck** (`input_check.dfy`): `String.prototype.trim` over the ECMAScript
  white-space and line-terminator set, and the live "wrong" flag (the trimmed
  entry is not empty and is not a prefix of the current word). The model proves:
  - once the flag is on, no further typing can make the entry match;
  - the flag stays off while a word is typed correctly.
- **Metrics** (`metrics.dfy`): the WPM, LPM and accuracy formulas, with the
  elapsed-seconds floor of 1 and the `|| 1` guard on the word index. Rounding is
  `Math.round` stated exactly: the nearest integer, with halves rounded up.
- **Session** (`session.dfy`): the state machine.
  - The pure function `Step` gives the effect of each event (start, tick, pause
    toggle, input change, key press, duration choice, the 200 ms refresh) on a
    `State` value, and `Run` applies a sequence of events.
  - The invariant `Inv` is proved to hold after every event and every sequence of
    events. It says:
    - the number of correct words equals the word index;
    - the letter count is the letters of the credited words plus one space each;
    - the index is below the end of the list unless the session is finished;
    - the clock is at most the duration while the session is started;
    - accuracy is 0 or 100, and WPM ≤ LPM.
  - The class `TypingSession` holds the same state in fields. Its handler methods
    update them in place, and each is proved to follow `Step`.

Each handler is modelled as one atomic update, in program order:
- `endTest` reads the state as the calling handler has left it so far. In the
  space handler, the counters have already been bumped. In the tick callback, the
  clock has not yet been set to 0, because `endTest()` runs before `return 0`.
- The end-of-text test at line 119 uses the word index from before the key press.
- A word index past the end of the list reads as `undefined`, which never equals
  a string.

The model follows the code where it differs from the behaviour one might expect
of a typing test:
- A word is accepted only when the trimmed entry is exactly equal to it. There is
  no case folding and no accent removal.
- The index advances only on a correct word. A wrong word leaves the index, the
  counters and the entry unchanged. At the last word the session ends anyway.
  Because the index equals the correct-word count, accuracy is always 0 (no word
  passed yet) or 100.
- The text is split on the single space and empty words are kept: the sample
  text's lines end with `" \n"`, so an empty word follows each line end.
- Typing into a session that has not started stores the entry and then starts
  the test, and starting clears the entry. So the first keystroke is lost.
- A space press is handled even before the session starts: the handler only
  checks that the session is not finished and not paused.
- Choosing a duration is possible whenever the session is not started, including
  after it has finished. So "time left ≤ duration" holds only while started.
- In a session of two words, "gato" typed correctly followed by "xasa" ends the
  session with the index at 1, one correct word and accuracy 100
  (`Session.TwoWordScenario`).

## Model

| member | source | states |
|---|---|---|
| Tokenizer.ReplaceNewlines | digitacao/src/App.jsx:12 | same length as the text; each line feed, and nothing else, becomes a space |
| Tokenizer.Split | digitacao/src/App.jsx:12 | at least one piece; no piece contains a space; every character of a piece comes from the text |
| Tokenizer.JoinSplit | digitacao/src/App.jsx:12 | joining the pieces of a split with single spaces gives the string back |
| Tokenizer.SplitJoin | digitacao/src/App.jsx:12 | splitting a non-empty list of space-free words joined by spaces gives the list back |
| Tokenizer.SplitCount | digitacao/src/App.jsx:12 | a split has exactly one more piece than the string has spaces, so empty pieces are kept |
| Tokenizer.ReplaceNewlinesCount | digitacao/src/App.jsx:12 | after the replacement, the spaces are the old spaces plus the old line feeds, and no line feed is left |
| Tokenizer.TokenizeSpec | digitacao/src/App.jsx:12 | word count = spaces + line feeds + 1; no word has a space or line feed; joining the words gives the text with line feeds as spaces |
| Tokenizer.EmptyWordFromLineEnd | digitacao/src/App.jsx:4-12 | a line ending in a space before its line feed, as the sample text's lines do, yields an empty word |
| InputCheck.Trim | digitacao/src/App.jsx:100 | the contiguous part of the entry that follows its leading white space, with only white space after it; empty exactly when the entry is all white space, otherwise starting and ending with a non-white-space character |
| InputCheck.TrimIdempotent | digitacao/src/App.jsx:100 | trimming twice equals trimming once |
| InputCheck.TrimExtends | digitacao/src/App.jsx:100 | a non-empty trimmed entry is a prefix of the trimmed entry after more typing |
| InputCheck.WrongIsFinal | digitacao/src/App.jsx:124 | when the flag is on, no continuation of the entry trims to the current word |
| InputCheck.TypingPrefixIsNotWrong | digitacao/src/App.jsx:124 | any prefix of a white-space-free word, typed as is, leaves the flag off |
| Metrics.RoundDiv | digitacao/src/App.jsx:54-56 | `Math.round` of a quotient: the unique r with r ≤ num/den + 1/2 < r + 1 |
| Metrics.ElapsedSeconds | digitacao/src/App.jsx:53 | at least 1 and at least duration − timeLeft, and equal to one of the two |
| Metrics.PerMinute | digitacao/src/App.jsx:53-55 | the count per 60 seconds of elapsed time, rounded to the nearest integer |
| Metrics.Accuracy | digitacao/src/App.jsx:56 | 100 × correct words / index, with an index of 0 read as 1, rounded to the nearest integer |
| Metrics.RoundDivMonotone | digitacao/src/App.jsx:54-56 | a larger numerator never gives a smaller rounded quotient |
| Metrics.AccuracyRange | digitacao/src/App.jsx:56 | with no more correct words than the index: accuracy ≤ 100; 0 when no word is correct; 100 when every passed word is correct |
| Metrics.AccuracyLockstep | digitacao/src/App.jsx:56 | with correct words equal to the index, accuracy is 0 at index 0 and 100 otherwise |
| Metrics.LpmAtLeastWpm | digitacao/src/App.jsx:53-55 | with at least as many letters as words, WPM ≤ LPM |
| Metrics.NothingTypedGivesZero | digitacao/src/App.jsx:80-83 | with no correct word or letter, all three figures are 0, whatever the clock says |
| Session.TypedLettersAtLeastWords | digitacao/src/App.jsx:106 | each credited word adds at least one letter |
| Session.TypedLettersAppend | digitacao/src/App.jsx:106 | crediting a word adds its length plus one |
| Session.TypedLettersIsJoinedText | digitacao/src/App.jsx:106 | the letters credited for a non-empty run of words equal the length of their space-joined text plus one |
| Session.MetricsOfCounted | digitacao/src/App.jsx:80-83 | figures computed in a counted state have accuracy 0 (index 0) or 100, and WPM ≤ LPM |
| Session.EndedIsValid | digitacao/src/App.jsx:76-83 | ending a counted state gives a finished, not-started state satisfying the invariant |
| Session.KeyKeepsCounted | digitacao/src/App.jsx:100-108 | in an unfinished valid state, the matching step keeps the counters in lockstep with the index and the letter count equal to the credited words' letters plus one each |
| Session.KeyPreservesInv | digitacao/src/App.jsx:97-120 | the space handler keeps the invariant, including when it ends the session at the last word |
| Session.InitialIsValid | digitacao/src/App.jsx:12-26 | the initial state satisfies the invariant |
| Session.StepPreservesInv | digitacao/src/App.jsx:32-120 | every event keeps the invariant |
| Session.RunPreservesInv | digitacao/src/App.jsx:32-120 | after any sequence of events: the invariant holds, correct words = index ≤ number of words, and accuracy is 0 or 100 |
| Session.CountersNeverDecrease | digitacao/src/App.jsx:97-120 | apart from a restart, an event moves the index by 0 or 1, the correct-word count by the same amount, and never lowers the letter count |
| Session.SpaceOnCorrectWord | digitacao/src/App.jsx:100-119 | a matching space press gives one more correct word, letters + length + 1, the next index and an empty entry, and changes nothing else; at the last word the session ends with the figures of the credited state |
| Session.SpaceOnWrongWord | digitacao/src/App.jsx:100-119 | a wrong space press leaves the whole state unchanged before the last word; at the last word the only change is `endTest` |
| Session.KeyIgnored | digitacao/src/App.jsx:98 | keys other than space, and every key in a finished or paused session, change nothing |
| Session.PausedClockFrozen | digitacao/src/App.jsx:34 | any number of ticks while paused change nothing |
| Session.TicksCountDown | digitacao/src/App.jsx:36-43 | while running with t seconds left, n < t ticks lower the clock by n and change nothing else |
| Session.TimeoutAfterDuration | digitacao/src/App.jsx:36-43 | after a start with duration d ≥ 1: the first d − 1 ticks leave the session running with d − k seconds left; the d-th finishes it with the clock at 0 |
| Session.WrongFlag | digitacao/src/App.jsx:123-124 | in a valid state the flag reads the current word only when the index is in range |
| Session.FlagPredictsMiss | digitacao/src/App.jsx:124 | when the flag is on, typing more and pressing space does not advance the index |
| Session.TwoWordScenario | digitacao/src/App.jsx:92-120 | "gato" correct then "xasa" wrong: finished, index 1, one correct word, 5 letters, entry kept, accuracy 100 |
| Session.TypingSession.constructor | digitacao/src/App.jsx:12-26 | words are the tokenized text; index 0, empty entry, not started, 60 s clock and duration, zero counters and figures, accuracy 100 |
| Session.TypingSession.StartTest | digitacao/src/App.jsx:61-72 | from any state: index 0, empty entry, zero counters, WPM = LPM = 0, accuracy 100, clock = duration, started, not paused, not finished |
| Session.TypingSession.EndTest | digitacao/src/App.jsx:76-83 | finished, not started, figures computed from the current counters and clock; nothing else changes |
| Session.TypingSession.Tick | digitacao/src/App.jsx:36-43 | while running: at ≤ 1 second the session ends and the clock shows 0, otherwise the clock drops by 1; otherwise nothing changes |
| Session.TypingSession.Refresh | digitacao/src/App.jsx:52-56 | while started the figures are recomputed, otherwise nothing changes |
| Session.TypingSession.TogglePause | digitacao/src/App.jsx:86-87 | flips the paused flag only |
| Session.TypingSession.SetDuration | digitacao/src/App.jsx:134-137 | sets the duration only when not started |
| Session.TypingSession.HandleInputChange | digitacao/src/App.jsx:92-95 | when started, stores the entry only; otherwise starts the test, which clears the entry |
| Session.TypingSession.HandleSpacePress | digitacao/src/App.jsx:97-120 | follows `Step` for a key press and keeps the invariant |

## Left out

- React hook scheduling: asynchronous batching of `useState` updates, stale closures and effect dependency lists. Every handler is one atomic update in program order. In particular, `endTest` called from the tick callback actually reads the counters and clock captured when the timer effect last ran. The model reads the current ones instead.
- `setInterval`/`clearInterval`: the countdown is the `ClockTick` event, delivered only in the phase where the interval exists. The 200 ms refresh is the `RefreshTimer` event.
- DOM work: automatic scrolling (lines 111-116), focus and blur (lines 73, 88-89), the disabled state of the entry field (line 166), rendering and CSS classes. `preventDefault` on the space key is also left out: the model does not produce the input change that the browser suppresses.
- Metrics.PerMinute, Metrics.Accuracy: these use exact rational division with nearest-integer rounding. The source uses IEEE-754 floating point, whose result can differ by one right at a .5 boundary.
- Figures are natural numbers. The clock never goes negative, so the only negative elapsed time (after a duration change in an idle session) is caught by the floor of 1, as in the source.
- InputCheck.Trim: `|trimmed|` counts Unicode scalar values, while JavaScript's `length` counts UTF-16 code units. They differ only for characters outside the Basic Multilingual Plane.
- The concrete sample text (lines 4-9, repeated three times). The word list is built from any text given to the constructor; parts of the sample appear only as examples.
- Session.TypingSession.SetDuration accepts any number of seconds. The selector offers only 60, 120 and 180.
