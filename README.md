# kstats in Dafny

kstats is a typing trainer. It shows the words of a word file in a window
of three lines. It colours every cell the user types over as correct or
wrong. It also collects, for every pair of consecutive valid keystrokes,
a timed transition. The transitions are summarised per category: hand
changes, same-finger presses and "different finger" presses, each with
count, minimum, maximum, mean and median latency.

This project models the three files that hold the program's logic:

- `statcollector.go` — the finger table, `getFinger`, `collect`, the six
  category getters, `calculateStats`, `newStat` and `printableChar`.
  Modules `Fingers`, `Transitions`, `Stat` and `Collector`.
- `worddisplay.go` — the greedy line packing of `buildSegments`, the
  three-line window with `pushNewLine`, the index mapping, and the cell
  writers. Module `Display`.
- `game.go` — the word-file split of `getWords`, the window fill of
  `newGame`, `nextLine`, `nextRune`, `peekNextRune` and the keystroke
  handler `onTypedRune`. Modules `Words` and `Session`.

Code that changes state keeps that form:

- `StatCollector`, `WordDisplay` and `Game` are classes whose methods
  update their fields.
- `buildSegments`, the scans of `newStat` and its sort are loops.
- The sort runs in place on an array.

Each method is proved against a specification function (`Select`,
`StatOf`, `Summary`, `Pack`/`Rendered`, `Cells`, `GetWords`). The
properties the program relies on are proved as lemmas about those
functions.

Where the code and its names disagree, the model follows the code:

- `getDifferentFingerSameHandTransitions` tests `from.left != to.left`
  (statcollector.go:104). It therefore selects transitions that cross
  hands and land on the given finger, never same-hand ones. Its
  `from != to` test is redundant. `DifferentFingerIsCrossHand`,
  `SameHandDifferentFingerIsUncounted` and the two `...CountsAddUp`
  lemmas state this.
- `buildSegments` sets `extra` to 0 once the next word is the last of the
  list (worddisplay.go:128-130), so the last word is admitted without a
  trailing space. At width 10, "ab", "cd", "efgh" all fit on one line as
  "ab cd efgh" (`ThreeWordExample`). A one-word list still gets its space
  (`SingleWordKeepsSeparator`).

Time enters as a parameter `now: nat`, the clock reading at the press. A
duration is the difference of two readings (a `nat`, because the clock is
required not to go backwards). The word file enters as its contents, a
string.

## Model

| member | source | states |
|---|---|---|
| Fingers.ValidCharactersListed | statcollector.go:33-41 | the character test accepts exactly the 53 characters of validCharacters |
| Fingers.FindFingerFinds | statcollector.go:162-170 | the finger scan returns a finger of the list that owns the character, and fails (the panic) exactly when no finger of the list owns it |
| Fingers.OwnerOwns | statcollector.go:172-184 | a character listed for a finger is that finger's in the table read by character |
| Fingers.OwnerListed | statcollector.go:172-184 | the table read by character names only a finger whose list holds the character |
| Fingers.OwnerIffOwns | statcollector.go:172-184 | the table read by character and the finger lists agree in both directions |
| Fingers.CharsDisjoint | statcollector.go:172-184 | no character is listed for two fingers |
| Fingers.OwnedIffValid | statcollector.go:18-41 | the fingers in the lookup list own exactly the valid characters |
| Fingers.GetFingerFinds | statcollector.go:162-170 | getFinger succeeds exactly on valid characters, returns a finger that owns the character, and never returns the left thumb |
| Fingers.FingerTablePartition | statcollector.go:172-184 | for a valid character, getFinger returns a given finger exactly when that finger owns it: the table partitions the valid characters |
| Fingers.OwnerIsFinger | statcollector.go:162-170 | the finger getFinger reports is the one finger that owns the character |
| Fingers.RightThumbIsSpace | statcollector.go:183 | getFinger returns the right thumb exactly for the space |
| Transitions.NewTransition | statcollector.go:206-214 | a transition records the previous, expected and actual characters and the duration; it is correct exactly when actual equals expected |
| Transitions.Select | statcollector.go:88-160 | a getter keeps exactly the log's transitions of its category, all correct, no more of them than are in the log |
| Transitions.SelectAppend | statcollector.go:88-97 | filtering a log that grew is filtering each part, in order; a log of recorded transitions stays valid when extended |
| Transitions.WithoutSpace | statcollector.go:126-128 | the filter keeps exactly the transitions with no space at either end |
| Transitions.WithoutSpaceAppend | statcollector.go:123-135 | dropping space transitions commutes with concatenation |
| Transitions.LeftToRightIgnoreSpaceIsFiltered | statcollector.go:123-135 | Left -> Right ignoring space equals Left -> Right with the space transitions removed, so it is a subsequence of it |
| Transitions.RightToLeftIgnoreSpaceIsFiltered | statcollector.go:148-160 | Right -> Left ignoring space equals Right -> Left with the space transitions removed |
| Transitions.SameFingerByTable | statcollector.go:88-97 | a transition is same-finger for f exactly when it is correct and f owns both of its characters |
| Transitions.DifferentFingerIsCrossHand | statcollector.go:99-110 | "different finger" for f holds exactly for correct transitions that land on f from the other hand; those are Right -> Left for a left finger and Left -> Right for a right finger |
| Transitions.LeftThumbCategoriesEmpty | statcollector.go:177 | both left-thumb categories are empty for every log |
| Transitions.RightThumbSameFingerIsSpaceToSpace | statcollector.go:88-97 | the right thumb's same-finger category holds exactly the log's correct space -> space transitions |
| Transitions.RightDifferentFingerStep | statcollector.go:99-121 | one transition is in exactly one right-hand "different finger" category when it is Left -> Right, and in none otherwise |
| Transitions.LeftDifferentFingerStep | statcollector.go:99-146 | one transition is in exactly one left-hand "different finger" category when it is Right -> Left, and in none otherwise |
| Transitions.RightDifferentFingerCountsLeftToRight | statcollector.go:99-121 | the sizes of the five right-hand "different finger" categories add up to the size of Left -> Right |
| Transitions.LeftDifferentFingerCountsRightToLeft | statcollector.go:99-146 | the sizes of the five left-hand "different finger" categories add up to the size of Right -> Left |
| Transitions.SameHandDifferentFingerIsUncounted | statcollector.go:99-110 | a correct h -> i press (two fingers of the right hand) falls in no category |
| Transitions.CrossHandIsDifferentFinger | statcollector.go:104 | a correct f -> j press is both Left -> Right and the right index's "different finger" transition |
| Stat.FirstMinimum | statcollector.go:263-266 | the index of a least duration, with every earlier duration strictly greater: the element MinFunc returns |
| Stat.FirstMaximum | statcollector.go:267-270 | the index of a greatest duration, with every earlier duration strictly smaller: the element MaxFunc returns |
| Stat.SortAscending | statcollector.go:277-282 | the reference sort: ascending, and a permutation of its input |
| Stat.InsertSorted | statcollector.go:277-282 | inserting into an ascending sequence keeps it ascending |
| Stat.InsertPermutes | statcollector.go:277-282 | inserting adds exactly one occurrence of the element |
| Stat.SortedUnique | statcollector.go:277-282 | two ascending orderings of the same values are equal, so how ties are broken does not matter |
| Stat.StatOrder | statcollector.go:259-298 | the empty list gives the zero stat; otherwise count is the length, minT and maxT are elements, min and max are their durations, and min <= median <= max and min <= mean <= max |
| Stat.MinimumIsFirst | statcollector.go:263-266 | minT is the first transition, in list order, of least duration |
| Stat.MaximumIsFirst | statcollector.go:267-270 | maxT is the first transition, in list order, of greatest duration |
| Stat.MedianOfSorted | statcollector.go:284-287 | on a list already in ascending order, the median is the duration at index n / 2 |
| Stat.MedianIgnoresOrder | statcollector.go:277-287 | the median depends only on the multiset of durations |
| Stat.MedianIsUpperMiddle | statcollector.go:284-287 | durations 10, 20, 30, 40 give median 30 (the upper middle) and mean 25 |
| Stat.MeanTruncates | statcollector.go:271-275 | durations 1, 2, 2 give mean 1: the mean is the sum over the count, truncated |
| Stat.SortInPlace | statcollector.go:277-282 | after the sort the array is ascending and a permutation of what it held |
| Stat.MinFunc | statcollector.go:263-266 | the loop finds the first minimal element |
| Stat.MaxFunc | statcollector.go:267-270 | the loop finds the first maximal element |
| Stat.Sum | statcollector.go:271-274 | the loop computes the sum of the durations |
| Stat.Median | statcollector.go:277-287 | sorting the durations in place and indexing at n / 2 gives the reference median |
| Stat.NewStat | statcollector.go:259-298 | newStat computes exactly StatOf, so StatOrder and the lemmas after it hold of its result |
| Collector.SummaryGet | statcollector.go:57-86 | each field of the stats record is newStat of its own category's getter |
| Collector.LeftThumbSummariesZero | statcollector.go:57-86 | both left-thumb summaries are always the zero stat |
| Collector.DifferentFingerCountsAddUp | statcollector.go:73-82 | the five right-hand "different finger" counts add up to the Left -> Right count, and the five left-hand ones to the Right -> Left count |
| Collector.PrintableChar | statcollector.go:322-328 | the printed form is never a space, and every other rune prints as itself |
| Collector.UnderscoreIsNotValid | statcollector.go:33-41 | '_' is not a valid character, so no recorded character prints like a space |
| Collector.PrintableCharInjective | statcollector.go:322-328 | apart from '_' itself, two runes print alike exactly when they are equal |
| Collector.FirstPressKeepsInvariant | statcollector.go:47-54 | the first valid press leaves an empty log whose previous character has a finger |
| Collector.RecordKeepsInvariant | statcollector.go:49-54 | a later valid press appends a transition that starts at the previous character, keeping the chain of transitions and a finger for both ends of each |
| Collector.StatCollector.constructor | statcollector.go:16-31 | a new collector has an empty log, no previous character, and satisfies the invariant |
| Collector.StatCollector.Collect | statcollector.go:43-55 | an invalid character changes nothing; a valid one becomes the previous character, updates the time, and adds exactly one transition when there was a previous character; earlier entries are untouched and the invariant is kept |
| Collector.StatCollector.CalculateStats | statcollector.go:57-86 | the result is the summary of the log; the collector is not modified, so repeating the call gives the same record |
| Display.Cells | worddisplay.go:106-124 | fresh cells hold the characters of the text, in order, all in the Foreground state |
| Display.AppendWord | worddisplay.go:105-115 | the inner loop appends one fresh cell per character of the word |
| Display.PackIsFirstMisfit | worddisplay.go:103-131 | the admitted words are a prefix of the list, each fitted when it was tried, and the next word, if any, does not fit; no other count has these properties |
| Display.PackFromStops | worddisplay.go:103-131 | from any point the admission loop stops inside the list, after words that fit, at a word that does not |
| Display.RenderedFits | worddisplay.go:103-126 | a line built from words that fitted is no longer than the width |
| Display.RenderedLength | worddisplay.go:102-130 | a line of k words has their letters plus one space per word, less one when all of two or more words are on it |
| Display.AdmitStep | worddisplay.go:103-127 | admitting a word extends the line by its cells and, while extra is 1, one space cell |
| Display.SingleWordKeepsSeparator | worddisplay.go:116-130 | a one-word list still gets its trailing space |
| Display.LongFirstWordStalls | worddisplay.go:102-103 | a first word at least as long as the width is never admitted, since it is tried with its trailing space |
| Display.ThreeWordExample | worddisplay.go:128-130 | width 10 with "ab", "cd", "efgh" packs all three words as "ab cd efgh" |
| Display.DisplayedKeepsAllButErrorSpace | worddisplay.go:61-63 | a stored glyph differs from the rune only for a space in the Error state, which becomes '_' |
| Display.WordDisplay.constructor | worddisplay.go:21-36 | a new display has three empty lines and width 80 |
| Display.WordDisplay.RawIndexToLineAndSegmentIndex | worddisplay.go:135-145 | inside the window, the result is a line and an offset within it whose position is the index and whose cell is the window's cell there; outside it, (0, index) |
| Display.WordDisplay.LineAndSegmentRoundTrip | worddisplay.go:135-145 | every cell of every line is reached from its own window position |
| Display.WordDisplay.GetRune | worddisplay.go:77-80 | the glyph of the window cell at the index |
| Display.WordDisplay.SetColorNameAndRune | worddisplay.go:59-75 | only the addressed cell changes, to the rune in the new colour ('_' for an Error space) |
| Display.WordDisplay.SetColorName | worddisplay.go:82-85 | only the addressed cell changes: it takes the new colour and keeps its glyph, except that a space given the Error colour becomes '_' (the glyph goes back through setColorNameAndRune) |
| Display.WordDisplay.SetIndexToColorNameAndRune | worddisplay.go:54-57 | the window changes at the index only; line lengths are unchanged |
| Display.WordDisplay.SetIndexToColorName | worddisplay.go:49-52 | the window cell at the index takes the colour and keeps its glyph, except that a space given the Error colour becomes '_'; nothing else changes |
| Display.WordDisplay.BuildSegments | worddisplay.go:98-133 | the words used are the greedy packing, at most the list's length, and the cells are those words' fresh cells with their separators, no longer than the width |
| Display.WordDisplay.PushNewLine | worddisplay.go:88-95 | the lines move up one, the new bottom line is built from the words, its word count is returned, and the window loses exactly the old top line |
| Words.RemoveCarriageReturnsDrops | game.go:23 | dropping carriage returns keeps every other character and shortens the text by their number |
| Words.RemoveCarriageReturnsKeepsCount | game.go:23 | dropping carriage returns keeps the number of newlines |
| Words.RemoveCarriageReturnsAppend | game.go:23 | carriage returns are dropped piecewise |
| Words.RemoveCarriageReturnsNone | game.go:23 | a text without carriage returns is unchanged |
| Words.RemoveCarriageReturnsKeepsLast | game.go:23 | a last character that is not a carriage return stays last |
| Words.SplitCount | game.go:23 | splitting gives one more piece than there are separators |
| Words.SplitPieces | game.go:23 | no piece holds the separator, and every character of a piece comes from the text |
| Words.JoinSplit | game.go:23 | joining the pieces with the separator gives back the text |
| Words.SplitJoin | game.go:23 | splitting the join of separator-free pieces gives back the pieces |
| Words.SplitWithoutSeparator | game.go:23 | a text without the separator is one piece |
| Words.SplitConcat | game.go:23 | a separator-free word then the separator splits off that word first |
| Words.TrailingSeparatorGivesEmptyPiece | game.go:23 | a text ending in the separator ends in an empty piece |
| Words.GetWordsLines | game.go:23 | the word list has one more entry than the file has newlines, no entry holds a carriage return or a newline, and a trailing newline gives a final empty word |
| Words.CrlfDropped | game.go:23 | a CRLF line ending becomes an LF ending |
| Words.GetWordsExample | game.go:23 | "w1\r\nw2\n" gives the words w1, w2 and a final empty word |
| Session.Game.constructor | game.go:41-62 | the three lines and the remaining words are those of Fill on the file's word list; the cursor and counters start at 0, the collector is empty with previous time 0, and the invariant holds |
| Session.FirstPressExample | game.go:41-92 | a new session on "ab\n" accepts its first press: typing 'a' is one correct press, moves the cursor to 1, starts the clock and records no transition |
| Session.Game.FillWindow | game.go:55-57 | the three nextLine calls on an empty window leave exactly the lines and queue of Fill, and the cursor at 0 before any reset |
| Session.Push | game.go:107-115 | definition: one nextLine on the lines and the queue as values, a no-op on an empty queue |
| Session.Fill | game.go:55-57 | definition: three pushes onto empty lines |
| Session.FillDropsEmptyLines | game.go:55-58 | the top line each of the three pushes drops is empty, so none of them moves the cursor |
| Session.FillExample | game.go:41-58 | the file "ab" plus a newline gives the words "ab" and "", and the window two empty lines above "ab " with an empty queue |
| Session.Game.PeekNextRune | game.go:117-119 | the glyph under the cursor |
| Session.Game.NextRune | game.go:121-125 | the cursor moves on by exactly one and the glyph it passed is returned |
| Session.Game.NextLine | game.go:107-115 | nothing changes when no words remain; otherwise the window scrolls, the cursor moves back by the length of the dropped line, and exactly the words of the new line leave the queue |
| Session.Game.SetCurrentColorName | game.go:99-101 | the cell under the cursor takes the colour and keeps its glyph, except that a space given the Error colour becomes '_' |
| Session.Game.SetCurrentColorNameAndRune | game.go:103-105 | the cell under the cursor takes the colour and the rune, except that a typed space given the Error colour is stored as '_' |
| Session.Game.Record | game.go:73-77 | the start time is set on the first cell; the collector is fed the press against the glyph under the cursor, with collect's effect |
| Session.Game.Mark | game.go:78-87 | a match turns the cell Success with its glyph and counts a correct press; a mismatch turns it Error, holding the typed rune ('_' for a space), and counts a wrong press; the press count goes up by one |
| Session.Game.Advance | game.go:88-94 | the cursor moves on by one; if it enters the bottom line while words remain the window scrolls, and the cursor then addresses the same cell, in line 1 at the same offset |
| Session.Game.OnTypedRune | game.go:72-97 | one press: the collector records it, the cell is marked, exactly one of the counters and the press count go up by one (keeping presses = correct + wrong), and the cursor advances and scrolls as above |
| Fingers.IsValidChar | statcollector.go:43-46 | definition: the membership test of collect, the letters of both cases and the space |
| Fingers.FindFinger | statcollector.go:162-170 | definition: the scan of getFinger, the first listed finger owning the character, None where the source panics |
| Fingers.GetFinger | statcollector.go:162-170 | definition: getFinger over the collector's nine-finger list |
| Transitions.Selects | statcollector.go:88-160 | definition: the test of each getter, on correctness, the two fingers and whether a space is involved |
| Transitions.InCategory | statcollector.go:88-160 | definition: whether a getter keeps a transition, through getFinger on both ends |
| Stat.SumDurations | statcollector.go:271-274 | definition: the sum of the durations |
| Stat.Mean | statcollector.go:275 | definition: the sum over the count, truncated |
| Stat.StatOf | statcollector.go:259-298 | definition: newStat as a value, the zero stat or the first minimum, first maximum, median at n / 2 of the ascending durations, mean and count |
| Collector.Summary | statcollector.go:57-86 | definition: the stats record, newStat of each of the 24 getters |
| Collector.LogInvariant | statcollector.go:43-55 | definition: what collect maintains, the chain of transitions ending at the previous character, with a finger at both ends of each |
| Display.Extra | worddisplay.go:102-130 | definition: the value of extra when a word is tried, 0 only for the last of two or more words |
| Display.Rendered | worddisplay.go:103-130 | definition: the text of a line of the first k words, each followed by a space while extra is 1 |
| Display.Fits | worddisplay.go:103 | definition: the admission test of the loop |
| Display.PackFrom | worddisplay.go:103-131 | definition: the admission loop from a given word on |
| Display.Pack | worddisplay.go:98-133 | definition: the number of words buildSegments admits |
| Display.Displayed | worddisplay.go:61-63 | definition: the glyph stored for a rune and a colour, '_' for an Error space |
| Words.RemoveCarriageReturns | game.go:23 | definition: the text without its carriage returns |
| Words.Split | game.go:23 | definition: the pieces between the separators, at least one |
| Words.GetWords | game.go:17-25 | definition: the split at newlines of the text without carriage returns |
| Session.Typed | game.go:78-87 | definition: the cell left under the cursor, Success with the glyph on a match, Error holding the typed rune ('_' for a space) otherwise |
| Session.Shifts | game.go:88-94 | definition: whether the advanced cursor is in the bottom line while words remain |

## Left out

- main.go and ktheme.go: application and window setup, font loading and
  theme colours, with no logic.
- The widget `Refresh` and `refreshAll` calls and `refresh`: they only
  redraw.
- `calculateCpm`, `calculateWpm` and the accuracy percentage: they are
  floating point on wall-clock time.
- `updateStats` and `stat.String`: text formatting.
- `updateStatsLoop`: a sleeping background loop, about concurrency only.
- `os.ReadFile` in `getWords`: `GetWords` takes the file's contents.
  The read error is not modelled.
- The wall clock. `time.Since` and `time.Now` in collect are read as one
  reading `now`, passed in. The clock is required not to go backwards.
- `Record` sets `start` after feeding the collector. The source sets it
  first. Neither step reads or writes what the other does, so the final
  state is the same.
- Stat.StatOf: the float64 mean is modelled as truncated integer division.
- Byte versus rune length. Glyphs are taken to be one byte each, so a
  word's length, a line's string length and `Textual()[0]` agree with the
  cell model. On words or typed runes outside ASCII the code measures bytes
  (worddisplay.go:102, game.go:110) and reads a cell's first byte
  (worddisplay.go:79); `Display.Pack`, `Display.WordDisplay.BuildSegments`,
  `Session.Game.NextLine` and `Session.Game.OnTypedRune` count characters
  there instead. They keep no precondition against such input, because the
  program accepts it.
- Stat.SortInPlace: sorts the durations alone, not the transitions. The
  median reads only durations, and `SortedUnique` shows that how ties are
  ordered cannot change it.
- Stat.MinFunc, Stat.MaxFunc: the subtracting comparator can overflow in
  Go. The model compares durations exactly.
- Integer widths: counters, durations and indices are unbounded.
- Fingers.GetFinger: the panic for a character without a finger is
  `None`. The collector only logs valid characters, so it does not occur.
- Session.Game.OnTypedRune: requires the cursor to be inside the window.
  Once the word queue is exhausted, the source indexes out of range
  through the `(0, i)` fallback.
- A word at least as long as the line width (it needs its length plus one
  cell) is never admitted, so packing stalls on it (`LongFirstWordStalls`).
  The model shows this behaviour and proves nothing about progress.
