/**
 * The typing session (game in game.go): the queue of words still to show,
 * the cursor into the window, the press counters, and the keystroke handler
 * that ties the collector to the display.
 */
module Session {
  import opened Fingers
  import opened Transitions
  import opened Collector
  import opened Display
  import opened Words

  class Game {
    var words: seq<string>
    var rawIndex: int
    const display: WordDisplay
    const collector: StatCollector
    var start: nat
    var wrongPresses: nat
    var correctPresses: nat
    var presses: nat

    /**
     * The session invariant: the collector keeps its own invariant, the
     * cursor lies in the window or just past its end, and every press was
     * counted either correct or wrong.
     */
    ghost predicate Valid()
      reads this, display, collector
    {
      && collector.Valid()
      && 0 <= rawIndex <= |display.Window()|
      && presses == correctPresses + wrongPresses
    }

    /**
     * newGame, on the contents of the word file: the words, an empty
     * window and collector, three lines pushed, and the cursor at 0.
     */
    constructor (raw: string)
      ensures Valid()
      ensures fresh(display) && fresh(collector)
      ensures rawIndex == 0 && presses == 0 && correctPresses == 0 && wrongPresses == 0
      ensures collector.transitions == [] && collector.previousChar == '\0' && collector.previousTime == 0
      ensures display.maxLineLength == DefaultMaxLineLength
      ensures Screen(display.first, display.second, display.third, words)
        == Fill(GetWords(raw), DefaultMaxLineLength)
    {
      words := GetWords(raw);
      rawIndex := 0;
      display := new WordDisplay();
      collector := new StatCollector();
      start, wrongPresses, correctPresses, presses := 0, 0, 0, 0;
      new;
      FillWindow();
      rawIndex := 0;
    }

    /**
     * The three nextLine calls of newGame, on an empty window with the
     * cursor at 0. Every dropped top line is empty, so the cursor stays at 0
     * even before newGame resets it.
     */
    method FillWindow()
      requires display.first == [] && display.second == [] && display.third == [] && rawIndex == 0
      modifies this`rawIndex, this`words, display
      ensures rawIndex == 0
      ensures Screen(display.first, display.second, display.third, words) == Fill(old(words), display.maxLineLength)
    {
      FillDropsEmptyLines(words, display.maxLineLength);
      NextLine();
      NextLine();
      NextLine();
    }

    /** peekNextRune: the glyph under the cursor. */
    function PeekNextRune(): (r: char)
      requires 0 <= rawIndex < |display.Window()|
      reads this, display
      ensures r == display.Window()[rawIndex].glyph
    {
      display.GetRune(rawIndex)
    }

    /** nextRune: advance the cursor and return the glyph it passed. */
    method NextRune() returns (r: char)
      requires 0 <= rawIndex < |display.Window()|
      modifies this`rawIndex
      ensures rawIndex == old(rawIndex) + 1
      ensures r == display.Window()[old(rawIndex)].glyph
    {
      rawIndex := rawIndex + 1;
      r := display.GetRune(rawIndex - 1);
    }

    /**
     * nextLine: unless the word queue is empty, scroll the window by one
     * line, move the cursor back by the length of the dropped line, and
     * drop the words the new line used.
     */
    method NextLine()
      modifies this`rawIndex, this`words, display
      ensures old(words) == [] ==>
        && words == old(words) && rawIndex == old(rawIndex)
        && display.first == old(display.first) && display.second == old(display.second)
        && display.third == old(display.third)
      ensures old(words) != [] ==>
        var used := Pack(old(words), display.maxLineLength);
        && used <= |old(words)|
        && rawIndex == old(rawIndex) - |old(display.first)|
        && words == old(words)[used..]
        && display.first == old(display.second) && display.second == old(display.third)
        && display.third == Cells(Rendered(old(words), used))
        && display.Window() == old(display.Window())[|old(display.first)|..] + display.third
      ensures Screen(display.first, display.second, display.third, words)
        == Push(Screen(old(display.first), old(display.second), old(display.third), old(words)), display.maxLineLength)
    {
      if |words| == 0 {
        return;
      }
      rawIndex := rawIndex - |display.first|;
      var wordsUsed := display.PushNewLine(words);
      words := words[wordsUsed..];
    }

    /** setCurrentColorName: recolour the cell under the cursor, keeping its glyph ('_' for a space given the Error colour). */
    method SetCurrentColorName(colorName: ColorName)
      requires 0 <= rawIndex < |display.Window()|
      modifies display
      ensures display.Window() == old(display.Window())[rawIndex :=
        Cell(Displayed(old(display.Window())[rawIndex].glyph, colorName), colorName)]
      ensures |display.first| == old(|display.first|) && |display.second| == old(|display.second|)
      ensures |display.third| == old(|display.third|)
    {
      display.SetIndexToColorName(rawIndex, colorName);
    }

    /** setCurrentColorNameAndRune: replace the cell under the cursor by the rune ('_' for a space given the Error colour). */
    method SetCurrentColorNameAndRune(r: char, colorName: ColorName)
      requires 0 <= rawIndex < |display.Window()|
      modifies display
      ensures display.Window() == old(display.Window())[rawIndex := Cell(Displayed(r, colorName), colorName)]
      ensures |display.first| == old(|display.first|) && |display.second| == old(|display.second|)
      ensures |display.third| == old(|display.third|)
    {
      display.SetIndexToColorNameAndRune(rawIndex, r, colorName);
    }

    /**
     * The opening of onTypedRune: note the start time on the first press
     * and feed the collector the press against the glyph under the cursor,
     * which is returned.
     */
    method Record(r: char, now: nat) returns (next: char)
      requires collector.Valid()
      requires 0 <= rawIndex < |display.Window()|
      requires now >= collector.previousTime
      modifies this`start, collector
      ensures collector.Valid()
      ensures next == display.Window()[rawIndex].glyph
      ensures start == if rawIndex == 0 then now else old(start)
      ensures !IsValidChar(r) ==>
        && collector.transitions == old(collector.transitions)
        && collector.previousChar == old(collector.previousChar)
        && collector.previousTime == old(collector.previousTime)
      ensures IsValidChar(r) ==>
        && collector.previousChar == r && collector.previousTime == now
        && collector.transitions == old(collector.transitions)
             + (if old(collector.previousChar) != '\0'
                then [NewTransition(r, next, old(collector.previousChar), now - old(collector.previousTime))]
                else [])
    {
      next := PeekNextRune();
      collector.Collect(r, next, now);
      // onTypedRune sets the start time first; neither call above reads or writes it
      if rawIndex == 0 {
        start := now;
      }
    }

    /**
     * The marking in onTypedRune: the cell under the cursor turns Success
     * on a match and Error otherwise, and the press is counted.
     */
    method Mark(r: char, next: char)
      requires 0 <= rawIndex < |display.Window()|
      modifies this`correctPresses, this`wrongPresses, this`presses, display
      ensures presses == old(presses) + 1
      ensures r == next ==> correctPresses == old(correctPresses) + 1 && wrongPresses == old(wrongPresses)
      ensures r != next ==> wrongPresses == old(wrongPresses) + 1 && correctPresses == old(correctPresses)
      ensures next == old(display.Window())[rawIndex].glyph ==>
        display.Window() == old(display.Window())[rawIndex := Typed(next, r)]
      ensures |display.first| == |old(display.first)| && |display.second| == |old(display.second)|
      ensures |display.third| == |old(display.third)|
    {
      if r == next {
        SetCurrentColorName(Success);
        correctPresses := correctPresses + 1;
      } else {
        SetCurrentColorNameAndRune(r, Error);
        wrongPresses := wrongPresses + 1;
      }
      presses := presses + 1;
    }

    /**
     * The second half of onTypedRune: move the cursor on, and scroll when
     * it has entered the bottom line while words remain.
     */
    method Advance()
      requires Valid()
      requires rawIndex < |display.Window()|
      modifies this`rawIndex, this`words, display
      ensures Valid()
      ensures var cursor := old(rawIndex) + 1;
        var aboveThird := |old(display.first)| + |old(display.second)|;
        && (!Shifts(aboveThird, |old(display.Window())|, cursor, old(words)) ==>
              && rawIndex == cursor && words == old(words) && display.Window() == old(display.Window())
              && |display.first| == |old(display.first)| && |display.second| == |old(display.second)|)
        && (Shifts(aboveThird, |old(display.Window())|, cursor, old(words)) ==>
              var used := Pack(old(words), display.maxLineLength);
              && used <= |old(words)|
              && rawIndex == cursor - |old(display.first)|
              && words == old(words)[used..]
              && display.Window() == old(display.Window())[|old(display.first)|..] + display.third
              && display.third == Cells(Rendered(old(words), used))
              && display.RawIndexToLineAndSegmentIndex(rawIndex) == Position(1, cursor - aboveThird))
    {
      ghost var f0, s0, words0 := display.first, display.second, words;
      var _ := NextRune();
      var Position(lineIndex, _) := display.RawIndexToLineAndSegmentIndex(rawIndex);
      if lineIndex == 2 {
        NextLine();
        if words0 != [] {
          display.LineAndSegmentRoundTrip(1, rawIndex - |s0|);
        }
      }
    }

    /**
     * onTypedRune: the press of `r` at time `now`. The collector records it
     * against the glyph under the cursor; the cell turns Success (keeping its
     * glyph) on a match and Error, holding the typed rune ('_' for a space),
     * otherwise; the matching counter and the press count go up by one; the
     * cursor moves on, and when it enters the bottom line while words remain
     * the window scrolls so that the cursor addresses the same cell, now in
     * line 1.
     */
    method OnTypedRune(r: char, now: nat)
      requires Valid()
      requires rawIndex < |display.Window()|
      requires now >= collector.previousTime
      modifies this, display, collector
      ensures Valid()
      ensures presses == old(presses) + 1
      ensures var next := old(display.Window())[old(rawIndex)].glyph;
        && (r == next ==> correctPresses == old(correctPresses) + 1 && wrongPresses == old(wrongPresses))
        && (r != next ==> wrongPresses == old(wrongPresses) + 1 && correctPresses == old(correctPresses))
      ensures start == if old(rawIndex) == 0 then now else old(start)
      ensures !IsValidChar(r) ==>
        && collector.transitions == old(collector.transitions)
        && collector.previousChar == old(collector.previousChar)
        && collector.previousTime == old(collector.previousTime)
      ensures IsValidChar(r) ==>
        && collector.previousChar == r && collector.previousTime == now
        && collector.transitions == old(collector.transitions)
             + (if old(collector.previousChar) != '\0'
                then [NewTransition(r, old(display.Window())[old(rawIndex)].glyph, old(collector.previousChar), now - old(collector.previousTime))]
                else [])
      ensures var marked := old(display.Window())[old(rawIndex) := Typed(old(display.Window())[old(rawIndex)].glyph, r)];
        var cursor := old(rawIndex) + 1;
        var aboveThird := |old(display.first)| + |old(display.second)|;
        && (!Shifts(aboveThird, |old(display.Window())|, cursor, old(words)) ==>
              && rawIndex == cursor && words == old(words) && display.Window() == marked
              && |display.first| == |old(display.first)| && |display.second| == |old(display.second)|)
        && (Shifts(aboveThird, |old(display.Window())|, cursor, old(words)) ==>
              var used := Pack(old(words), display.maxLineLength);
              && used <= |old(words)|
              && rawIndex == cursor - |old(display.first)|
              && words == old(words)[used..]
              && display.Window() == marked[|old(display.first)|..] + display.third
              && display.third == Cells(Rendered(old(words), used))
              && display.RawIndexToLineAndSegmentIndex(rawIndex) == Position(1, cursor - aboveThird))
    {
      var next := Record(r, now);
      Mark(r, next);
      Advance();
    }
  }

  /**
   * A session on the word file "ab\n" taking its first press: the window is
   * "ab ", so typing 'a' at any time is one correct press, starts the clock
   * and records no transition yet.
   */
  method FirstPressExample(now: nat) returns (g: Game)
    ensures g.Valid()
    ensures g.presses == 1 && g.correctPresses == 1 && g.wrongPresses == 0
    ensures g.start == now && g.rawIndex == 1
    ensures g.collector.transitions == [] && g.collector.previousChar == 'a'
  {
    FillExample();
    g := new Game("ab\n");
    assert g.display.Window() == Cells("ab ");
    g.OnTypedRune('a', now);
  }

  /** The three lines of the window and the words not yet shown, as values. */
  datatype Screen = Screen(first: seq<Cell>, second: seq<Cell>, third: seq<Cell>, words: seq<string>)

  /**
   * One nextLine on a screen of width `max`: nothing when no words remain;
   * otherwise the lines move up, the packed line comes in at the bottom and
   * its words leave the queue.
   */
  function Push(s: Screen, max: nat): Screen {
    if s.words == [] then s
    else
      PackIsFirstMisfit(s.words, max, 0);
      var used := Pack(s.words, max);
      Screen(s.second, s.third, Cells(Rendered(s.words, used)), s.words[used..])
  }

  /** The screen newGame leaves: three pushes onto empty lines. */
  function Fill(words: seq<string>, max: nat): Screen {
    Push(Push(Push(Screen([], [], [], words), max), max), max)
  }

  /**
   * Each of the three pushes of newGame drops an empty top line, so none of
   * them moves the cursor.
   */
  lemma FillDropsEmptyLines(words: seq<string>, max: nat)
    ensures var s0 := Screen([], [], [], words);
      var s1 := Push(s0, max);
      var s2 := Push(s1, max);
      s0.first == [] && s1.first == [] && s2.first == []
  {
  }

  /**
   * A file holding "ab" and a newline gives the words "ab" and "": both fit
   * on the first pushed line, as "ab ", and the queue is then empty, so the
   * window is two empty lines above "ab ".
   */
  lemma FillExample()
    ensures GetWords("ab\n") == ["ab", ""]
    ensures Fill(GetWords("ab\n"), DefaultMaxLineLength) == Screen([], [], Cells("ab "), [])
  {
    var ws := ["ab", ""];
    assert RemoveCarriageReturns("ab\n") == "ab\n";
    SplitConcat("ab", "", '\n');
    assert "ab" + ['\n'] + "" == "ab\n";
    assert Rendered(ws, 1) == "ab ";
    assert Rendered(ws, 2) == "ab ";
    assert Fits(ws, DefaultMaxLineLength, 0) && Fits(ws, DefaultMaxLineLength, 1);
    PackIsFirstMisfit(ws, DefaultMaxLineLength, 2);
    assert ws[2..] == [];
  }

  /** The cell left under the cursor when `r` is typed over `next`. */
  function Typed(next: char, r: char): Cell {
    if r == next then Cell(next, Success) else Cell(Displayed(r, Error), Error)
  }

  /** Whether the advanced cursor lies in the bottom line and words remain to scroll in. */
  predicate Shifts(aboveThird: nat, windowLength: nat, cursor: int, words: seq<string>) {
    aboveThird <= cursor < windowLength && words != []
  }
}
