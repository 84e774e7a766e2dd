/**
 * The three-line text window (wordDisplay in worddisplay.go): the words of
 * a line packed greedily under a width, the cells of the three visible
 * lines, and the mapping of a window position to a line and an offset.
 */
module Display {

  /** The theme colours a cell can carry: untyped, typed correctly, typed wrongly. */
  datatype ColorName = Foreground | Success | Error

  /** One text segment of a line: a single glyph and its colour. */
  datatype Cell = Cell(glyph: char, color: ColorName)

  /** defaultMaxLineLength. */
  const DefaultMaxLineLength: nat := 80

  /** Fresh untyped cells for the characters of `s`. */
  function Cells(s: string): (cs: seq<Cell>)
    ensures |cs| == |s|
    ensures forall i :: 0 <= i < |s| ==> cs[i] == Cell(s[i], Foreground)
  {
    seq(|s|, i requires 0 <= i < |s| => Cell(s[i], Foreground))
  }

  lemma CellsAppend(a: string, b: string)
    ensures Cells(a + b) == Cells(a) + Cells(b)
  {}

  /** One more character of `w` is one more cell after the ones before. */
  lemma CellsSnoc(before: seq<Cell>, w: string, j: nat)
    requires j < |w|
    ensures before + Cells(w[..j + 1]) == before + Cells(w[..j]) + [Cell(w[j], Foreground)]
  {
    assert w[..j + 1] == w[..j] + [w[j]];
    CellsAppend(w[..j], [w[j]]);
  }

  /** The inner loop of buildSegments: one Foreground cell per character of `word`. */
  method AppendWord(segments: seq<Cell>, word: string) returns (r: seq<Cell>)
    ensures r == segments + Cells(word)
  {
    r := segments;
    for j := 0 to |word|
      invariant r == segments + Cells(word[..j])
    {
      CellsSnoc(segments, word, j);
      r := r + [Cell(word[j], Foreground)];
    }
    assert word[..|word|] == word;
  }

  /**
   * The value of `extra` when word `i` of `n` is tried: 1, except for the
   * last word of a list of two or more, which gets no trailing space.
   */
  function Extra(i: nat, n: nat): nat {
    if 1 <= i && i == n - 1 then 0 else 1
  }

  /** The text of a line made of the first `k` words, each followed by a space while `extra` is 1. */
  function Rendered(ws: seq<string>, k: nat): string
    requires k <= |ws|
  {
    if k == 0 then []
    else Rendered(ws, k - 1) + ws[k - 1] + (if Extra(k - 1, |ws|) == 1 then " " else "")
  }

  /** Whether word `k` fits after the first `k` words. */
  predicate Fits(ws: seq<string>, max: nat, k: nat)
    requires k < |ws|
  {
    |Rendered(ws, k)| + |ws[k]| + Extra(k, |ws|) <= max
  }

  /** The admission loop of buildSegments, from word `k` on. */
  function PackFrom(ws: seq<string>, max: nat, k: nat): nat
    requires k <= |ws|
    decreases |ws| - k
  {
    if k < |ws| && Fits(ws, max, k) then PackFrom(ws, max, k + 1) else k
  }

  /** How many words buildSegments admits into a line of width `max`. */
  function Pack(ws: seq<string>, max: nat): nat {
    PackFrom(ws, max, 0)
  }

  lemma {:induction false} PackFromStops(ws: seq<string>, max: nat, k: nat)
    requires k <= |ws|
    requires forall j :: 0 <= j < k ==> Fits(ws, max, j)
    ensures k <= PackFrom(ws, max, k) <= |ws|
    ensures forall j :: 0 <= j < PackFrom(ws, max, k) ==> Fits(ws, max, j)
    ensures PackFrom(ws, max, k) < |ws| ==> !Fits(ws, max, PackFrom(ws, max, k))
    decreases |ws| - k
  {
    if k < |ws| && Fits(ws, max, k) {
      PackFromStops(ws, max, k + 1);
    }
  }

  /**
   * The packing is greedy and stops at the first word that does not fit:
   * the admitted words are a prefix, each fitted when it was tried, and the
   * next word, if any, does not fit. Any count with these properties is the packing.
   */
  lemma PackIsFirstMisfit(ws: seq<string>, max: nat, p: nat)
    ensures Pack(ws, max) <= |ws|
    ensures forall j :: 0 <= j < Pack(ws, max) ==> Fits(ws, max, j)
    ensures Pack(ws, max) < |ws| ==> !Fits(ws, max, Pack(ws, max))
    ensures p <= |ws| && (forall j :: 0 <= j < p ==> Fits(ws, max, j)) && (p < |ws| ==> !Fits(ws, max, p))
      ==> p == Pack(ws, max)
  {
    PackFromStops(ws, max, 0);
  }

  /** A line never exceeds its width: each admission adds exactly what its guard measured. */
  lemma {:induction false} RenderedFits(ws: seq<string>, max: nat, k: nat)
    requires k <= |ws|
    requires forall j :: 0 <= j < k ==> Fits(ws, max, j)
    ensures |Rendered(ws, k)| <= max
  {
    if k > 0 {
      assert Fits(ws, max, k - 1);
    }
  }

  /** The total length of some words. */
  function TotalLength(ws: seq<string>): nat {
    if ws == [] then 0 else TotalLength(ws[..|ws| - 1]) + |ws[|ws| - 1]|
  }

  /**
   * The length of a line of `k` words: their letters and one separator per
   * word, less one when all of two or more words are on it.
   */
  lemma {:induction false} RenderedLength(ws: seq<string>, k: nat)
    requires k <= |ws|
    ensures |Rendered(ws, k)| == TotalLength(ws[..k]) + k - (if 2 <= k == |ws| then 1 else 0)
  {
    if k > 0 {
      RenderedLength(ws, k - 1);
      assert ws[..k][..k - 1] == ws[..k - 1];
    }
  }

  /** Admitting word `k` extends the line by the word and, while `extra` is 1, a space. */
  lemma AdmitStep(ws: seq<string>, max: nat, k: nat)
    requires k < |ws| && Fits(ws, max, k)
    ensures PackFrom(ws, max, k) == PackFrom(ws, max, k + 1)
    ensures |Rendered(ws, k + 1)| <= max
    ensures Cells(Rendered(ws, k + 1))
      == Cells(Rendered(ws, k)) + Cells(ws[k]) + (if Extra(k, |ws|) == 1 then [Cell(' ', Foreground)] else [])
  {
    CellsAppend(Rendered(ws, k), ws[k]);
    CellsAppend(Rendered(ws, k) + ws[k], if Extra(k, |ws|) == 1 then " " else "");
  }

  /** A one-word list still gets its trailing space. */
  lemma SingleWordKeepsSeparator(w: string, max: nat)
    requires |w| + 1 <= max
    ensures Pack([w], max) == 1
    ensures Rendered([w], 1) == w + " "
  {
    assert Fits([w], max, 0);
    assert PackFrom([w], max, 1) == 1;
  }

  /**
   * A first word at least as long as the width is never admitted: it is
   * tried with its trailing space, so it needs one cell more than its length.
   */
  lemma LongFirstWordStalls(w: string, rest: seq<string>, max: nat)
    requires max <= |w|
    ensures Pack([w] + rest, max) == 0
  {
    assert !Fits([w] + rest, max, 0);
  }

  /** Width 10 with "ab", "cd", "efgh" admits all three words: "ab cd efgh", ten cells. */
  lemma ThreeWordExample()
    ensures Pack(["ab", "cd", "efgh"], 10) == 3
    ensures Rendered(["ab", "cd", "efgh"], 3) == "ab cd efgh"
  {
    var ws := ["ab", "cd", "efgh"];
    assert Rendered(ws, 1) == "ab ";
    assert Rendered(ws, 2) == "ab cd ";
    assert Rendered(ws, 3) == "ab cd efgh";
    assert Fits(ws, 10, 0) && Fits(ws, 10, 1) && Fits(ws, 10, 2);
    PackIsFirstMisfit(ws, 10, 3);
  }

  /** A window position resolved to a line and an offset into it. */
  datatype Position = Position(line: int, offset: int)

  /**
   * The display: the three lines of cells, oldest first, and the width of
   * a line. `first`, `second` and `third` stand for the segments of the
   * three RichText widgets; `lines` in the source lists the same three.
   */
  class WordDisplay {
    var first: seq<Cell>
    var second: seq<Cell>
    var third: seq<Cell>
    const maxLineLength: nat

    /** newWordDisplay: three empty lines of the default width. */
    constructor ()
      ensures first == [] && second == [] && third == []
      ensures maxLineLength == DefaultMaxLineLength
    {
      first, second, third := [], [], [];
      maxLineLength := DefaultMaxLineLength;
    }

    /** The cells of line `l`, 0 being the top line. */
    function Line(l: int): seq<Cell>
      requires 0 <= l < 3
      reads this
    {
      if l == 0 then first else if l == 1 then second else third
    }

    /** The three lines as one run of cells: what a raw index counts along. */
    function Window(): seq<Cell>
      reads this
    {
      first + second + third
    }

    /** How many cells the lines above line `l` hold. */
    function LengthBefore(l: int): nat
      requires 0 <= l < 3
      reads this
    {
      if l == 0 then 0 else if l == 1 then |first| else |first| + |second|
    }

    /**
     * rawIndexToLineAndSegmentIndex: the line and offset of window position
     * `index`; any position outside the window falls back to (0, index).
     */
    function RawIndexToLineAndSegmentIndex(index: int): (r: Position)
      reads this
      ensures 0 <= index < |Window()| ==>
        && 0 <= r.line < 3 && 0 <= r.offset < |Line(r.line)|
        && LengthBefore(r.line) + r.offset == index
        && Line(r.line)[r.offset] == Window()[index]
      ensures !(0 <= index < |Window()|) ==> r == Position(0, index)
    {
      var firstLen := |first|;
      var secondLen := |second|;
      var thirdLen := |third|;
      if index >= firstLen && index < firstLen + secondLen then Position(1, index - firstLen)
      else if index >= firstLen + secondLen && index < firstLen + secondLen + thirdLen then
        Position(2, index - firstLen - secondLen)
      else Position(0, index)
    }

    /** Every cell of every line is reached from exactly its own window position. */
    lemma LineAndSegmentRoundTrip(l: int, o: int)
      requires 0 <= l < 3 && 0 <= o < |Line(l)|
      ensures 0 <= LengthBefore(l) + o < |Window()|
      ensures RawIndexToLineAndSegmentIndex(LengthBefore(l) + o) == Position(l, o)
    {}

    /** getRune: the glyph of the cell at window position `rawIndex`. */
    function GetRune(rawIndex: int): (r: char)
      requires 0 <= rawIndex < |Window()|
      reads this
      ensures r == Window()[rawIndex].glyph
    {
      var Position(l, o) := RawIndexToLineAndSegmentIndex(rawIndex);
      Line(l)[o].glyph
    }

    /** setColorNameAndRune: replace one cell; a space marked as an error is stored as '_'. */
    method SetColorNameAndRune(lineIndex: int, segmentIndex: int, r: char, colorName: ColorName)
      requires 0 <= lineIndex < 3 && 0 <= segmentIndex < |Line(lineIndex)|
      modifies this
      ensures Line(lineIndex) == old(Line(lineIndex))[segmentIndex := Cell(Displayed(r, colorName), colorName)]
      ensures forall l :: 0 <= l < 3 && l != lineIndex ==> Line(l) == old(Line(l))
    {
      var glyph := r;
      if r == ' ' && colorName == Error {
        glyph := '_';
      }
      var cell := Cell(glyph, colorName);
      if lineIndex == 0 {
        first := first[segmentIndex := cell];
      } else if lineIndex == 1 {
        second := second[segmentIndex := cell];
      } else {
        third := third[segmentIndex := cell];
      }
    }

    /** setColorName: recolour one cell, keeping its glyph (a space turned to an error still becomes '_'). */
    method SetColorName(lineIndex: int, segmentIndex: int, colorName: ColorName)
      requires 0 <= lineIndex < 3 && 0 <= segmentIndex < |Line(lineIndex)|
      modifies this
      ensures Line(lineIndex) == old(Line(lineIndex))[segmentIndex :=
        Cell(Displayed(old(Line(lineIndex))[segmentIndex].glyph, colorName), colorName)]
      ensures forall l :: 0 <= l < 3 && l != lineIndex ==> Line(l) == old(Line(l))
    {
      SetColorNameAndRune(lineIndex, segmentIndex, Line(lineIndex)[segmentIndex].glyph, colorName);
    }

    /** setIndexToColorNameAndRune: replace the cell at a window position by the rune ('_' for a space given the Error colour). */
    method SetIndexToColorNameAndRune(index: int, r: char, colorName: ColorName)
      requires 0 <= index < |Window()|
      modifies this
      ensures Window() == old(Window())[index := Cell(Displayed(r, colorName), colorName)]
      ensures |first| == old(|first|) && |second| == old(|second|) && |third| == old(|third|)
    {
      var Position(l, o) := RawIndexToLineAndSegmentIndex(index);
      SetColorNameAndRune(l, o, r, colorName);
      assert Line(0) == first && Line(1) == second && Line(2) == third;
      assert old(Line(0)) == old(first) && old(Line(1)) == old(second) && old(Line(2)) == old(third);
      assert Window() == old(Window())[index := Cell(Displayed(r, colorName), colorName)];
    }

    /** setIndexToColorName: recolour the cell at a window position, keeping its glyph ('_' for a space given the Error colour). */
    method SetIndexToColorName(index: int, colorName: ColorName)
      requires 0 <= index < |Window()|
      modifies this
      ensures Window() == old(Window())[index := Cell(Displayed(old(Window())[index].glyph, colorName), colorName)]
      ensures |first| == old(|first|) && |second| == old(|second|) && |third| == old(|third|)
    {
      var Position(l, o) := RawIndexToLineAndSegmentIndex(index);
      SetColorName(l, o, colorName);
      assert Line(0) == first && Line(1) == second && Line(2) == third;
      assert old(Line(0)) == old(first) && old(Line(1)) == old(second) && old(Line(2)) == old(third);
      assert Window() == old(Window())[index := Cell(Displayed(old(Window())[index].glyph, colorName), colorName)];
    }

    /**
     * buildSegments: the cells of the next line and the number of words it
     * uses, packed greedily from the front of `words`.
     */
    method BuildSegments(words: seq<string>) returns (segments: seq<Cell>, wordsUsed: nat)
      ensures wordsUsed <= |words|
      ensures wordsUsed == Pack(words, maxLineLength)
      ensures segments == Cells(Rendered(words, wordsUsed))
      ensures |segments| <= maxLineLength
    {
      segments := [];
      var wordIndex := 0;
      wordsUsed := 0;
      var extra := 1;
      while wordIndex < |words| && |segments| + |words[wordIndex]| + extra <= maxLineLength
        invariant 0 <= wordIndex <= |words|
        invariant wordsUsed == wordIndex
        invariant wordIndex < |words| ==> extra == Extra(wordIndex, |words|)
        invariant segments == Cells(Rendered(words, wordIndex))
        invariant |segments| <= maxLineLength
        invariant PackFrom(words, maxLineLength, wordIndex) == Pack(words, maxLineLength)
        decreases |words| - wordIndex
      {
        AdmitStep(words, maxLineLength, wordIndex);
        wordsUsed := wordsUsed + 1;
        segments := AppendWord(segments, words[wordIndex]);
        if extra == 1 {
          segments := segments + [Cell(' ', Foreground)];
        }
        wordIndex := wordIndex + 1;
        if wordIndex == |words| - 1 {
          extra := 0;
        }
      }
    }

    /**
     * pushNewLine: the window scrolls up one line; the old top line is
     * dropped and a new bottom line is packed from `words`.
     */
    method PushNewLine(words: seq<string>) returns (wordsUsed: nat)
      modifies this
      ensures first == old(second) && second == old(third)
      ensures wordsUsed <= |words|
      ensures wordsUsed == Pack(words, maxLineLength)
      ensures third == Cells(Rendered(words, wordsUsed))
      ensures Window() == old(Window())[|old(first)|..] + third
    {
      first := second;
      second := third;
      third, wordsUsed := BuildSegments(words);
      assert old(Window())[|old(first)|..] == old(second) + old(third);
    }
  }

  /** The glyph setColorNameAndRune stores for rune `r` in colour `c`. */
  function Displayed(r: char, c: ColorName): char {
    if r == ' ' && c == Error then '_' else r
  }

  /** An error on a space shows '_'; every other write keeps the rune. */
  lemma DisplayedKeepsAllButErrorSpace(r: char, c: ColorName)
    ensures Displayed(r, c) == '_' <==> r == '_' || (r == ' ' && c == Error)
    ensures Displayed(r, c) != r ==> r == ' ' && c == Error
  {}
}
