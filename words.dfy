/**
 * The pure part of getWords (game.go): carriage returns are dropped and
 * the text is split into lines at every newline, as strings.ReplaceAll and
 * strings.Split do.
 */
module Words {

  /** How many times `c` occurs in `s`. */
  function Count(s: string, c: char): nat {
    if s == [] then 0 else (if s[0] == c then 1 else 0) + Count(s[1..], c)
  }

  /** strings.ReplaceAll(s, "\r", ""): `s` without its carriage returns, in order. */
  function RemoveCarriageReturns(s: string): string {
    if s == [] then []
    else (if s[0] == '\r' then [] else [s[0]]) + RemoveCarriageReturns(s[1..])
  }

  /** The result holds no carriage return, and every other character of `s`, and is shorter by their number. */
  lemma {:induction false} RemoveCarriageReturnsDrops(s: string)
    ensures |RemoveCarriageReturns(s)| == |s| - Count(s, '\r')
    ensures forall c :: c in RemoveCarriageReturns(s) <==> c in s && c != '\r'
  {
    if s != [] {
      RemoveCarriageReturnsDrops(s[1..]);
      assert s == [s[0]] + s[1..];
    }
  }

  /** Dropping carriage returns keeps the number of every other character, newlines included. */
  lemma {:induction false} RemoveCarriageReturnsKeepsCount(s: string, c: char)
    requires c != '\r'
    ensures Count(RemoveCarriageReturns(s), c) == Count(s, c)
  {
    if s != [] {
      RemoveCarriageReturnsKeepsCount(s[1..], c);
      var r := RemoveCarriageReturns(s);
      if s[0] == '\r' {
        assert r == RemoveCarriageReturns(s[1..]);
      } else {
        assert r == [s[0]] + RemoveCarriageReturns(s[1..]);
        assert r[0] == s[0] && r[1..] == RemoveCarriageReturns(s[1..]);
      }
    }
  }

  /** Carriage returns are dropped piecewise. */
  lemma {:induction false} RemoveCarriageReturnsAppend(a: string, b: string)
    ensures RemoveCarriageReturns(a + b) == RemoveCarriageReturns(a) + RemoveCarriageReturns(b)
  {
    if a == [] {
      assert a + b == b;
    } else {
      var head := if a[0] == '\r' then [] else [a[0]];
      assert (a + b)[0] == a[0] && (a + b)[1..] == a[1..] + b;
      RemoveCarriageReturnsAppend(a[1..], b);
      calc {
        RemoveCarriageReturns(a + b);
        head + RemoveCarriageReturns(a[1..] + b);
        head + (RemoveCarriageReturns(a[1..]) + RemoveCarriageReturns(b));
        (head + RemoveCarriageReturns(a[1..])) + RemoveCarriageReturns(b);
      }
    }
  }

  /** A text without carriage returns is left as it is. */
  lemma {:induction false} RemoveCarriageReturnsNone(s: string)
    requires '\r' !in s
    ensures RemoveCarriageReturns(s) == s
  {
    if s != [] {
      RemoveCarriageReturnsNone(s[1..]);
      assert s == [s[0]] + s[1..];
    }
  }

  /** strings.Split(s, [sep]): the pieces of `s` between the separators, in order. */
  function Split(s: string, sep: char): (parts: seq<string>)
    ensures |parts| >= 1
  {
    if s == [] then [""]
    else
      var rest := Split(s[1..], sep);
      if s[0] == sep then [""] + rest else [[s[0]] + rest[0]] + rest[1..]
  }

  /** strings.Join(parts, [sep]): the inverse of Split. */
  function Join(parts: seq<string>, sep: char): string
    requires |parts| >= 1
  {
    if |parts| == 1 then parts[0] else parts[0] + [sep] + Join(parts[1..], sep)
  }

  /** Splitting gives one more piece than there are separators. */
  lemma {:induction false} SplitCount(s: string, sep: char)
    ensures |Split(s, sep)| == Count(s, sep) + 1
  {
    if s != [] {
      SplitCount(s[1..], sep);
    }
  }

  /** No piece contains the separator, and every character of a piece comes from `s`. */
  lemma {:induction false} SplitPieces(s: string, sep: char)
    ensures forall i :: 0 <= i < |Split(s, sep)| ==>
      forall c :: c in Split(s, sep)[i] ==> c != sep && c in s
  {
    if s != [] {
      SplitPieces(s[1..], sep);
      var rest := Split(s[1..], sep);
      var parts := Split(s, sep);
      if s[0] != sep {
        assert parts[0] == [s[0]] + rest[0];
        assert forall i :: 1 <= i < |parts| ==> parts[i] == rest[i];
      } else {
        assert forall i :: 1 <= i < |parts| ==> parts[i] == rest[i - 1];
      }
    }
  }

  /** Joining the pieces back with the separator gives the text again. */
  lemma {:induction false} JoinSplit(s: string, sep: char)
    ensures Join(Split(s, sep), sep) == s
  {
    if s != [] {
      JoinSplit(s[1..], sep);
      var rest := Split(s[1..], sep);
      if s[0] == sep {
        JoinEmptyFirst(rest, sep);
      } else {
        JoinPrepend(s[0], rest, sep);
      }
      assert s == [s[0]] + s[1..];
    }
  }

  /** A leading empty piece joins to a leading separator. */
  lemma JoinEmptyFirst(rest: seq<string>, sep: char)
    requires |rest| >= 1
    ensures Join([""] + rest, sep) == [sep] + Join(rest, sep)
  {
    assert ([""] + rest)[1..] == rest;
  }

  /** A character put in front of the first piece comes out in front of the join. */
  lemma JoinPrepend(c: char, rest: seq<string>, sep: char)
    requires |rest| >= 1
    ensures Join([[c] + rest[0]] + rest[1..], sep) == [c] + Join(rest, sep)
  {
    var parts := [[c] + rest[0]] + rest[1..];
    if |rest| > 1 {
      assert parts[1..] == rest[1..];
      calc {
        Join(parts, sep);
        ([c] + rest[0]) + [sep] + Join(rest[1..], sep);
        [c] + (rest[0] + [sep] + Join(rest[1..], sep));
      }
    }
  }

  /** Splitting pieces that hold no separator, once joined, gives those pieces back. */
  lemma {:induction false} SplitJoin(parts: seq<string>, sep: char)
    requires |parts| >= 1
    requires forall i :: 0 <= i < |parts| ==> sep !in parts[i]
    ensures Split(Join(parts, sep), sep) == parts
  {
    if |parts| == 1 {
      SplitWithoutSeparator(parts[0], sep);
    } else {
      SplitJoin(parts[1..], sep);
      SplitConcat(parts[0], Join(parts[1..], sep), sep);
      assert parts == [parts[0]] + parts[1..];
    }
  }

  /** A text without the separator is a single piece. */
  lemma {:induction false} SplitWithoutSeparator(w: string, sep: char)
    requires sep !in w
    ensures Split(w, sep) == [w]
  {
    if w != [] {
      SplitWithoutSeparator(w[1..], sep);
      assert w == [w[0]] + w[1..];
    }
  }

  /** A separator-free word, a separator, then more text: the word is the first piece. */
  lemma {:induction false} SplitConcat(w: string, t: string, sep: char)
    requires sep !in w
    ensures Split(w + [sep] + t, sep) == [w] + Split(t, sep)
  {
    if w == [] {
      assert w + [sep] + t == [sep] + t;
      assert ([sep] + t)[1..] == t;
    } else {
      SplitConcat(w[1..], t, sep);
      assert (w + [sep] + t)[1..] == w[1..] + [sep] + t;
      assert w == [w[0]] + w[1..];
    }
  }

  /** A text that ends with the separator ends with an empty piece. */
  lemma {:induction false} TrailingSeparatorGivesEmptyPiece(s: string, sep: char)
    requires s != [] && s[|s| - 1] == sep
    ensures Split(s, sep)[|Split(s, sep)| - 1] == ""
  {
    if |s| > 1 {
      TrailingSeparatorGivesEmptyPiece(s[1..], sep);
    }
  }

  /** The word list of a text file's contents: one entry per line. */
  function GetWords(raw: string): seq<string> {
    Split(RemoveCarriageReturns(raw), '\n')
  }

  /**
   * There is one word per newline plus one, and no word holds a carriage
   * return or a newline; a trailing newline gives a final empty word.
   */
  lemma GetWordsLines(raw: string)
    ensures |GetWords(raw)| == Count(raw, '\n') + 1
    ensures forall i :: 0 <= i < |GetWords(raw)| ==> '\r' !in GetWords(raw)[i] && '\n' !in GetWords(raw)[i]
    ensures raw != [] && raw[|raw| - 1] == '\n' ==> GetWords(raw)[|GetWords(raw)| - 1] == ""
  {
    var s := RemoveCarriageReturns(raw);
    SplitCount(s, '\n');
    RemoveCarriageReturnsKeepsCount(raw, '\n');
    RemoveCarriageReturnsDrops(raw);
    SplitPieces(s, '\n');
    if raw != [] && raw[|raw| - 1] == '\n' {
      RemoveCarriageReturnsKeepsLast(raw);
      TrailingSeparatorGivesEmptyPiece(s, '\n');
    }
  }

  /** The last character survives when it is not a carriage return. */
  lemma {:induction false} RemoveCarriageReturnsKeepsLast(s: string)
    requires s != [] && s[|s| - 1] != '\r'
    ensures RemoveCarriageReturns(s) != []
    ensures RemoveCarriageReturns(s)[|RemoveCarriageReturns(s)| - 1] == s[|s| - 1]
  {
    if |s| > 1 {
      RemoveCarriageReturnsKeepsLast(s[1..]);
    }
  }

  /** Dropping the carriage return of a CRLF line ending leaves an LF ending. */
  lemma CrlfDropped(w1: string, w2: string)
    requires '\r' !in w1 && '\r' !in w2
    ensures RemoveCarriageReturns(w1 + "\r\n" + w2 + "\n") == w1 + "\n" + w2 + "\n"
  {
    var rest := ['\n'] + w2 + ['\n'];
    calc {
      RemoveCarriageReturns(w1 + "\r\n" + w2 + "\n");
    == { assert w1 + "\r\n" + w2 + "\n" == (w1 + ['\r']) + rest; }
      RemoveCarriageReturns((w1 + ['\r']) + rest);
    == { RemoveCarriageReturnsAppend(w1 + ['\r'], rest); }
      RemoveCarriageReturns(w1 + ['\r']) + RemoveCarriageReturns(rest);
    == { RemoveCarriageReturnsAppend(w1, ['\r']);
         RemoveCarriageReturnsNone(w1);
         assert RemoveCarriageReturns(['\r']) == [];
         assert w1 + [] == w1; }
      w1 + RemoveCarriageReturns(rest);
    == { RemoveCarriageReturnsNone(rest); }
      w1 + rest;
    == { assert w1 + rest == w1 + "\n" + w2 + "\n"; }
      w1 + "\n" + w2 + "\n";
    }
  }

  lemma JoinTwoLines(w1: string, w2: string)
    ensures Join([w1, w2, ""], '\n') == w1 + "\n" + w2 + "\n"
  {
    var parts := [w1, w2, ""];
    assert parts[1..] == [w2, ""] && parts[1..][1..] == [""];
    assert Join([w2, ""], '\n') == w2 + "\n";
    assert w1 + "\n" + (w2 + "\n") == w1 + "\n" + w2 + "\n";
  }

  /**
   * Two lines ended by CRLF and LF split into the two lines and a final
   * empty word, e.g. "hi there\r\nyou\n" into "hi there", "you", "".
   */
  lemma GetWordsExample(w1: string, w2: string)
    requires '\r' !in w1 && '\n' !in w1 && '\r' !in w2 && '\n' !in w2
    ensures GetWords(w1 + "\r\n" + w2 + "\n") == [w1, w2, ""]
  {
    CrlfDropped(w1, w2);
    JoinTwoLines(w1, w2);
    SplitJoin([w1, w2, ""], '\n');
  }
}
