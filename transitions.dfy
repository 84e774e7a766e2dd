/**
 * Keystroke transitions and the categories the collector sorts them into
 * (statcollector.go, the getters between getSameFingerTransitions and
 * getRightToLeftHandTransitionsIgnoreSpace).
 */
module Transitions {
  import opened Fingers

  /** One timed step from the previous valid keystroke to the current one. */
  datatype Transition = Transition(
    from: char,
    toExpected: char,
    toActual: char,
    duration: nat,
    correct: bool)

  /** newTransition: the press of `actual` where `expected` was due, after `prev`. */
  function NewTransition(actual: char, expected: char, prev: char, duration: nat): (t: Transition)
    ensures t.from == prev && t.toExpected == expected && t.toActual == actual
    ensures t.duration == duration
    ensures t.correct <==> actual == expected
  {
    Transition(prev, expected, actual, duration, actual == expected)
  }

  /** getFinger does not panic on either end of a recorded transition. */
  predicate Recorded(t: Transition) {
    HasFinger(t.from) && HasFinger(t.toActual)
  }

  predicate ValidLog(log: seq<Transition>) {
    forall t :: t in log ==> Recorded(t)
  }

  /**
   * The 24 categories of calculateStats: the four cross-hand getters, and
   * the same-finger and "different finger" getters for each of the ten fingers.
   */
  datatype Category =
    | LeftToRight
    | LeftToRightIgnoreSpace
    | RightToLeft
    | RightToLeftIgnoreSpace
    | SameFinger(finger: Finger)
    | DifferentFinger(finger: Finger)

  predicate TouchesSpace(t: Transition) {
    t.from == ' ' || t.toActual == ' '
  }

  /**
   * The selection test each getter applies, on the fingers of the two ends
   * of a transition, its correctness and whether it touches the space.
   */
  predicate Selects(cat: Category, correct: bool, from: Finger, to: Finger, spaced: bool) {
    match cat
    case LeftToRight => correct && from.IsLeft() && !to.IsLeft()
    case LeftToRightIgnoreSpace => !spaced && correct && from.IsLeft() && !to.IsLeft()
    case RightToLeft => correct && !from.IsLeft() && to.IsLeft()
    case RightToLeftIgnoreSpace => !spaced && correct && !from.IsLeft() && to.IsLeft()
    case SameFinger(f) => correct && from == f && to == f
    case DifferentFinger(f) => correct && from.IsLeft() != to.IsLeft() && from != to && to == f
  }

  /** Whether a getter keeps the transition `t`. */
  predicate InCategory(cat: Category, t: Transition)
    requires Recorded(t)
  {
    Selects(cat, t.correct, FingerOf(t.from), FingerOf(t.toActual), TouchesSpace(t))
  }

  /** A getter: the transitions of the log that fall in `cat`, in log order. */
  function Select(log: seq<Transition>, cat: Category): (r: seq<Transition>)
    requires ValidLog(log)
    ensures |r| <= |log|
    ensures forall t :: t in r <==> t in log && InCategory(cat, t)
    ensures forall t :: t in r ==> t.correct
  {
    if log == [] then []
    else (if InCategory(cat, log[0]) then [log[0]] else []) + Select(log[1..], cat)
  }

  /** Selecting from a log that grew is selecting from each part. */
  lemma {:induction false} SelectAppend(a: seq<Transition>, b: seq<Transition>, cat: Category)
    requires ValidLog(a) && ValidLog(b)
    ensures ValidLog(a + b)
    ensures Select(a + b, cat) == Select(a, cat) + Select(b, cat)
  {
    if a == [] {
      assert a + b == b;
    } else {
      var ab := a + b;
      assert ab[0] == a[0] && ab[1..] == a[1..] + b;
      assert ValidLog(ab) by {
        assert forall t :: t in ab ==> t in a || t in b;
      }
      SelectAppend(a[1..], b, cat);
      var head := if InCategory(cat, a[0]) then [a[0]] else [];
      calc {
        Select(ab, cat);
        head + Select(a[1..] + b, cat);
        head + (Select(a[1..], cat) + Select(b, cat));
        (head + Select(a[1..], cat)) + Select(b, cat);
      }
    }
  }

  /** The transitions of `ts` with no space at either end, in order. */
  function WithoutSpace(ts: seq<Transition>): (r: seq<Transition>)
    ensures |r| <= |ts|
    ensures forall t :: t in r <==> t in ts && !TouchesSpace(t)
  {
    if ts == [] then []
    else (if TouchesSpace(ts[0]) then [] else [ts[0]]) + WithoutSpace(ts[1..])
  }

  lemma {:induction false} WithoutSpaceAppend(a: seq<Transition>, b: seq<Transition>)
    ensures WithoutSpace(a + b) == WithoutSpace(a) + WithoutSpace(b)
  {
    if a == [] {
      assert a + b == b;
    } else {
      var head := if TouchesSpace(a[0]) then [] else [a[0]];
      assert (a + b)[0] == a[0] && (a + b)[1..] == a[1..] + b;
      WithoutSpaceAppend(a[1..], b);
      calc {
        WithoutSpace(a + b);
        head + WithoutSpace(a[1..] + b);
        head + (WithoutSpace(a[1..]) + WithoutSpace(b));
        (head + WithoutSpace(a[1..])) + WithoutSpace(b);
      }
    }
  }

  /** Left -> Right ignoring space is Left -> Right with the space transitions taken out. */
  lemma {:induction false} LeftToRightIgnoreSpaceIsFiltered(log: seq<Transition>)
    requires ValidLog(log)
    ensures Select(log, LeftToRightIgnoreSpace) == WithoutSpace(Select(log, LeftToRight))
  {
    if log != [] {
      var head := if InCategory(LeftToRight, log[0]) then [log[0]] else [];
      WithoutSpaceAppend(head, Select(log[1..], LeftToRight));
      LeftToRightIgnoreSpaceIsFiltered(log[1..]);
    }
  }

  /** Right -> Left ignoring space is Right -> Left with the space transitions taken out. */
  lemma {:induction false} RightToLeftIgnoreSpaceIsFiltered(log: seq<Transition>)
    requires ValidLog(log)
    ensures Select(log, RightToLeftIgnoreSpace) == WithoutSpace(Select(log, RightToLeft))
  {
    if log != [] {
      var head := if InCategory(RightToLeft, log[0]) then [log[0]] else [];
      WithoutSpaceAppend(head, Select(log[1..], RightToLeft));
      RightToLeftIgnoreSpaceIsFiltered(log[1..]);
    }
  }

  /**
   * Same finger, stated on the finger table alone: both characters are
   * owned by `f` and the press was correct.
   */
  lemma SameFingerByTable(t: Transition, f: Finger)
    requires Recorded(t)
    ensures InCategory(SameFinger(f), t) <==> t.correct && t.from in f.Chars() && t.toActual in f.Chars()
  {
    OwnerIsFinger(t.from, f);
    OwnerIsFinger(t.toActual, f);
  }

  /**
   * What the "different finger, same hand" getter really selects: a correct
   * transition that lands on `f` from the other hand. Its `from != to` test
   * adds nothing, and it never selects a same-hand transition.
   */
  lemma DifferentFingerIsCrossHand(t: Transition, f: Finger)
    requires Recorded(t)
    ensures InCategory(DifferentFinger(f), t)
        <==> t.correct && FingerOf(t.from).IsLeft() != FingerOf(t.toActual).IsLeft() && FingerOf(t.toActual) == f
    ensures InCategory(DifferentFinger(f), t)
        ==> if f.IsLeft() then InCategory(RightToLeft, t) else InCategory(LeftToRight, t)
  {
  }

  /** The left thumb owns no character, so both of its categories are always empty. */
  lemma {:induction false} LeftThumbCategoriesEmpty(log: seq<Transition>)
    requires ValidLog(log)
    ensures Select(log, SameFinger(LeftThumb)) == []
    ensures Select(log, DifferentFinger(LeftThumb)) == []
  {
    if log != [] {
      GetFingerFinds(log[0].toActual);
      LeftThumbCategoriesEmpty(log[1..]);
    }
  }

  /** The right thumb's same-finger category holds exactly the correct space -> space transitions. */
  lemma RightThumbSameFingerIsSpaceToSpace(log: seq<Transition>, t: Transition)
    requires ValidLog(log)
    ensures t in Select(log, SameFinger(RightThumb))
        <==> t in log && t.correct && t.from == ' ' && t.toActual == ' '
  {
    if t in log {
      RightThumbIsSpace(t.from);
      RightThumbIsSpace(t.toActual);
    }
  }

  /** How many of the log's transitions each of the five right-hand "different finger" categories holds, together. */
  function RightDifferentFingerCount(log: seq<Transition>): nat
    requires ValidLog(log)
  {
    |Select(log, DifferentFinger(RightPinky))| + |Select(log, DifferentFinger(RightRing))|
    + |Select(log, DifferentFinger(RightMiddle))| + |Select(log, DifferentFinger(RightIndex))|
    + |Select(log, DifferentFinger(RightThumb))|
  }

  /** The same for the five left-hand fingers, the empty left thumb included. */
  function LeftDifferentFingerCount(log: seq<Transition>): nat
    requires ValidLog(log)
  {
    |Select(log, DifferentFinger(LeftPinky))| + |Select(log, DifferentFinger(LeftRing))|
    + |Select(log, DifferentFinger(LeftMiddle))| + |Select(log, DifferentFinger(LeftIndex))|
    + |Select(log, DifferentFinger(LeftThumb))|
  }

  function Indicator(b: bool): nat {
    if b then 1 else 0
  }

  /** For one transition: it lands in one right-hand "different finger" category exactly when it goes Left -> Right. */
  lemma RightDifferentFingerStep(correct: bool, from: Finger, to: Finger, spaced: bool)
    ensures Indicator(Selects(DifferentFinger(RightPinky), correct, from, to, spaced))
      + Indicator(Selects(DifferentFinger(RightRing), correct, from, to, spaced))
      + Indicator(Selects(DifferentFinger(RightMiddle), correct, from, to, spaced))
      + Indicator(Selects(DifferentFinger(RightIndex), correct, from, to, spaced))
      + Indicator(Selects(DifferentFinger(RightThumb), correct, from, to, spaced))
      == Indicator(Selects(LeftToRight, correct, from, to, spaced))
  {
  }

  /** For one transition: it lands in one left-hand "different finger" category exactly when it goes Right -> Left. */
  lemma LeftDifferentFingerStep(correct: bool, from: Finger, to: Finger, spaced: bool)
    ensures Indicator(Selects(DifferentFinger(LeftPinky), correct, from, to, spaced))
      + Indicator(Selects(DifferentFinger(LeftRing), correct, from, to, spaced))
      + Indicator(Selects(DifferentFinger(LeftMiddle), correct, from, to, spaced))
      + Indicator(Selects(DifferentFinger(LeftIndex), correct, from, to, spaced))
      + Indicator(Selects(DifferentFinger(LeftThumb), correct, from, to, spaced))
      == Indicator(Selects(RightToLeft, correct, from, to, spaced))
  {
  }

  /** The right-hand "different finger" categories split the Left -> Right transitions among them. */
  lemma {:induction false} RightDifferentFingerCountsLeftToRight(log: seq<Transition>)
    requires ValidLog(log)
    ensures RightDifferentFingerCount(log) == |Select(log, LeftToRight)|
  {
    if log != [] {
      var t := log[0];
      assert t in log;
      RightDifferentFingerStep(t.correct, FingerOf(t.from), FingerOf(t.toActual), TouchesSpace(t));
      RightDifferentFingerCountsLeftToRight(log[1..]);
    }
  }

  /** The left-hand "different finger" categories split the Right -> Left transitions among them. */
  lemma {:induction false} LeftDifferentFingerCountsRightToLeft(log: seq<Transition>)
    requires ValidLog(log)
    ensures LeftDifferentFingerCount(log) == |Select(log, RightToLeft)|
  {
    if log != [] {
      var t := log[0];
      assert t in log;
      LeftDifferentFingerStep(t.correct, FingerOf(t.from), FingerOf(t.toActual), TouchesSpace(t));
      LeftDifferentFingerCountsRightToLeft(log[1..]);
    }
  }

  /**
   * A correct h -> i press (right index to right middle, a different finger
   * of the same hand) is counted in no category at all.
   */
  lemma SameHandDifferentFingerIsUncounted(d: nat, cat: Category)
    ensures Recorded(Transition('h', 'i', 'i', d, true))
    ensures !InCategory(cat, Transition('h', 'i', 'i', d, true))
  {
    FingerTablePartition('h', RightIndex);
    FingerTablePartition('i', RightMiddle);
  }

  /** A correct f -> j press (left index to right index) is the right index's "different finger" transition. */
  lemma CrossHandIsDifferentFinger(d: nat)
    ensures Recorded(Transition('f', 'j', 'j', d, true))
    ensures InCategory(DifferentFinger(RightIndex), Transition('f', 'j', 'j', d, true))
    ensures InCategory(LeftToRight, Transition('f', 'j', 'j', d, true))
  {
    FingerTablePartition('f', LeftIndex);
    FingerTablePartition('j', RightIndex);
  }
}
