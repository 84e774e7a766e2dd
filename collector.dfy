/**
 * The statistics collector (statCollector in statcollector.go): the log of
 * transitions built keystroke by keystroke, and calculateStats, which
 * summarises the log per category.
 */
module Collector {
  import opened Fingers
  import opened Transitions
  import opened Stat

  /** The `stats` record of calculateStats: one summary per category. */
  datatype Stats = Stats(
    leftHandToRightHand: Stat,
    leftHandToRightHandIgnoreSpace: Stat,
    rightHandToLeftHand: Stat,
    rightHandToLeftHandIgnoreSpace: Stat,
    leftPinkySameFinger: Stat,
    leftRingSameFinger: Stat,
    leftMiddleSameFinger: Stat,
    leftIndexSameFinger: Stat,
    leftThumbSameFinger: Stat,
    rightPinkySameFinger: Stat,
    rightRingSameFinger: Stat,
    rightMiddleSameFinger: Stat,
    rightIndexSameFinger: Stat,
    rightThumbSameFinger: Stat,
    leftPinkyDifferentFinger: Stat,
    leftRingDifferentFinger: Stat,
    leftMiddleDifferentFinger: Stat,
    leftIndexDifferentFinger: Stat,
    leftThumbDifferentFinger: Stat,
    rightPinkyDifferentFinger: Stat,
    rightRingDifferentFinger: Stat,
    rightMiddleDifferentFinger: Stat,
    rightIndexDifferentFinger: Stat,
    rightThumbDifferentFinger: Stat)
  {
    /** The field of the record that holds the summary of `c`. */
    function Get(c: Category): Stat {
      match c
      case LeftToRight => leftHandToRightHand
      case LeftToRightIgnoreSpace => leftHandToRightHandIgnoreSpace
      case RightToLeft => rightHandToLeftHand
      case RightToLeftIgnoreSpace => rightHandToLeftHandIgnoreSpace
      case SameFinger(f) =>
        (match f
        case LeftPinky => leftPinkySameFinger
        case LeftRing => leftRingSameFinger
        case LeftMiddle => leftMiddleSameFinger
        case LeftIndex => leftIndexSameFinger
        case LeftThumb => leftThumbSameFinger
        case RightPinky => rightPinkySameFinger
        case RightRing => rightRingSameFinger
        case RightMiddle => rightMiddleSameFinger
        case RightIndex => rightIndexSameFinger
        case RightThumb => rightThumbSameFinger)
      case DifferentFinger(f) =>
        (match f
        case LeftPinky => leftPinkyDifferentFinger
        case LeftRing => leftRingDifferentFinger
        case LeftMiddle => leftMiddleDifferentFinger
        case LeftIndex => leftIndexDifferentFinger
        case LeftThumb => leftThumbDifferentFinger
        case RightPinky => rightPinkyDifferentFinger
        case RightRing => rightRingDifferentFinger
        case RightMiddle => rightMiddleDifferentFinger
        case RightIndex => rightIndexDifferentFinger
        case RightThumb => rightThumbDifferentFinger)
    }
  }

  /** What calculateStats returns for a log: every category summarised by newStat. */
  function Summary(log: seq<Transition>): Stats
    requires ValidLog(log)
  {
    Stats(
      StatOf(Select(log, LeftToRight)),
      StatOf(Select(log, LeftToRightIgnoreSpace)),
      StatOf(Select(log, RightToLeft)),
      StatOf(Select(log, RightToLeftIgnoreSpace)),
      StatOf(Select(log, SameFinger(LeftPinky))),
      StatOf(Select(log, SameFinger(LeftRing))),
      StatOf(Select(log, SameFinger(LeftMiddle))),
      StatOf(Select(log, SameFinger(LeftIndex))),
      StatOf(Select(log, SameFinger(LeftThumb))),
      StatOf(Select(log, SameFinger(RightPinky))),
      StatOf(Select(log, SameFinger(RightRing))),
      StatOf(Select(log, SameFinger(RightMiddle))),
      StatOf(Select(log, SameFinger(RightIndex))),
      StatOf(Select(log, SameFinger(RightThumb))),
      StatOf(Select(log, DifferentFinger(LeftPinky))),
      StatOf(Select(log, DifferentFinger(LeftRing))),
      StatOf(Select(log, DifferentFinger(LeftMiddle))),
      StatOf(Select(log, DifferentFinger(LeftIndex))),
      StatOf(Select(log, DifferentFinger(LeftThumb))),
      StatOf(Select(log, DifferentFinger(RightPinky))),
      StatOf(Select(log, DifferentFinger(RightRing))),
      StatOf(Select(log, DifferentFinger(RightMiddle))),
      StatOf(Select(log, DifferentFinger(RightIndex))),
      StatOf(Select(log, DifferentFinger(RightThumb))))
  }

  /** Each field of the summary is newStat of its category's getter. */
  lemma SummaryGet(log: seq<Transition>, c: Category)
    requires ValidLog(log)
    ensures Summary(log).Get(c) == StatOf(Select(log, c))
  {
    // one case per field, so that each obligation unfolds a single getter
    match c {
      case SameFinger(f) =>
        match f {
        case LeftPinky =>
        case LeftRing =>
        case LeftMiddle =>
        case LeftIndex =>
        case LeftThumb =>
        case RightPinky =>
        case RightRing =>
        case RightMiddle =>
        case RightIndex =>
        case RightThumb =>
        }
      case DifferentFinger(f) =>
        match f {
        case LeftPinky =>
        case LeftRing =>
        case LeftMiddle =>
        case LeftIndex =>
        case LeftThumb =>
        case RightPinky =>
        case RightRing =>
        case RightMiddle =>
        case RightIndex =>
        case RightThumb =>
        }
      case _ =>
    }
  }

  /** Both left-thumb summaries are the zero stat, whatever was typed. */
  lemma LeftThumbSummariesZero(log: seq<Transition>)
    requires ValidLog(log)
    ensures Summary(log).leftThumbSameFinger == ZeroStat
    ensures Summary(log).leftThumbDifferentFinger == ZeroStat
  {
    LeftThumbCategoriesEmpty(log);
    StatOrder(Select(log, SameFinger(LeftThumb)));
    StatOrder(Select(log, DifferentFinger(LeftThumb)));
  }

  /**
   * The five right-hand "different finger" counts add up to the left-to-right
   * count, and the five left-hand ones to the right-to-left count.
   */
  lemma DifferentFingerCountsAddUp(log: seq<Transition>)
    requires ValidLog(log)
    ensures var s := Summary(log);
      s.rightPinkyDifferentFinger.count + s.rightRingDifferentFinger.count
        + s.rightMiddleDifferentFinger.count + s.rightIndexDifferentFinger.count
        + s.rightThumbDifferentFinger.count
      == s.leftHandToRightHand.count
    ensures var s := Summary(log);
      s.leftPinkyDifferentFinger.count + s.leftRingDifferentFinger.count
        + s.leftMiddleDifferentFinger.count + s.leftIndexDifferentFinger.count
        + s.leftThumbDifferentFinger.count
      == s.rightHandToLeftHand.count
  {
    RightDifferentFingerCountsLeftToRight(log);
    LeftDifferentFingerCountsRightToLeft(log);
    forall c | true
      ensures StatOf(Select(log, c)).count == |Select(log, c)|
    {
      StatOrder(Select(log, c));
    }
  }

  /** printableChar: a space is shown as an underscore. */
  function PrintableChar(r: char): (p: char)
    ensures p != ' '
    ensures r != ' ' ==> p == r
  {
    if r == ' ' then '_' else r
  }

  /** The underscore is not a valid character, so no typed character prints like a space. */
  lemma UnderscoreIsNotValid()
    ensures !IsValidChar('_')
  {}

  /** Apart from the underscore itself, the printed form is one-to-one; with the lemma above, on all valid characters. */
  lemma PrintableCharInjective(a: char, b: char)
    requires a != '_' && b != '_'
    ensures PrintableChar(a) == PrintableChar(b) <==> a == b
  {}

  /**
   * The state collect maintains between presses: the previous character is
   * 0 (nothing pressed yet, and then the log is empty) or has a finger;
   * every transition starts where the one before it ended; the last one
   * ends at the previous character; both ends of every transition have a finger.
   */
  predicate LogInvariant(log: seq<Transition>, previousChar: char) {
    && (previousChar == '\0' || HasFinger(previousChar))
    && (previousChar == '\0' ==> log == [])
    && (log != [] ==> log[|log| - 1].toActual == previousChar)
    && (forall i :: 0 < i < |log| ==> log[i].from == log[i - 1].toActual)
    && ValidLog(log)
  }

  /** The first valid press records nothing and becomes the previous character. */
  lemma FirstPressKeepsInvariant(actual: char)
    requires IsValidChar(actual)
    ensures LogInvariant([], actual)
  {
    GetFingerFinds(actual);
  }

  /** A later valid press appends a transition from the previous character, which keeps the chain. */
  lemma RecordKeepsInvariant(log: seq<Transition>, previousChar: char, actual: char, expected: char, duration: nat)
    requires LogInvariant(log, previousChar) && previousChar != '\0'
    requires IsValidChar(actual)
    ensures LogInvariant(log + [NewTransition(actual, expected, previousChar, duration)], actual)
  {
    GetFingerFinds(actual);
    var t := NewTransition(actual, expected, previousChar, duration);
    var log' := log + [t];
    assert Recorded(t);
    assert forall i :: 0 <= i < |log| ==> log'[i] == log[i];
    assert forall u :: u in log' ==> u in log || u == t;
  }

  /** The collector: the transition log, the time of the last valid press and its character. */
  class StatCollector {
    var transitions: seq<Transition>
    var previousTime: nat
    var previousChar: char

    /** The collector invariant, on the fields. */
    ghost predicate Valid()
      reads this
    {
      LogInvariant(transitions, previousChar)
    }

    /** newStatCollector: an empty log, no previous character, the zero time. */
    constructor ()
      ensures Valid()
      ensures transitions == [] && previousChar == '\0' && previousTime == 0
    {
      transitions := [];
      previousTime := 0;
      previousChar := '\0';
    }

    /**
     * collect: the press of `actual` where `expected` was due, at time `now`.
     * An invalid character changes nothing; a valid one becomes the previous
     * character, and after an earlier valid press it adds one transition.
     */
    method Collect(actual: char, expected: char, now: nat)
      requires Valid() && now >= previousTime
      modifies this
      ensures Valid()
      ensures !IsValidChar(actual) ==>
        transitions == old(transitions) && previousChar == old(previousChar) && previousTime == old(previousTime)
      ensures IsValidChar(actual) ==>
        && previousChar == actual
        && previousTime == now
        && transitions == old(transitions)
             + (if old(previousChar) != '\0'
                then [NewTransition(actual, expected, old(previousChar), now - old(previousTime))]
                else [])
    {
      if !IsValidChar(actual) {
        return;
      }
      var duration := now - previousTime;
      previousTime := now;
      if previousChar != '\0' {
        RecordKeepsInvariant(transitions, previousChar, actual, expected, duration);
        transitions := transitions + [NewTransition(actual, expected, previousChar, duration)];
      }
      FirstPressKeepsInvariant(actual);
      previousChar := actual;
    }

    /** calculateStats: the summary of every category of the log; the log is left as it was. */
    method CalculateStats() returns (st: Stats)
      requires Valid()
      ensures st == Summary(transitions)
    {
      var lr := NewStat(Select(transitions, LeftToRight));
      var lrs := NewStat(Select(transitions, LeftToRightIgnoreSpace));
      var rl := NewStat(Select(transitions, RightToLeft));
      var rls := NewStat(Select(transitions, RightToLeftIgnoreSpace));
      var s0 := NewStat(Select(transitions, SameFinger(LeftPinky)));
      var s1 := NewStat(Select(transitions, SameFinger(LeftRing)));
      var s2 := NewStat(Select(transitions, SameFinger(LeftMiddle)));
      var s3 := NewStat(Select(transitions, SameFinger(LeftIndex)));
      var s4 := NewStat(Select(transitions, SameFinger(LeftThumb)));
      var s5 := NewStat(Select(transitions, SameFinger(RightPinky)));
      var s6 := NewStat(Select(transitions, SameFinger(RightRing)));
      var s7 := NewStat(Select(transitions, SameFinger(RightMiddle)));
      var s8 := NewStat(Select(transitions, SameFinger(RightIndex)));
      var s9 := NewStat(Select(transitions, SameFinger(RightThumb)));
      var d0 := NewStat(Select(transitions, DifferentFinger(LeftPinky)));
      var d1 := NewStat(Select(transitions, DifferentFinger(LeftRing)));
      var d2 := NewStat(Select(transitions, DifferentFinger(LeftMiddle)));
      var d3 := NewStat(Select(transitions, DifferentFinger(LeftIndex)));
      var d4 := NewStat(Select(transitions, DifferentFinger(LeftThumb)));
      var d5 := NewStat(Select(transitions, DifferentFinger(RightPinky)));
      var d6 := NewStat(Select(transitions, DifferentFinger(RightRing)));
      var d7 := NewStat(Select(transitions, DifferentFinger(RightMiddle)));
      var d8 := NewStat(Select(transitions, DifferentFinger(RightIndex)));
      var d9 := NewStat(Select(transitions, DifferentFinger(RightThumb)));
      st := Stats(lr, lrs, rl, rls, s0, s1, s2, s3, s4, s5, s6, s7, s8, s9, d0, d1, d2, d3, d4, d5, d6, d7, d8, d9);
    }
  }
}
