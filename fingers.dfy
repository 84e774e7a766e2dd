/**
 * The fixed keyboard layout of the collector: which characters it accepts
 * and which finger of which hand types each of them (statcollector.go).
 * The source keeps both as slices and only ever asks whether a character
 * is in one, so they are sets here.
 */
module Fingers {
  import opened Wrappers

  const LowerCase: set<char> := {
    'a', 'b', 'c', 'd', 'e', 'f', 'g', 'h', 'i', 'j', 'k', 'l',
    'm', 'n', 'o', 'p', 'q', 'r', 's', 't', 'u', 'v', 'w', 'x',
    'y', 'z'
  }

  const UpperCase: set<char> := {
    'A', 'B', 'C', 'D', 'E', 'F', 'G', 'H', 'I', 'J', 'K', 'L',
    'M', 'N', 'O', 'P', 'Q', 'R', 'S', 'T', 'U', 'V', 'W', 'X',
    'Y', 'Z'
  }

  /** validCharacters: the letters of both cases and the space. */
  const ValidCharacters: set<char> := LowerCase + UpperCase + {' '}

  /**
   * The membership test of collect, by character ranges: a range test
   * costs the verifier far less than a test against a 53-element set.
   */
  predicate IsValidChar(c: char) {
    'a' <= c <= 'z' || 'A' <= c <= 'Z' || c == ' '
  }

  /** The range test accepts exactly the characters of validCharacters. */
  lemma ValidCharactersListed(c: char)
    ensures IsValidChar(c) <==> c in ValidCharacters
  {
    LowerCaseRange(c);
    UpperCaseRange(c);
  }

  lemma LowerCaseRange(c: char)
    ensures c in LowerCase <==> 'a' <= c <= 'z'
  {
  }

  lemma UpperCaseRange(c: char)
    ensures c in UpperCase <==> 'A' <= c <= 'Z'
  {
  }

  /** The ten fingers; the source tells them apart by identity. */
  datatype Finger =
    | LeftPinky | LeftRing | LeftMiddle | LeftIndex | LeftThumb
    | RightPinky | RightRing | RightMiddle | RightIndex | RightThumb
  {
    /** The `left` flag of the finger. */
    predicate IsLeft() {
      match this
      case LeftPinky | LeftRing | LeftMiddle | LeftIndex | LeftThumb => true
      case _ => false
    }

    /** The characters assigned to the finger. */
    function Chars(): set<char> {
      match this
      case LeftPinky => {'q', 'a', 'z', 'Q', 'A', 'Z'}
      case LeftRing => {'w', 's', 'x', 'W', 'S', 'X'}
      case LeftMiddle => {'e', 'd', 'c', 'E', 'D', 'C'}
      case LeftIndex => {'r', 'f', 'v', 't', 'g', 'b', 'R', 'F', 'V', 'T', 'G', 'B'}
      case LeftThumb => {}
      case RightPinky => {'p', 'P'}
      case RightRing => {'o', 'l', 'O', 'L'}
      case RightMiddle => {'i', 'k', 'I', 'K'}
      case RightIndex => {'u', 'j', 'm', 'U', 'J', 'M', 'y', 'h', 'n', 'Y', 'H', 'N'}
      case RightThumb => {' '}
    }
  }

  /**
   * The collector's `fingers` list: every finger except the left thumb,
   * in the order newStatCollector builds it.
   */
  const LookupOrder: seq<Finger> := [
    LeftPinky, LeftRing, LeftMiddle, LeftIndex,
    RightPinky, RightRing, RightMiddle, RightIndex, RightThumb
  ]

  /**
   * The scan of getFinger over a list of fingers: the first finger whose
   * characters contain `c`, or None where the source panics.
   */
  function FindFinger(fs: seq<Finger>, c: char): Option<Finger> {
    if |fs| == 0 then None
    else if c in fs[0].Chars() then Some(fs[0])
    else FindFinger(fs[1..], c)
  }

  /** The scan finds a finger of the list that owns `c`, and fails only when none does. */
  lemma {:induction false} FindFingerFinds(fs: seq<Finger>, c: char)
    ensures var r := FindFinger(fs, c);
      && (r.Some? ==> r.value in fs && c in r.value.Chars())
      && (r.None? <==> forall i :: 0 <= i < |fs| ==> c !in fs[i].Chars())
  {
    if |fs| > 0 && c !in fs[0].Chars() {
      FindFingerFinds(fs[1..], c);
      assert forall i :: 1 <= i < |fs| ==> fs[i] == fs[1..][i - 1];
    }
  }

  /**
   * The finger table read by character: the finger whose list holds `c`,
   * None for a character no finger holds. A proof device, not part of the
   * model: it lets the disjointness of the table be checked one finger at a
   * time, and OwnerIffOwns ties it to the finger lists both ways.
   */
  function Owner(c: char): Option<Finger> {
    match c
    case 'q' | 'a' | 'z' | 'Q' | 'A' | 'Z' => Some(LeftPinky)
    case 'w' | 's' | 'x' | 'W' | 'S' | 'X' => Some(LeftRing)
    case 'e' | 'd' | 'c' | 'E' | 'D' | 'C' => Some(LeftMiddle)
    case 'r' | 'f' | 'v' | 't' | 'g' | 'b' | 'R' | 'F' | 'V' | 'T' | 'G' | 'B' => Some(LeftIndex)
    case 'p' | 'P' => Some(RightPinky)
    case 'o' | 'l' | 'O' | 'L' => Some(RightRing)
    case 'i' | 'k' | 'I' | 'K' => Some(RightMiddle)
    case 'u' | 'j' | 'm' | 'U' | 'J' | 'M' | 'y' | 'h' | 'n' | 'Y' | 'H' | 'N' => Some(RightIndex)
    case ' ' => Some(RightThumb)
    case _ => None
  }

  /** A finger owns `c` exactly when the table read by character names it. */
  lemma OwnerOwns(c: char, f: Finger)
    requires c in f.Chars()
    ensures Owner(c) == Some(f)
  {
    match f
    case LeftPinky => OwnsLeftPinky(c);
    case LeftRing => OwnsLeftRing(c);
    case LeftMiddle => OwnsLeftMiddle(c);
    case LeftIndex => OwnsLeftIndex(c);
    case LeftThumb =>
    case RightPinky => OwnsRightPinky(c);
    case RightRing => OwnsRightRing(c);
    case RightMiddle => OwnsRightMiddle(c);
    case RightIndex => OwnsRightIndex(c);
    case RightThumb => OwnsRightThumb(c);
  }

  /** Conversely, the table read by character names only a finger whose list holds `c`. */
  lemma OwnerListed(c: char)
    ensures Owner(c).Some? ==> c in Owner(c).value.Chars()
  {
  }

  /** The table read by character and the finger lists agree both ways. */
  lemma OwnerIffOwns(c: char, f: Finger)
    ensures Owner(c) == Some(f) <==> c in f.Chars()
  {
    OwnerListed(c);
    if c in f.Chars() {
      OwnerOwns(c, f);
    }
  }

  /** No character is assigned to two fingers. */
  lemma CharsDisjoint(c: char, f: Finger, g: Finger)
    requires c in f.Chars() && c in g.Chars()
    ensures f == g
  {
    OwnerOwns(c, f);
    OwnerOwns(c, g);
  }

  // One lemma per finger keeps each membership test small.

  lemma OwnsLeftPinky(c: char)
    requires c in LeftPinky.Chars()
    ensures Owner(c) == Some(LeftPinky)
  {
  }

  lemma OwnsLeftRing(c: char)
    requires c in LeftRing.Chars()
    ensures Owner(c) == Some(LeftRing)
  {
  }

  lemma OwnsLeftMiddle(c: char)
    requires c in LeftMiddle.Chars()
    ensures Owner(c) == Some(LeftMiddle)
  {
  }

  lemma OwnsLeftIndex(c: char)
    requires c in LeftIndex.Chars()
    ensures Owner(c) == Some(LeftIndex)
  {
  }

  lemma OwnsRightPinky(c: char)
    requires c in RightPinky.Chars()
    ensures Owner(c) == Some(RightPinky)
  {
  }

  lemma OwnsRightRing(c: char)
    requires c in RightRing.Chars()
    ensures Owner(c) == Some(RightRing)
  {
  }

  lemma OwnsRightMiddle(c: char)
    requires c in RightMiddle.Chars()
    ensures Owner(c) == Some(RightMiddle)
  {
  }

  lemma OwnsRightIndex(c: char)
    requires c in RightIndex.Chars()
    ensures Owner(c) == Some(RightIndex)
  {
  }

  lemma OwnsRightThumb(c: char)
    requires c in RightThumb.Chars()
    ensures Owner(c) == Some(RightThumb)
  {
  }

  /** The characters the fingers of the lookup list own, all together. */
  predicate OwnedInLookup(c: char) {
    || c in LeftPinky.Chars() || c in LeftRing.Chars() || c in LeftMiddle.Chars()
    || c in LeftIndex.Chars() || c in RightPinky.Chars() || c in RightRing.Chars()
    || c in RightMiddle.Chars() || c in RightIndex.Chars() || c in RightThumb.Chars()
  }

  /** Every valid character is owned by a finger of the lookup list, and only those are. */
  lemma OwnedIffValid(c: char)
    ensures OwnedInLookup(c) <==> IsValidChar(c)
  {
    ValidCharactersListed(c);
    if c in LowerCase {
      LowerCaseOwned(c);
    } else if c in UpperCase {
      UpperCaseOwned(c);
    }
  }

  lemma LowerCaseOwned(c: char)
    requires c in LowerCase
    ensures OwnedInLookup(c)
  {
  }

  lemma UpperCaseOwned(c: char)
    requires c in UpperCase
    ensures OwnedInLookup(c)
  {
  }

  /** getFinger: the finger the collector's lookup list assigns to `c`, None where the source panics. */
  function GetFinger(c: char): Option<Finger> {
    FindFinger(LookupOrder, c)
  }

  /** getFinger finds a finger exactly for the valid characters, never the left thumb, and one that owns `c`. */
  lemma GetFingerFinds(c: char)
    ensures GetFinger(c).Some? <==> IsValidChar(c)
    ensures GetFinger(c).Some? ==> c in GetFinger(c).value.Chars() && GetFinger(c).value != LeftThumb
  {
    OwnedIffValid(c);
    FindFingerFinds(LookupOrder, c);
    assert LookupOrder[0] == LeftPinky && LookupOrder[1] == LeftRing
      && LookupOrder[2] == LeftMiddle && LookupOrder[3] == LeftIndex
      && LookupOrder[4] == RightPinky && LookupOrder[5] == RightRing
      && LookupOrder[6] == RightMiddle && LookupOrder[7] == RightIndex
      && LookupOrder[8] == RightThumb;
  }

  /** A character getFinger does not panic on. */
  predicate HasFinger(c: char) {
    GetFinger(c).Some?
  }

  /** The finger getFinger returns for `c`. */
  function FingerOf(c: char): Finger
    requires HasFinger(c)
  {
    GetFinger(c).value
  }

  /**
   * The finger table is a partition of the valid characters: a valid
   * character is looked up to a finger exactly when that finger owns it.
   */
  lemma FingerTablePartition(c: char, f: Finger)
    requires IsValidChar(c)
    ensures GetFinger(c) == Some(f) <==> c in f.Chars()
  {
    GetFingerFinds(c);
    if c in f.Chars() {
      CharsDisjoint(c, f, GetFinger(c).value);
    }
  }

  /** The finger of a character is the one that owns it. */
  lemma OwnerIsFinger(c: char, f: Finger)
    requires HasFinger(c)
    ensures FingerOf(c) == f <==> c in f.Chars()
  {
    GetFingerFinds(c);
    FingerTablePartition(c, f);
  }

  /** The space is the right thumb's, and the right thumb owns nothing else. */
  lemma RightThumbIsSpace(c: char)
    ensures GetFinger(c) == Some(RightThumb) <==> c == ' '
  {
    GetFingerFinds(c);
    if c == ' ' {
      FingerTablePartition(c, RightThumb);
    }
  }
}
