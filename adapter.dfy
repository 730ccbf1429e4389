/**
 * InfoAdapter.java: the parts of the list adapter that do not depend on views. The
 * location split inside getView, the magnitude's colour bucket, and the adapter's
 * backing list, which the activity clears and refills in place.
 */
module Adapter {
  import opened Numbers
  import opened InfoRecord

  // ---------------------------------------------------------------------------
  // The location split of getView
  // ---------------------------------------------------------------------------

  /** The literal the place text is split at. */
  const Separator: string := " of "

  /** What getView shows when the place text has no separator. */
  const NearThe: string := "Near the"

  /** pat occurs in s starting at index j. */
  predicate OccursAt(s: string, pat: string, j: int)
  {
    0 <= j && j + |pat| <= |s| && s[j..j + |pat|] == pat
  }

  /** s contains the separator somewhere. */
  ghost predicate HasSeparator(s: string)
  {
    exists j :: OccursAt(s, Separator, j)
  }

  /** i is where the first separator in s begins. */
  ghost predicate FirstSeparatorAt(s: string, i: int)
  {
    OccursAt(s, Separator, i) && forall j :: 0 <= j < i ==> !OccursAt(s, Separator, j)
  }

  /** String.indexOf(pat, from) for from <= |s|: the first occurrence at or after from, or -1. */
  function IndexOfFrom(s: string, pat: string, from: nat): (r: int)
    requires from <= |s|
    ensures r == -1 || (from <= r && OccursAt(s, pat, r))
    ensures r == -1 ==> forall j :: from <= j ==> !OccursAt(s, pat, j)
    ensures r != -1 ==> forall j :: from <= j < r ==> !OccursAt(s, pat, j)
    decreases |s| - from
  {
    if OccursAt(s, pat, from) then from
    else if from == |s| then -1
    else IndexOfFrom(s, pat, from + 1)
  }

  /** String.indexOf(pat) */
  function IndexOf(s: string, pat: string): (r: int)
    ensures r == -1 || OccursAt(s, pat, r)
    ensures r == -1 ==> forall j :: !OccursAt(s, pat, j)
    ensures r != -1 ==> forall j :: 0 <= j < r ==> !OccursAt(s, pat, j)
  {
    IndexOfFrom(s, pat, 0)
  }

  /** String.contains(pat), which Java defines as indexOf(pat) >= 0. */
  function Contains(s: string, pat: string): bool
  {
    IndexOf(s, pat) >= 0
  }

  /** The two lines getView shows for a place text. */
  datatype LocationParts = LocationParts(distance: string, primary: string)

  /**
   * The split of getView: with a separator, distance, a space and primary give back the
   * place text; without one the whole text is the primary line, under "Near the".
   */
  function SplitLocation(fullLocation: string): (parts: LocationParts)
    ensures Contains(fullLocation, Separator) ==> parts.distance + " " + parts.primary == fullLocation
    ensures !Contains(fullLocation, Separator) ==> parts == LocationParts(NearThe, fullLocation)
  {
    if Contains(fullLocation, Separator) then
      var index := IndexOf(fullLocation, Separator);
      assert fullLocation[index..index + 4] == Separator;
      assert fullLocation == fullLocation[..index + 3] + [fullLocation[index + 3]] + fullLocation[index + 4..];
      LocationParts(fullLocation[..index + 3], fullLocation[index + 4..])
    else
      LocationParts(NearThe, fullLocation)
  }

  /** The split happens at the first separator: distance ends in " of", primary is the rest after the space. */
  lemma SplitAtFirstSeparator(fullLocation: string, i: int)
    requires FirstSeparatorAt(fullLocation, i)
    ensures SplitLocation(fullLocation).distance == fullLocation[..i + 3]
    ensures SplitLocation(fullLocation).primary == fullLocation[i + 4..]
  {
  }

  /** When the separator occurs, distance, a space and primary give back the place text. */
  lemma SplitReconstructs(fullLocation: string)
    requires HasSeparator(fullLocation)
    ensures SplitLocation(fullLocation).distance + " " + SplitLocation(fullLocation).primary == fullLocation
  {
    var index := IndexOf(fullLocation, Separator);
    assert index != -1;
    assert fullLocation[index..index + 4] == Separator;
    assert fullLocation[index + 3] == ' ';
    assert fullLocation == fullLocation[..index + 3] + [fullLocation[index + 3]] + fullLocation[index + 4..];
  }

  /** A cut three characters into the first separator holds no separator. */
  lemma CutBeforeSeparatorIsFree(s: string, i: int)
    requires FirstSeparatorAt(s, i)
    ensures !HasSeparator(s[..i + 3])
  {
    var d := s[..i + 3];
    forall j | OccursAt(d, Separator, j)
      ensures false
    {
      assert d[j..j + 4] == s[j..j + 4];
      assert OccursAt(s, Separator, j);
    }
  }

  /** A cut three characters into a separator ends with " of". */
  lemma CutIntoSeparatorEndsWithOf(s: string, i: int)
    requires OccursAt(s, Separator, i)
    ensures s[..i + 3][i..] == " of"
  {
    assert s[..i + 3][i..] == s[i..i + 4][..3];
  }

  /** When the separator occurs, distance ends with " of" and holds no separator itself. */
  lemma DistanceEndsWithOf(fullLocation: string)
    requires HasSeparator(fullLocation)
    ensures var d := SplitLocation(fullLocation).distance;
      |d| >= 3 && d[|d| - 3..] == " of" && !HasSeparator(d)
  {
    var index := IndexOf(fullLocation, Separator);
    assert FirstSeparatorAt(fullLocation, index);
    CutIntoSeparatorEndsWithOf(fullLocation, index);
    CutBeforeSeparatorIsFree(fullLocation, index);
  }

  /** Without a separator the whole text is the primary line, under "Near the". */
  lemma SplitWithoutSeparator(fullLocation: string)
    requires !HasSeparator(fullLocation)
    ensures SplitLocation(fullLocation) == LocationParts(NearThe, fullLocation)
  {
  }

  /** A mismatching character rules out a separator at j. */
  lemma NoSeparatorAt(s: string, j: nat)
    requires j + 4 <= |s|
    requires s[j] != ' ' || s[j + 1] != 'o' || s[j + 2] != 'f' || s[j + 3] != ' '
    ensures !OccursAt(s, Separator, j)
  {
    var window := s[j..j + 4];
    assert window[0] == s[j] && window[1] == s[j + 1] && window[2] == s[j + 2] && window[3] == s[j + 3];
  }

  /** The primary line is split only once: it may still hold a separator. */
  lemma PrimaryMayKeepSeparator(s: string)
    requires s == "5km N of Foo of Bar"
    ensures SplitLocation(s) == LocationParts("5km N of", "Foo of Bar")
  {
    assert OccursAt(s, Separator, 5);
    assert s[..6] == "5km N ";
    // no 'o' among the first six characters, so no separator starts before index 5
    forall j | 0 <= j < 5
      ensures !OccursAt(s, Separator, j)
    {
      assert s[j + 1] == s[..6][j + 1];
      NoSeparatorAt(s, j);
    }
    assert FirstSeparatorAt(s, 5);
    SplitAtFirstSeparator(s, 5);
    assert s[..8] == "5km N of";
    assert s[9..] == "Foo of Bar";
  }

  /** The first separator of the sample place text begins at index 9. */
  lemma SampleFirstSeparator(s: string)
    requires s == "100km WSW of Valparaiso, Chile"
    ensures FirstSeparatorAt(s, 9)
  {
    assert s[9..13] == Separator;
    assert s[..11] == "100km WSW o";
    // no 'f' among the first eleven characters, so no separator starts before index 9
    forall j | 0 <= j < 9
      ensures !OccursAt(s, Separator, j)
    {
      assert s[j + 2] == s[..11][j + 2];
      NoSeparatorAt(s, j);
    }
  }

  /** The two parts of the sample place text around its first separator. */
  lemma SampleParts(s: string)
    requires s == "100km WSW of Valparaiso, Chile"
    ensures s[..12] == "100km WSW of"
    ensures s[13..] == "Valparaiso, Chile"
  {
  }

  /** The sample place text splits into its distance phrase and place name. */
  lemma SampleLocationSplits(s: string)
    requires s == "100km WSW of Valparaiso, Chile"
    ensures SplitLocation(s) == LocationParts("100km WSW of", "Valparaiso, Chile")
  {
    SampleFirstSeparator(s);
    SplitAtFirstSeparator(s, 9);
    SampleParts(s);
  }

  // ---------------------------------------------------------------------------
  // getMagnitudeColor
  // ---------------------------------------------------------------------------

  /** The colour resources R.color.magnitude1 .. magnitude9 and magnitude10plus. */
  datatype MagnitudeColor =
    | Magnitude1 | Magnitude2 | Magnitude3 | Magnitude4 | Magnitude5
    | Magnitude6 | Magnitude7 | Magnitude8 | Magnitude9 | Magnitude10Plus

  /** The number in a colour's name, 10 for magnitude10plus. */
  function Level(color: MagnitudeColor): (n: nat)
    ensures 1 <= n <= 10
  {
    match color
    case Magnitude1 => 1
    case Magnitude2 => 2
    case Magnitude3 => 3
    case Magnitude4 => 4
    case Magnitude5 => 5
    case Magnitude6 => 6
    case Magnitude7 => 7
    case Magnitude8 => 8
    case Magnitude9 => 9
    case Magnitude10Plus => 10
  }

  /**
   * The switch of getMagnitudeColor on the floored magnitude: 0 and 1 share the first
   * colour, 2 to 9 have their own, every other value (negative or 10 and up) the last.
   */
  function GetMagnitudeColor(roundUpMagnitude: int): (color: MagnitudeColor)
    ensures color == Magnitude1 <==> roundUpMagnitude == 0 || roundUpMagnitude == 1
    ensures 2 <= roundUpMagnitude <= 9 <==> 2 <= Level(color) <= 9
    ensures 2 <= roundUpMagnitude <= 9 ==> Level(color) == roundUpMagnitude
    ensures color == Magnitude10Plus <==> roundUpMagnitude < 0 || roundUpMagnitude >= 10
  {
    match roundUpMagnitude
    case 0 => Magnitude1
    case 1 => Magnitude1
    case 2 => Magnitude2
    case 3 => Magnitude3
    case 4 => Magnitude4
    case 5 => Magnitude5
    case 6 => Magnitude6
    case 7 => Magnitude7
    case 8 => Magnitude8
    case 9 => Magnitude9
    case _ => Magnitude10Plus
  }

  /**
   * getMagnitudeColor on a record's magnitude, floored as (int) Math.floor does. The
   * saturation of the cast never changes the bucket, and the NaN a record gets when the
   * feed has no magnitude floors to 0, so it is drawn in the first colour.
   */
  function MagnitudeColorOf(mag: Double): (color: MagnitudeColor)
    ensures mag.NaN? ==> color == Magnitude1
    ensures mag.Finite? ==> color == GetMagnitudeColor(mag.value.Floor)
  {
    GetMagnitudeColor(FloorToInt(mag))
  }

  // ---------------------------------------------------------------------------
  // The adapter's list
  // ---------------------------------------------------------------------------

  /** The ArrayAdapter<Info> behind the list view, reduced to the list it holds. */
  class InfoAdapter {
    var items: seq<Info>

    constructor (earthquakeInfo: seq<Info>)
      ensures items == earthquakeInfo
    {
      items := earthquakeInfo;
    }

    /** ArrayAdapter.clear */
    method Clear()
      modifies this
      ensures items == []
    {
      items := [];
    }

    /** ArrayAdapter.addAll: the collection is appended in its own order. */
    method AddAll(collection: seq<Info>)
      modifies this
      ensures items == old(items) + collection
    {
      items := items + collection;
    }
  }
}
