/**
 * The logic of the 3D gallery tour page (src/pages/GalleryTourPage.tsx):
 * the table of frame slots on the walls, the shuffle that assigns published
 * artifacts to them, and the per-artifact choice of which variant to show.
 *
 * `Math.random()` is a parameter giving, for each step of the shuffle, a
 * number in [0, 1). Coordinates are exact decimals; the rotations are named
 * by the wall rather than given in radians.
 */
module GalleryTour {
  import opened Wrappers
  import Artifacts

  // ---------------------------------------------------------------------------
  // Frame slots
  // ---------------------------------------------------------------------------

  /** The wall a frame hangs on; it fixes the frame's rotation (0, +90 or -90 degrees about the vertical). */
  datatype Wall = North | West | East

  datatype FramePosition = FramePosition(wall: Wall, x: real, y: real, z: real)

  /** Nine frames along the north wall, then six on the west and six on the east wall. */
  const FramePositions: seq<FramePosition> :=
    seq(9, i requires 0 <= i < 9 => FramePosition(North, -12.0 + 3.0 * i as real, 2.2, -13.8))
    + seq(6, i requires 0 <= i < 6 => FramePosition(West, -15.8, 2.2, -10.0 + 4.0 * i as real))
    + seq(6, i requires 0 <= i < 6 => FramePosition(East, 15.8, 2.2, -10.0 + 4.0 * i as real))

  const FrameCount: nat := 21

  /** The table's shape: 21 slots, the first 9 on the north wall, the next 6 west, the last 6 east; no two share a place. */
  lemma FrameTable()
    ensures |FramePositions| == FrameCount
    ensures forall k :: 0 <= k < 9 ==> FramePositions[k].wall == North
    ensures forall k :: 9 <= k < 15 ==> FramePositions[k].wall == West
    ensures forall k :: 15 <= k < 21 ==> FramePositions[k].wall == East
    ensures forall k, l :: 0 <= k < l < 21 ==> FramePositions[k] != FramePositions[l]
  {
    forall k, l | 0 <= k < l < 21 ensures FramePositions[k] != FramePositions[l] {
      if FramePositions[k].wall == FramePositions[l].wall {
        if k < 9 {
          assert FramePositions[k].x == -12.0 + 3.0 * k as real;
          assert FramePositions[l].x == -12.0 + 3.0 * l as real;
        } else if k < 15 {
          assert FramePositions[k].z == -10.0 + 4.0 * (k - 9) as real;
          assert FramePositions[l].z == -10.0 + 4.0 * (l - 9) as real;
        } else {
          assert FramePositions[k].z == -10.0 + 4.0 * (k - 15) as real;
          assert FramePositions[l].z == -10.0 + 4.0 * (l - 15) as real;
        }
      }
    }
  }

  /** `artifacts[index] || null`: slot `k` shows the k-th artifact, or stays empty. */
  function FrameArtifact(artifacts: seq<Artifacts.GalleryArtifact>, k: nat): (r: Option<Artifacts.GalleryArtifact>)
    ensures k < |artifacts| ==> r == Some(artifacts[k])
    ensures k >= |artifacts| ==> r.None?
  {
    if k < |artifacts| then Some(artifacts[k]) else None
  }

  /**
   * The page asks for at most 21 artifacts, so every one of them is shown:
   * artifact k in slot k, and the slots past the last artifact are empty.
   */
  lemma EveryArtifactFramed(artifacts: seq<Artifacts.GalleryArtifact>)
    requires |artifacts| <= FrameCount
    ensures forall i :: 0 <= i < |artifacts| ==> i < FrameCount && FrameArtifact(artifacts, i) == Some(artifacts[i])
    ensures forall k :: |artifacts| <= k < FrameCount ==> FrameArtifact(artifacts, k).None?
  {
  }

  // ---------------------------------------------------------------------------
  // Fisher-Yates shuffle
  // ---------------------------------------------------------------------------

  /** `Math.floor(random * (i + 1))`. */
  function Pick(random: real, i: nat): (j: int)
    requires 0.0 <= random < 1.0
    ensures 0 <= j <= i
  {
    var n := (i + 1) as real;
    var x := random * n;
    assert 0.0 <= x < n by {
      assert n >= 1.0;
      assert (1.0 - random) * n > 0.0;
      assert (1.0 - random) * n == n - x;
    }
    x.Floor
  }

  function Swap<T>(s: seq<T>, i: nat, j: nat): (r: seq<T>)
    requires i < |s| && j < |s|
    ensures |r| == |s|
    ensures r[i] == s[j] && r[j] == s[i]
    ensures forall k :: 0 <= k < |s| && k != i && k != j ==> r[k] == s[k]
  {
    s[i := s[j]][j := s[i]]
  }

  lemma SwapPermutes<T>(s: seq<T>, i: nat, j: nat)
    requires i < |s| && j < |s|
    ensures multiset(Swap(s, i, j)) == multiset(s)
  {
    if i != j {
      assert Swap(s, i, j) == s[i := s[j]][j := s[i]];
      assert multiset(s[i := s[j]]) == multiset(s) - multiset{s[i]} + multiset{s[j]};
    }
  }

  /**
   * The shuffle from position `i` down to 1: swap position `i` with a
   * position picked in [0, i], then carry on one position lower.
   */
  function ShuffleFrom<T>(s: seq<T>, random: nat -> real, i: nat): seq<T>
    requires i < |s|
    requires forall k :: 0.0 <= random(k) < 1.0
    decreases i
  {
    if i == 0 then s else ShuffleFrom(Swap(s, i, Pick(random(i), i)), random, i - 1)
  }

  /** `shuffleArray(array)`, given the random draws. */
  function Shuffled<T>(s: seq<T>, random: nat -> real): seq<T>
    requires forall k :: 0.0 <= random(k) < 1.0
  {
    if |s| <= 1 then s else ShuffleFrom(s, random, |s| - 1)
  }

  lemma {:induction false} ShuffleFromPermutes<T>(s: seq<T>, random: nat -> real, i: nat)
    requires i < |s|
    requires forall k :: 0.0 <= random(k) < 1.0
    ensures |ShuffleFrom(s, random, i)| == |s|
    ensures multiset(ShuffleFrom(s, random, i)) == multiset(s)
    decreases i
  {
    if i > 0 {
      var j := Pick(random(i), i);
      var t := Swap(s, i, j);
      assert ShuffleFrom(s, random, i) == ShuffleFrom(t, random, i - 1);
      SwapPermutes(s, i, j);
      ShuffleFromPermutes(t, random, i - 1);
    }
  }

  /** The shuffle returns a rearrangement of its input: same length, same elements, as often. */
  lemma ShuffledPermutes<T>(s: seq<T>, random: nat -> real)
    requires forall k :: 0.0 <= random(k) < 1.0
    ensures |Shuffled(s, random)| == |s|
    ensures multiset(Shuffled(s, random)) == multiset(s)
  {
    if |s| > 1 {
      ShuffleFromPermutes(s, random, |s| - 1);
    }
  }

  /**
   * `shuffleArray`: a copy of the input, swapped in place from the last
   * position down to position 1; the input is not touched.
   */
  method ShuffleArray<T>(input: seq<T>, random: nat -> real) returns (r: seq<T>)
    requires forall k :: 0.0 <= random(k) < 1.0
    ensures r == Shuffled(input, random)
    ensures |r| == |input| && multiset(r) == multiset(input)
  {
    var shuffled := new T[|input|](k requires 0 <= k < |input| => input[k]);
    assert shuffled[..] == input;
    var i := |input| - 1;
    while i > 0
      invariant -1 <= i < |input|
      invariant shuffled.Length == |input|
      invariant i >= 0 ==> ShuffleFrom(shuffled[..], random, i) == Shuffled(input, random)
      invariant i <= 0 ==> shuffled[..] == Shuffled(input, random)
      decreases i
    {
      var j := Pick(random(i), i);
      ghost var before := shuffled[..];
      shuffled[i], shuffled[j] := shuffled[j], shuffled[i];
      assert shuffled[..] == Swap(before, i, j);
      i := i - 1;
    }
    r := shuffled[..];
    ShuffledPermutes(input, random);
  }

  // ---------------------------------------------------------------------------
  // Which variant each artifact shows
  // ---------------------------------------------------------------------------

  /** `artifactVariantMap[id] ?? 0`. */
  function StoredIndex(variantMap: map<string, int>, id: string): (r: int)
    ensures id in variantMap ==> r == variantMap[id]
    ensures id !in variantMap ==> r == 0
  {
    if id in variantMap then variantMap[id] else 0
  }

  /** The map after `handleVariantChange(index)`: only the selected artifact's entry is written. */
  function AfterVariantChange(variantMap: map<string, int>, selected: Option<Artifacts.GalleryArtifact>, index: int): (r: map<string, int>)
    ensures selected.None? ==> r == variantMap
    ensures selected.Some? ==> StoredIndex(r, selected.value.id) == index
    ensures forall id :: (selected.None? || id != selected.value.id) ==> StoredIndex(r, id) == StoredIndex(variantMap, id)
  {
    if selected.Some? then variantMap[selected.value.id := index] else variantMap
  }

  /**
   * Coming back to an artifact shows the variant last chosen for it, whatever
   * was chosen for other artifacts in between.
   */
  lemma ChoiceRemembered(m: map<string, int>, a: Artifacts.GalleryArtifact, b: Artifacts.GalleryArtifact, i: int, j: int)
    requires a.id != b.id
    ensures StoredIndex(AfterVariantChange(AfterVariantChange(m, Some(a), i), Some(b), j), a.id) == i
  {
  }

  class TourState {
    var nearbyArtifact: Option<Artifacts.GalleryArtifact>
    var selectedVariantIndex: int
    var artifactVariantMap: map<string, int>

    constructor ()
      ensures nearbyArtifact == None && selectedVariantIndex == 0 && artifactVariantMap == map[]
    {
      nearbyArtifact := None;
      selectedVariantIndex := 0;
      artifactVariantMap := map[];
    }

    /** `handleFrameClick(artifact)`: select it, showing its remembered variant or the first. */
    method HandleFrameClick(artifact: Artifacts.GalleryArtifact)
      modifies this`nearbyArtifact, this`selectedVariantIndex
      ensures nearbyArtifact == Some(artifact)
      ensures selectedVariantIndex == StoredIndex(artifactVariantMap, artifact.id)
    {
      nearbyArtifact := Some(artifact);
      selectedVariantIndex := StoredIndex(artifactVariantMap, artifact.id);
    }

    /**
     * The overlay's `onClose`: nothing is selected any more; the shown index
     * and the remembered indices stay, so a later click restores them.
     */
    method Close()
      modifies this`nearbyArtifact
      ensures nearbyArtifact == None
    {
      nearbyArtifact := None;
    }

    /** `handleVariantChange(index)`: show that variant and remember it for the selected artifact, if any. */
    method HandleVariantChange(index: int)
      modifies this`selectedVariantIndex, this`artifactVariantMap
      ensures selectedVariantIndex == index
      ensures artifactVariantMap == AfterVariantChange(old(artifactVariantMap), nearbyArtifact, index)
    {
      selectedVariantIndex := index;
      if nearbyArtifact.Some? {
        artifactVariantMap := artifactVariantMap[nearbyArtifact.value.id := index];
      }
    }
  }
}
