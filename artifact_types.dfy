/**
 * The application's records (src/types/artifact.ts and src/types/gallery.ts):
 * locally stored artifacts, their images and colour variants, and the
 * published gallery documents.
 */
module Artifacts {
  import opened Wrappers

  /** Binary image content; the model never looks inside it. */
  type Blob = seq<bv8>

  datatype ArtifactStatus = Draft | ImagesCaptured | Colorizing | Complete | ErrorStatus

  /** The client's colour schemes. The server also accepts 'weathered'; this type does not. */
  datatype ColorScheme = Mesopotamian | Egyptian | Roman | Greek | Original | Custom

  function SchemeName(c: ColorScheme): string
  {
    match c
    case Mesopotamian => "mesopotamian"
    case Egyptian => "egyptian"
    case Roman => "roman"
    case Greek => "greek"
    case Original => "original"
    case Custom => "custom"
  }

  datatype ArtifactMetadata = ArtifactMetadata(
    name: Option<string>,
    discoveryLocation: Option<string>,
    siteName: Option<string>,
    dateFound: Option<nat>,
    notes: Option<string>,
    tags: Option<seq<string>>)

  datatype Artifact = Artifact(
    id: string,
    createdAt: nat,
    updatedAt: nat,
    status: ArtifactStatus,
    imageIds: seq<string>,
    colorVariantIds: seq<string>,
    metadata: ArtifactMetadata,
    thumbnailBlob: Option<Blob>)

  datatype ArtifactImage = ArtifactImage(
    id: string,
    artifactId: string,
    blob: Blob,
    createdAt: nat,
    width: nat,
    height: nat)

  datatype ColorVariant = ColorVariant(
    id: string,
    artifactId: string,
    blob: Blob,
    createdAt: nat,
    colorScheme: ColorScheme,
    prompt: string,
    aiModel: string,
    isSpeculative: bool)

  // Published gallery documents

  datatype GalleryVariant = GalleryVariant(
    id: string,
    imageUrl: string,
    colorScheme: ColorScheme,
    prompt: Option<string>)

  datatype GalleryStatus = Published | Flagged | Removed

  /** A document's creation time: the server-side sentinel when written, a time when read. */
  datatype Timestamp = ServerTimestamp | At(millis: nat)

  datatype GalleryArtifact = GalleryArtifact(
    id: string,
    deviceId: string,
    name: string,
    siteName: Option<string>,
    discoveryLocation: Option<string>,
    originalImageUrl: string,
    thumbnailUrl: string,
    variants: seq<GalleryVariant>,
    createdAt: Timestamp,
    status: GalleryStatus)
}

/** Sequence operations shared by the queries, filters and sorts. */
module Seqs {

  /** `s.filter(p)`: the elements satisfying `p`, in their original order. */
  function Filter<T(!new)>(s: seq<T>, p: T -> bool): (r: seq<T>)
    ensures |r| <= |s|
    ensures forall i :: 0 <= i < |r| ==> p(r[i])
    ensures forall x :: x in r <==> x in s && p(x)
    ensures multiset(r) <= multiset(s)
    ensures (forall i :: 0 <= i < |s| ==> p(s[i])) ==> r == s
  {
    if s == [] then []
    else
      var rest := Filter(s[1..], p);
      assert s == [s[0]] + s[1..];
      if p(s[0]) then [s[0]] + rest else rest
  }

  lemma {:induction false} FilterConcat<T(!new)>(a: seq<T>, b: seq<T>, p: T -> bool)
    ensures Filter(a + b, p) == Filter(a, p) + Filter(b, p)
  {
    if a == [] {
      assert a + b == b;
    } else {
      assert (a + b)[0] == a[0];
      assert (a + b)[1..] == a[1..] + b;
      FilterConcat(a[1..], b, p);
    }
  }

  /** Filtering keeps every copy of a passing element and drops every copy of a failing one. */
  lemma {:induction false} FilterMultiset<T(!new)>(s: seq<T>, p: T -> bool, x: T)
    ensures multiset(Filter(s, p))[x] == if p(x) then multiset(s)[x] else 0
  {
    if s != [] {
      FilterMultiset(s[1..], p, x);
      assert s == [s[0]] + s[1..];
    }
  }

  function Reverse<T>(s: seq<T>): (r: seq<T>)
    ensures |r| == |s|
    ensures forall i :: 0 <= i < |s| ==> r[i] == s[|s| - 1 - i]
    ensures multiset(r) == multiset(s)
  {
    if s == [] then []
    else
      assert s == [s[0]] + s[1..];
      Reverse(s[1..]) + [s[0]]
  }

  /** `le` orders all of `T`: any two values compare, and it is transitive. */
  ghost predicate TotalPreorder<T(!new)>(le: (T, T) -> bool)
  {
    && (forall a, b :: le(a, b) || le(b, a))
    && (forall a, b, c :: le(a, b) && le(b, c) ==> le(a, c))
  }

  predicate SortedBy<T>(s: seq<T>, le: (T, T) -> bool)
  {
    forall i, j :: 0 <= i < j < |s| ==> le(s[i], s[j])
  }

  /** Puts `x` before the first element it is not after; equal elements keep `x` first. */
  function Insert<T>(x: T, s: seq<T>, le: (T, T) -> bool): seq<T>
  {
    if s == [] then [x]
    else if le(x, s[0]) then [x] + s
    else [s[0]] + Insert(x, s[1..], le)
  }

  /**
   * A stable sort (the behaviour of `Array.prototype.sort` with a consistent
   * comparator): elements that compare equal keep their input order.
   */
  function Sort<T>(s: seq<T>, le: (T, T) -> bool): seq<T>
  {
    if s == [] then [] else Insert(s[0], Sort(s[1..], le), le)
  }

  lemma {:induction false} InsertPermutes<T>(x: T, s: seq<T>, le: (T, T) -> bool)
    ensures multiset(Insert(x, s, le)) == multiset(s) + multiset{x}
  {
    if s != [] && !le(x, s[0]) {
      InsertPermutes(x, s[1..], le);
      assert s == [s[0]] + s[1..];
    }
  }

  lemma {:induction false} SortPermutes<T>(s: seq<T>, le: (T, T) -> bool)
    ensures multiset(Sort(s, le)) == multiset(s)
  {
    if s != [] {
      SortPermutes(s[1..], le);
      InsertPermutes(s[0], Sort(s[1..], le), le);
      assert s == [s[0]] + s[1..];
    }
  }

  lemma {:induction false} InsertSorted<T(!new)>(x: T, s: seq<T>, le: (T, T) -> bool)
    requires TotalPreorder(le) && SortedBy(s, le)
    ensures SortedBy(Insert(x, s, le), le)
  {
    if s != [] && !le(x, s[0]) {
      InsertSorted(x, s[1..], le);
      var r := Insert(x, s[1..], le);
      InsertPermutes(x, s[1..], le);
      assert le(s[0], x);
      forall y | y in r ensures le(s[0], y) {
        assert y in multiset(r);
        if y != x {
          assert y in multiset(s[1..]);
          var j :| 0 <= j < |s[1..]| && s[1..][j] == y;
          assert s[1 + j] == y;
        }
      }
      assert forall j :: 0 <= j < |r| ==> r[j] in r;
    }
  }

  /** The sort's result is ordered by `le` and is a permutation of its input. */
  lemma {:induction false} SortCorrect<T(!new)>(s: seq<T>, le: (T, T) -> bool)
    requires TotalPreorder(le)
    ensures SortedBy(Sort(s, le), le)
    ensures multiset(Sort(s, le)) == multiset(s) && |Sort(s, le)| == |s|
  {
    SortPermutes(s, le);
    assert |multiset(Sort(s, le))| == |multiset(s)|;
    if s != [] {
      SortCorrect(s[1..], le);
      InsertSorted(s[0], Sort(s[1..], le), le);
    }
  }
}
