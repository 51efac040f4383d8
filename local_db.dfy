/**
 * Primary-key order: the browser database keeps each table's rows ordered by
 * their string key, comparing strings character by character.
 */
module Keys {
  import Seqs

  /** `a < b` on strings: the first differing character decides, and a proper prefix comes first. */
  predicate Below(a: string, b: string)
  {
    if a == [] then b != []
    else if b == [] then false
    else if a[0] != b[0] then a[0] < b[0]
    else Below(a[1..], b[1..])
  }

  lemma {:induction false} BelowIrreflexive(a: string)
    ensures !Below(a, a)
  {
    if a != [] {
      BelowIrreflexive(a[1..]);
    }
  }

  lemma {:induction false} BelowTransitive(a: string, b: string, c: string)
    requires Below(a, b) && Below(b, c)
    ensures Below(a, c)
  {
    if a != [] && b != [] && c != [] && a[0] == b[0] && b[0] == c[0] {
      BelowTransitive(a[1..], b[1..], c[1..]);
    }
  }

  /** Any two different keys are ordered one way round. */
  lemma {:induction false} BelowTotal(a: string, b: string)
    requires a != b
    ensures Below(a, b) || Below(b, a)
  {
    if a != [] && b != [] && a[0] == b[0] {
      assert a == [a[0]] + a[1..] && b == [b[0]] + b[1..];
      BelowTotal(a[1..], b[1..]);
    }
  }

  /** Rows in strictly ascending key order; in particular no key occurs twice. */
  predicate KeyOrdered<T>(rows: seq<T>, key: T -> string)
  {
    forall i, j :: 0 <= i < j < |rows| ==> Below(key(rows[i]), key(rows[j]))
  }

  lemma KeyOrderedUnique<T>(rows: seq<T>, key: T -> string)
    requires KeyOrdered(rows, key)
    ensures forall i, j :: 0 <= i < |rows| && 0 <= j < |rows| && key(rows[i]) == key(rows[j]) ==> i == j
  {
    forall i, j | 0 <= i < |rows| && 0 <= j < |rows| && key(rows[i]) == key(rows[j])
      ensures i == j
    {
      BelowIrreflexive(key(rows[i]));
    }
  }

  /** A row followed by rows whose keys all sort after it, themselves in key order. */
  lemma KeyOrderedCons<T>(h: T, t: seq<T>, key: T -> string)
    requires KeyOrdered(t, key)
    requires forall x :: x in t ==> Below(key(h), key(x))
    ensures KeyOrdered([h] + t, key)
  {
    var r := [h] + t;
    forall i, j | 0 <= i < j < |r| ensures Below(key(r[i]), key(r[j])) {
      assert r[j] == t[j - 1];
      if i > 0 {
        assert r[i] == t[i - 1];
      }
    }
  }

  /** In a key-ordered table the first key sorts before every later one. */
  lemma KeyOrderedHead<T>(rows: seq<T>, key: T -> string)
    requires rows != [] && KeyOrdered(rows, key)
    ensures KeyOrdered(rows[1..], key)
    ensures forall x :: x in rows[1..] ==> Below(key(rows[0]), key(x))
  {
    forall x | x in rows[1..] ensures Below(key(rows[0]), key(x)) {
      var k :| 0 <= k < |rows[1..]| && rows[1..][k] == x;
      assert rows[k + 1] == x;
    }
    var t := rows[1..];
    forall i, j | 0 <= i < j < |t| ensures Below(key(t[i]), key(t[j])) {
      assert t[i] == rows[i + 1] && t[j] == rows[j + 1];
    }
  }

  /** `table.add(row)`: the row goes to the place its key sorts to. */
  function InsertByKey<T>(rows: seq<T>, row: T, key: T -> string): seq<T>
  {
    if rows == [] then [row]
    else if Below(key(row), key(rows[0])) then [row] + rows
    else [rows[0]] + InsertByKey(rows[1..], row, key)
  }

  lemma {:induction false} InsertByKeyPermutes<T>(rows: seq<T>, row: T, key: T -> string)
    ensures multiset(InsertByKey(rows, row, key)) == multiset(rows) + multiset{row}
  {
    if rows != [] && !Below(key(row), key(rows[0])) {
      InsertByKeyPermutes(rows[1..], row, key);
      assert rows == [rows[0]] + rows[1..];
    }
  }

  /** Adding a row with a new key keeps the table in key order and adds exactly that row. */
  lemma {:induction false} InsertByKeyCorrect<T>(rows: seq<T>, row: T, key: T -> string)
    requires KeyOrdered(rows, key)
    requires forall x :: x in rows ==> key(x) != key(row)
    ensures KeyOrdered(InsertByKey(rows, row, key), key)
    ensures multiset(InsertByKey(rows, row, key)) == multiset(rows) + multiset{row}
  {
    InsertByKeyPermutes(rows, row, key);
    if rows == [] {
    } else if Below(key(row), key(rows[0])) {
      KeyOrderedHead(rows, key);
      forall x | x in rows ensures Below(key(row), key(x)) {
        if x != rows[0] {
          assert x in rows[1..];
          BelowTransitive(key(row), key(rows[0]), key(x));
        }
      }
      KeyOrderedCons(row, rows, key);
    } else {
      assert rows[0] in rows;
      BelowTotal(key(row), key(rows[0]));
      KeyOrderedHead(rows, key);
      var tail := rows[1..];
      forall x | x in tail ensures key(x) != key(row) {
        assert x in rows;
      }
      InsertByKeyCorrect(tail, row, key);
      var t := InsertByKey(tail, row, key);
      forall x | x in t ensures Below(key(rows[0]), key(x)) {
        assert x in multiset(t);
        if x != row {
          assert x in multiset(tail);
        }
      }
      KeyOrderedCons(rows[0], t, key);
    }
  }

  /** Deleting rows keeps the survivors in key order. */
  lemma {:induction false} FilterKeyOrdered<T(!new)>(rows: seq<T>, p: T -> bool, key: T -> string)
    requires KeyOrdered(rows, key)
    ensures KeyOrdered(Seqs.Filter(rows, p), key)
  {
    if rows != [] {
      KeyOrderedHead(rows, key);
      FilterKeyOrdered(rows[1..], p, key);
      assert rows == [rows[0]] + rows[1..];
      if p(rows[0]) {
        KeyOrderedCons(rows[0], Seqs.Filter(rows[1..], p), key);
      }
    }
  }
}

/**
 * The local artifact database (src/lib/db/index.ts): three tables held in
 * primary-key order, and the reads and the cascade delete built on them.
 */
module LocalDb {
  import opened Wrappers
  import opened Artifacts
  import opened Keys
  import Seqs

  function ArtifactKey(a: Artifact): string { a.id }
  function ImageKey(i: ArtifactImage): string { i.id }
  function VariantKey(v: ColorVariant): string { v.id }

  /** `table.get(id)`: the row with that key, if any. */
  function Get<T>(rows: seq<T>, key: T -> string, id: string): (r: Option<T>)
    ensures r.Some? ==> r.value in rows && key(r.value) == id
    ensures r.None? ==> forall i :: 0 <= i < |rows| ==> key(rows[i]) != id
  {
    if rows == [] then None
    else if key(rows[0]) == id then Some(rows[0])
    else
      assert forall i :: 1 <= i < |rows| ==> rows[i] == rows[1..][i - 1];
      Get(rows[1..], key, id)
  }

  /** `images.where('artifactId').equals(artifactId).toArray()`. */
  function ImagesOf(images: seq<ArtifactImage>, artifactId: string): (r: seq<ArtifactImage>)
    ensures KeyOrdered(images, ImageKey) ==> KeyOrdered(r, ImageKey)
  {
    var p := (i: ArtifactImage) => i.artifactId == artifactId;
    if KeyOrdered(images, ImageKey) then FilterKeyOrdered(images, p, ImageKey); Seqs.Filter(images, p)
    else Seqs.Filter(images, p)
  }

  /** `colorVariants.where('artifactId').equals(artifactId).toArray()`. */
  function VariantsOf(variants: seq<ColorVariant>, artifactId: string): (r: seq<ColorVariant>)
    ensures KeyOrdered(variants, VariantKey) ==> KeyOrdered(r, VariantKey)
  {
    var p := (v: ColorVariant) => v.artifactId == artifactId;
    if KeyOrdered(variants, VariantKey) then FilterKeyOrdered(variants, p, VariantKey); Seqs.Filter(variants, p)
    else Seqs.Filter(variants, p)
  }

  datatype ArtifactWithImages = ArtifactWithImages(
    artifact: Artifact,
    images: seq<ArtifactImage>,
    variants: seq<ColorVariant>)

  /** The rows of the three tables, for the read-only queries. */
  datatype Tables = Tables(
    artifacts: seq<Artifact>,
    images: seq<ArtifactImage>,
    colorVariants: seq<ColorVariant>)

  /**
   * `getArtifactWithImages`: nothing when no artifact has the id; otherwise
   * the artifact with exactly its images and variants.
   */
  function GetArtifactWithImages(t: Tables, artifactId: string): (r: Option<ArtifactWithImages>)
    ensures r.None? <==> forall i :: 0 <= i < |t.artifacts| ==> t.artifacts[i].id != artifactId
    ensures r.Some? ==> r.value.artifact in t.artifacts && r.value.artifact.id == artifactId
    ensures r.Some? ==> forall i :: 0 <= i < |r.value.images| ==> r.value.images[i].artifactId == artifactId
    ensures r.Some? ==> forall i :: 0 <= i < |r.value.variants| ==> r.value.variants[i].artifactId == artifactId
    ensures r.Some? ==> forall i :: 0 <= i < |t.images| && t.images[i].artifactId == artifactId ==>
      t.images[i] in r.value.images
    ensures r.Some? ==> forall i :: 0 <= i < |t.colorVariants| && t.colorVariants[i].artifactId == artifactId ==>
      t.colorVariants[i] in r.value.variants
    ensures r.Some? && KeyOrdered(t.images, ImageKey) ==> KeyOrdered(r.value.images, ImageKey)
    ensures r.Some? && KeyOrdered(t.colorVariants, VariantKey) ==> KeyOrdered(r.value.variants, VariantKey)
  {
    match Get(t.artifacts, ArtifactKey, artifactId)
    case None => None
    case Some(a) => Some(ArtifactWithImages(a, ImagesOf(t.images, artifactId), VariantsOf(t.colorVariants, artifactId)))
  }

  predicate OlderOrSame(a: Artifact, b: Artifact)
  {
    a.createdAt <= b.createdAt
  }

  lemma OlderOrSameTotal()
    ensures Seqs.TotalPreorder(OlderOrSame)
  {
  }

  /** `artifacts.orderBy('createdAt').reverse().toArray()`. */
  function AllArtifactsNewestFirst(artifacts: seq<Artifact>): seq<Artifact>
  {
    Seqs.Reverse(Seqs.Sort(artifacts, OlderOrSame))
  }

  /** All artifacts come back, newest first. */
  lemma AllArtifactsOrdered(artifacts: seq<Artifact>)
    ensures multiset(AllArtifactsNewestFirst(artifacts)) == multiset(artifacts)
    ensures forall i, j :: 0 <= i < j < |AllArtifactsNewestFirst(artifacts)| ==>
      AllArtifactsNewestFirst(artifacts)[i].createdAt >= AllArtifactsNewestFirst(artifacts)[j].createdAt
  {
    SortedOldestFirst(artifacts);
    ReverseOfAscending(Seqs.Sort(artifacts, OlderOrSame));
  }

  lemma ReverseOfAscending(s: seq<Artifact>)
    requires forall i, j :: 0 <= i < j < |s| ==> s[i].createdAt <= s[j].createdAt
    ensures forall i, j :: 0 <= i < j < |Seqs.Reverse(s)| ==>
      Seqs.Reverse(s)[i].createdAt >= Seqs.Reverse(s)[j].createdAt
  {
    var r := Seqs.Reverse(s);
    forall i, j | 0 <= i < j < |r| ensures r[i].createdAt >= r[j].createdAt {
      var a, b := |s| - 1 - j, |s| - 1 - i;
      assert s[a].createdAt <= s[b].createdAt;
      assert r[i] == s[b] && r[j] == s[a];
    }
  }

  lemma SortedOldestFirst(artifacts: seq<Artifact>)
    ensures var s := Seqs.Sort(artifacts, OlderOrSame);
      && multiset(s) == multiset(artifacts)
      && forall i, j :: 0 <= i < j < |s| ==> s[i].createdAt <= s[j].createdAt
  {
    OlderOrSameTotal();
    Seqs.SortCorrect(artifacts, OlderOrSame);
    var s := Seqs.Sort(artifacts, OlderOrSame);
    assert Seqs.SortedBy(s, OlderOrSame);
    forall i, j | 0 <= i < j < |s| ensures s[i].createdAt <= s[j].createdAt {
      assert OlderOrSame(s[i], s[j]);
    }
  }

  /** The table invariant: each table in primary-key order. */
  predicate TablesOrdered(artifacts: seq<Artifact>, images: seq<ArtifactImage>, variants: seq<ColorVariant>)
  {
    && KeyOrdered(artifacts, ArtifactKey)
    && KeyOrdered(images, ImageKey)
    && KeyOrdered(variants, VariantKey)
  }

  function WithoutVariantsOf(variants: seq<ColorVariant>, artifactId: string): seq<ColorVariant>
  {
    Seqs.Filter(variants, (v: ColorVariant) => v.artifactId != artifactId)
  }

  function WithoutImagesOf(images: seq<ArtifactImage>, artifactId: string): seq<ArtifactImage>
  {
    Seqs.Filter(images, (i: ArtifactImage) => i.artifactId != artifactId)
  }

  function WithoutArtifact(artifacts: seq<Artifact>, artifactId: string): seq<Artifact>
  {
    Seqs.Filter(artifacts, (a: Artifact) => a.id != artifactId)
  }

  /**
   * After the cascade, nothing of the artifact is left, and every row of
   * every other artifact is still there.
   */
  lemma CascadeRemovesExactly(t: Tables, artifactId: string)
    ensures var a := WithoutArtifact(t.artifacts, artifactId);
      && (forall i :: 0 <= i < |a| ==> a[i].id != artifactId)
      && (forall i :: 0 <= i < |t.artifacts| && t.artifacts[i].id != artifactId ==> t.artifacts[i] in a)
    ensures var im := WithoutImagesOf(t.images, artifactId);
      && (forall i :: 0 <= i < |im| ==> im[i].artifactId != artifactId)
      && (forall i :: 0 <= i < |t.images| && t.images[i].artifactId != artifactId ==> t.images[i] in im)
    ensures var vs := WithoutVariantsOf(t.colorVariants, artifactId);
      && (forall i :: 0 <= i < |vs| ==> vs[i].artifactId != artifactId)
      && (forall i :: 0 <= i < |t.colorVariants| && t.colorVariants[i].artifactId != artifactId ==> t.colorVariants[i] in vs)
    ensures GetArtifactWithImages(Tables(WithoutArtifact(t.artifacts, artifactId),
      WithoutImagesOf(t.images, artifactId), WithoutVariantsOf(t.colorVariants, artifactId)), artifactId).None?
  {
  }

  /** The database: three tables whose rows the operations delete and replace in place. */
  class ArtifactDb {
    var artifacts: seq<Artifact>
    var images: seq<ArtifactImage>
    var colorVariants: seq<ColorVariant>

    ghost predicate Valid()
      reads this
    {
      TablesOrdered(artifacts, images, colorVariants)
    }

    function Snapshot(): Tables
      reads this
    {
      Tables(artifacts, images, colorVariants)
    }

    constructor (artifacts: seq<Artifact>, images: seq<ArtifactImage>, colorVariants: seq<ColorVariant>)
      requires TablesOrdered(artifacts, images, colorVariants)
      ensures Valid()
      ensures this.artifacts == artifacts && this.images == images && this.colorVariants == colorVariants
    {
      this.artifacts := artifacts;
      this.images := images;
      this.colorVariants := colorVariants;
    }

    /** `colorVariants.where('artifactId').equals(artifactId).delete()`. */
    method DeleteVariantsOf(artifactId: string)
      requires Valid()
      modifies this`colorVariants
      ensures colorVariants == WithoutVariantsOf(old(colorVariants), artifactId)
      ensures Valid()
    {
      FilterKeyOrdered(colorVariants, (v: ColorVariant) => v.artifactId != artifactId, VariantKey);
      colorVariants := WithoutVariantsOf(colorVariants, artifactId);
    }

    /** `images.where('artifactId').equals(artifactId).delete()`. */
    method DeleteImagesOf(artifactId: string)
      requires Valid()
      modifies this`images
      ensures images == WithoutImagesOf(old(images), artifactId)
      ensures Valid()
    {
      FilterKeyOrdered(images, (i: ArtifactImage) => i.artifactId != artifactId, ImageKey);
      images := WithoutImagesOf(images, artifactId);
    }

    /** `artifacts.delete(artifactId)`. */
    method DeleteArtifactRow(artifactId: string)
      requires Valid()
      modifies this`artifacts
      ensures artifacts == WithoutArtifact(old(artifacts), artifactId)
      ensures Valid()
    {
      FilterKeyOrdered(artifacts, (a: Artifact) => a.id != artifactId, ArtifactKey);
      artifacts := WithoutArtifact(artifacts, artifactId);
    }

    /** `colorVariants.delete(variantId)`. */
    method DeleteVariant(variantId: string)
      requires Valid()
      modifies this`colorVariants
      ensures colorVariants == Seqs.Filter(old(colorVariants), (v: ColorVariant) => v.id != variantId)
      ensures Valid()
    {
      FilterKeyOrdered(colorVariants, (v: ColorVariant) => v.id != variantId, VariantKey);
      colorVariants := Seqs.Filter(colorVariants, (v: ColorVariant) => v.id != variantId);
    }

    /** `colorVariants.add(variant)` for a key not yet in the table. */
    method AddVariant(variant: ColorVariant)
      requires Valid()
      requires forall x :: x in colorVariants ==> x.id != variant.id
      modifies this`colorVariants
      ensures colorVariants == InsertByKey(old(colorVariants), variant, VariantKey)
      ensures multiset(colorVariants) == multiset(old(colorVariants)) + multiset{variant}
      ensures Valid()
    {
      InsertByKeyCorrect(colorVariants, variant, VariantKey);
      colorVariants := InsertByKey(colorVariants, variant, VariantKey);
    }

    /**
     * `artifacts.where('id').equals(artifactId).modify(change)` for a change
     * that keeps the key: the row with that key, if there is one, is replaced
     * by its changed version.
     */
    method ModifyArtifact(artifactId: string, change: Artifact -> Artifact)
      requires Valid()
      requires forall a :: change(a).id == a.id
      modifies this`artifacts
      ensures |artifacts| == |old(artifacts)|
      ensures forall i :: 0 <= i < |artifacts| ==>
        artifacts[i] == if old(artifacts)[i].id == artifactId then change(old(artifacts)[i]) else old(artifacts)[i]
      ensures Valid()
    {
      artifacts := seq(|artifacts|, i requires 0 <= i < |artifacts| reads this =>
        if artifacts[i].id == artifactId then change(artifacts[i]) else artifacts[i]);
    }

    /**
     * `deleteArtifact`: the variants, then the images, then the artifact
     * itself, inside one read-write transaction.
     */
    method DeleteArtifact(artifactId: string)
      requires Valid()
      modifies this`artifacts, this`images, this`colorVariants
      ensures colorVariants == WithoutVariantsOf(old(colorVariants), artifactId)
      ensures images == WithoutImagesOf(old(images), artifactId)
      ensures artifacts == WithoutArtifact(old(artifacts), artifactId)
      ensures Valid()
    {
      DeleteVariantsOf(artifactId);
      DeleteImagesOf(artifactId);
      DeleteArtifactRow(artifactId);
    }

    /** `getAllArtifacts` on the current rows. */
    function GetAllArtifacts(): (r: seq<Artifact>)
      reads this
      ensures multiset(r) == multiset(artifacts)
      ensures forall i, j :: 0 <= i < j < |r| ==> r[i].createdAt >= r[j].createdAt
    {
      AllArtifactsOrdered(artifacts);
      AllArtifactsNewestFirst(artifacts)
    }
  }
}
