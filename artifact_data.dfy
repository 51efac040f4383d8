/**
 * The artifact data hooks (src/hooks/useArtifactData.ts): the view a page
 * derives from the three live queries, and the two delete hooks that change
 * the local tables.
 */
module ArtifactData {
  import opened Wrappers
  import opened Artifacts
  import opened LocalDb
  import Seqs

  /** What `useArtifactData` hands to a page. */
  datatype ArtifactView = ArtifactView(
    artifact: Option<Artifact>,
    images: seq<ArtifactImage>,
    variants: seq<ColorVariant>,
    primaryImage: Option<ArtifactImage>,
    isLoading: bool)

  /** JavaScript truthiness of an optional id: present and non-empty. */
  predicate Truthy(id: Option<string>)
  {
    id.Some? && id.value != ""
  }

  /**
   * `useArtifactData(artifactId)` over the current tables. A live query
   * yields `undefined` until it has run once; the three flags say which of
   * them have. Without a (truthy) id the artifact query yields `undefined`
   * and the list queries yield `[]`; `|| []` turns a list query that has not
   * run into `[]` as well.
   */
  function UseArtifactData(artifactId: Option<string>, t: Tables,
                           artifactRan: bool, imagesRan: bool, variantsRan: bool): (r: ArtifactView)
    ensures r.primaryImage == (if r.images == [] then None else Some(r.images[0]))
    ensures r.isLoading <==> artifactId.Some? && r.artifact.None?
    ensures !Truthy(artifactId) ==> r.artifact.None? && r.images == [] && r.variants == [] && r.primaryImage.None?
    ensures Truthy(artifactId) ==>
      && (forall i :: 0 <= i < |r.images| ==> r.images[i].artifactId == artifactId.value)
      && (forall i :: 0 <= i < |r.variants| ==> r.variants[i].artifactId == artifactId.value)
      && (r.artifact.Some? ==> r.artifact.value in t.artifacts && r.artifact.value.id == artifactId.value)
  {
    var artifact := if artifactRan && Truthy(artifactId) then Get(t.artifacts, ArtifactKey, artifactId.value) else None;
    var images := if imagesRan && Truthy(artifactId) then ImagesOf(t.images, artifactId.value) else [];
    var variants := if variantsRan && Truthy(artifactId) then VariantsOf(t.colorVariants, artifactId.value) else [];
    ArtifactView(artifact, images, variants,
      if images == [] then None else Some(images[0]),
      artifactId.Some? && artifact.None?)
  }

  /**
   * Once all three queries have run, the view shows exactly what
   * `getArtifactWithImages` returns for the same id, and it is loading
   * exactly when that returns null: an id with no artifact behind it reads
   * as loading for good.
   */
  lemma ViewMatchesDatabaseQuery(artifactId: string, t: Tables)
    requires artifactId != ""
    ensures var v := UseArtifactData(Some(artifactId), t, true, true, true);
      var q := GetArtifactWithImages(t, artifactId);
      && (v.isLoading <==> q.None?)
      && (q.Some? ==> v.artifact == Some(q.value.artifact) && v.images == q.value.images && v.variants == q.value.variants)
  {
  }

  /** The empty id is falsy: nothing is queried, yet the view says it is loading. */
  lemma EmptyIdLoadsForever(t: Tables, artifactRan: bool, imagesRan: bool, variantsRan: bool)
    ensures UseArtifactData(Some(""), t, artifactRan, imagesRan, variantsRan).isLoading
    ensures UseArtifactData(Some(""), t, artifactRan, imagesRan, variantsRan).images == []
  {
  }

  /** `colorVariantIds.filter(id => id !== variantId)`. */
  function WithoutId(ids: seq<string>, variantId: string): seq<string>
  {
    Seqs.Filter(ids, (id: string) => id != variantId)
  }

  /**
   * Removing an id drops every copy of it and keeps every other id, as many
   * times as it occurred, in the original order; a list without the id is
   * returned as it was.
   */
  lemma WithoutIdExact(ids: seq<string>, variantId: string)
    ensures variantId !in WithoutId(ids, variantId)
    ensures forall x :: x != variantId ==> multiset(WithoutId(ids, variantId))[x] == multiset(ids)[x]
    ensures variantId !in ids ==> WithoutId(ids, variantId) == ids
    ensures forall a, b :: WithoutId(a + b, variantId) == WithoutId(a, variantId) + WithoutId(b, variantId)
  {
    var p := (id: string) => id != variantId;
    forall x | x != variantId ensures multiset(WithoutId(ids, variantId))[x] == multiset(ids)[x] {
      Seqs.FilterMultiset(ids, p, x);
    }
    forall a, b ensures WithoutId(a + b, variantId) == WithoutId(a, variantId) + WithoutId(b, variantId) {
      Seqs.FilterConcat(a, b, p);
    }
  }

  /** The change `useDeleteVariant` applies to the owning artifact. */
  function DropVariant(a: Artifact, variantId: string, now: nat): (r: Artifact)
    ensures r.id == a.id
    ensures variantId !in r.colorVariantIds
    ensures forall x :: x != variantId ==> multiset(r.colorVariantIds)[x] == multiset(a.colorVariantIds)[x]
    ensures r.updatedAt == now
    ensures r.(colorVariantIds := a.colorVariantIds, updatedAt := a.updatedAt) == a
  {
    WithoutIdExact(a.colorVariantIds, variantId);
    a.(colorVariantIds := WithoutId(a.colorVariantIds, variantId), updatedAt := now)
  }

  /**
   * `useDeleteVariant()(variantId, artifactId)`: the variant row goes, and
   * the artifact with that id (only that one) loses the id from its list and
   * gets a new `updatedAt`; every other field of every artifact stays.
   */
  method DeleteVariant(db: ArtifactDb, variantId: string, artifactId: string, now: nat)
    requires db.Valid()
    modifies db`colorVariants, db`artifacts
    ensures db.Valid()
    ensures db.colorVariants == Seqs.Filter(old(db.colorVariants), (v: ColorVariant) => v.id != variantId)
    ensures |db.artifacts| == |old(db.artifacts)|
    ensures forall i :: 0 <= i < |db.artifacts| ==>
      db.artifacts[i] == if old(db.artifacts)[i].id == artifactId
                         then DropVariant(old(db.artifacts)[i], variantId, now)
                         else old(db.artifacts)[i]
    ensures db.images == old(db.images)
  {
    db.DeleteVariant(variantId);
    db.ModifyArtifact(artifactId, (a: Artifact) => DropVariant(a, variantId, now));
  }

  /**
   * `useDeleteArtifact()(artifactId)`: the same three deletions as the
   * database's `deleteArtifact`, issued one after the other without a
   * transaction.
   */
  method DeleteArtifact(db: ArtifactDb, artifactId: string)
    requires db.Valid()
    modifies db`artifacts, db`images, db`colorVariants
    ensures db.Valid()
    ensures db.colorVariants == WithoutVariantsOf(old(db.colorVariants), artifactId)
    ensures db.images == WithoutImagesOf(old(db.images), artifactId)
    ensures db.artifacts == WithoutArtifact(old(db.artifacts), artifactId)
  {
    db.DeleteVariantsOf(artifactId);
    db.DeleteImagesOf(artifactId);
    db.DeleteArtifactRow(artifactId);
  }
}
