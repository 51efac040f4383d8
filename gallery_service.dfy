/**
 * The public gallery client (src/lib/firebase/galleryService.ts): publishing
 * a local artifact (its first image, a thumbnail of it and every colour
 * variant go to cloud storage, then one document to the gallery collection),
 * and rewriting the storage addresses of fetched documents so that they are
 * loaded through the image proxy.
 *
 * Cloud storage and the document store are classes holding maps; thumbnail
 * generation and `getDownloadURL` are function parameters, and
 * `crypto.randomUUID()` for a first-time device id is a string parameter.
 */
module GalleryService {
  import opened Wrappers
  import opened Strings
  import opened Artifacts
  import Keys
  import LocalDb
  import DeviceId
  import UriEncoding
  import ImageProxy

  // ---------------------------------------------------------------------------
  // Proxying storage addresses
  // ---------------------------------------------------------------------------

  const ProxyPath: string := "/.netlify/functions/image-proxy?url="

  /** The addresses the client sends through the proxy: those mentioning either storage host. */
  predicate IsStorageUrl(url: string)
  {
    Contains(url, "firebasestorage.googleapis.com") || Contains(url, "firebasestorage.app")
  }

  /** `proxyImageUrl(url)`. */
  function ProxyImageUrl(url: string): string
  {
    if IsStorageUrl(url) then ProxyPath + UriEncoding.EncodeURIComponent(url) else url
  }

  /**
   * A storage address becomes a proxy address whose `url` parameter is made
   * only of unreserved characters and `%`, and decodes back to the address;
   * any other address is left alone.
   */
  lemma ProxyRoundTrip(url: string)
    ensures var r := ProxyImageUrl(url);
      && (IsStorageUrl(url) ==>
            && StartsWith(r, ProxyPath)
            && r != url
            && (forall i :: |ProxyPath| <= i < |r| ==> UriEncoding.EncodedChar(r[i]))
            && UriEncoding.DecodeURIComponent(r[|ProxyPath|..]) == Some(url))
      && (!IsStorageUrl(url) ==> r == url)
  {
    if IsStorageUrl(url) {
      var e := UriEncoding.EncodeURIComponent(url);
      var r := ProxyPath + e;
      assert r[|ProxyPath|..] == e;
      assert r[..|ProxyPath|] == ProxyPath;
      UriEncoding.EncodeCharset(url);
      UriEncoding.DecodeEncode(url);
      assert |r| > |url|;
      forall i | |ProxyPath| <= i < |r| ensures UriEncoding.EncodedChar(r[i]) {
        assert r[i] == e[i - |ProxyPath|];
      }
    }
  }

  /** A text found inside a prefix of an address is found inside the address, at the same place. */
  lemma OccursInPrefix(url: string, prefix: string, sub: string, k: int)
    requires StartsWith(url, prefix) && OccursAt(prefix, sub, k)
    ensures OccursAt(url, sub, k)
  {
    assert url[k..k + |sub|] == url[..|prefix|][k..k + |sub|];
  }

  /** The first allowed origin names the storage host after its `https://`. */
  lemma GoogleOriginNamesHost()
    ensures OccursAt(ImageProxy.AllowedOrigins[0], "firebasestorage.googleapis.com", 8)
  {
    var scheme, host := "https://", "firebasestorage.googleapis.com";
    assert ImageProxy.AllowedOrigins[0] == scheme + host;
    assert (scheme + host)[8..38] == host;
  }

  /** The second allowed origin ends with the storage domain. */
  lemma BucketOriginNamesDomain()
    ensures OccursAt(ImageProxy.AllowedOrigins[1], "firebasestorage.app", 27)
  {
    var origin := ImageProxy.AllowedOrigins[1];
    assert origin[27..46] == "firebasestorage.app";
  }

  /** Every address the image proxy accepts is one the client sends through it. */
  lemma AllowedIsProxied(url: string)
    requires ImageProxy.IsAllowed(url)
    ensures IsStorageUrl(url)
  {
    var k :| 0 <= k < |ImageProxy.AllowedOrigins| && StartsWith(url, ImageProxy.AllowedOrigins[k]);
    if k == 0 {
      GoogleOriginNamesHost();
      OccursInPrefix(url, ImageProxy.AllowedOrigins[0], "firebasestorage.googleapis.com", 8);
    } else {
      BucketOriginNamesDomain();
      OccursInPrefix(url, ImageProxy.AllowedOrigins[1], "firebasestorage.app", 27);
    }
  }

  /**
   * The converse does not hold: the client's test is wider than the proxy's
   * allow-list, so a storage address written with plain `http` is sent
   * through the proxy and refused there.
   */
  lemma PlainHttpProxiedButRefused(path: string)
    ensures var url := "http://" + "firebasestorage.googleapis.com" + path;
      IsStorageUrl(url) && !ImageProxy.IsAllowed(url)
  {
    var scheme, host := "http://", "firebasestorage.googleapis.com";
    var url := scheme + host + path;
    assert url[|scheme|..|scheme| + |host|] == host;
    assert OccursAt(url, host, |scheme|);
    assert url[4] == ':';
    forall k | 0 <= k < |ImageProxy.AllowedOrigins| ensures !StartsWith(url, ImageProxy.AllowedOrigins[k]) {
      var origin := ImageProxy.AllowedOrigins[k];
      assert origin[4] == 's';
      assert |origin| > 4;
      assert |origin| <= |url| ==> url[..|origin|][4] == ':';
    }
  }

  function ProxyVariant(v: GalleryVariant): GalleryVariant
  {
    v.(imageUrl := ProxyImageUrl(v.imageUrl))
  }

  /** The mapping `fetchGalleryArtifacts` applies to one document. */
  function ProxyArtifact(a: GalleryArtifact): GalleryArtifact
  {
    a.(originalImageUrl := ProxyImageUrl(a.originalImageUrl),
       thumbnailUrl := ProxyImageUrl(a.thumbnailUrl),
       variants := seq(|a.variants|, i requires 0 <= i < |a.variants| => ProxyVariant(a.variants[i])))
  }

  /** The documents `fetchGalleryArtifacts` returns, given those the query read. */
  function ProxyAll(artifacts: seq<GalleryArtifact>): seq<GalleryArtifact>
  {
    seq(|artifacts|, i requires 0 <= i < |artifacts| => ProxyArtifact(artifacts[i]))
  }

  /**
   * Only image addresses change: the documents keep their number and order,
   * and every document keeps its other fields and the number, order, ids,
   * schemes and prompts of its variants; each address becomes its proxied form.
   */
  lemma ProxyAllChangesOnlyAddresses(artifacts: seq<GalleryArtifact>)
    ensures var r := ProxyAll(artifacts);
      && |r| == |artifacts|
      && forall i :: 0 <= i < |r| ==>
           && r[i].(originalImageUrl := artifacts[i].originalImageUrl,
                    thumbnailUrl := artifacts[i].thumbnailUrl,
                    variants := artifacts[i].variants) == artifacts[i]
           && r[i].originalImageUrl == ProxyImageUrl(artifacts[i].originalImageUrl)
           && r[i].thumbnailUrl == ProxyImageUrl(artifacts[i].thumbnailUrl)
           && |r[i].variants| == |artifacts[i].variants|
           && forall k :: 0 <= k < |r[i].variants| ==>
                && r[i].variants[k].(imageUrl := artifacts[i].variants[k].imageUrl) == artifacts[i].variants[k]
                && r[i].variants[k].imageUrl == ProxyImageUrl(artifacts[i].variants[k].imageUrl)
  {
  }

  // ---------------------------------------------------------------------------
  // Storage paths
  // ---------------------------------------------------------------------------

  const ThumbnailFolder: string := "gallery/thumbnails/"
  const OriginalFolder: string := "gallery/originals/"
  const VariantFolder: string := "gallery/variants/"

  /** `${folder}${name}.jpg`. */
  function PathIn(folder: string, name: string): string
  {
    folder + name + ".jpg"
  }

  function ThumbnailPath(artifactId: string): string { PathIn(ThumbnailFolder, artifactId) }
  function OriginalPath(artifactId: string): string { PathIn(OriginalFolder, artifactId) }
  function VariantPath(variantId: string): string { PathIn(VariantFolder, variantId) }

  /** Within one folder, different names give different paths. */
  lemma PathInInjective(folder: string, a: string, b: string)
    requires PathIn(folder, a) == PathIn(folder, b)
    ensures a == b
  {
    var p := PathIn(folder, a);
    assert |a| == |b|;
    assert p[|folder|..|folder| + |a|] == a;
    assert PathIn(folder, b)[|folder|..|folder| + |b|] == b;
  }

  /** Paths in folders that differ at their ninth character never coincide. */
  lemma FoldersApart(f1: string, f2: string, a: string, b: string)
    requires |f1| > 8 && |f2| > 8 && f1[8] != f2[8]
    ensures PathIn(f1, a) != PathIn(f2, b)
  {
    assert PathIn(f1, a)[8] == f1[8];
    assert PathIn(f2, b)[8] == f2[8];
  }

  /**
   * The objects a publication writes never overwrite one another: the
   * thumbnail, the original and the variants live in three folders, and two
   * variants share a path only when they share an id.
   */
  lemma PathsDistinct(artifactId: string, otherId: string, v: string, w: string)
    ensures ThumbnailPath(artifactId) != OriginalPath(otherId)
    ensures ThumbnailPath(artifactId) != VariantPath(v)
    ensures OriginalPath(artifactId) != VariantPath(v)
    ensures VariantPath(v) == VariantPath(w) ==> v == w
  {
    assert ThumbnailFolder[8] == 't' && OriginalFolder[8] == 'o' && VariantFolder[8] == 'v';
    FoldersApart(ThumbnailFolder, OriginalFolder, artifactId, otherId);
    FoldersApart(ThumbnailFolder, VariantFolder, artifactId, v);
    FoldersApart(OriginalFolder, VariantFolder, artifactId, v);
    if VariantPath(v) == VariantPath(w) {
      PathInInjective(VariantFolder, v, w);
    }
  }

  // ---------------------------------------------------------------------------
  // The published document
  // ---------------------------------------------------------------------------

  const UnnamedArtifact: string := "Unnamed Artifact"

  /** A field copied only when it is a non-empty string. */
  function IfTruthy(field: Option<string>): Option<string>
  {
    if field.Some? && field.value != "" then field else None
  }

  /** The entry for one uploaded variant; the prompt only when it is non-empty. */
  function GalleryVariantOf(v: ColorVariant, imageUrl: string): GalleryVariant
  {
    GalleryVariant(v.id, imageUrl, v.colorScheme, if v.prompt != "" then Some(v.prompt) else None)
  }

  /** `uploadedVariants`: one entry per variant, in the variants' order, each linked to its stored file. */
  function UploadedVariants(variants: seq<ColorVariant>, downloadUrl: string -> string): seq<GalleryVariant>
  {
    seq(|variants|, i requires 0 <= i < |variants| => GalleryVariantOf(variants[i], downloadUrl(VariantPath(variants[i].id))))
  }

  /** `galleryDoc`, given the device id and the uploaded variants' entries. */
  function GalleryDoc(artifact: Artifact, deviceId: string, uploaded: seq<GalleryVariant>,
                      downloadUrl: string -> string): GalleryArtifact
  {
    GalleryArtifact(
      artifact.id,
      deviceId,
      OrDefault(artifact.metadata.name, UnnamedArtifact),
      IfTruthy(artifact.metadata.siteName),
      IfTruthy(artifact.metadata.discoveryLocation),
      downloadUrl(OriginalPath(artifact.id)),
      downloadUrl(ThumbnailPath(artifact.id)),
      uploaded,
      ServerTimestamp,
      Published)
  }

  /**
   * What the document promises: it is published under the artifact's id with
   * a non-empty name ('Unnamed Artifact' for a missing or empty one), carries
   * the site and location exactly when they are non-empty, and lists the
   * variants in order with their ids and schemes, a prompt exactly when the
   * variant has a non-empty one, and the address of the file stored for it.
   */
  lemma GalleryDocFields(artifact: Artifact, deviceId: string, variants: seq<ColorVariant>,
                         downloadUrl: string -> string)
    ensures var d := GalleryDoc(artifact, deviceId, UploadedVariants(variants, downloadUrl), downloadUrl);
      && d.id == artifact.id && d.status == Published && d.createdAt == ServerTimestamp
      && d.deviceId == deviceId
      && d.name != ""
      && (artifact.metadata.name.Some? && artifact.metadata.name.value != "" ==> d.name == artifact.metadata.name.value)
      && (!(artifact.metadata.name.Some? && artifact.metadata.name.value != "") ==> d.name == UnnamedArtifact)
      && d.thumbnailUrl == downloadUrl(ThumbnailPath(artifact.id))
      && d.originalImageUrl == downloadUrl(OriginalPath(artifact.id))
      && (d.siteName.Some? <==> artifact.metadata.siteName.Some? && artifact.metadata.siteName.value != "")
      && (d.siteName.Some? ==> d.siteName == artifact.metadata.siteName)
      && (d.discoveryLocation.Some? <==> artifact.metadata.discoveryLocation.Some? && artifact.metadata.discoveryLocation.value != "")
      && (d.discoveryLocation.Some? ==> d.discoveryLocation == artifact.metadata.discoveryLocation)
      && |d.variants| == |variants|
      && forall i :: 0 <= i < |variants| ==>
           && d.variants[i].id == variants[i].id
           && d.variants[i].colorScheme == variants[i].colorScheme
           && (d.variants[i].prompt.Some? <==> variants[i].prompt != "")
           && (d.variants[i].prompt.Some? ==> d.variants[i].prompt.value == variants[i].prompt)
           && d.variants[i].imageUrl == downloadUrl(VariantPath(variants[i].id))
  {
    var d := GalleryDoc(artifact, deviceId, UploadedVariants(variants, downloadUrl), downloadUrl);
    forall i | 0 <= i < |variants|
      ensures d.variants[i] == GalleryVariantOf(variants[i], downloadUrl(VariantPath(variants[i].id)))
    {
    }
  }

  // ---------------------------------------------------------------------------
  // The stores
  // ---------------------------------------------------------------------------

  /** Cloud storage: paths to stored files. */
  class CloudStorage {
    var objects: map<string, Blob>

    constructor (objects: map<string, Blob>)
      ensures this.objects == objects
    {
      this.objects := objects;
    }

    /** `uploadBytes(ref(storage, path), blob)`. */
    method UploadBytes(path: string, blob: Blob)
      modifies this
      ensures objects == old(objects)[path := blob]
    {
      objects := objects[path := blob];
    }
  }

  /** The gallery collection: document ids to documents. */
  class Firestore {
    var docs: map<string, GalleryArtifact>

    constructor (docs: map<string, GalleryArtifact>)
      ensures this.docs == docs
    {
      this.docs := docs;
    }

    /** `setDoc(doc(firestore, 'gallery', id), document)`: the document replaces any earlier one. */
    method SetDoc(id: string, document: GalleryArtifact)
      modifies this
      ensures docs == old(docs)[id := document]
    {
      docs := docs[id := document];
    }
  }

  /** The storage after the variants' files are written, one after the other. */
  function WithVariantFiles(objects: map<string, Blob>, variants: seq<ColorVariant>): map<string, Blob>
  {
    if variants == [] then objects
    else
      var last := variants[|variants| - 1];
      WithVariantFiles(objects, variants[..|variants| - 1])[VariantPath(last.id) := last.blob]
  }

  /** The storage after a publication: thumbnail, original, then the variants. */
  function PublishedFiles(objects: map<string, Blob>, artifactId: string, thumbnail: Blob, original: Blob,
                          variants: seq<ColorVariant>): map<string, Blob>
  {
    WithVariantFiles(objects[ThumbnailPath(artifactId) := thumbnail][OriginalPath(artifactId) := original], variants)
  }

  lemma {:induction false} WithVariantFilesContent(objects: map<string, Blob>, variants: seq<ColorVariant>)
    requires forall i, j :: 0 <= i < j < |variants| ==> variants[i].id != variants[j].id
    ensures var r := WithVariantFiles(objects, variants);
      && (forall i :: 0 <= i < |variants| ==> VariantPath(variants[i].id) in r && r[VariantPath(variants[i].id)] == variants[i].blob)
      && (forall p :: p in r <==> p in objects || exists i :: 0 <= i < |variants| && p == VariantPath(variants[i].id))
      && (forall p :: p in objects && (forall i :: 0 <= i < |variants| ==> p != VariantPath(variants[i].id)) ==> r[p] == objects[p])
    decreases |variants|
  {
    if variants != [] {
      var n := |variants| - 1;
      var init := variants[..n];
      WithVariantFilesContent(objects, init);
      var last := variants[n];
      forall i | 0 <= i < n ensures VariantPath(init[i].id) != VariantPath(last.id) {
        PathsDistinct("", "", init[i].id, last.id);
      }
    }
  }

  /**
   * After a publication the storage holds the thumbnail, the original and
   * every variant's blob at its own path, and every other file as it was.
   */
  lemma PublishedFilesContent(objects: map<string, Blob>, artifactId: string, thumbnail: Blob, original: Blob,
                              variants: seq<ColorVariant>)
    requires forall i, j :: 0 <= i < j < |variants| ==> variants[i].id != variants[j].id
    ensures var r := PublishedFiles(objects, artifactId, thumbnail, original, variants);
      && ThumbnailPath(artifactId) in r && r[ThumbnailPath(artifactId)] == thumbnail
      && OriginalPath(artifactId) in r && r[OriginalPath(artifactId)] == original
      && (forall i :: 0 <= i < |variants| ==> VariantPath(variants[i].id) in r && r[VariantPath(variants[i].id)] == variants[i].blob)
      && (forall p ::
            (p in objects && p != ThumbnailPath(artifactId) && p != OriginalPath(artifactId)
             && (forall i :: 0 <= i < |variants| ==> p != VariantPath(variants[i].id)))
            ==> p in r && r[p] == objects[p])
  {
    var base := objects[ThumbnailPath(artifactId) := thumbnail][OriginalPath(artifactId) := original];
    WithVariantFilesContent(base, variants);
    forall i | 0 <= i < |variants|
      ensures VariantPath(variants[i].id) != ThumbnailPath(artifactId)
      ensures VariantPath(variants[i].id) != OriginalPath(artifactId)
    {
      PathsDistinct(artifactId, artifactId, variants[i].id, variants[i].id);
    }
    PathsDistinct(artifactId, artifactId, "", "");
  }

  /** The variants read from a table in key order have distinct ids. */
  lemma VariantsOfDistinct(table: seq<ColorVariant>, artifactId: string)
    requires Keys.KeyOrdered(table, LocalDb.VariantKey)
    ensures var vs := LocalDb.VariantsOf(table, artifactId);
      forall i, j :: 0 <= i < j < |vs| ==> vs[i].id != vs[j].id
  {
    var vs := LocalDb.VariantsOf(table, artifactId);
    Keys.FilterKeyOrdered(table, (v: ColorVariant) => v.artifactId == artifactId, LocalDb.VariantKey);
    Keys.KeyOrderedUnique(vs, LocalDb.VariantKey);
  }

  // ---------------------------------------------------------------------------
  // Publishing
  // ---------------------------------------------------------------------------

  /**
   * The variants' uploads: each variant's blob is stored at its path and its
   * entry, linked to that file, is collected in the variants' order.
   */
  method UploadVariants(storage: CloudStorage, variants: seq<ColorVariant>, downloadUrl: string -> string)
    returns (uploaded: seq<GalleryVariant>)
    modifies storage
    ensures storage.objects == WithVariantFiles(old(storage.objects), variants)
    ensures uploaded == UploadedVariants(variants, downloadUrl)
  {
    uploaded := [];
    var k := 0;
    while k < |variants|
      invariant 0 <= k <= |variants|
      invariant storage.objects == WithVariantFiles(old(storage.objects), variants[..k])
      invariant uploaded == UploadedVariants(variants[..k], downloadUrl)
    {
      var v := variants[k];
      storage.UploadBytes(VariantPath(v.id), v.blob);
      var imageUrl := downloadUrl(VariantPath(v.id));
      uploaded := uploaded + [GalleryVariantOf(v, imageUrl)];
      assert variants[..k + 1][..k] == variants[..k];
      k := k + 1;
    }
    assert variants[..k] == variants;
  }

  /**
   * `uploadToGallery(artifactId)`. The three checks come before any write:
   * a missing artifact, an artifact without images and one without variants
   * each fail with their message and change nothing. Otherwise the thumbnail
   * of the first image, that image and every variant are stored, the device
   * id is settled, the document is written under the artifact's id, and the
   * id is returned.
   */
  method UploadToGallery(db: LocalDb.ArtifactDb, storage: CloudStorage, firestore: Firestore,
                         local: DeviceId.LocalStorage, artifactId: string,
                         makeThumbnail: Blob -> Blob, downloadUrl: string -> string, freshDeviceId: string)
    returns (r: Result<string, string>)
    requires freshDeviceId != ""
    modifies storage, firestore, local
    ensures var found := LocalDb.Get(db.artifacts, LocalDb.ArtifactKey, artifactId);
      var images := LocalDb.ImagesOf(db.images, artifactId);
      var variants := LocalDb.VariantsOf(db.colorVariants, artifactId);
      && (found.None? ==> r == Err("Artifact " + artifactId + " not found"))
      && (found.Some? && images == [] ==> r == Err("No images found for artifact"))
      && (found.Some? && images != [] && variants == [] ==> r == Err("No color variants found for artifact"))
      && (found.Some? && images != [] && variants != [] ==> r == Ok(artifactId))
      && (r.Err? ==> storage.objects == old(storage.objects) && firestore.docs == old(firestore.docs)
                     && local.items == old(local.items))
      && (r.Ok? ==>
            && found.Some? && images != [] && variants != []
            && r.value == artifactId
            && storage.objects == PublishedFiles(old(storage.objects), artifactId,
                                                 makeThumbnail(images[0].blob), images[0].blob, variants)
            && DeviceId.DeviceIdKey in local.items && local.items[DeviceId.DeviceIdKey] != ""
            && firestore.docs == old(firestore.docs)[artifactId :=
                 GalleryDoc(found.value, local.items[DeviceId.DeviceIdKey], UploadedVariants(variants, downloadUrl), downloadUrl)])
  {
    var found := LocalDb.Get(db.artifacts, LocalDb.ArtifactKey, artifactId);
    if found.None? {
      return Err("Artifact " + artifactId + " not found");
    }
    var artifact := found.value;
    var images := LocalDb.ImagesOf(db.images, artifactId);
    var variants := LocalDb.VariantsOf(db.colorVariants, artifactId);
    if |images| == 0 {
      return Err("No images found for artifact");
    }
    if |variants| == 0 {
      return Err("No color variants found for artifact");
    }
    var primary := images[0];

    var thumbnail := makeThumbnail(primary.blob);
    storage.UploadBytes(ThumbnailPath(artifactId), thumbnail);
    storage.UploadBytes(OriginalPath(artifactId), primary.blob);
    var uploaded := UploadVariants(storage, variants, downloadUrl);

    var deviceId := DeviceId.GetDeviceId(local, freshDeviceId);
    firestore.SetDoc(artifactId, GalleryDoc(artifact, deviceId, uploaded, downloadUrl));
    return Ok(artifactId);
  }
}
