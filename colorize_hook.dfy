/**
 * The colorize hook (src/hooks/useColorize.ts): the progress state a page
 * shows while one photograph is colorised, the abort controller slot that
 * `cancel` empties, and the two writes to the local tables on success.
 *
 * The two awaits at which the page can call `cancel` are modelled by a
 * parameter saying at which one (if any) it happens. The reply of the
 * colorize endpoint, the base64 decoding of the image and the fresh id and
 * time are parameters as well.
 */
module ColorizeHook {
  import opened Wrappers
  import opened Thrown
  import A = Artifacts
  import opened Strings
  import opened Keys
  import opened LocalDb

  datatype Step = Idle | Preparing | Colorizing | Saving | Complete | Failed

  /** What the client gets back from `colorizeImage`: its JSON reply, or a thrown value. */
  datatype ColorizeResponse = ColorizeResponse(
    success: bool,
    colorizedImageBase64: Option<string>,
    methodName: Option<string>,
    error: Option<string>)

  datatype ApiOutcome = ApiThrew(thrown: Thrown) | ApiAnswered(response: ColorizeResponse)

  /** Where, if anywhere, the page calls `cancel` while a colorisation is in flight. */
  datatype CancelPoint = NoCancel | WhileEncoding | WhileRequesting

  const DefaultModel: string := "gemini-2.5-flash-image"
  const DefaultFailure: string := "Colorization failed"

  class AbortController {
    var aborted: bool

    constructor ()
      ensures !aborted
    {
      aborted := false;
    }

    method Abort()
      modifies this
      ensures aborted
    {
      aborted := true;
    }
  }

  /** A reply the hook treats as a success: `success` set and a non-empty image. */
  predicate Succeeded(api: ApiOutcome)
  {
    && api.ApiAnswered?
    && api.response.success
    && api.response.colorizedImageBase64.Some?
    && api.response.colorizedImageBase64.value != ""
  }

  /** The message the hook stores when a reply is not a success. */
  function FailureMessage(api: ApiOutcome): (m: string)
    requires !Succeeded(api)
    ensures api.ApiThrew? ==> m == MessageOf(api.thrown)
    ensures api.ApiAnswered? && api.response.error.Some? && api.response.error.value != "" ==> m == api.response.error.value
    ensures api.ApiAnswered? && !(api.response.error.Some? && api.response.error.value != "") ==> m == DefaultFailure
  {
    match api
    case ApiThrew(t) => MessageOf(t)
    case ApiAnswered(resp) => OrDefault(resp.error, DefaultFailure)
  }

  /** The variant record built from a successful reply. */
  function NewVariant(id: string, artifactId: string, blob: A.Blob, now: nat, scheme: A.ColorScheme,
                      customPrompt: Option<string>, response: ColorizeResponse): (v: A.ColorVariant)
    ensures v.id == id && v.artifactId == artifactId && v.blob == blob && v.createdAt == now && v.colorScheme == scheme
    ensures customPrompt.Some? && customPrompt.value != "" ==> v.prompt == customPrompt.value
    ensures !(customPrompt.Some? && customPrompt.value != "") ==> v.prompt == ""
    ensures response.methodName.Some? && response.methodName.value != "" ==> v.aiModel == response.methodName.value
    ensures !(response.methodName.Some? && response.methodName.value != "") ==> v.aiModel == DefaultModel
    ensures v.isSpeculative
  {
    A.ColorVariant(id, artifactId, blob, now, scheme,
      OrDefault(customPrompt, ""), OrDefault(response.methodName, DefaultModel), true)
  }

  /** The change made to the artifact: the id appended, the time stamped, a captured artifact completed. */
  function AttachVariant(a: A.Artifact, variantId: string, now: nat): (r: A.Artifact)
    ensures r.id == a.id
    ensures r.colorVariantIds == a.colorVariantIds + [variantId]
    ensures r.status == (if a.status == A.ImagesCaptured then A.Complete else a.status)
    ensures r.updatedAt == now
    ensures r.imageIds == a.imageIds && r.metadata == a.metadata && r.createdAt == a.createdAt
    ensures r.(colorVariantIds := a.colorVariantIds, updatedAt := a.updatedAt, status := a.status) == a
  {
    a.(colorVariantIds := a.colorVariantIds + [variantId], updatedAt := now,
       status := if a.status == A.ImagesCaptured then A.Complete else a.status)
  }

  /** Attaching never moves an artifact back: only 'images-captured' changes, and it becomes 'complete'. */
  lemma AttachStatusTransition(a: A.Artifact, variantId: string, now: nat)
    ensures AttachVariant(a, variantId, now).status != a.status ==>
      a.status == A.ImagesCaptured && AttachVariant(a, variantId, now).status == A.Complete
    ensures AttachVariant(AttachVariant(a, variantId, now), variantId, now).status == AttachVariant(a, variantId, now).status
  {
  }

  class ColorizeHook {
    var step: Step
    var progress: int
    var error: Option<string>
    var variant: Option<A.ColorVariant>
    var abortRef: AbortController?

    constructor ()
      ensures step == Idle && progress == 0 && error == None && variant == None && abortRef == null
    {
      step := Idle;
      progress := 0;
      error := None;
      variant := None;
      abortRef := null;
    }

    /** `reset`: back to the idle state; the controller slot is left alone. */
    method Reset()
      modifies this`step, this`progress, this`error, this`variant
      ensures step == Idle && progress == 0 && error == None && variant == None
    {
      step := Idle;
      progress := 0;
      error := None;
      variant := None;
    }

    /** `cancel`: abort the controller in the slot, if any, empty the slot, and reset. */
    method Cancel()
      modifies this, abortRef
      ensures old(abortRef) != null ==> old(abortRef).aborted
      ensures abortRef == null
      ensures step == Idle && progress == 0 && error == None && variant == None
    {
      if abortRef != null {
        abortRef.Abort();
        abortRef := null;
      }
      Reset();
    }

    /** The hook's cancellation check, `abortControllerRef.current?.signal.aborted`. */
    predicate SlotAborted()
      reads this, abortRef
    {
      abortRef != null && abortRef.aborted
    }

    /** The steps from the failure branch and `finally`. */
    method Fail(message: string)
      modifies this`error, this`step, this`abortRef
      ensures error == Some(message) && step == Failed && abortRef == null
    {
      error := Some(message);
      step := Failed;
      abortRef := null;
    }

    /** The saving steps of a successful reply: both table writes, then the final state. */
    method Save(db: ArtifactDb, artifactId: string, scheme: A.ColorScheme, customPrompt: Option<string>,
                response: ColorizeResponse, toBlob: string -> A.Blob, newId: string, now: nat)
        returns (v: A.ColorVariant)
      requires db.Valid()
      requires forall x :: x in db.colorVariants ==> x.id != newId
      requires response.colorizedImageBase64.Some?
      modifies this`step, this`progress, this`variant, this`abortRef, db`colorVariants, db`artifacts
      ensures db.Valid()
      ensures v == NewVariant(newId, artifactId, toBlob(response.colorizedImageBase64.value), now, scheme, customPrompt, response)
      ensures db.colorVariants == InsertByKey(old(db.colorVariants), v, VariantKey)
      ensures |db.artifacts| == |old(db.artifacts)|
      ensures forall i :: 0 <= i < |db.artifacts| ==>
        db.artifacts[i] == if old(db.artifacts)[i].id == artifactId then AttachVariant(old(db.artifacts)[i], newId, now)
                           else old(db.artifacts)[i]
      ensures step == Complete && progress == 100 && variant == Some(v) && abortRef == null
    {
      progress := 85;
      step := Saving;
      progress := 90;
      v := NewVariant(newId, artifactId, toBlob(response.colorizedImageBase64.value), now, scheme, customPrompt, response);
      db.AddVariant(v);
      db.ModifyArtifact(artifactId, (a: A.Artifact) => AttachVariant(a, newId, now));
      progress := 100;
      step := Complete;
      variant := Some(v);
      abortRef := null;
    }

    /**
     * `colorize`, as written. The check after each await reads the slot, and
     * `cancel` has already emptied it, so the check never fires: a run
     * cancelled while in flight goes on exactly as if it had not been.
     */
    method Colorize(db: ArtifactDb, artifactId: string, scheme: A.ColorScheme, customPrompt: Option<string>,
                    api: ApiOutcome, toBlob: string -> A.Blob, newId: string, now: nat, cancelAt: CancelPoint)
        returns (r: Option<A.ColorVariant>)
      requires db.Valid()
      requires forall x :: x in db.colorVariants ==> x.id != newId
      modifies this, db`colorVariants, db`artifacts
      ensures db.Valid() && abortRef == null
      ensures r.Some? <==> Succeeded(api)
      ensures r.Some? ==>
        && r.value == NewVariant(newId, artifactId, toBlob(api.response.colorizedImageBase64.value), now, scheme, customPrompt, api.response)
        && step == Complete && progress == 100 && variant == r
        && db.colorVariants == InsertByKey(old(db.colorVariants), r.value, VariantKey)
        && |db.artifacts| == |old(db.artifacts)|
        && forall i :: 0 <= i < |db.artifacts| ==>
             db.artifacts[i] == if old(db.artifacts)[i].id == artifactId then AttachVariant(old(db.artifacts)[i], newId, now)
                                else old(db.artifacts)[i]
      ensures r.None? ==>
        && step == Failed && error == Some(FailureMessage(api))
        && db.colorVariants == old(db.colorVariants) && db.artifacts == old(db.artifacts)
      ensures r.None? && cancelAt == NoCancel ==> variant == None
    {
      error := None;
      variant := None;
      var controller := new AbortController();
      abortRef := controller;
      step := Preparing;
      progress := 5;
      if cancelAt == WhileEncoding {
        Cancel();
      }
      progress := 10;
      if SlotAborted() {
        assert false;
      }
      step := Colorizing;
      progress := 15;
      if cancelAt == WhileRequesting {
        Cancel();
      }
      if SlotAborted() {
        assert false;
      }
      if !Succeeded(api) {
        Fail(FailureMessage(api));
        return None;
      }
      var v := Save(db, artifactId, scheme, customPrompt, api.response, toBlob, newId, now);
      r := Some(v);
    }

    /**
     * `colorize` with the check reading the controller this run created,
     * which `cancel` aborts before emptying the slot: a cancelled run stops
     * at its next check, writes nothing and stays in the state `cancel`
     * left.
     */
    method ColorizeCorrected(db: ArtifactDb, artifactId: string, scheme: A.ColorScheme, customPrompt: Option<string>,
                             api: ApiOutcome, toBlob: string -> A.Blob, newId: string, now: nat, cancelAt: CancelPoint)
        returns (r: Option<A.ColorVariant>)
      requires db.Valid()
      requires forall x :: x in db.colorVariants ==> x.id != newId
      modifies this, db`colorVariants, db`artifacts
      ensures db.Valid() && abortRef == null
      ensures r.Some? <==> Succeeded(api) && cancelAt == NoCancel
      ensures cancelAt != NoCancel ==>
        && step == Idle && error == None && variant == None
        && db.colorVariants == old(db.colorVariants) && db.artifacts == old(db.artifacts)
      ensures cancelAt == NoCancel && r.Some? ==>
        && r.value == NewVariant(newId, artifactId, toBlob(api.response.colorizedImageBase64.value), now, scheme, customPrompt, api.response)
        && step == Complete && progress == 100 && variant == r
        && db.colorVariants == InsertByKey(old(db.colorVariants), r.value, VariantKey)
      ensures cancelAt == NoCancel && r.None? ==>
        && step == Failed && error == Some(FailureMessage(api))
        && db.colorVariants == old(db.colorVariants) && db.artifacts == old(db.artifacts)
    {
      error := None;
      variant := None;
      var controller := new AbortController();
      abortRef := controller;
      step := Preparing;
      progress := 5;
      if cancelAt == WhileEncoding {
        Cancel();
      }
      progress := 10;
      if controller.aborted {
        abortRef := null;
        return None;
      }
      step := Colorizing;
      progress := 15;
      if cancelAt == WhileRequesting {
        Cancel();
      }
      if controller.aborted {
        abortRef := null;
        return None;
      }
      if !Succeeded(api) {
        Fail(FailureMessage(api));
        return None;
      }
      var v := Save(db, artifactId, scheme, customPrompt, api.response, toBlob, newId, now);
      r := Some(v);
    }
  }

  /** A reply carrying an image, used by the two runs below. */
  const GoodReply: ApiOutcome := ApiAnswered(ColorizeResponse(true, Some("aW1n"), None, None))

  /**
   * As written: the page cancels while the request is in flight, and still
   * the variant is saved, attached to the artifact, and the hook ends in
   * 'complete' over the idle state `cancel` had just set.
   */
  method CancelledRunStillSaves() returns (r: Option<A.ColorVariant>, step: Step, saved: nat)
    ensures r.Some? && step == Complete && saved == 1
  {
    var db := new ArtifactDb([], [], []);
    var hook := new ColorizeHook();
    r := hook.Colorize(db, "artifact-1", A.Roman, None, GoodReply, (s: string) => [], "variant-1", 0, WhileRequesting);
    step := hook.step;
    saved := |db.colorVariants|;
  }

  /** Corrected: the same cancelled run saves nothing and leaves the hook idle. */
  method CancelledRunStops() returns (r: Option<A.ColorVariant>, step: Step, saved: nat)
    ensures r.None? && step == Idle && saved == 0
  {
    var db := new ArtifactDb([], [], []);
    var hook := new ColorizeHook();
    r := hook.ColorizeCorrected(db, "artifact-1", A.Roman, None, GoodReply, (s: string) => [], "variant-1", 0, WhileRequesting);
    step := hook.step;
    saved := |db.colorVariants|;
  }
}
