/**
 * The upload broadcast store: one in-memory slot holding the status of the
 * upload most recently started or finished, read by the upload banner.
 */
module UploadStore {
  import opened Wrappers

  datatype UploadStatus = Uploading | Success | Error

  /** A non-empty slot; its status is one of the three above by construction. */
  datatype CurrentUpload = CurrentUpload(artifactId: string, status: UploadStatus, error: Option<string>)

  class UploadStore {
    var currentUpload: Option<CurrentUpload>
    /** Every value the slot has been set to, oldest first: what a subscriber sees. */
    ghost var history: seq<Option<CurrentUpload>>

    /** The store is created with an empty slot. */
    constructor ()
      ensures currentUpload == None && history == []
    {
      currentUpload := None;
      history := [];
    }

    /** Overwrites the slot with exactly `upload`, an empty one included. */
    method SetCurrentUpload(upload: Option<CurrentUpload>)
      modifies this
      ensures currentUpload == upload
      ensures history == old(history) + [upload]
    {
      currentUpload := upload;
      history := history + [upload];
    }

    /** Empties the slot whatever it held. */
    method ClearUpload()
      modifies this
      ensures currentUpload == None
      ensures history == old(history) + [None]
    {
      currentUpload := None;
      history := history + [None];
    }
  }
}
