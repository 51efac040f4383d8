/**
 * The application's three client-side stores (src/stores/appStore.ts): the
 * session state, the settings and the capture session. Each action replaces
 * the fields it names and leaves the rest of its store alone.
 *
 * `navigator.onLine` at start-up is a constructor parameter; persisting the
 * settings to the browser's storage is not modelled.
 */
module AppStore {
  import opened Wrappers
  import Artifacts

  datatype ProcessingStep = Idle | Uploading | Colorizing | Complete | Error

  datatype ProcessingStatus = ProcessingStatus(
    artifactId: string,
    step: ProcessingStep,
    progress: int,
    message: Option<string>,
    error: Option<string>)

  /** `{ ...status, progress, message }`, kept null when there is no status. An omitted message clears it. */
  function WithProgress(s: Option<ProcessingStatus>, progress: int, message: Option<string>): (r: Option<ProcessingStatus>)
    ensures s.None? <==> r.None?
    ensures s.Some? ==> r.value.progress == progress && r.value.message == message
    ensures s.Some? ==> r.value.artifactId == s.value.artifactId && r.value.step == s.value.step && r.value.error == s.value.error
  {
    if s.Some? then Some(s.value.(progress := progress, message := message)) else None
  }

  /** `{ ...status, step: 'error', error }`, kept null when there is no status. */
  function WithError(s: Option<ProcessingStatus>, error: string): (r: Option<ProcessingStatus>)
    ensures s.None? <==> r.None?
    ensures s.Some? ==> r.value.step == Error && r.value.error == Some(error)
    ensures s.Some? ==> r.value.artifactId == s.value.artifactId && r.value.progress == s.value.progress && r.value.message == s.value.message
  {
    if s.Some? then Some(s.value.(step := Error, error := Some(error))) else None
  }

  /**
   * Progress reported after an error does not hide it: the status keeps its
   * 'error' step and message; and recording the same error twice changes
   * nothing the second time.
   */
  lemma ErrorSurvivesProgress(s: Option<ProcessingStatus>, error: string, progress: int, message: Option<string>)
    ensures var r := WithProgress(WithError(s, error), progress, message);
      r.Some? ==> r.value.step == Error && r.value.error == Some(error)
    ensures WithError(WithError(s, error), error) == WithError(s, error)
  {
  }

  class AppState {
    var currentArtifactId: Option<string>
    var processingStatus: Option<ProcessingStatus>
    var isOnline: bool

    constructor (online: bool)
      ensures currentArtifactId == None && processingStatus == None && isOnline == online
    {
      currentArtifactId := None;
      processingStatus := None;
      isOnline := online;
    }

    method SetCurrentArtifact(id: Option<string>)
      modifies this`currentArtifactId
      ensures currentArtifactId == id
    {
      currentArtifactId := id;
    }

    method SetProcessingStatus(status: Option<ProcessingStatus>)
      modifies this`processingStatus
      ensures processingStatus == status
    {
      processingStatus := status;
    }

    method UpdateProcessingProgress(progress: int, message: Option<string>)
      modifies this`processingStatus
      ensures processingStatus == WithProgress(old(processingStatus), progress, message)
    {
      processingStatus := WithProgress(processingStatus, progress, message);
    }

    method SetProcessingError(error: string)
      modifies this`processingStatus
      ensures processingStatus == WithError(old(processingStatus), error)
    {
      processingStatus := WithError(processingStatus, error);
    }

    method SetOnlineStatus(online: bool)
      modifies this`isOnline
      ensures isOnline == online
    {
      isOnline := online;
    }
  }

  datatype Language = En | He

  datatype GalleryElementKey = Columns | CentralDisplay | FloorMosaic | Plants

  datatype GalleryElements = GalleryElements(columns: bool, centralDisplay: bool, floorMosaic: bool, plants: bool)

  function Element(g: GalleryElements, key: GalleryElementKey): bool
  {
    match key
    case Columns => g.columns
    case CentralDisplay => g.centralDisplay
    case FloorMosaic => g.floorMosaic
    case Plants => g.plants
  }

  /** `{ ...galleryElements, [key]: value }`: that key reads the new value, every other key its old one. */
  function WithElement(g: GalleryElements, key: GalleryElementKey, value: bool): (r: GalleryElements)
    ensures Element(r, key) == value
    ensures forall k :: k != key ==> Element(r, k) == Element(g, k)
  {
    match key
    case Columns => g.(columns := value)
    case CentralDisplay => g.(centralDisplay := value)
    case FloorMosaic => g.(floorMosaic := value)
    case Plants => g.(plants := value)
  }

  /** Setting a key back to the value it had restores the elements; the last write to a key wins. */
  lemma WithElementLaws(g: GalleryElements, key: GalleryElementKey, v: bool, w: bool)
    ensures WithElement(g, key, Element(g, key)) == g
    ensures WithElement(WithElement(g, key, v), key, w) == WithElement(g, key, w)
  {
  }

  class SettingsState {
    var language: Language
    var defaultColorScheme: Artifacts.ColorScheme
    var includeRestoration: bool
    var hapticsEnabled: bool
    var galleryElements: GalleryElements

    constructor ()
      ensures language == En && defaultColorScheme == Artifacts.Original
      ensures includeRestoration && hapticsEnabled
      ensures galleryElements == GalleryElements(true, true, true, true)
    {
      language := En;
      defaultColorScheme := Artifacts.Original;
      includeRestoration := true;
      hapticsEnabled := true;
      galleryElements := GalleryElements(true, true, true, true);
    }

    method SetLanguage(l: Language)
      modifies this`language
      ensures language == l
    {
      language := l;
    }

    method SetDefaultColorScheme(scheme: Artifacts.ColorScheme)
      modifies this`defaultColorScheme
      ensures defaultColorScheme == scheme
    {
      defaultColorScheme := scheme;
    }

    method SetIncludeRestoration(enabled: bool)
      modifies this`includeRestoration
      ensures includeRestoration == enabled
    {
      includeRestoration := enabled;
    }

    method SetHapticsEnabled(enabled: bool)
      modifies this`hapticsEnabled
      ensures hapticsEnabled == enabled
    {
      hapticsEnabled := enabled;
    }

    method SetGalleryElement(key: GalleryElementKey, value: bool)
      modifies this`galleryElements
      ensures galleryElements == WithElement(old(galleryElements), key, value)
    {
      galleryElements := WithElement(galleryElements, key, value);
    }
  }

  datatype Camera = User | Environment

  datatype CaptureImage = CaptureImage(blob: Artifacts.Blob, width: nat, height: nat, timestamp: nat)

  class CaptureState {
    var isCapturing: bool
    var capturedImage: Option<CaptureImage>
    var selectedCamera: Camera

    constructor ()
      ensures !isCapturing && capturedImage == None && selectedCamera == Environment
    {
      isCapturing := false;
      capturedImage := None;
      selectedCamera := Environment;
    }

    method StartCapture()
      modifies this`isCapturing
      ensures isCapturing
    {
      isCapturing := true;
    }

    method EndCapture()
      modifies this`isCapturing
      ensures !isCapturing
    {
      isCapturing := false;
    }

    method SetCapturedImage(image: Option<CaptureImage>)
      modifies this`capturedImage
      ensures capturedImage == image
    {
      capturedImage := image;
    }

    method SetSelectedCamera(camera: Camera)
      modifies this`selectedCamera
      ensures selectedCamera == camera
    {
      selectedCamera := camera;
    }

    /** `reset`: capture off and the image dropped; the chosen camera stays. */
    method Reset()
      modifies this`isCapturing, this`capturedImage
      ensures !isCapturing && capturedImage == None
    {
      isCapturing := false;
      capturedImage := None;
    }
  }
}
