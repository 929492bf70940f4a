/**
 * CameraViewSwitcher: switches between a first-person and a third-person
 * camera by activating exactly one of them and moving the MainCamera tag to
 * it, and points a ScreenSpace-Camera canvas at the active camera.
 */
module CameraView {

  import opened Wrappers

  const MainCameraTag: string := "MainCamera"
  const UntaggedTag: string := "Untagged"

  datatype Camera = Camera(active: bool, tag: string)

  /** Which of the two cameras a canvas renders with. */
  datatype CameraId = FirstPerson | ThirdPerson

  datatype RenderMode = ScreenSpaceOverlay | ScreenSpaceCamera | WorldSpace

  datatype Canvas = Canvas(renderMode: RenderMode, worldCamera: Option<CameraId>)

  datatype Switcher = Switcher(
    enabled: bool,
    isFirstPerson: bool,
    firstPersonCamera: Option<Camera>,
    thirdPersonCamera: Option<Camera>,
    uiCanvas: Option<Canvas>)

  predicate HasBothCameras(s: Switcher)
  {
    s.firstPersonCamera.Some? && s.thirdPersonCamera.Some?
  }

  /** The camera of the current mode is the only active one and the only one tagged MainCamera. */
  predicate ViewApplied(s: Switcher)
  {
    && HasBothCameras(s)
    && var first := s.firstPersonCamera.value;
       var third := s.thirdPersonCamera.value;
       && (first.active <==> s.isFirstPerson)
       && (third.active <==> !s.isFirstPerson)
       && first.tag == (if s.isFirstPerson then MainCameraTag else UntaggedTag)
       && third.tag == (if s.isFirstPerson then UntaggedTag else MainCameraTag)
  }

  /** A ScreenSpace-Camera canvas renders with the camera of the current mode. */
  predicate CanvasFollows(s: Switcher)
  {
    s.uiCanvas.Some? && s.uiCanvas.value.renderMode == ScreenSpaceCamera
    ==> s.uiCanvas.value.worldCamera == Some(if s.isFirstPerson then FirstPerson else ThirdPerson)
  }

  /** UpdateUICanvas: retarget the canvas, but only a ScreenSpace-Camera one. */
  function UpdateUICanvas(s: Switcher): (r: Switcher)
    ensures CanvasFollows(r)
    ensures !(s.uiCanvas.Some? && s.uiCanvas.value.renderMode == ScreenSpaceCamera) ==> r == s
    ensures r == s.(uiCanvas := r.uiCanvas)
    ensures r.uiCanvas.Some? <==> s.uiCanvas.Some?
    ensures r.uiCanvas.Some? ==> r.uiCanvas.value.renderMode == s.uiCanvas.value.renderMode
  {
    match s.uiCanvas
    case Some(c) =>
      if c.renderMode == ScreenSpaceCamera then
        s.(uiCanvas := Some(c.(worldCamera := Some(if s.isFirstPerson then FirstPerson else ThirdPerson))))
      else s
    case None => s
  }

  /**
   * ApplyCameraView: activate the camera of the requested mode, deactivate
   * the other, move the MainCamera tag, then update the canvas from the
   * switcher's own mode field.
   */
  function ApplyCameraView(s: Switcher, firstPerson: bool): (r: Switcher)
    requires HasBothCameras(s)
    ensures HasBothCameras(r)
    ensures r.firstPersonCamera.value.active == firstPerson && r.thirdPersonCamera.value.active == !firstPerson
    ensures s.isFirstPerson == firstPerson ==> ViewApplied(r) && CanvasFollows(r)
    ensures r.isFirstPerson == s.isFirstPerson && r.enabled == s.enabled
  {
    var first := s.firstPersonCamera.value;
    var third := s.thirdPersonCamera.value;
    var s1 :=
      if firstPerson then
        s.(thirdPersonCamera := Some(third.(active := false, tag := UntaggedTag)),
           firstPersonCamera := Some(first.(active := true, tag := MainCameraTag)))
      else
        s.(firstPersonCamera := Some(first.(active := false, tag := UntaggedTag)),
           thirdPersonCamera := Some(third.(active := true, tag := MainCameraTag)));
    UpdateUICanvas(s1)
  }

  /** Exactly one camera ends up active, and exactly one carries the MainCamera tag. */
  lemma ExactlyOneMainCamera(s: Switcher)
    requires ViewApplied(s)
    ensures s.firstPersonCamera.value.active != s.thirdPersonCamera.value.active
    ensures (s.firstPersonCamera.value.tag == MainCameraTag) != (s.thirdPersonCamera.value.tag == MainCameraTag)
    ensures s.firstPersonCamera.value.active <==> s.firstPersonCamera.value.tag == MainCameraTag
  {
    assert MainCameraTag != UntaggedTag by {
      assert MainCameraTag[0] != UntaggedTag[0];
    }
  }

  /** Start: with a camera missing, disable the script and touch nothing else; otherwise apply the start mode. */
  function Start(s: Switcher, startInFirstPerson: bool): (r: Switcher)
    ensures !HasBothCameras(s) ==> r == s.(enabled := false)
    ensures HasBothCameras(s) ==> r.isFirstPerson == startInFirstPerson && ViewApplied(r) && CanvasFollows(r)
    ensures HasBothCameras(s) ==> r.enabled == s.enabled
  {
    if !HasBothCameras(s) then s.(enabled := false)
    else ApplyCameraView(s.(isFirstPerson := startInFirstPerson), startInFirstPerson)
  }

  /** ToggleView: flip the mode and apply it. */
  function ToggleView(s: Switcher): (r: Switcher)
    requires HasBothCameras(s)
    ensures r.isFirstPerson == !s.isFirstPerson
    ensures ViewApplied(r) && CanvasFollows(r)
  {
    var flipped := s.(isFirstPerson := !s.isFirstPerson);
    ApplyCameraView(flipped, flipped.isFirstPerson)
  }

  /** Toggling twice returns an applied view to exactly where it was. */
  lemma ToggleInvolution(s: Switcher)
    requires ViewApplied(s) && CanvasFollows(s)
    ensures ToggleView(ToggleView(s)) == s
  {
  }

  function SetFirstPersonView(s: Switcher): (r: Switcher)
    requires HasBothCameras(s)
    ensures r.isFirstPerson
    ensures s.isFirstPerson ==> r == s
    ensures !s.isFirstPerson ==> ViewApplied(r) && CanvasFollows(r)
  {
    if !s.isFirstPerson then ToggleView(s) else s
  }

  function SetThirdPersonView(s: Switcher): (r: Switcher)
    requires HasBothCameras(s)
    ensures !r.isFirstPerson
    ensures !s.isFirstPerson ==> r == s
    ensures s.isFirstPerson ==> ViewApplied(r) && CanvasFollows(r)
  {
    if s.isFirstPerson then ToggleView(s) else s
  }

  /** Forcing a mode twice is forcing it once. */
  lemma SetViewIdempotent(s: Switcher)
    requires HasBothCameras(s)
    ensures SetFirstPersonView(SetFirstPersonView(s)) == SetFirstPersonView(s)
    ensures SetThirdPersonView(SetThirdPersonView(s)) == SetThirdPersonView(s)
  {
  }
}
