/**
 * The location-to-view reconciliation of the map component
 * (src/app/Maps/map/map.ts), stated on values: what one position fix,
 * one location error and one teardown do to the view state, and what a
 * whole stream of such events does.
 *
 * The rendering surface is abstract. The user marker and the accuracy
 * circle are integer handles into `markers` and `circles`; markers the
 * fallback path adds are never stored by the component, so they only
 * accumulate in `fallbackMarkers`; every camera command is appended to
 * the `camera` log.
 */
module Reconciliation {
  import opened Wrappers
  import opened Geolocation
  import opened PopupText

  type Id = nat

  datatype LatLng = LatLng(lat: real, lng: real)

  /** A marker on the map with its popup text. */
  datatype Marker = Marker(pos: LatLng, popup: string)

  /** A circle on the map: centre and radius in meters. */
  datatype Circle = Circle(center: LatLng, radius: real)

  /** What a circle's getBounds() denotes: the region the circle covers. */
  datatype Bounds = CircleBounds(center: LatLng, radius: real)

  /** Camera commands, in the order they are issued. */
  datatype Camera =
    | FlyTo(target: LatLng, zoom: int)
    | FlyToBounds(bounds: Bounds, padding: int, maxZoom: int, duration: real)
    | PanTo(target: LatLng, duration: real)
    | SetView(target: LatLng, zoom: int)

  const MAX_ACCEPTABLE_ACCURACY: real := 50000.0
  const FIX_ZOOM: int := 16
  const FIT_PADDING: int := 50
  const FIT_MAX_ZOOM: int := 18
  const FIT_DURATION: real := 1.5
  const PAN_DURATION: real := 0.5
  const FALLBACK_CENTER: LatLng := LatLng(14.8, -91.0)
  const FALLBACK_ZOOM: int := 12

  /** The three things the location subscription delivers or the component undergoes. */
  datatype Event =
    | PositionFix(coords: Coords)
    | PositionFailure(err: LocationError)
    | Teardown

  /**
   * The component's fields: whether the Leaflet map exists, whether the
   * location subscription was assigned, how often it was unsubscribed,
   * the two handles, the first-location flag, and the rendering surface.
   */
  datatype ViewState = ViewState(
    mapReady: bool,
    subscribed: bool,
    unsubscribeCalls: nat,
    userMarker: Option<Id>,
    accuracyCircle: Option<Id>,
    isFirstLocation: bool,
    markers: map<Id, Marker>,
    circles: map<Id, Circle>,
    fallbackMarkers: seq<Marker>,
    camera: seq<Camera>,
    nextId: Id)

  /** The state right after construction: no map, no subscription, no handles. */
  const Initial: ViewState :=
    ViewState(false, false, 0, None, None, true, map[], map[], [], [], 0)

  /** The acceptance test: only an accuracy strictly above the threshold is rejected. */
  predicate Accepts(accuracy: real): (ok: bool)
    ensures ok <==> accuracy <= MAX_ACCEPTABLE_ACCURACY
  {
    !(accuracy > MAX_ACCEPTABLE_ACCURACY)
  }

  function Pos(c: Coords): LatLng {
    LatLng(c.lat, c.lng)
  }

  function OptSet(o: Option<Id>): set<Id> {
    if o.Some? then {o.value} else {}
  }

  predicate IsFrame(c: Camera) {
    c.FlyToBounds? || c.PanTo?
  }

  /** The point a bounds-fit or a pan brings into view. */
  function FrameTarget(c: Camera): LatLng
    requires IsFrame(c)
  {
    if c.FlyToBounds? then c.bounds.center else c.target
  }

  /**
   * The shape of the camera log: every framing command (bounds-fit or
   * pan) directly follows a fly-to of the same point at the fix zoom,
   * and every fly-to is directly followed by a framing command; while
   * no fix was accepted there is no framing at all; afterwards there is
   * exactly one bounds-fit, and no pan comes before it.
   */
  ghost predicate CameraOk(log: seq<Camera>, first: bool) {
    (forall i :: 0 <= i < |log| && IsFrame(log[i]) ==>
       0 < i && log[i - 1] == FlyTo(FrameTarget(log[i]), FIX_ZOOM)) &&
    (forall i :: 0 <= i < |log| && log[i].FlyTo? ==> i + 1 < |log| && IsFrame(log[i + 1])) &&
    (first ==> forall i :: 0 <= i < |log| ==> !IsFrame(log[i])) &&
    (!first ==> exists i :: 0 <= i < |log| && log[i].FlyToBounds?) &&
    (forall i, j :: 0 <= i < |log| && 0 <= j < |log| && log[i].FlyToBounds? && log[j].FlyToBounds? ==> i == j) &&
    (forall i, j :: 0 <= i < j < |log| && log[j].FlyToBounds? ==> !log[i].PanTo?)
  }

  /**
   * The invariant every event keeps: marker and circle exist together,
   * exactly when the first location has been handled, only once the map
   * exists; the handle stores hold just those two handles; the camera
   * log has the shape above.
   */
  ghost predicate Inv(s: ViewState) {
    (s.userMarker.Some? <==> s.accuracyCircle.Some?) &&
    (s.isFirstLocation <==> s.userMarker.None?) &&
    (!s.mapReady ==> s.userMarker.None? && s.camera == [] && s.fallbackMarkers == []) &&
    s.markers.Keys == OptSet(s.userMarker) &&
    s.circles.Keys == OptSet(s.accuracyCircle) &&
    (s.userMarker.Some? ==> s.userMarker.value < s.nextId && s.accuracyCircle.value < s.nextId) &&
    CameraOk(s.camera, s.isFirstLocation)
  }

  lemma InitialInv()
    ensures Inv(Initial)
  {
  }

  /**
   * handleFallback: with a map, set the view to the fallback point and,
   * while there is no user marker, add one more fallback marker (which
   * the component does not keep). Handles, circle and flag stay as they
   * were, and no fly-to, bounds-fit or pan is issued.
   */
  function Fallback(s: ViewState): (t: ViewState)
    ensures t.userMarker == s.userMarker && t.accuracyCircle == s.accuracyCircle
    ensures t.markers == s.markers && t.circles == s.circles
    ensures t.isFirstLocation == s.isFirstLocation && t.nextId == s.nextId
    ensures t.mapReady == s.mapReady && t.subscribed == s.subscribed
    ensures t.unsubscribeCalls == s.unsubscribeCalls
    ensures !s.mapReady ==> t == s
    ensures s.mapReady ==> t.camera == s.camera + [SetView(FALLBACK_CENTER, FALLBACK_ZOOM)]
    ensures s.mapReady && s.userMarker.None? ==>
      t.fallbackMarkers == s.fallbackMarkers + [Marker(FALLBACK_CENTER, FALLBACK_TEXT)]
    ensures s.userMarker.Some? ==> t.fallbackMarkers == s.fallbackMarkers
  {
    if !s.mapReady then s
    else
      s.(camera := s.camera + [SetView(FALLBACK_CENTER, FALLBACK_ZOOM)],
         fallbackMarkers :=
           if s.userMarker.None? then s.fallbackMarkers + [Marker(FALLBACK_CENTER, FALLBACK_TEXT)]
           else s.fallbackMarkers)
  }

  /**
   * The `next` handler for one fix. A rejected fix takes the fallback
   * path. An accepted fix, once the map exists, flies to the fix,
   * creates or updates the marker and the circle, then fits the circle's
   * bounds on the first accepted fix and pans on every later one.
   */
  function ApplyFix(s: ViewState, c: Coords): (t: ViewState)
    ensures t.mapReady == s.mapReady && t.subscribed == s.subscribed
    ensures t.unsubscribeCalls == s.unsubscribeCalls
    ensures !Accepts(c.accuracy) ==>
      t.userMarker == s.userMarker && t.accuracyCircle == s.accuracyCircle &&
      t.markers == s.markers && t.circles == s.circles &&
      t.isFirstLocation == s.isFirstLocation &&
      |t.camera| >= |s.camera| && t.camera[..|s.camera|] == s.camera &&
      forall i :: |s.camera| <= i < |t.camera| ==> t.camera[i].SetView?
    ensures Accepts(c.accuracy) && !s.mapReady ==> t == s
    ensures Accepts(c.accuracy) && s.mapReady ==>
      t.userMarker.Some? && t.accuracyCircle.Some? && !t.isFirstLocation &&
      (s.userMarker.Some? ==> t.userMarker == s.userMarker) &&
      (s.accuracyCircle.Some? ==> t.accuracyCircle == s.accuracyCircle) &&
      t.markers == s.markers[t.userMarker.value := Marker(Pos(c), YouLabel(c.accuracy))] &&
      t.circles == s.circles[t.accuracyCircle.value := Circle(Pos(c), c.accuracy)] &&
      t.fallbackMarkers == s.fallbackMarkers &&
      t.camera == s.camera + [FlyTo(Pos(c), FIX_ZOOM),
                              if s.isFirstLocation
                              then FlyToBounds(CircleBounds(Pos(c), c.accuracy), FIT_PADDING, FIT_MAX_ZOOM, FIT_DURATION)
                              else PanTo(Pos(c), PAN_DURATION)]
  {
    if !Accepts(c.accuracy) then Fallback(s)
    else if !s.mapReady then s
    else
      var p := Pos(c);
      var s1 := s.(camera := s.camera + [FlyTo(p, FIX_ZOOM)]);
      FrameCamera(PlaceCircle(PlaceMarker(s1, p, YouLabel(c.accuracy)), p, c.accuracy), p)
  }

  /** Lines 63-70: move the existing marker and refresh its popup, or create it. */
  function PlaceMarker(s: ViewState, p: LatLng, text: string): (t: ViewState)
    ensures t.userMarker.Some? && (s.userMarker.Some? ==> t.userMarker == s.userMarker)
    ensures t.markers == s.markers[t.userMarker.value := Marker(p, text)]
    ensures t.(markers := s.markers, userMarker := s.userMarker, nextId := s.nextId) == s
    ensures s.nextId <= t.nextId
  {
    if s.userMarker.Some? then s.(markers := s.markers[s.userMarker.value := Marker(p, text)])
    else s.(userMarker := Some(s.nextId), markers := s.markers[s.nextId := Marker(p, text)],
            nextId := s.nextId + 1)
  }

  /** Lines 72-79: move and resize the existing circle, or create it. */
  function PlaceCircle(s: ViewState, p: LatLng, radius: real): (t: ViewState)
    ensures t.accuracyCircle.Some? && (s.accuracyCircle.Some? ==> t.accuracyCircle == s.accuracyCircle)
    ensures t.circles == s.circles[t.accuracyCircle.value := Circle(p, radius)]
    ensures t.(circles := s.circles, accuracyCircle := s.accuracyCircle, nextId := s.nextId) == s
    ensures s.nextId <= t.nextId
  {
    if s.accuracyCircle.Some? then s.(circles := s.circles[s.accuracyCircle.value := Circle(p, radius)])
    else s.(accuracyCircle := Some(s.nextId), circles := s.circles[s.nextId := Circle(p, radius)],
            nextId := s.nextId + 1)
  }

  /** Lines 81-90: fit the circle's bounds on the first location, pan afterwards. */
  function FrameCamera(s: ViewState, p: LatLng): (t: ViewState)
    requires s.accuracyCircle.Some? && s.accuracyCircle.value in s.circles
    ensures !t.isFirstLocation
    ensures t.(camera := s.camera, isFirstLocation := s.isFirstLocation) == s
    ensures var circle := s.circles[s.accuracyCircle.value];
      t.camera == s.camera + [if s.isFirstLocation
                              then FlyToBounds(CircleBounds(circle.center, circle.radius), FIT_PADDING, FIT_MAX_ZOOM, FIT_DURATION)
                              else PanTo(p, PAN_DURATION)]
  {
    var circle := s.circles[s.accuracyCircle.value];
    if s.isFirstLocation then
      s.(camera := s.camera + [FlyToBounds(CircleBounds(circle.center, circle.radius), FIT_PADDING, FIT_MAX_ZOOM, FIT_DURATION)],
         isFirstLocation := false)
    else
      s.(camera := s.camera + [PanTo(p, PAN_DURATION)])
  }

  /** ngOnDestroy: unsubscribe only when the subscription was assigned. */
  function DestroyView(s: ViewState): (t: ViewState)
    ensures t.unsubscribeCalls == s.unsubscribeCalls + (if s.subscribed then 1 else 0)
    ensures t.(unsubscribeCalls := s.unsubscribeCalls) == s
  {
    if s.subscribed then s.(unsubscribeCalls := s.unsubscribeCalls + 1) else s
  }

  /** One event. A location error only logs, whatever its code. */
  function Step(s: ViewState, e: Event): (t: ViewState)
    ensures e.PositionFailure? ==> t == s
    ensures t.mapReady == s.mapReady && t.subscribed == s.subscribed
    ensures !s.isFirstLocation ==> !t.isFirstLocation
  {
    match e
    case PositionFix(c) => ApplyFix(s, c)
    case PositionFailure(_) => s
    case Teardown => DestroyView(s)
  }

  /**
   * A stream of events, applied in the order the subscription delivers
   * them. No stream changes whether the map or the subscription exists,
   * or sets the first-location flag back.
   */
  function Run(s: ViewState, evs: seq<Event>): (r: ViewState)
    ensures r.mapReady == s.mapReady && r.subscribed == s.subscribed
    ensures !s.isFirstLocation ==> !r.isFirstLocation
    decreases |evs|
  {
    if evs == [] then s else Step(Run(s, evs[..|evs| - 1]), evs[|evs| - 1])
  }

  predicate IsAcceptedFix(e: Event) {
    e.PositionFix? && Accepts(e.coords.accuracy)
  }

  predicate AnyAcceptedFix(evs: seq<Event>) {
    exists i :: 0 <= i < |evs| && IsAcceptedFix(evs[i])
  }

  /** The most recent accepted fix of a stream, if any. */
  function LastAcceptedFix(evs: seq<Event>): Option<Coords>
    decreases |evs|
  {
    if evs == [] then None
    else if IsAcceptedFix(evs[|evs| - 1]) then Some(evs[|evs| - 1].coords)
    else LastAcceptedFix(evs[..|evs| - 1])
  }

  /** The number of events in a stream at which `isFirstLocation` changes. */
  function FlagFlips(s: ViewState, evs: seq<Event>): nat
    decreases |evs|
  {
    if evs == [] then 0
    else
      var before := Run(s, evs[..|evs| - 1]);
      FlagFlips(s, evs[..|evs| - 1])
      + (if before.isFirstLocation != Step(before, evs[|evs| - 1]).isFirstLocation then 1 else 0)
  }

  function CountTeardowns(evs: seq<Event>): nat
    decreases |evs|
  {
    if evs == [] then 0
    else CountTeardowns(evs[..|evs| - 1]) + (if evs[|evs| - 1].Teardown? then 1 else 0)
  }

  // ---------------------------------------------------------------------
  // One event keeps the invariant.

  /** A set-view command keeps the shape of the camera log. */
  lemma SetViewKeepsCameraOk(log: seq<Camera>, first: bool, target: LatLng, zoom: int)
    requires CameraOk(log, first)
    ensures CameraOk(log + [SetView(target, zoom)], first)
  {
    var log' := log + [SetView(target, zoom)];
    forall i | 0 <= i < |log'| && log'[i].FlyTo?
      ensures i + 1 < |log'| && IsFrame(log'[i + 1])
    {
      assert i < |log|;
    }
    if !first {
      var k :| 0 <= k < |log| && log[k].FlyToBounds?;
      assert log'[k] == log[k];
    }
  }

  /** A fly-to followed by its framing command keeps the shape of the
      camera log, provided the framing is the bounds-fit exactly while no
      fix was accepted yet. */
  lemma FramingKeepsCameraOk(log: seq<Camera>, first: bool, frame: Camera)
    requires CameraOk(log, first)
    requires IsFrame(frame) && (frame.FlyToBounds? <==> first)
    ensures CameraOk(log + [FlyTo(FrameTarget(frame), FIX_ZOOM), frame], false)
  {
    var n := |log|;
    var log' := log + [FlyTo(FrameTarget(frame), FIX_ZOOM), frame];
    assert log'[n + 1] == frame;
    forall k | 0 <= k < n ensures log'[k] == log[k] { }
    forall i | 0 <= i < |log'| && IsFrame(log'[i])
      ensures 0 < i && log'[i - 1] == FlyTo(FrameTarget(log'[i]), FIX_ZOOM)
    {
      if i < n { assert log'[i - 1] == log[i - 1]; }
    }
    forall i | 0 <= i < |log'| && log'[i].FlyTo?
      ensures i + 1 < |log'| && IsFrame(log'[i + 1])
    {
      if i + 1 < n { assert log'[i + 1] == log[i + 1]; }
    }
    if first {
      assert forall k :: 0 <= k < n ==> !IsFrame(log'[k]);
    } else {
      var k :| 0 <= k < n && log[k].FlyToBounds?;
      assert log'[k].FlyToBounds?;
    }
  }

  lemma FallbackKeepsInv(s: ViewState)
    requires Inv(s)
    ensures Inv(Fallback(s))
  {
    if s.mapReady {
      SetViewKeepsCameraOk(s.camera, s.isFirstLocation, FALLBACK_CENTER, FALLBACK_ZOOM);
    }
  }

  lemma ApplyFixKeepsInv(s: ViewState, c: Coords)
    requires Inv(s)
    ensures Inv(ApplyFix(s, c))
  {
    if !Accepts(c.accuracy) {
      FallbackKeepsInv(s);
    } else if s.mapReady {
      var frame := if s.isFirstLocation
        then FlyToBounds(CircleBounds(Pos(c), c.accuracy), FIT_PADDING, FIT_MAX_ZOOM, FIT_DURATION)
        else PanTo(Pos(c), PAN_DURATION);
      FramingKeepsCameraOk(s.camera, s.isFirstLocation, frame);
    }
  }

  lemma StepKeepsInv(s: ViewState, e: Event)
    requires Inv(s)
    ensures Inv(Step(s, e))
  {
    match e
    case PositionFix(c) => ApplyFixKeepsInv(s, c);
    case PositionFailure(_) =>
    case Teardown =>
  }

  // ---------------------------------------------------------------------
  // Properties of whole event streams.

  /** After any stream of events the invariant still holds, the map and
      subscription fields are as they were, and the camera log and the
      fallback markers have only grown at the end. */
  lemma {:induction false} RunKeepsInv(s: ViewState, evs: seq<Event>)
    requires Inv(s)
    ensures Inv(Run(s, evs))
    ensures Run(s, evs).mapReady == s.mapReady && Run(s, evs).subscribed == s.subscribed
    ensures |Run(s, evs).camera| >= |s.camera| && Run(s, evs).camera[..|s.camera|] == s.camera
    ensures |Run(s, evs).fallbackMarkers| >= |s.fallbackMarkers|
    ensures Run(s, evs).fallbackMarkers[..|s.fallbackMarkers|] == s.fallbackMarkers
    decreases |evs|
  {
    if evs != [] {
      var pre := evs[..|evs| - 1];
      RunKeepsInv(s, pre);
      var u := Run(s, pre);
      StepKeepsInv(u, evs[|evs| - 1]);
      var t := Step(u, evs[|evs| - 1]);
      assert |t.camera| >= |u.camera| && t.camera[..|u.camera|] == u.camera by {
        match evs[|evs| - 1]
        case PositionFix(c) =>
          if Accepts(c.accuracy) && u.mapReady {
            assert t.camera[..|u.camera|] == u.camera;
          }
        case PositionFailure(_) =>
        case Teardown =>
      }
      assert t.camera[..|s.camera|] == t.camera[..|u.camera|][..|s.camera|];
      assert |t.fallbackMarkers| >= |u.fallbackMarkers| && t.fallbackMarkers[..|u.fallbackMarkers|] == u.fallbackMarkers;
      assert t.fallbackMarkers[..|s.fallbackMarkers|] == t.fallbackMarkers[..|u.fallbackMarkers|][..|s.fallbackMarkers|];
    }
  }

  /** Once created, the marker and circle handles are kept for good:
      later events update them but never replace them. */
  lemma {:induction false} HandlesNeverRecreated(s: ViewState, evs: seq<Event>)
    requires Inv(s) && s.userMarker.Some?
    ensures Run(s, evs).userMarker == s.userMarker
    ensures Run(s, evs).accuracyCircle == s.accuracyCircle
    ensures Run(s, evs).markers.Keys == s.markers.Keys
    ensures Run(s, evs).circles.Keys == s.circles.Keys
    decreases |evs|
  {
    if evs != [] {
      HandlesNeverRecreated(s, evs[..|evs| - 1]);
    }
  }

  /** A stream without an accepted fix leaves the marker, the circle, the
      handles and the first-location flag alone and moves the camera only
      with set-view commands. */
  lemma {:induction false} RejectionsLeaveViewAlone(s: ViewState, evs: seq<Event>)
    requires !AnyAcceptedFix(evs)
    ensures var t := Run(s, evs);
      t.userMarker == s.userMarker && t.accuracyCircle == s.accuracyCircle &&
      t.markers == s.markers && t.circles == s.circles &&
      t.isFirstLocation == s.isFirstLocation &&
      |t.camera| >= |s.camera| && t.camera[..|s.camera|] == s.camera &&
      forall i :: |s.camera| <= i < |t.camera| ==> t.camera[i].SetView?
    decreases |evs|
  {
    if evs != [] {
      var pre := evs[..|evs| - 1];
      assert !AnyAcceptedFix(pre) by {
        forall i | 0 <= i < |pre| ensures !IsAcceptedFix(pre[i]) { assert pre[i] == evs[i]; }
      }
      assert !IsAcceptedFix(evs[|evs| - 1]);
      RejectionsLeaveViewAlone(s, pre);
      var u := Run(s, pre);
      var t := Run(s, evs);
      assert t == Step(u, evs[|evs| - 1]);
      assert |t.camera| >= |u.camera| && t.camera[..|u.camera|] == u.camera;
      assert t.camera[..|s.camera|] == t.camera[..|u.camera|][..|s.camera|];
      forall i | |s.camera| <= i < |t.camera| ensures t.camera[i].SetView? {
        if i < |u.camera| { assert t.camera[i] == u.camera[i]; }
      }
    }
  }

  /** Before any fix was accepted, each rejected fix adds one more fallback
      marker at the fallback point and one more set-view command. */
  lemma {:induction false} RejectionsStackFallbackMarkers(s: ViewState, evs: seq<Event>)
    requires s.mapReady && s.userMarker.None?
    requires forall i :: 0 <= i < |evs| ==> evs[i].PositionFix? && !Accepts(evs[i].coords.accuracy)
    ensures Run(s, evs).fallbackMarkers ==
      s.fallbackMarkers + seq(|evs|, _ => Marker(FALLBACK_CENTER, FALLBACK_TEXT))
    ensures Run(s, evs).camera ==
      s.camera + seq(|evs|, _ => SetView(FALLBACK_CENTER, FALLBACK_ZOOM))
    decreases |evs|
  {
    if evs != [] {
      var pre := evs[..|evs| - 1];
      RejectionsStackFallbackMarkers(s, pre);
      RejectionsLeaveViewAlone(s, pre);
      var n := |pre|;
      assert seq(n + 1, _ => Marker(FALLBACK_CENTER, FALLBACK_TEXT))
          == seq(n, _ => Marker(FALLBACK_CENTER, FALLBACK_TEXT)) + [Marker(FALLBACK_CENTER, FALLBACK_TEXT)];
      assert seq(n + 1, _ => SetView(FALLBACK_CENTER, FALLBACK_ZOOM))
          == seq(n, _ => SetView(FALLBACK_CENTER, FALLBACK_ZOOM)) + [SetView(FALLBACK_CENTER, FALLBACK_ZOOM)];
    }
  }

  /** The first-location flag is still set exactly when the map never got
      an accepted fix. */
  lemma {:induction false} FirstLocationUntilAcceptedFix(s: ViewState, evs: seq<Event>)
    ensures Run(s, evs).isFirstLocation <==> s.isFirstLocation && !(s.mapReady && AnyAcceptedFix(evs))
    decreases |evs|
  {
    if evs != [] {
      var pre, e := evs[..|evs| - 1], evs[|evs| - 1];
      FirstLocationUntilAcceptedFix(s, pre);
      assert AnyAcceptedFix(evs) <==> AnyAcceptedFix(pre) || IsAcceptedFix(e) by {
        if AnyAcceptedFix(pre) {
          var i :| 0 <= i < |pre| && IsAcceptedFix(pre[i]);
          assert evs[i] == pre[i];
        }
        if AnyAcceptedFix(evs) && !IsAcceptedFix(e) {
          var i :| 0 <= i < |evs| && IsAcceptedFix(evs[i]);
          assert i < |pre| && pre[i] == evs[i];
        }
      }
    }
  }

  /** `isFirstLocation` changes at most once in any stream, from true to
      false, and does change exactly when the map gets an accepted fix
      while the flag is still set. */
  lemma {:induction false} FirstLocationFlipsOnce(s: ViewState, evs: seq<Event>)
    ensures FlagFlips(s, evs) == if s.isFirstLocation && s.mapReady && AnyAcceptedFix(evs) then 1 else 0
    decreases |evs|
  {
    if evs != [] {
      var pre, e := evs[..|evs| - 1], evs[|evs| - 1];
      FirstLocationFlipsOnce(s, pre);
      FirstLocationUntilAcceptedFix(s, pre);
      FirstLocationUntilAcceptedFix(s, evs);
    }
  }

  /** The first accepted fix, whatever rejections and errors came before
      it, clears the flag and frames the camera: a fly-to of the fix at
      zoom 16, then a bounds-fit of the accuracy circle with padding 50
      and maximum zoom 18. */
  lemma FirstAcceptedFixFitsBounds(s: ViewState, evs: seq<Event>, c: Coords)
    requires Inv(s) && s.mapReady && s.isFirstLocation
    requires !AnyAcceptedFix(evs) && Accepts(c.accuracy)
    ensures Run(s, evs).isFirstLocation
    ensures var t := Run(s, evs + [PositionFix(c)]);
      !t.isFirstLocation &&
      t.camera == Run(s, evs).camera +
        [FlyTo(Pos(c), FIX_ZOOM), FlyToBounds(CircleBounds(Pos(c), c.accuracy), FIT_PADDING, FIT_MAX_ZOOM, FIT_DURATION)] &&
      t.circles[t.accuracyCircle.value] == Circle(Pos(c), c.accuracy)
  {
    FirstLocationUntilAcceptedFix(s, evs);
    var evs' := evs + [PositionFix(c)];
    assert evs'[..|evs'| - 1] == evs;
  }

  /** Every accepted fix after the first pans instead of fitting bounds. */
  lemma LaterAcceptedFixPans(s: ViewState, c: Coords)
    requires Inv(s) && s.mapReady && !s.isFirstLocation && Accepts(c.accuracy)
    ensures var t := Step(s, PositionFix(c));
      t.camera == s.camera + [FlyTo(Pos(c), FIX_ZOOM), PanTo(Pos(c), PAN_DURATION)] &&
      t.userMarker == s.userMarker && t.accuracyCircle == s.accuracyCircle &&
      t.markers.Keys == s.markers.Keys && t.circles.Keys == s.circles.Keys
  {
  }

  /** The threshold is strict: a fix exactly at the limit is accepted. */
  lemma BoundaryFixIsAccepted(s: ViewState, c: Coords)
    requires s.mapReady && c.accuracy == MAX_ACCEPTABLE_ACCURACY
    ensures var t := ApplyFix(s, c);
      !t.isFirstLocation &&
      t.userMarker.Some? && t.markers[t.userMarker.value] == Marker(Pos(c), YouLabel(c.accuracy)) &&
      t.accuracyCircle.Some? && t.circles[t.accuracyCircle.value] == Circle(Pos(c), 50000.0) &&
      |t.camera| == |s.camera| + 2 &&
      t.camera[|s.camera|] == FlyTo(Pos(c), FIX_ZOOM) && IsFrame(t.camera[|s.camera| + 1])
  {
  }

  /** After a stream with an accepted fix, the marker and the circle show
      the most recent accepted fix: its point, its accuracy as radius and
      its rounded accuracy in the popup. */
  lemma {:induction false} ShowsLastAcceptedFix(s: ViewState, evs: seq<Event>)
    requires s.mapReady
    requires LastAcceptedFix(evs).Some?
    ensures var t, c := Run(s, evs), LastAcceptedFix(evs).value;
      t.userMarker.Some? && t.accuracyCircle.Some? &&
      t.userMarker.value in t.markers && t.accuracyCircle.value in t.circles &&
      t.markers[t.userMarker.value] == Marker(Pos(c), YouLabel(c.accuracy)) &&
      t.circles[t.accuracyCircle.value] == Circle(Pos(c), c.accuracy)
    decreases |evs|
  {
    var pre, e := evs[..|evs| - 1], evs[|evs| - 1];
    if !IsAcceptedFix(e) {
      ShowsLastAcceptedFix(s, pre);
      var u := Run(s, pre);
      assert u.userMarker.Some? && u.accuracyCircle.Some?;
    }
  }

  /** Each teardown unsubscribes once if the subscription was assigned,
      and never otherwise. */
  lemma {:induction false} TeardownsUnsubscribe(s: ViewState, evs: seq<Event>)
    ensures Run(s, evs).unsubscribeCalls ==
      s.unsubscribeCalls + (if s.subscribed then CountTeardowns(evs) else 0)
    decreases |evs|
  {
    if evs != [] {
      TeardownsUnsubscribe(s, evs[..|evs| - 1]);
    }
  }
}
