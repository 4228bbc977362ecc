/**
 * The map component itself (class `Map` of src/app/Maps/map/map.ts):
 * its fields, updated in place by the subscription's handlers, by
 * handleFallback and by ngOnDestroy. Each event handler (OnFix,
 * HandleFallback, OnError, Destroy) is proved to do to the fields what
 * the matching function of module Reconciliation says, and to keep that
 * module's invariant; the three steps of OnFix are proved against the
 * functions of its steps, and the initialisation methods against record
 * updates of the fields.
 */
module MapComponent {
  import opened Wrappers
  import opened Geolocation
  import opened PopupText
  import opened Reconciliation

  class ViewReconciler {
    /** `this.map` has been created (every effect is guarded by it). */
    var mapReady: bool
    /** `this.locationSubscription` has been assigned. */
    var subscribed: bool
    /** How many times the component called unsubscribe(). */
    var unsubscribeCalls: nat
    var userMarker: Option<Id>
    var accuracyCircle: Option<Id>
    var isFirstLocation: bool
    /** The rendering surface: the stored handles, the fallback markers
        nobody keeps a handle to, and the camera command log. */
    var markers: map<Id, Marker>
    var circles: map<Id, Circle>
    var fallbackMarkers: seq<Marker>
    var camera: seq<Camera>
    var nextId: Id

    /** The fields, as one value. */
    function View(): ViewState
      reads this
    {
      ViewState(mapReady, subscribed, unsubscribeCalls, userMarker, accuracyCircle,
                isFirstLocation, markers, circles, fallbackMarkers, camera, nextId)
    }

    ghost predicate Valid()
      reads this
    {
      Inv(View())
    }

    constructor ()
      ensures Valid() && View() == Initial
    {
      mapReady, subscribed, unsubscribeCalls := false, false, 0;
      userMarker, accuracyCircle, isFirstLocation := None, None, true;
      markers, circles, fallbackMarkers, camera, nextId := map[], map[], [], [], 0;
    }

    /** initMap: the Leaflet map now exists. */
    method InitMap()
      requires Valid()
      modifies this
      ensures Valid() && View() == old(View()).(mapReady := true)
    {
      mapReady := true;
    }

    /** locateUser: the subscription is assigned. */
    method LocateUser()
      requires Valid()
      modifies this
      ensures Valid() && View() == old(View()).(subscribed := true)
    {
      subscribed := true;
    }

    /** ngAfterViewInit: create the map, then subscribe. */
    method AfterViewInit()
      requires Valid()
      modifies this
      ensures Valid() && View() == old(View()).(mapReady := true, subscribed := true)
    {
      InitMap();
      LocateUser();
    }

    /** The subscription's `next` handler. */
    method OnFix(c: Coords)
      requires Valid()
      modifies this
      ensures Valid() && View() == ApplyFix(old(View()), c)
    {
      if c.accuracy > MAX_ACCEPTABLE_ACCURACY {
        HandleFallback();
      } else if mapReady {
        var p := LatLng(c.lat, c.lng);
        camera := camera + [FlyTo(p, FIX_ZOOM)];
        PlaceUserMarker(p, YouLabel(c.accuracy));
        PlaceAccuracyCircle(p, c.accuracy);
        AdjustZoom(p);
      }
      ApplyFixKeepsInv(old(View()), c);
    }

    method PlaceUserMarker(p: LatLng, text: string)
      modifies this
      ensures View() == PlaceMarker(old(View()), p, text)
    {
      if userMarker.Some? {
        markers := markers[userMarker.value := Marker(p, text)];
      } else {
        userMarker := Some(nextId);
        markers := markers[nextId := Marker(p, text)];
        nextId := nextId + 1;
      }
    }

    method PlaceAccuracyCircle(p: LatLng, radius: real)
      modifies this
      ensures View() == PlaceCircle(old(View()), p, radius)
    {
      if accuracyCircle.Some? {
        circles := circles[accuracyCircle.value := Circle(p, radius)];
      } else {
        accuracyCircle := Some(nextId);
        circles := circles[nextId := Circle(p, radius)];
        nextId := nextId + 1;
      }
    }

    method AdjustZoom(p: LatLng)
      requires accuracyCircle.Some? && accuracyCircle.value in circles
      modifies this
      ensures View() == FrameCamera(old(View()), p)
    {
      if isFirstLocation {
        var circle := circles[accuracyCircle.value];
        camera := camera + [FlyToBounds(CircleBounds(circle.center, circle.radius),
                                        FIT_PADDING, FIT_MAX_ZOOM, FIT_DURATION)];
        isFirstLocation := false;
      } else {
        camera := camera + [PanTo(p, PAN_DURATION)];
      }
    }

    /** handleFallback. */
    method HandleFallback()
      requires Valid()
      modifies this
      ensures Valid() && View() == Fallback(old(View()))
    {
      FallbackKeepsInv(View());
      if mapReady {
        camera := camera + [SetView(FALLBACK_CENTER, FALLBACK_ZOOM)];
        if userMarker.None? {
          fallbackMarkers := fallbackMarkers + [Marker(FALLBACK_CENTER, FALLBACK_TEXT)];
        }
      }
    }

    /** The subscription's `error` handler: it only logs, with an extra
        warning for a timeout, so no field changes whatever the code. */
    method OnError(err: LocationError)
      requires Valid()
      ensures Valid() && View() == Step(old(View()), PositionFailure(err))
    {
    }

    /** ngOnDestroy. */
    method Destroy()
      requires Valid()
      modifies this
      ensures Valid() && View() == DestroyView(old(View()))
    {
      if subscribed {
        unsubscribeCalls := unsubscribeCalls + 1;
      }
    }
  }

  /** A short session: two accepted fixes, a rejected one, a timeout
      and two teardowns. */
  method SessionScenario()
  {
    var m := new ViewReconciler();
    m.AfterViewInit();
    m.OnFix(Coords(14.9, -91.4, 20.0));
    assert m.userMarker == Some(0) && m.accuracyCircle == Some(1) && !m.isFirstLocation;
    assert m.markers[0] == Marker(LatLng(14.9, -91.4), YouLabel(20.0));
    assert m.camera[1] == FlyToBounds(CircleBounds(LatLng(14.9, -91.4), 20.0), 50, 18, 1.5);
    m.OnFix(Coords(14.91, -91.41, 35.0));
    assert m.userMarker == Some(0) && m.accuracyCircle == Some(1);
    assert m.circles[1] == Circle(LatLng(14.91, -91.41), 35.0);
    assert m.camera[3] == PanTo(LatLng(14.91, -91.41), 0.5);
    m.OnFix(Coords(14.91, -91.41, 60000.0));
    assert m.camera[4] == SetView(LatLng(14.8, -91.0), 12);
    assert m.circles[1] == Circle(LatLng(14.91, -91.41), 35.0) && m.fallbackMarkers == [];
    m.OnError(DeviceError(TIMEOUT, "Timeout expired"));
    assert m.userMarker == Some(0) && m.circles[1] == Circle(LatLng(14.91, -91.41), 35.0);
    m.Destroy();
    m.Destroy();
    assert m.unsubscribeCalls == 2;
  }
}
