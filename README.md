# Location-to-view reconciliation of the Ubik map component

This project models, in Dafny, how the `Map` component of the Ubik
Angular app (`src/app/Maps/map/map.ts`) turns the stream of position fixes
from its location service into a map view. It covers the user marker, the
accuracy circle, the one-time framing of the first location and the
camera moves. It also models the fallback view for fixes whose accuracy is
too poor, the error handler and the teardown of the subscription.

Files:

- `wrappers.dfy`: `Option`, standing in for TypeScript's `T | null`.
- `geolocation.dfy`: the `Coords` record the location service emits,
  and the two shapes of error its `error` callback can receive.
- `popup_text.dfy`: `Math.round`, the rendering of an integer in a
  template literal, and the two popup texts. There is a parser for the
  user-marker popup, and a round-trip lemma shows that the popup displays
  exactly the rounded accuracy.
- `reconciliation.dfy`: the behaviour stated on values.
  - `ViewState` holds the component's fields and an abstract rendering
    surface.
  - `ApplyFix`, `Fallback`, `DestroyView` and `Step` say what one event does.
  - `Run` applies a stream of events in order.
  - `Inv` is the invariant every event keeps. Marker and circle exist
    together. They exist exactly when the first-location flag is
    cleared, and only once the map exists. The camera log has the
    fly-to-then-frame shape, with exactly one bounds-fit and no pan
    before it.
  - Lemmas about whole streams: handles are never recreated, rejected
    fixes leave the view alone, the flag flips exactly once, and the
    marker shows the last accepted fix.
- `map_component.dfy`: the class `ViewReconciler`. Its fields are the
  component's fields, updated in place.
  - The event handlers `OnFix`, `HandleFallback`, `OnError` and
    `Destroy` are proved to change the fields exactly as `ApplyFix`,
    `Fallback`, `Step` on a failure and `DestroyView` say. They also keep
    `Inv`.
  - The three steps of `OnFix` (`PlaceUserMarker`,
    `PlaceAccuracyCircle`, `AdjustZoom`) are proved equal to
    `PlaceMarker`, `PlaceCircle` and `FrameCamera`. They run between
    the handler's start and end, so they do not promise `Inv`.
  - `InitMap`, `LocateUser` and `AfterViewInit` are proved to set the
    map and subscription fields and leave everything else as it was.
  - `SessionScenario` walks through a short session: two accepted
    fixes, a rejected one, a timeout and two teardowns.

The rendering surface is abstract:

- The user marker and the accuracy circle are integer handles into the
  `markers` and `circles` stores. Creating one takes a fresh id;
  updating one rewrites its entry under the same id.
- The component never keeps a reference to a fallback marker, so
  fallback markers only accumulate in `fallbackMarkers`.
- Every camera command is appended to the `camera` log: `FlyTo`,
  `FlyToBounds`, `PanTo` or `SetView`.
- `getBounds()` of the circle is kept symbolic as `CircleBounds(center, radius)`.

Coordinates and accuracy are `real`. `Math.round(x)` is `floor(x + 0.5)`,
which is how JavaScript rounds: the nearest integer, with halves rounded
up toward +infinity.

Behaviour of the code that the model keeps as it is:

- Device errors: `src/app/Services/geolocation.ts:46` forwards them
  with `observer.error`, which in rxjs ends the subscription. The model
  states only that the error handler changes no field.
- Teardown: every `ngOnDestroy` calls `unsubscribe()` while the
  subscription field is set (map.ts:120-124); the field is never
  cleared. The model counts those calls. Making repeated calls harmless
  is up to rxjs.
- Fallback markers: as long as `userMarker` is null, every rejected fix
  adds another fallback marker, because the marker it creates is never
  stored (map.ts:111-116). `RejectionsStackFallbackMarkers` states this.

## Model

| member | source | states |
|---|---|---|
| `PopupText.Round` | src/app/Maps/map/map.ts:65 | `Math.round`: the result is the unique integer r with r - 0.5 <= x < r + 0.5 (halves go up) |
| `PopupText.IntToText` | src/app/Maps/map/map.ts:65 | how the template literal renders `Math.round(accuracy)`: a minus sign exactly for negatives, then digits. `IntTextRoundTrip` shows it reads back as the same integer |
| `PopupText.YouLabel` | src/app/Maps/map/map.ts:65-69 | the user-marker popup starts with `Tú (±` and ends with `m)`. `YouLabelShowsRoundedAccuracy` shows that what lies between is exactly `Math.round(accuracy)` |
| `PopupText.NatToDecimal` | src/app/Maps/map/map.ts:65 | the decimal rendering of a number is a non-empty digit string, begins with '0' only for zero, and has one digit exactly below ten |
| `PopupText.DecimalRoundTrip` | src/app/Maps/map/map.ts:65 | reading the rendered digits back gives the same number |
| `PopupText.IntTextRoundTrip` | src/app/Maps/map/map.ts:65 | an integer's rendering, with minus sign for negatives, reads back as the same integer |
| `PopupText.YouLabelShowsRoundedAccuracy` | src/app/Maps/map/map.ts:65-69 | the user-marker popup `Tú (±<n>m)` parses back to exactly `Math.round(accuracy)` |
| `PopupText.YouLabelSameIffSameRounding` | src/app/Maps/map/map.ts:65-69 | two fixes give the same popup text if and only if their accuracies round to the same integer |
| `PopupText.FallbackTextIsNoYouLabel` | src/app/Maps/map/map.ts:114 | the fallback popup text is never a user-marker popup |
| `Reconciliation.Accepts` | src/app/Maps/map/map.ts:18-55 | a fix is accepted exactly when its accuracy is at most 50000, so only accuracies strictly above the threshold take the fallback. `BoundaryFixIsAccepted` shows the limit itself is accepted |
| `Reconciliation.Run` | src/app/Maps/map/map.ts:50-104 | applies the delivered events one by one, in order. No stream changes whether the map or the subscription exists, or sets the flag back. `RunKeepsInv` shows the invariant holds after every stream |
| `Reconciliation.InitialInv` | src/app/Maps/map/map.ts:26-28 | the freshly constructed component (no marker, no circle, flag set, no map) satisfies the invariant |
| `Reconciliation.Fallback` | src/app/Maps/map/map.ts:107-118 | with a map: one `SetView((14.8, -91), 12)` is appended, and one fallback marker is added exactly when there is no user marker. Handles, stores, flag and circle are unchanged. Without a map: nothing changes |
| `Reconciliation.ApplyFix` | src/app/Maps/map/map.ts:52-91 | a fix with accuracy > 50000 changes neither handle, store nor flag and adds only set-view commands. An accepted fix (50000 included) with a map keeps existing handles and creates missing ones. It sets the marker to (fix, `Tú (±round m)`) and the circle to (fix, accuracy), clears the flag and appends `FlyTo(fix,16)` then `FlyToBounds(circle bounds,50,18,1.5)` on the first location or `PanTo(fix,0.5)` afterwards. Without a map nothing changes |
| `Reconciliation.PlaceMarker` | src/app/Maps/map/map.ts:63-70 | the marker exists afterwards, keeps its id if it existed, holds position and popup text, and nothing else but a fresh id changes |
| `Reconciliation.PlaceCircle` | src/app/Maps/map/map.ts:72-79 | the circle exists afterwards, keeps its id if it existed, holds centre and radius, and nothing else but a fresh id changes |
| `Reconciliation.FrameCamera` | src/app/Maps/map/map.ts:81-90 | on the first location a bounds-fit of the current circle is appended; otherwise a pan is appended. The flag is clear afterwards and nothing else changes |
| `Reconciliation.DestroyView` | src/app/Maps/map/map.ts:120-124 | unsubscribe is called once if the subscription was assigned and not otherwise; nothing else changes |
| `Reconciliation.Step` | src/app/Maps/map/map.ts:52-104 | a location error, whatever its code (timeout included), changes nothing. No event changes the map or subscription field or sets the flag back |
| `Reconciliation.SetViewKeepsCameraOk` | src/app/Maps/map/map.ts:110 | appending a set-view keeps the fly-to/frame shape of the camera log |
| `Reconciliation.FramingKeepsCameraOk` | src/app/Maps/map/map.ts:62-90 | a fly-to followed by its framing, a bounds-fit only on the first location, keeps the camera log's shape with the flag now clear |
| `Reconciliation.FallbackKeepsInv` | src/app/Maps/map/map.ts:107-118 | the fallback path keeps the invariant |
| `Reconciliation.ApplyFixKeepsInv` | src/app/Maps/map/map.ts:52-91 | one fix keeps the invariant: marker and circle both null or both present, present exactly once the flag is clear, stores holding only those handles, camera log well-formed |
| `Reconciliation.StepKeepsInv` | src/app/Maps/map/map.ts:52-124 | every event keeps the invariant |
| `Reconciliation.RunKeepsInv` | src/app/Maps/map/map.ts:52-124 | after any stream of events the invariant holds, the map and subscription fields are unchanged, and the camera log and the fallback markers only grew at the end |
| `Reconciliation.HandlesNeverRecreated` | src/app/Maps/map/map.ts:63-79 | once marker and circle exist, every later stream keeps the same two handles and the same store keys |
| `Reconciliation.RejectionsLeaveViewAlone` | src/app/Maps/map/map.ts:55-58 | a stream with no accepted fix leaves marker, circle, stores and flag as they were and adds only set-view commands |
| `Reconciliation.RejectionsStackFallbackMarkers` | src/app/Maps/map/map.ts:107-118 | before the first accepted fix, k rejected fixes add exactly k fallback markers and k set-view commands |
| `Reconciliation.FirstLocationUntilAcceptedFix` | src/app/Maps/map/map.ts:81-88 | after a stream the flag is still set if and only if it was set and the map never received an accepted fix |
| `Reconciliation.FirstLocationFlipsOnce` | src/app/Maps/map/map.ts:81-88 | in any stream the flag changes at most once, and exactly once when it was set and the map gets an accepted fix |
| `Reconciliation.FirstAcceptedFixFitsBounds` | src/app/Maps/map/map.ts:62-87 | after any number of rejected fixes and errors, the first accepted fix clears the flag. It appends exactly `FlyTo(fix,16)` then `FlyToBounds(bounds of the circle at the fix with radius accuracy, 50, 18, 1.5)` |
| `Reconciliation.LaterAcceptedFixPans` | src/app/Maps/map/map.ts:88-90 | an accepted fix after the first appends `FlyTo(fix,16)` then `PanTo(fix,0.5)` and keeps the handles and store keys |
| `Reconciliation.BoundaryFixIsAccepted` | src/app/Maps/map/map.ts:18-90 | a fix whose accuracy is exactly 50000 takes the accepted path. The marker holds the fix and its `Tú (±50000m)` popup, and the circle sits at the fix with radius 50000. Exactly two camera commands are appended: `FlyTo(fix,16)` and then a bounds-fit or pan. The flag is cleared |
| `Reconciliation.ShowsLastAcceptedFix` | src/app/Maps/map/map.ts:63-79 | after a stream with an accepted fix, the marker sits at the last accepted fix with its rounded-accuracy popup, and the circle is centred there with that accuracy as radius |
| `Reconciliation.TeardownsUnsubscribe` | src/app/Maps/map/map.ts:120-124 | over a stream, unsubscribe is called once per teardown if the subscription was assigned, never otherwise |
| `MapComponent.ViewReconciler.constructor` | src/app/Maps/map/map.ts:17-28 | the fields start as null handles, a set flag, no map and no subscription, satisfying the invariant |
| `MapComponent.ViewReconciler.InitMap` | src/app/Maps/map/map.ts:32-47 | the map now exists; nothing else changes |
| `MapComponent.ViewReconciler.LocateUser` | src/app/Maps/map/map.ts:49-51 | the subscription field is now assigned; nothing else changes |
| `MapComponent.ViewReconciler.AfterViewInit` | src/app/Maps/map/map.ts:20-23 | map created, then subscription assigned |
| `MapComponent.ViewReconciler.OnFix` | src/app/Maps/map/map.ts:52-91 | the `next` handler updates the fields in place exactly as `ApplyFix` and keeps the invariant |
| `MapComponent.ViewReconciler.PlaceUserMarker` | src/app/Maps/map/map.ts:63-70 | updates the marker in place or creates it, as `PlaceMarker` |
| `MapComponent.ViewReconciler.PlaceAccuracyCircle` | src/app/Maps/map/map.ts:72-79 | updates the circle in place or creates it, as `PlaceCircle` |
| `MapComponent.ViewReconciler.AdjustZoom` | src/app/Maps/map/map.ts:81-90 | bounds-fit and flag clear on the first location, pan afterwards, as `FrameCamera` |
| `MapComponent.ViewReconciler.HandleFallback` | src/app/Maps/map/map.ts:107-118 | updates the fields exactly as `Fallback` and keeps the invariant |
| `MapComponent.ViewReconciler.OnError` | src/app/Maps/map/map.ts:93-100 | changes no field, whatever the error code (timeout included), as `Step` on a failure, and keeps the invariant |
| `MapComponent.ViewReconciler.Destroy` | src/app/Maps/map/map.ts:120-124 | `ngOnDestroy` updates the fields exactly as `DestroyView` and keeps the invariant |

## Left out

- Leaflet itself. Not modelled: map construction with its initial centre
  (14.833333, -91.516667) and zoom 10, the tile layer and its zoom limits,
  and the scale control (map.ts:32-47). These are calls into a library;
  `InitMap` only records that the map exists.
- Popup opening (`openPopup`), the circle's colour and opacity, and
  Leaflet's own handling of several open popups. These are presentation
  only.
- Console logging, including the `toFixed` in the warning message. This
  is output only.
- `src/app/Services/geolocation.ts` beyond its records. It is
  `navigator.geolocation` and rxjs plumbing. The watch options, the
  translation of a browser position into `Coords` and the teardown that
  calls `clearWatch` are not modelled.
- rxjs delivery semantics: whether events arrive after an error or after
  unsubscribe. `Run` applies whatever stream it is given, and nothing is
  claimed about events after an error beyond "the error handler changes
  nothing".
- The `complete` callback (map.ts:101-103). It only logs.
- The commented-out earlier `locateUser` (map.ts:125-166) and the empty
  `fullScreen` (map.ts:169-171). Neither has any behaviour.
- IEEE floating point. Coordinates and accuracy are exact reals. So a NaN
  accuracy, which the test `accuracy > 50000` would let through, cannot
  be expressed, and neither can `L.LatLng` rejecting a NaN coordinate.
- `MAX_ACCEPTABLE_ACCURACY` is a public, mutable field of the component
  (map.ts:18). The model makes it the constant 50000, because nothing in
  the component reassigns it. A caller that changed it is not modelled.
- Angular's dependency injection and lifecycle wiring. `AfterViewInit`
  only sequences `InitMap` and `LocateUser`.
