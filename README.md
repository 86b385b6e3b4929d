# Herd Search map page — a Dafny model

Herd Search shows festival-goers their friends' positions on a static festival
map. Users can also draw named polygonal areas on that map and check in to one
of them. This project models the state machine behind the map page and the map
component:

- polygon authoring: the draft polygon, the closure gesture, naming, cancelling;
- check-in at an area's vertex mean;
- the friend bookkeeping fed by the store's listeners;
- how the map normalizes clicks, what a redraw draws, and which user markers it shows.

The remote document store is modelled as a value (`Presence.Store`): profile
documents and public-index entries keyed by uid, and area documents keyed by
generated id. The page holds the store in a field, and its handlers rewrite it.
Listener deliveries are method calls that take the snapshot as a parameter.

Modules (one file each):

- `wrappers.dfy` — `Option`, standing for JavaScript null / undefined / a missing field.
- `geofence.dfy` — normalized `Point`s as reals, the closure test, the vertex-mean `Centroid`, and the area records with their rebuild from a snapshot.
- `presence.dfy` — profiles, the public index and the store, plus the pure store operations: first-login setup, lowercasing, `arrayUnion`, the email query and its first document.
- `mapview.dfy` — click normalization, pixel scaling, drawing as a sequence of canvas commands (`DrawPolygon`, `RedrawAll`), and the marker list.
- `page.dfy` — `HomePage`, a class whose fields are the page's state and whose methods are its handlers and listener callbacks.

Where the code behaves differently from what one might expect, the model follows the code:

- A name made only of spaces is accepted when saving an area. The code tests only `!name`.
- A click outside the canvas gives coordinates outside [0, 1]. Nothing is clamped.
- Signing out clears `userData` and `friendsData`, but friend listeners stay open. A friend listener that fires after sign-out still writes into `friendsData`.
- Each self snapshot opens one more listener for every friend id, even if one is already open. `friendListeners` keeps every one, duplicates included.
- The closure test is `hypot(...) < 10/1200`. The model compares squared distances, and `Geofence.ClosesIffWithinRadius` proves the two tests agree.
- A provider email that is the empty string is stored as null, because the code tests `user.email ? ... : null`.
- Checking in to an area whose polygon is an empty list divides 0 by 0. That writes NaN coordinates, modelled as `Location.NotANumber`.

Authoring phases (`HomePage.AuthoringPhase`):

- Idle: dev mode is off.
- Drawing: dev mode is on.
- PendingName: dev mode is on and the naming modal is open.

Outside dev mode the draft is always empty (`NoStrayDraft`), and every handler except the bare `HandleCanvasClick` keeps that true.

## Model

| member | source | states |
|---|---|---|
| Geofence.ClosesIffWithinRadius | pages/index.js:145-148 | comparing the squared distance with (10/1200)^2 gives the same answer as comparing the Euclidean distance with 10/1200 |
| Geofence.ShortDraftNeverCloses | pages/index.js:148 | with two or fewer points in the draft, no click closes it, however near the first point |
| Geofence.TriangleScenarioCloses | pages/index.js:143-149 | a click at (0.105, 0.105) closes the triangle (0.1,0.1), (0.5,0.1), (0.5,0.5) |
| Geofence.SumBounds | pages/index.js:167 | the folded vertex sum lies between n times the smallest and n times the largest coordinate on each axis |
| Geofence.MinMaxAreVertices | pages/index.js:167-169 | the bounds used for the centroid are actual vertex coordinates and bound every vertex |
| Geofence.Centroid | pages/index.js:167-169 | the vertex mean of a non-empty polygon is, on each axis, the sum of the vertices' coordinates each weighted 1/n, and lies between that axis's minimum and maximum |
| Geofence.WSumScales | pages/index.js:167 | a weight common to all vertices factors out of the folded vertex sum |
| Geofence.EqualWeightsMean | pages/index.js:167-169 | the vertex mean is the convex combination with every weight 1/n, weights positive and summing to 1, so it lies in the convex hull of the vertices |
| Geofence.UnitSquareCentroid | pages/index.js:167-169 | the unit square's vertex mean is (0.5, 0.5) |
| Geofence.AreasOfKeys | pages/index.js:86-90 | the rebuilt area map has exactly the ids of the snapshot's documents as keys |
| Geofence.AreasOfLastWins | pages/index.js:88 | each id maps to the area built from the last document with that id, id included |
| Geofence.KeyOrderEnumerates | pages/index.js:87-88 | the key order lists each key of the rebuilt map exactly once |
| Geofence.BuildAreas | pages/index.js:86-90 | the snapshot loop builds a fresh map, independent of the old one, plus its key order |
| Presence.ToLower | pages/index.js:55 | same length, no upper-case ASCII letter remains, and each character is either kept or is its letter lowered |
| Presence.ToLowerIdempotent | pages/index.js:124 | lowercasing an already lowercased email changes nothing |
| Presence.SetupUser | pages/index.js:47-61 | when the profile exists the store is unchanged; otherwise the new profile and its index entry are written; other users' profiles and index entries, and the areas, are untouched |
| Presence.SetupUserIdempotent | pages/index.js:50-51 | a second setup for the same user is a no-op |
| Presence.NewProfileDefaults | pages/index.js:52-58 | a new profile has the email lowercased, or null when it is missing or empty; and for every user no friends, a null location, area "unknown" and GPS on |
| Presence.ArrayUnion | pages/index.js:132 | the result holds exactly the old friends plus the uid, extends the old array, and grows by at most one |
| Presence.ArrayUnionIdempotent | pages/index.js:132 | adding the same uid twice gives the same friends as adding it once |
| Presence.ArrayUnionKeepsDistinct | pages/index.js:132 | the friends array never holds a uid twice |
| Presence.SetupThenFind | pages/index.js:124-125 | after first setup with a non-empty email, the lowercased query for any spelling of it differing only in letter case finds the user, and finds every other user exactly as before |
| Presence.SetupThenMiss | pages/index.js:55 | a user set up without an email, or with the empty one, is found by no query, and one set up with an email is not found by a query that lowercases differently |
| Presence.FirstDocExists | pages/index.js:126-130 | a non-empty query result has a first document in id order |
| Presence.FirstDocUnique | pages/index.js:130 | that first document is unique, so the uid looked up is determined |
| Presence.RecordPosition | pages/index.js:105 | only the user's location and area change; a missing profile document leaves the store unchanged |
| MapView.NormalizeClick | components/Map.js:72-77 | nothing outside dev mode or without a canvas; otherwise the unique point that maps back onto the clicked client position |
| MapView.NormalizeDoesNotClamp | components/Map.js:75 | clicks left of or above the canvas give negative coordinates, those right of or below it coordinates above 1 |
| MapView.PixelRoundTrip | components/Map.js:17-19 | scaling a normalized click by the canvas size and adding the rectangle's corner recovers the client position |
| MapView.LinesTo | components/Map.js:18-20 | one line segment per point, to that point's pixel position, in order |
| MapView.VertexDots | components/Map.js:26-31 | three commands per vertex, and only path starts, fills and arcs |
| MapView.PolygonDots | components/Map.js:26-31 | exactly one dot per point, at (x * width, y * height), in point order |
| MapView.PolygonOutline | components/Map.js:11-25 | no commands for no points; otherwise one stroke, a closed path iff more than two points, and a fill before the stroke iff more than two points |
| MapView.DrawPolygon | components/Map.js:10-32 | the loop issues the polygon's commands; empty input issues nothing; its dots are one per vertex in order |
| MapView.AreaStrokes | components/Map.js:47-52 | over distinct area keys, the number of outlines equals the number of areas with a non-empty polygon |
| MapView.AreaArcs | components/Map.js:47-52 | the areas' commands draw exactly the vertex dots of each area with a polygon, area after area in key order |
| MapView.RedrawStrokes | components/Map.js:34-57 | the number of outlines a redraw strokes equals the number of areas with a non-empty polygon, plus one exactly when dev mode is on and the draft is non-empty |
| MapView.RedrawArcs | components/Map.js:34-57 | a redraw draws the vertex dots of the areas in key order, so each area with a polygon once, then the draft's dots in dev mode |
| MapView.RedrawAll | components/Map.js:34-58 | no commands without a canvas or an image; otherwise the redraw's commands, with the outline count above |
| MapView.RedrawIgnoresDraftOutsideDevMode | components/Map.js:55-57 | outside dev mode the draft has no influence on what is drawn |
| MapView.FirstWord | components/Map.js:104 | the label is the longest prefix of the name that contains no space |
| MapView.DisplayName | components/Map.js:95 | the profile's name when it is non-empty, otherwise "User"; never empty |
| MapView.MarkerOf | components/Map.js:94-105 | keyed by uid; placed at x * 100% and y * 100% (NaN for the NaN location), so within 0-100% for a point of the unit square; the photo, or a placeholder with the display name's first character; caption is the first space-separated word of the display name, "User" by default |
| MapView.Markers | components/Map.js:93-107 | exactly as many markers as entries holding a located profile, a marker for every such entry, and every marker from such an entry |
| Page.CheckInLocation | pages/index.js:165-169 | NaN exactly for an empty polygon; otherwise the equal-weight (1/n) combination of the vertices, within the polygon's bounding box |
| Page.HomePage.constructor | pages/index.js:18-26 | the initial state: signed out, idle, empty draft, no areas, no friends, no modal |
| Page.HomePage.OnAuthStateChanged | pages/index.js:29-40 | sign-in sets the user and runs setup; sign-out empties userData and friendsData and leaves everything else, friend listeners included |
| Page.HomePage.OnSelfSnapshot | pages/index.js:68-83 | userData and the user's own friendsData entry become the snapshot; one listener per friend id is appended, even for ids that already have one |
| Page.HomePage.OnFriendSnapshot | pages/index.js:76-80 | an existing document replaces the friend's entry; a missing one leaves the stale entry in place |
| Page.HomePage.OnAreasSnapshot | pages/index.js:86-90 | the area map and its key order are rebuilt from the snapshot alone |
| Page.HomePage.MockGpsTick | pages/index.js:100-109 | when signed in with GPS on, the given point and "The Wilds" are written to the profile; otherwise nothing |
| Page.HomePage.ToggleGps | pages/index.js:263 | writes useGps to the user's profile when the document exists |
| Page.HomePage.HandlePasscodeSubmit | pages/index.js:113-119 | only "1979" opens the locations modal; any other passcode changes nothing |
| Page.HomePage.HandleAddFriend | pages/index.js:121-141 | every case decided: empty email, no match, a first match that is the user (or an empty id) is refused; any other first match is set-unioned into friends and the modal closes when the profile exists, and the update fails otherwise; refusals leave the store and modal unchanged |
| Page.HomePage.HandleCanvasClick | pages/index.js:143-153 | a closing click leaves the draft as it was and opens the naming modal; any other click appends at the end; with two or fewer points it always appends |
| Page.HomePage.OnMapClick | components/Map.js:72-77 | outside dev mode or without a canvas nothing changes; otherwise the normalized click goes to the page's click handler |
| Page.HomePage.SaveArea | pages/index.js:155-161 | saves iff the name is non-empty and the draft has at least 3 points; then exactly one area document {name, draft} is added, the draft is emptied, dev mode ends and the modal closes; otherwise nothing changes |
| Page.HomePage.HandleCheckIn | pages/index.js:163-172 | for a known area with a polygon, the vertex mean and the area name become the user's location and area; an unknown id changes nothing |
| Page.HomePage.CancelDrawing | pages/index.js:218 | empties the draft and ends dev mode; no area is created |
| Page.HomePage.CancelNaming | pages/index.js:303-308 | closes the modal, empties the draft and ends dev mode; no area is created |
| Page.HomePage.AddNewLocation | pages/index.js:325 | closes the modal and starts dev mode with the current draft |
| Page.HomePage.OpenModal | pages/index.js:206-210 | opens the settings, passcode, add-friend or check-in modal; the check-in button (pages/index.js:252) is offered only while the user does not share GPS, so the check-in modal requires that |
| Page.HomePage.CloseModal | pages/index.js:258 | closes a modal other than the naming one |
| Page.HomePage.DeleteArea | pages/index.js:320 | a confirmed delete removes the area document from the store; the page's map waits for the next snapshot |
| Page.HomePage.RenderMap | pages/index.js:222-228 | the map draws the page's own areas, key order, mode and draft, with the redraw's outline count; for any enumeration of the friend keys, exactly as many markers as friend entries holding a located profile, a marker for every such entry, and only those |
| Page.LocatedCount | pages/index.js:226 | listing a map's values along distinct keys, the located values number as many as the located keys listed |
| Page.FriendMarkers | pages/index.js:226 | over an enumeration of every friend key, the markers count, show and come only from the located friend entries |
| Page.AuthoringScenario | pages/index.js:143-161 | three clicks, then a closing click that adds nothing; the empty name is refused and "Main Stage" stores the triangle; afterwards the draft is empty and dev mode is off |

## Left out

- The sign-in popup, the Firestore calls themselves, and listener delivery order and async interleaving. Each callback is one atomic method, and the caller decides when it fires.
- Store write failures other than a missing profile document. `addDoc` and `deleteDoc` are modelled as always succeeding.
- `Math.random` and the 5-second interval of the simulated GPS. The random point is a parameter of `MockGpsTick`, and each call is one tick.
- Floating point. Coordinates are reals, so there is no rounding in `Math.hypot`, in the centroid division, or in pixel scaling. The only NaN modelled is the one written by an empty-polygon check-in.
- Presence.ToLower: lowers only the ASCII letters A-Z. JavaScript's `toLowerCase` applies full Unicode case mapping.
- Presence.FirstDocExists: the store's result order is taken as character-by-character order of document ids. That matches byte order for the ASCII ids the sign-in provider issues.
- Geofence.KeyOrder: gives the area map's keys in insertion order. JavaScript puts integer-like keys first, and generated area ids are not integer-like in practice.
- MapView.NormalizeClick: requires a canvas rectangle with non-zero width and height. With a zero-size rectangle the source divides by zero and passes Infinity or NaN on.
- Colours, line widths, the 0 to 2π arc angles, CSS classes, JSX, `alert` and `confirm` (the confirmation is the `confirmed` parameter of `DeleteArea`), the resize listener and the image `onLoad` wiring.
- The squad list under the map, which only renders `friendsData`.
- Page.HomePage.RenderMap: takes the friend keys as a duplicate-free list of all of them in some order, because the insertion order of `Object.values(friendsData)` is not modelled; it states how many markers are shown and which, not their order.
- components/Modal.js, pages/_app.js and tailwind.config.js are styling and framework wrappers and are not part of this model.
- Unsubscribing friend listeners: the code never does so, so the model neither prunes nor de-duplicates them.
