/** The map page: the signed-in user, the subscriptions' callbacks, adding
    friends, drawing and naming areas, and checking in. Its remote store is a
    field that the handlers rewrite. */
module Page {
  import opened Wrappers
  import opened Geofence
  import opened Presence
  import opened MapView

  /** Which modal is open. */
  datatype ModalName = NoModal | Settings | Passcode | AddFriend | CheckIn | AreaName | Locations

  /** Authoring phases: not authoring, placing vertices, naming the closed polygon. */
  datatype Phase = Idle | Drawing | PendingName

  /** The passcode that opens the locations manager. */
  const DeveloperPasscode: string := "1979"

  /** The area label written with every simulated GPS position. */
  const SimulatedArea: string := "The Wilds"

  /** The profile's friend ids as the self listener reads them; none when
      the document does not exist. */
  function FriendIds(doc: Option<Profile>): seq<Uid> {
    if doc.Some? then doc.value.friends else []
  }

  /** The location a check-in writes: the vertex mean, which lies within the
      polygon's bounding box; an empty polygon divides by zero. */
  function CheckInLocation(ps: seq<Point>): (loc: Location)
    ensures loc == NotANumber <==> ps == []
    ensures loc.At? ==> forall a: Axis :: MinAlong(ps, a) <= Coord(loc.p, a) <= MaxAlong(ps, a)
    ensures loc.At? ==> forall a: Axis :: Coord(loc.p, a) == WSum(1.0 / (|ps| as real), ps, a)
    ensures loc != Unset
  {
    if ps == [] then NotANumber else At(Centroid(ps))
  }

  class HomePage {
    var currentUser: Option<AuthUser>
    var userData: Option<Profile>
    var isDevMode: bool
    var draft: seq<Point>
    var areas: map<AreaId, Area>
    /** The key order of the areas object, which `for ... in` follows. */
    var areaOrder: seq<AreaId>
    var friendsData: map<Uid, Option<Profile>>
    var modal: ModalName
    /** One entry per friend listener opened so far; none is ever closed. */
    var friendListeners: seq<Uid>
    var store: Store

    ghost predicate Valid()
      reads this
    {
      EnumeratesKeys(areaOrder, areas)
    }

    /** Outside authoring mode there is no draft. */
    ghost predicate NoStrayDraft()
      reads this
    {
      !isDevMode ==> draft == []
    }

    ghost function AuthoringPhase(): Phase
      reads this
    {
      if !isDevMode then Idle else if modal == AreaName then PendingName else Drawing
    }

    constructor (store: Store)
      ensures Valid() && NoStrayDraft() && AuthoringPhase() == Idle
      ensures currentUser == None && userData == None && !isDevMode && draft == []
      ensures areas == map[] && areaOrder == [] && friendsData == map[] && modal == NoModal
      ensures friendListeners == [] && this.store == store
    {
      currentUser, userData, isDevMode, draft := None, None, false, [];
      areas, areaOrder, friendsData, modal := map[], [], map[], NoModal;
      friendListeners, this.store := [], store;
    }

    /** The authentication callback. Signing in records the user and sets up
        the profile; signing out clears the user's data and the friend map,
        and nothing else (friend listeners stay open). */
    method OnAuthStateChanged(user: Option<AuthUser>)
      requires Valid()
      modifies this
      ensures Valid()
      ensures currentUser == user
      ensures user.None? ==> userData == None && friendsData == map[] && store == old(store)
      ensures user.Some? ==>
        store == SetupUser(old(store), user.value) && userData == old(userData) && friendsData == old(friendsData)
      ensures isDevMode == old(isDevMode) && draft == old(draft) && modal == old(modal)
      ensures areas == old(areas) && areaOrder == old(areaOrder) && friendListeners == old(friendListeners)
    {
      currentUser := user;
      if user.Some? {
        store := SetupUser(store, user.value);
      } else {
        userData := None;
        friendsData := map[];
      }
    }

    /** The self listener: the snapshot becomes the user's data and the user's
        entry in the friend map, and one more listener is opened for every id
        in its `friends`, whether or not one is already open. */
    method OnSelfSnapshot(doc: Option<Profile>)
      requires Valid() && currentUser.Some?
      modifies this
      ensures Valid()
      ensures userData == doc
      ensures friendsData == old(friendsData)[old(currentUser).value.uid := doc]
      ensures friendListeners == old(friendListeners) + FriendIds(doc)
      ensures currentUser == old(currentUser) && store == old(store) && modal == old(modal)
      ensures isDevMode == old(isDevMode) && draft == old(draft) && areas == old(areas) && areaOrder == old(areaOrder)
    {
      userData := doc;
      friendsData := friendsData[currentUser.value.uid := doc];
      var ids := FriendIds(doc);
      for i := 0 to |ids|
        invariant friendListeners == old(friendListeners) + ids[..i]
        invariant userData == doc && friendsData == old(friendsData)[old(currentUser).value.uid := doc]
        invariant currentUser == old(currentUser) && store == old(store) && modal == old(modal)
        invariant isDevMode == old(isDevMode) && draft == old(draft)
        invariant areas == old(areas) && areaOrder == old(areaOrder)
      {
        assert ids[..i + 1] == ids[..i] + [ids[i]];
        friendListeners := friendListeners + [ids[i]];
      }
      assert ids[..|ids|] == ids;
    }

    /** A friend listener: an existing document replaces that friend's entry;
        a missing one leaves the last entry in place. */
    method OnFriendSnapshot(friendId: Uid, doc: Option<Profile>)
      requires Valid() && friendId in friendListeners
      modifies this
      ensures Valid()
      ensures doc.Some? ==> friendsData == old(friendsData)[friendId := doc]
      ensures doc.None? ==> friendsData == old(friendsData)
      ensures currentUser == old(currentUser) && userData == old(userData) && store == old(store)
      ensures modal == old(modal) && friendListeners == old(friendListeners)
      ensures isDevMode == old(isDevMode) && draft == old(draft) && areas == old(areas) && areaOrder == old(areaOrder)
    {
      if doc.Some? {
        friendsData := friendsData[friendId := doc];
      }
    }

    /** The areas listener: the whole map is rebuilt from the snapshot. */
    method OnAreasSnapshot(docs: seq<(AreaId, AreaDoc)>)
      requires Valid()
      modifies this
      ensures Valid()
      ensures areas == AreasOf(docs) && areaOrder == KeyOrder(docs)
      ensures currentUser == old(currentUser) && userData == old(userData) && friendsData == old(friendsData)
      ensures store == old(store) && modal == old(modal) && friendListeners == old(friendListeners)
      ensures isDevMode == old(isDevMode) && draft == old(draft)
    {
      areas, areaOrder := BuildAreas(docs);
    }

    /** One tick of the simulated GPS, with `p` standing for the random point:
        written only for a signed-in user whose data has GPS reporting on. */
    method MockGpsTick(p: Point)
      requires Valid()
      modifies this
      ensures Valid()
      ensures if currentUser.Some? && userData.Some? && userData.value.useGps
              then store == RecordPosition(old(store), currentUser.value.uid, At(p), SimulatedArea)
              else store == old(store)
      ensures currentUser == old(currentUser) && userData == old(userData) && friendsData == old(friendsData)
      ensures modal == old(modal) && friendListeners == old(friendListeners)
      ensures isDevMode == old(isDevMode) && draft == old(draft) && areas == old(areas) && areaOrder == old(areaOrder)
    {
      if currentUser.Some? && userData.Some? && userData.value.useGps {
        store := RecordPosition(store, currentUser.value.uid, At(p), SimulatedArea);
      }
    }

    /** The settings switch writes `useGps` into the user's profile. */
    method ToggleGps(checked: bool)
      requires Valid() && currentUser.Some?
      modifies this
      ensures Valid()
      ensures var uid := old(currentUser).value.uid;
        if uid in old(store).profiles
        then store == old(store).(profiles := old(store).profiles[uid := old(store).profiles[uid].(useGps := checked)])
        else store == old(store)
      ensures currentUser == old(currentUser) && userData == old(userData) && friendsData == old(friendsData)
      ensures modal == old(modal) && friendListeners == old(friendListeners)
      ensures isDevMode == old(isDevMode) && draft == old(draft) && areas == old(areas) && areaOrder == old(areaOrder)
    {
      var uid := currentUser.value.uid;
      if uid in store.profiles {
        store := store.(profiles := store.profiles[uid := store.profiles[uid].(useGps := checked)]);
      }
    }

    /** Only the developer passcode opens the locations manager; any other
        passcode changes nothing. */
    method HandlePasscodeSubmit(passcode: string)
      requires Valid()
      modifies this
      ensures Valid()
      ensures passcode == DeveloperPasscode ==> modal == Locations
      ensures passcode != DeveloperPasscode ==> modal == old(modal)
      ensures currentUser == old(currentUser) && userData == old(userData) && friendsData == old(friendsData)
      ensures store == old(store) && friendListeners == old(friendListeners)
      ensures isDevMode == old(isDevMode) && draft == old(draft) && areas == old(areas) && areaOrder == old(areaOrder)
    {
      if passcode == DeveloperPasscode {
        modal := Locations;
      }
    }

    /** Add a friend by email: an empty email or no index entry with the
        lowercased email is rejected, so is the user's own uid; otherwise the
        first matching uid is set-unioned into the user's `friends`. */
    method HandleAddFriend(email: string) returns (outcome: AddFriendOutcome)
      requires Valid() && currentUser.Some?
      modifies this
      ensures Valid()
      ensures outcome == EmptyEmail <==> email == []
      ensures outcome == UserNotFound <==> email != [] && MatchingUids(old(store).index, ToLower(email)) == {}
      ensures forall u :: email != [] && IsFirstDoc(u, MatchingUids(old(store).index, ToLower(email))) ==>
        var self := old(currentUser).value.uid;
        outcome == if u == self || u == [] then CannotAddSelf
                   else if self in old(store).profiles then Added(u)
                   else UpdateFailed
      ensures outcome.Added? ==> var self := old(currentUser).value.uid;
        && IsFirstDoc(outcome.friend, MatchingUids(old(store).index, ToLower(email)))
        && outcome.friend != self && self in old(store).profiles
        && store == old(store).(profiles := old(store).profiles[self :=
             old(store).profiles[self].(friends := ArrayUnion(old(store).profiles[self].friends, outcome.friend))])
        && modal == NoModal
      ensures !outcome.Added? ==> store == old(store) && modal == old(modal)
      ensures currentUser == old(currentUser) && userData == old(userData) && friendsData == old(friendsData)
      ensures friendListeners == old(friendListeners)
      ensures isDevMode == old(isDevMode) && draft == old(draft) && areas == old(areas) && areaOrder == old(areaOrder)
    {
      if email == [] {
        return EmptyEmail;
      }
      var matches := MatchingUids(store.index, ToLower(email));
      if matches == {} {
        return UserNotFound;
      }
      FirstDocExists(matches);
      var friendUid :| IsFirstDoc(friendUid, matches);
      forall u | IsFirstDoc(u, matches) ensures u == friendUid {
        FirstDocUnique(u, friendUid, matches);
      }
      var self := currentUser.value.uid;
      if friendUid != [] && friendUid != self {
        if self !in store.profiles {
          return UpdateFailed;
        }
        var profile := store.profiles[self];
        store := store.(profiles := store.profiles[self := profile.(friends := ArrayUnion(profile.friends, friendUid))]);
        modal := NoModal;
        return Added(friendUid);
      } else {
        return CannotAddSelf;
      }
    }

    /** A click on the canvas: a click close to the first point of a draft of
        more than two points opens the naming modal and adds nothing; every
        other click is appended to the draft. */
    method HandleCanvasClick(pos: Point)
      requires Valid()
      modifies this
      ensures Valid()
      ensures Closes(old(draft), pos) ==> draft == old(draft) && modal == AreaName
      ensures !Closes(old(draft), pos) ==> draft == old(draft) + [pos] && modal == old(modal)
      ensures |old(draft)| <= 2 ==> draft == old(draft) + [pos]
      ensures old(isDevMode) && Closes(old(draft), pos) ==> AuthoringPhase() == PendingName
      ensures currentUser == old(currentUser) && userData == old(userData) && friendsData == old(friendsData)
      ensures store == old(store) && friendListeners == old(friendListeners)
      ensures isDevMode == old(isDevMode) && areas == old(areas) && areaOrder == old(areaOrder)
    {
      if Closes(draft, pos) {
        modal := AreaName;
      } else {
        draft := draft + [pos];
      }
    }

    /** The map's click handler feeding the page's: ignored outside dev mode
        and without a canvas. */
    method OnMapClick(canvas: Option<Rect>, clientX: real, clientY: real)
      requires Valid()
      requires canvas.Some? ==> canvas.value.width != 0.0 && canvas.value.height != 0.0
      modifies this
      ensures Valid()
      ensures old(NoStrayDraft()) ==> NoStrayDraft()
      ensures !isDevMode || canvas.None? ==> draft == old(draft) && modal == old(modal)
      ensures isDevMode && canvas.Some? ==>
        var pos := NormalizeClick(true, canvas, clientX, clientY).value;
        if Closes(old(draft), pos) then draft == old(draft) && modal == AreaName
        else draft == old(draft) + [pos] && modal == old(modal)
      ensures currentUser == old(currentUser) && userData == old(userData) && friendsData == old(friendsData)
      ensures store == old(store) && friendListeners == old(friendListeners)
      ensures isDevMode == old(isDevMode) && areas == old(areas) && areaOrder == old(areaOrder)
    {
      var pos := NormalizeClick(isDevMode, canvas, clientX, clientY);
      if pos.Some? {
        HandleCanvasClick(pos.value);
      }
    }

    /** Naming the closed polygon. With an empty name or fewer than three
        points nothing happens; otherwise one area document with that name and
        the draft as its polygon is added under the store's new id, and
        authoring ends. A name of spaces is accepted. */
    method SaveArea(name: string, newId: AreaId) returns (saved: bool)
      requires Valid() && newId !in store.areaDocs
      modifies this
      ensures Valid()
      ensures saved <==> name != [] && |old(draft)| >= 3
      ensures saved ==>
        && store == old(store).(areaDocs := old(store).areaDocs[newId := AreaDoc(name, Some(old(draft)))])
        && |store.areaDocs| == |old(store).areaDocs| + 1
        && draft == [] && !isDevMode && modal == NoModal && AuthoringPhase() == Idle
      ensures !saved ==> store == old(store) && draft == old(draft) && isDevMode == old(isDevMode) && modal == old(modal)
      ensures currentUser == old(currentUser) && userData == old(userData) && friendsData == old(friendsData)
      ensures friendListeners == old(friendListeners) && areas == old(areas) && areaOrder == old(areaOrder)
    {
      if name == [] || |draft| < 3 {
        return false;
      }
      store := store.(areaDocs := store.areaDocs[newId := AreaDoc(name, Some(draft))]);
      draft := [];
      isDevMode := false;
      modal := NoModal;
      return true;
    }

    /** Check in to an area: an unknown id or an area without a polygon
        changes nothing; otherwise the vertex mean and the area's name become
        the user's location and area, and the modal closes. */
    method HandleCheckIn(areaId: AreaId)
      requires Valid() && currentUser.Some?
      modifies this
      ensures Valid()
      ensures var uid := old(currentUser).value.uid;
        if areaId in areas && areas[areaId].polygon.Some? && uid in old(store).profiles
        then store == RecordPosition(old(store), uid, CheckInLocation(areas[areaId].polygon.value), areas[areaId].name)
             && modal == NoModal
        else store == old(store) && modal == old(modal)
      ensures currentUser == old(currentUser) && userData == old(userData) && friendsData == old(friendsData)
      ensures friendListeners == old(friendListeners)
      ensures isDevMode == old(isDevMode) && draft == old(draft) && areas == old(areas) && areaOrder == old(areaOrder)
    {
      if areaId !in areas || areas[areaId].polygon.None? {
        return;
      }
      var area := areas[areaId];
      var uid := currentUser.value.uid;
      if uid in store.profiles {
        store := RecordPosition(store, uid, CheckInLocation(area.polygon.value), area.name);
        modal := NoModal;
      }
    }

    /** "Cancel Drawing": authoring ends and the draft is discarded. */
    method CancelDrawing()
      requires Valid()
      modifies this
      ensures Valid() && NoStrayDraft()
      ensures draft == [] && !isDevMode && AuthoringPhase() == Idle && modal == old(modal)
      ensures currentUser == old(currentUser) && userData == old(userData) && friendsData == old(friendsData)
      ensures store == old(store) && friendListeners == old(friendListeners)
      ensures areas == old(areas) && areaOrder == old(areaOrder)
    {
      isDevMode := false;
      draft := [];
    }

    /** Closing or cancelling the naming modal: the modal closes, authoring ends
        and the draft is discarded. */
    method CancelNaming()
      requires Valid()
      modifies this
      ensures Valid() && NoStrayDraft()
      ensures modal == NoModal && draft == [] && !isDevMode && AuthoringPhase() == Idle
      ensures currentUser == old(currentUser) && userData == old(userData) && friendsData == old(friendsData)
      ensures store == old(store) && friendListeners == old(friendListeners)
      ensures areas == old(areas) && areaOrder == old(areaOrder)
    {
      modal := NoModal;
      draft := [];
      isDevMode := false;
    }

    /** "Add New Location" in the locations manager starts authoring. */
    method AddNewLocation()
      requires Valid()
      modifies this
      ensures Valid()
      ensures old(NoStrayDraft()) ==> NoStrayDraft()
      ensures modal == NoModal && isDevMode && AuthoringPhase() == Drawing && draft == old(draft)
      ensures currentUser == old(currentUser) && userData == old(userData) && friendsData == old(friendsData)
      ensures store == old(store) && friendListeners == old(friendListeners)
      ensures areas == old(areas) && areaOrder == old(areaOrder)
    {
      modal := NoModal;
      isDevMode := true;
    }

    /** The buttons that open the settings, passcode, add-friend and check-in
        modals; the check-in button is shown only while GPS reporting is off. */
    method OpenModal(m: ModalName)
      requires Valid()
      requires m == Settings || m == Passcode || m == AddFriend || m == CheckIn
      requires m == CheckIn ==> !(userData.Some? && userData.value.useGps)
      modifies this
      ensures Valid()
      ensures modal == m
      ensures currentUser == old(currentUser) && userData == old(userData) && friendsData == old(friendsData)
      ensures store == old(store) && friendListeners == old(friendListeners)
      ensures isDevMode == old(isDevMode) && draft == old(draft) && areas == old(areas) && areaOrder == old(areaOrder)
    {
      modal := m;
    }

    /** Closing any modal other than the naming one. */
    method CloseModal()
      requires Valid() && modal != AreaName
      modifies this
      ensures Valid()
      ensures modal == NoModal
      ensures currentUser == old(currentUser) && userData == old(userData) && friendsData == old(friendsData)
      ensures store == old(store) && friendListeners == old(friendListeners)
      ensures isDevMode == old(isDevMode) && draft == old(draft) && areas == old(areas) && areaOrder == old(areaOrder)
    {
      modal := NoModal;
    }

    /** Deleting an area from the locations manager, once confirmed. The
        page's own map changes only with the next areas snapshot. */
    method DeleteArea(areaId: AreaId, confirmed: bool)
      requires Valid()
      modifies this
      ensures Valid()
      ensures store == if confirmed then old(store).(areaDocs := old(store).areaDocs - {areaId}) else old(store)
      ensures areaId !in store.areaDocs || !confirmed
      ensures currentUser == old(currentUser) && userData == old(userData) && friendsData == old(friendsData)
      ensures modal == old(modal) && friendListeners == old(friendListeners)
      ensures isDevMode == old(isDevMode) && draft == old(draft) && areas == old(areas) && areaOrder == old(areaOrder)
    {
      if confirmed {
        store := store.(areaDocs := store.areaDocs - {areaId});
      }
    }

    /** What the page renders through the map: the redraw of its own areas,
        key order, mode and draft, and one marker for each friend entry
        holding a located profile. `keys` is the order in which the friend
        object yields its entries. */
    method RenderMap(hasCanvas: bool, image: Option<Size>, keys: seq<Uid>)
      returns (cmds: seq<DrawCmd>, ms: seq<Marker>)
      requires Valid()
      requires EnumeratesKeys(keys, friendsData)
      ensures cmds == RedrawCommands(hasCanvas, image, areas, areaOrder, isDevMode, draft)
      ensures hasCanvas && image.Some? ==>
        StrokeCount(cmds) == |OutlinedAreas(areas)| + (if isDevMode && |draft| > 0 then 1 else 0)
      ensures ms == Markers(EntryValues(keys, friendsData))
      ensures |ms| == |LocatedKeys(friendsData)|
      ensures forall k :: k in LocatedKeys(friendsData) ==> MarkerOf(friendsData[k].value) in ms
      ensures forall m :: m in ms ==> exists k :: k in LocatedKeys(friendsData) && m == MarkerOf(friendsData[k].value)
    {
      cmds := RedrawAll(hasCanvas, image, areas, areaOrder, isDevMode, draft);
      ms := Markers(EntryValues(keys, friendsData));
      FriendMarkers(keys, friendsData);
    }
  }

  /** The values of `m` at `keys`, in that order. */
  function EntryValues(keys: seq<Uid>, m: map<Uid, Option<Profile>>): (vs: seq<Option<Profile>>)
    requires forall i :: 0 <= i < |keys| ==> keys[i] in m
    ensures |vs| == |keys| && forall i :: 0 <= i < |keys| ==> vs[i] == m[keys[i]]
  {
    seq(|keys|, i requires 0 <= i < |keys| => m[keys[i]])
  }

  /** The friend entries holding a located profile. */
  function LocatedKeys(m: map<Uid, Option<Profile>>): set<Uid> {
    set k | k in m && Located(m[k])
  }

  function LocatedIn(keys: seq<Uid>, m: map<Uid, Option<Profile>>): set<Uid> {
    set k | k in keys && k in m && Located(m[k])
  }

  /** Over distinct keys, the located positions of the values are as many as
      the located keys. */
  lemma {:induction false} LocatedCount(keys: seq<Uid>, m: map<Uid, Option<Profile>>)
    requires forall i :: 0 <= i < |keys| ==> keys[i] in m
    requires forall i, j :: 0 <= i < j < |keys| ==> keys[i] != keys[j]
    ensures |LocatedAt(EntryValues(keys, m))| == |LocatedIn(keys, m)|
  {
    if keys != [] {
      var n := |keys| - 1;
      var pre := keys[..n];
      LocatedCount(pre, m);
      var users := EntryValues(keys, m);
      EntryValuesPrefix(keys, m);
      LocatedAtStep(users);
      LocatedInStep(keys, m);
    }
  }

  lemma EntryValuesPrefix(keys: seq<Uid>, m: map<Uid, Option<Profile>>)
    requires forall i :: 0 <= i < |keys| ==> keys[i] in m
    requires keys != []
    ensures EntryValues(keys, m)[..|keys| - 1] == EntryValues(keys[..|keys| - 1], m)
  {
  }

  lemma LocatedInStep(keys: seq<Uid>, m: map<Uid, Option<Profile>>)
    requires forall i :: 0 <= i < |keys| ==> keys[i] in m
    requires forall i, j :: 0 <= i < j < |keys| ==> keys[i] != keys[j]
    requires keys != []
    ensures var n := |keys| - 1;
      |LocatedIn(keys, m)| == |LocatedIn(keys[..n], m)| + (if Located(m[keys[n]]) then 1 else 0)
  {
    var n := |keys| - 1;
    var pre, last := keys[..n], keys[n];
    assert keys == pre + [last];
    assert last !in pre;
    assert LocatedIn(keys, m) == LocatedIn(pre, m) + (if Located(m[last]) then {last} else {});
  }

  /** The markers of the friend entries, listed in an order that enumerates
      the keys: exactly one per entry holding a located profile. */
  lemma FriendMarkers(keys: seq<Uid>, m: map<Uid, Option<Profile>>)
    requires EnumeratesKeys(keys, m)
    ensures var ms := Markers(EntryValues(keys, m));
      && |ms| == |LocatedKeys(m)|
      && (forall k :: k in LocatedKeys(m) ==> MarkerOf(m[k].value) in ms)
      && (forall mk :: mk in ms ==> exists k :: k in LocatedKeys(m) && mk == MarkerOf(m[k].value))
  {
    LocatedCount(keys, m);
    assert LocatedIn(keys, m) == LocatedKeys(m);
    FriendMarkersShown(keys, m);
    FriendMarkersSound(keys, m);
  }

  lemma FriendMarkersShown(keys: seq<Uid>, m: map<Uid, Option<Profile>>)
    requires EnumeratesKeys(keys, m)
    ensures forall k :: k in LocatedKeys(m) ==> MarkerOf(m[k].value) in Markers(EntryValues(keys, m))
  {
    var users := EntryValues(keys, m);
    forall k | k in LocatedKeys(m)
      ensures MarkerOf(m[k].value) in Markers(users)
    {
      var i :| 0 <= i < |keys| && keys[i] == k;
      assert users[i] == m[k];
    }
  }

  lemma FriendMarkersSound(keys: seq<Uid>, m: map<Uid, Option<Profile>>)
    requires forall i :: 0 <= i < |keys| ==> keys[i] in m
    ensures forall mk :: mk in Markers(EntryValues(keys, m)) ==>
      exists k :: k in LocatedKeys(m) && mk == MarkerOf(m[k].value)
  {
    forall mk | mk in Markers(EntryValues(keys, m))
      ensures exists k :: k in LocatedKeys(m) && mk == MarkerOf(m[k].value)
    {
      MarkerFromEntry(keys, m, mk);
    }
  }

  lemma MarkerFromEntry(keys: seq<Uid>, m: map<Uid, Option<Profile>>, mk: Marker)
    requires forall i :: 0 <= i < |keys| ==> keys[i] in m
    requires mk in Markers(EntryValues(keys, m))
    ensures exists k :: k in LocatedKeys(m) && mk == MarkerOf(m[k].value)
  {
    var u :| u in EntryValues(keys, m) && Located(u) && mk == MarkerOf(u.value);
    var k := KeyOfEntry(keys, m, u);
    assert k in LocatedKeys(m) && mk == MarkerOf(m[k].value);
  }

  /** A located entry value comes from a friend entry with a location. */
  lemma KeyOfEntry(keys: seq<Uid>, m: map<Uid, Option<Profile>>, u: Option<Profile>) returns (k: Uid)
    requires forall i :: 0 <= i < |keys| ==> keys[i] in m
    requires u in EntryValues(keys, m) && Located(u)
    ensures k in LocatedKeys(m) && m[k] == u
  {
    var users := EntryValues(keys, m);
    var i :| 0 <= i < |users| && users[i] == u;
    k := keys[i];
  }

  /** The worked authoring session: three vertices, a click next to the first
      one closes the polygon without adding a vertex, naming it with the empty
      name is refused, and naming it "Main Stage" stores it and ends authoring. */
  method AuthoringScenario()
    returns (closedDraft: seq<Point>, emptyNameSaved: bool, doc: AreaDoc, finalDraft: seq<Point>, finalDevMode: bool)
    ensures closedDraft == [Point(0.1, 0.1), Point(0.5, 0.1), Point(0.5, 0.5)]
    ensures !emptyNameSaved
    ensures doc == AreaDoc("Main Stage", Some(closedDraft))
    ensures finalDraft == [] && !finalDevMode
  {
    var page := new HomePage(Store(map[], map[], map[]));
    page.AddNewLocation();
    page.HandleCanvasClick(Point(0.1, 0.1));
    page.HandleCanvasClick(Point(0.5, 0.1));
    page.HandleCanvasClick(Point(0.5, 0.5));
    TriangleScenarioCloses();
    page.HandleCanvasClick(Point(0.105, 0.105));
    assert page.AuthoringPhase() == PendingName;
    closedDraft := page.draft;
    emptyNameSaved := page.SaveArea("", "area-1");
    var saved := page.SaveArea("Main Stage", "area-1");
    assert saved && page.AuthoringPhase() == Idle;
    doc := page.store.areaDocs["area-1"];
    finalDraft, finalDevMode := page.draft, page.isDevMode;
  }
}
