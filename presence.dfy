/** User profiles, the public profile index and the remote store they live in,
    with the pure operations the page applies to them: first sign-in setup,
    email lowercasing, set-union into `friends`, and the email lookup. */
module Presence {
  import opened Wrappers
  import opened Geofence

  type Uid = string

  /** A profile's `location` field: null, a point, or the NaN pair written by
      a check-in on an area whose polygon is an empty list (0 / 0). */
  datatype Location = Unset | At(p: Point) | NotANumber

  /** What the sign-in provider reports about the signed-in user. */
  datatype AuthUser = AuthUser(uid: Uid, displayName: Option<string>, email: Option<string>, photoURL: Option<string>)

  /** An entry of the public profile index, queried by email. */
  datatype PublicProfile = PublicProfile(uid: Uid, displayName: Option<string>, email: Option<string>, photoURL: Option<string>)

  /** A user's own profile document. `friends` is the stored array. */
  datatype Profile = Profile(
    uid: Uid, displayName: Option<string>, email: Option<string>, photoURL: Option<string>,
    friends: seq<Uid>, location: Location, currentArea: string, useGps: bool)

  /** The remote store: profile documents and index entries keyed by uid, and
      area documents keyed by their generated id. */
  datatype Store = Store(profiles: map<Uid, Profile>, index: map<Uid, PublicProfile>, areaDocs: map<AreaId, AreaDoc>)

  /** The area label a new profile starts with. */
  const UnknownArea: string := "unknown"

  function LowerChar(c: char): char {
    if 'A' <= c <= 'Z' then (c as int + 32) as char else c
  }

  /** Lowercasing of the ASCII letters A-Z; every other character is kept. */
  function ToLower(s: string): (r: string)
    ensures |r| == |s|
    ensures forall i :: 0 <= i < |r| ==> !('A' <= r[i] <= 'Z')
    ensures forall i :: 0 <= i < |r| ==> r[i] == s[i] || ('A' <= s[i] <= 'Z' && r[i] as int == s[i] as int + 32)
  {
    seq(|s|, i requires 0 <= i < |s| => LowerChar(s[i]))
  }

  lemma ToLowerIdempotent(s: string)
    ensures ToLower(ToLower(s)) == ToLower(s)
  {
  }

  /** The email as stored: lowercased, or null when the provider gave none
      or gave the empty string (which JavaScript treats as false). */
  function StoredEmail(email: Option<string>): Option<string> {
    match email
    case None => None
    case Some(e) => if e == [] then None else Some(ToLower(e))
  }

  function IndexEntryOf(user: AuthUser): PublicProfile {
    PublicProfile(user.uid, user.displayName, StoredEmail(user.email), user.photoURL)
  }

  function NewProfile(user: AuthUser): Profile {
    Profile(user.uid, user.displayName, StoredEmail(user.email), user.photoURL, [], Unset, UnknownArea, true)
  }

  /** First sign-in: when the user has no profile document, write the profile
      and its index entry; otherwise change nothing (the index is not examined). */
  function SetupUser(store: Store, user: AuthUser): (s: Store)
    ensures user.uid in s.profiles
    ensures user.uid in store.profiles ==> s == store
    ensures user.uid !in store.profiles ==>
      s.profiles[user.uid] == NewProfile(user) && user.uid in s.index && s.index[user.uid] == IndexEntryOf(user)
    ensures s.areaDocs == store.areaDocs
    ensures forall u :: u != user.uid ==>
      (u in s.profiles <==> u in store.profiles) && (u in s.profiles ==> s.profiles[u] == store.profiles[u])
    ensures forall u :: u != user.uid ==>
      (u in s.index <==> u in store.index) && (u in s.index ==> s.index[u] == store.index[u])
  {
    if user.uid in store.profiles then store
    else store.(profiles := store.profiles[user.uid := NewProfile(user)],
                index := store.index[user.uid := IndexEntryOf(user)])
  }

  /** A second setup for the same user is a no-op. */
  lemma SetupUserIdempotent(store: Store, user: AuthUser)
    ensures SetupUser(SetupUser(store, user), user) == SetupUser(store, user)
  {
  }

  /** A freshly written profile: the lowercased email, or null for a missing
      or empty one; and for every user no friends, no location, area
      "unknown", GPS reporting on. */
  lemma NewProfileDefaults(user: AuthUser)
    ensures user.email.Some? && user.email.value != [] ==> NewProfile(user).email == Some(ToLower(user.email.value))
    ensures user.email.None? || user.email == Some([]) ==> NewProfile(user).email == None
    ensures NewProfile(user).friends == [] && NewProfile(user).location == Unset
    ensures NewProfile(user).currentArea == "unknown" && NewProfile(user).useGps
  {
  }

  /** The store's arrayUnion on one element: append when absent. */
  function ArrayUnion(xs: seq<Uid>, u: Uid): (r: seq<Uid>)
    ensures forall v :: v in r <==> v in xs || v == u
    ensures xs <= r && |r| <= |xs| + 1
  {
    if u in xs then xs else xs + [u]
  }

  /** Adding the same uid twice gives the same array as adding it once. */
  lemma ArrayUnionIdempotent(xs: seq<Uid>, u: Uid)
    ensures ArrayUnion(ArrayUnion(xs, u), u) == ArrayUnion(xs, u)
  {
  }

  predicate Distinct(xs: seq<Uid>) {
    forall i, j :: 0 <= i < j < |xs| ==> xs[i] != xs[j]
  }

  /** An array kept only through arrayUnion never holds a uid twice. */
  lemma ArrayUnionKeepsDistinct(xs: seq<Uid>, u: Uid)
    requires Distinct(xs)
    ensures Distinct(ArrayUnion(xs, u))
  {
    if u !in xs {
      var r := xs + [u];
      forall i, j | 0 <= i < j < |r| ensures r[i] != r[j] {
        if j == |xs| {
          assert r[i] == xs[i];
        }
      }
    }
  }

  /** The uids of the index entries whose stored email equals `email`. */
  function MatchingUids(index: map<Uid, PublicProfile>, email: string): set<Uid> {
    set u | u in index && index[u].email == Some(email)
  }

  /** A user set up with a non-empty email is found by the lowercased query
      for any spelling of that email that differs from it only in the case
      of ASCII letters, and every other user's matches stay as they were. */
  lemma SetupThenFind(store: Store, user: AuthUser, e: string, q: string)
    requires user.uid !in store.profiles && user.email == Some(e) && e != []
    requires ToLower(q) == ToLower(e)
    ensures user.uid in MatchingUids(SetupUser(store, user).index, ToLower(q))
    ensures MatchingUids(SetupUser(store, user).index, ToLower(q)) - {user.uid} ==
            MatchingUids(store.index, ToLower(q)) - {user.uid}
  {
    var s := SetupUser(store, user);
    assert s.index[user.uid].email == Some(ToLower(q));
  }

  /** A query whose lowercased form differs from the lowercased email does not
      find the newly set-up user, and one set up without an email (none, or
      the empty string) is found by no query. */
  lemma SetupThenMiss(store: Store, user: AuthUser, q: string)
    requires user.uid !in store.profiles
    requires user.email == None || user.email == Some([]) || ToLower(q) != ToLower(user.email.value)
    ensures user.uid !in MatchingUids(SetupUser(store, user).index, ToLower(q))
  {
    var s := SetupUser(store, user);
    assert s.index[user.uid].email == StoredEmail(user.email);
  }

  /** Lexicographic order on strings by character code, the order in which
      the store returns documents (by id). */
  predicate LexLe(a: string, b: string) {
    |a| == 0 || (|b| > 0 && (a[0] < b[0] || (a[0] == b[0] && LexLe(a[1..], b[1..]))))
  }

  lemma {:induction false} LexLeReflexive(a: string)
    ensures LexLe(a, a)
  {
    if |a| > 0 {
      LexLeReflexive(a[1..]);
    }
  }

  lemma {:induction false} LexLeTotal(a: string, b: string)
    ensures LexLe(a, b) || LexLe(b, a)
  {
    if |a| > 0 && |b| > 0 && a[0] == b[0] {
      LexLeTotal(a[1..], b[1..]);
    }
  }

  lemma {:induction false} LexLeTransitive(a: string, b: string, c: string)
    requires LexLe(a, b) && LexLe(b, c)
    ensures LexLe(a, c)
  {
    if |a| > 0 && a[0] == b[0] && b[0] == c[0] {
      LexLeTransitive(a[1..], b[1..], c[1..]);
    }
  }

  lemma {:induction false} LexLeAntisymmetric(a: string, b: string)
    requires LexLe(a, b) && LexLe(b, a)
    ensures a == b
  {
    if |a| > 0 {
      LexLeAntisymmetric(a[1..], b[1..]);
      assert a == [a[0]] + a[1..] && b == [b[0]] + b[1..];
    }
  }

  /** `u` is the id of the first document of a query whose result ids are `s`. */
  predicate IsFirstDoc(u: Uid, s: set<Uid>) {
    u in s && forall v :: v in s ==> LexLe(u, v)
  }

  /** A non-empty query result has a first document. */
  lemma {:induction false} FirstDocExists(s: set<Uid>)
    requires s != {}
    ensures exists u :: IsFirstDoc(u, s)
    decreases |s|
  {
    var x :| x in s;
    if s == {x} {
      LexLeReflexive(x);
      assert IsFirstDoc(x, s);
    } else {
      var rest := s - {x};
      FirstDocExists(rest);
      var m :| IsFirstDoc(m, rest);
      LexLeTotal(x, m);
      if LexLe(x, m) {
        forall v | v in s ensures LexLe(x, v) {
          if v != x {
            LexLeTransitive(x, m, v);
          } else {
            LexLeReflexive(x);
          }
        }
        assert IsFirstDoc(x, s);
      } else {
        assert LexLe(m, x);
        assert IsFirstDoc(m, s);
      }
    }
  }

  /** The first document is determined by the result set. */
  lemma FirstDocUnique(u: Uid, v: Uid, s: set<Uid>)
    requires IsFirstDoc(u, s) && IsFirstDoc(v, s)
    ensures u == v
  {
    LexLeAntisymmetric(u, v);
  }

  /** How an add-friend request ends. */
  datatype AddFriendOutcome = EmptyEmail | UserNotFound | CannotAddSelf | Added(friend: Uid) | UpdateFailed

  /** Writes a location and area label to a profile; a missing profile
      document makes the update fail and nothing changes. */
  function RecordPosition(store: Store, uid: Uid, loc: Location, area: string): (s: Store)
    ensures s.index == store.index && s.areaDocs == store.areaDocs && s.profiles.Keys == store.profiles.Keys
    ensures uid in store.profiles ==>
      s.profiles[uid] == store.profiles[uid].(location := loc, currentArea := area)
    ensures forall u :: u in store.profiles && u != uid ==> s.profiles[u] == store.profiles[u]
    ensures uid !in store.profiles ==> s == store
  {
    if uid in store.profiles
    then store.(profiles := store.profiles[uid := store.profiles[uid].(location := loc, currentArea := area)])
    else store
  }
}
