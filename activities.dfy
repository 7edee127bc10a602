/**
 * The activity roster of the home screen: an activity with its participant
 * count, participant list and pending join requests, the three roster
 * transitions (join request, accept, reject) on one activity and on the
 * whole list, the list-level search filter and the profile statistics.
 *
 * The participant count and the participant list are separate fields and
 * are not kept equal: an activity loaded from the store starts with a count
 * of 1 and an empty list.
 */
module Activities {
  import opened Common
  import opened Text
  import opened Seqs

  /** Requests are removed when resolved, so a present request is always pending. */
  datatype RequestStatus = Pending

  /** A join request: the requesting user's record spread together with `status: 'pending'`. */
  datatype JoinRequest = JoinRequest(user: Person, status: RequestStatus)

  datatype Activity = Activity(
    id: ActivityId,
    sport: string,
    title: string,
    date: string,
    time: string,
    location: string,
    city: string,
    maxParticipants: int,
    currentParticipants: int,
    createdBy: Person,
    participants: seq<Person>,
    requests: seq<JoinRequest>,
    description: string)

  /** A row of the activity store, as the list query and the insert return it. */
  datatype StoredRow = StoredRow(
    id: ActivityId,
    organizerId: UserId,
    sportType: string,
    title: string,
    description: Option<string>,
    date: string,
    time: string,
    city: string,
    location: string,
    maxParticipants: int)

  function PersonId(p: Person): UserId { p.id }
  function RequesterId(q: JoinRequest): UserId { q.user.id }
  function ActivityIdOf(a: Activity): ActivityId { a.id }

  /** `description || ''`: a missing or empty description becomes "". */
  function DescriptionOf(row: StoredRow): string
  {
    match row.description
    case None => ""
    case Some(d) => d
  }

  /**
   * The mapping applied to every row of the list query: a placeholder
   * organizer record, a participant count of 1 and empty participant and
   * request lists.
   */
  function LoadedActivity(row: StoredRow): (a: Activity)
    ensures a.id == row.id && a.createdBy.id == row.organizerId
    ensures a.currentParticipants == 1 && a.participants == [] && a.requests == []
  {
    Activity(row.id, row.sportType, row.title, row.date, row.time, row.location, row.city,
             row.maxParticipants, 1, Person(row.organizerId, "Organizatör", "👤"), [], [],
             DescriptionOf(row))
  }

  /** The activity built from the inserted row: the creator is its one participant. */
  function CreatedActivity(row: StoredRow, creator: Person): (a: Activity)
    ensures a.id == row.id && a.createdBy == creator
    ensures a.currentParticipants == 1 && a.participants == [creator] && a.requests == []
  {
    Activity(row.id, row.sportType, row.title, row.date, row.time, row.location, row.city,
             row.maxParticipants, 1, creator, [creator], [], DescriptionOf(row))
  }

  predicate IsParticipant(a: Activity, uid: UserId)
  {
    exists p :: p in a.participants && p.id == uid
  }

  predicate HasRequested(a: Activity, uid: UserId)
  {
    exists q :: q in a.requests && q.user.id == uid
  }

  predicate IsFull(a: Activity)
  {
    a.currentParticipants >= a.maxParticipants
  }

  /** The guard of a join request. The creator is not excluded. */
  predicate CanJoin(a: Activity, u: Person)
  {
    !IsParticipant(a, u.id) && !HasRequested(a, u.id) && a.currentParticipants < a.maxParticipants
  }

  /** The first pending request of `uid`, as `requests.find` returns it. */
  function RequestOf(rs: seq<JoinRequest>, uid: UserId): (r: Option<JoinRequest>)
    ensures r.None? <==> forall q :: q in rs ==> q.user.id != uid
    ensures r.Some? ==> r.value in rs && r.value.user.id == uid
  {
    Find(rs, (q: JoinRequest) => q.user.id == uid)
  }

  /** `requests.filter(r => r.id !== uid)`. */
  function WithoutRequestsOf(rs: seq<JoinRequest>, uid: UserId): (r: seq<JoinRequest>)
    ensures forall q :: q in r <==> q in rs && q.user.id != uid
    ensures IsSubsequence(r, rs)
    ensures DistinctBy(rs, RequesterId) ==> DistinctBy(r, RequesterId)
  {
    var keep := (q: JoinRequest) => q.user.id != uid;
    FilterIsSubsequence(rs, keep);
    FilterDistinctBy(rs, keep, RequesterId);
    Filter(rs, keep)
  }

  /**
   * A join request on one activity: append a pending request when the guard
   * holds. Only the request list can change, and it changes exactly when
   * the guard holds.
   */
  function Join(a: Activity, u: Person): (b: Activity)
    ensures b.(requests := a.requests) == a
    ensures b != a <==> CanJoin(a, u)
  {
    if CanJoin(a, u) then a.(requests := a.requests + [JoinRequest(u, Pending)]) else a
  }

  /**
   * Accepting `uid` on one activity: when `uid` has a request and the
   * activity is not full, the request's user becomes a participant, every
   * request of `uid` is removed and the count goes up by one. Otherwise the
   * activity is unchanged, so on a full activity the request stays pending.
   */
  function Accept(a: Activity, uid: UserId): (b: Activity)
    ensures b.(participants := a.participants, requests := a.requests,
               currentParticipants := a.currentParticipants) == a
    ensures b != a <==> HasRequested(a, uid) && !IsFull(a)
  {
    match RequestOf(a.requests, uid)
    case None => a
    case Some(r) =>
      if a.currentParticipants < a.maxParticipants then
        a.(participants := a.participants + [r.user],
           requests := WithoutRequestsOf(a.requests, uid),
           currentParticipants := a.currentParticipants + 1)
      else a
  }

  /**
   * Rejecting `uid` on one activity: every request of `uid` is removed, the
   * other requests stay in order, and nothing else changes.
   */
  function Reject(a: Activity, uid: UserId): (b: Activity)
    ensures !HasRequested(b, uid)
    ensures IsSubsequence(b.requests, a.requests)
    ensures forall q :: q in a.requests && q.user.id != uid ==> q in b.requests
    ensures b.(requests := a.requests) == a
  {
    a.(requests := WithoutRequestsOf(a.requests, uid))
  }

  // ---------------------------------------------------------------------------
  // Roster invariants

  predicate WithinCapacity(a: Activity)
  {
    a.currentParticipants <= a.maxParticipants
  }

  /**
   * No user is listed twice as a participant, no user has two requests, no
   * participant has a request, and the list never holds more people than
   * the count (with `WithinCapacity`, the list respects the maximum).
   */
  predicate RosterConsistent(a: Activity)
  {
    && |a.participants| <= a.currentParticipants
    && DistinctBy(a.participants, PersonId)
    && DistinctBy(a.requests, RequesterId)
    && forall p, q :: p in a.participants && q in a.requests ==> p.id != q.user.id
  }

  /** Both ways an activity enters the list start out consistent. */
  lemma NewActivitiesConsistent(row: StoredRow, creator: Person)
    ensures RosterConsistent(LoadedActivity(row))
    ensures RosterConsistent(CreatedActivity(row, creator))
  {
  }

  // ---------------------------------------------------------------------------
  // Join

  /** A second join request by the same user changes nothing. */
  lemma JoinIdempotent(a: Activity, u: Person)
    ensures Join(Join(a, u), u) == Join(a, u)
  {
    if CanJoin(a, u) {
      var b := Join(a, u);
      assert b.requests[|a.requests|] in b.requests;
      assert HasRequested(b, u.id);
    }
  }

  /**
   * A successful join appends exactly one pending request for the user at
   * the end, and after a second join it is still the only request of that
   * user; the count and the participant list are unchanged.
   */
  lemma JoinTwiceOnePending(a: Activity, u: Person)
    requires CanJoin(a, u)
    ensures Join(Join(a, u), u).requests == a.requests + [JoinRequest(u, Pending)]
    ensures forall i :: 0 <= i < |a.requests| ==> a.requests[i].user.id != u.id
    ensures Join(Join(a, u), u).participants == a.participants
    ensures Join(Join(a, u), u).currentParticipants == a.currentParticipants
  {
    JoinIdempotent(a, u);
    forall i | 0 <= i < |a.requests| ensures a.requests[i].user.id != u.id {
      assert a.requests[i] in a.requests;
    }
  }

  /** The join guard fails when the user is a participant, has a request, or the activity is full. */
  lemma JoinGuardFails(a: Activity, u: Person)
    requires IsParticipant(a, u.id) || HasRequested(a, u.id) || IsFull(a)
    ensures Join(a, u) == a
  {
  }

  /**
   * The guard does not exclude the creator: on a freshly loaded activity
   * with room left, the creator's own join request is recorded.
   */
  lemma CreatorMayRequestOwnActivity(row: StoredRow)
    requires row.maxParticipants > 1
    ensures HasRequested(Join(LoadedActivity(row), LoadedActivity(row).createdBy), row.organizerId)
  {
    var a := LoadedActivity(row);
    assert !HasRequested(a, row.organizerId) && !IsParticipant(a, row.organizerId);
    assert Join(a, a.createdBy).requests == [JoinRequest(a.createdBy, Pending)];
    assert JoinRequest(a.createdBy, Pending) in Join(a, a.createdBy).requests;
  }

  lemma {:induction false} JoinPreservesRoster(a: Activity, u: Person)
    ensures WithinCapacity(a) ==> WithinCapacity(Join(a, u))
    ensures RosterConsistent(a) ==> RosterConsistent(Join(a, u))
  {
    if CanJoin(a, u) && RosterConsistent(a) {
      var b := Join(a, u);
      var rs := b.requests;
      forall i, j | 0 <= i < j < |rs| ensures RequesterId(rs[i]) != RequesterId(rs[j]) {
        if j == |rs| - 1 {
          assert rs[i] in a.requests;
        } else {
          assert rs[i] == a.requests[i] && rs[j] == a.requests[j];
        }
      }
      forall p, q | p in b.participants && q in rs ensures p.id != q.user.id {
        if q !in a.requests {
          assert q == JoinRequest(u, Pending);
        }
      }
    }
  }

  // ---------------------------------------------------------------------------
  // Accept

  /**
   * Accepting a requester on an activity with room: the requester is
   * removed from the requests (all of their requests), appended to the
   * participants, the count goes up by exactly one (so the difference
   * between the count and the list length is kept), and every other
   * request stays, in order.
   */
  lemma AcceptEffect(a: Activity, uid: UserId)
    requires HasRequested(a, uid) && !IsFull(a)
    ensures var b := Accept(a, uid);
      && b.currentParticipants == a.currentParticipants + 1
      && b.participants == a.participants + [RequestOf(a.requests, uid).value.user]
      && b.currentParticipants - |b.participants| == a.currentParticipants - |a.participants|
      && !HasRequested(b, uid) && IsParticipant(b, uid)
      && IsSubsequence(b.requests, a.requests)
      && (forall q :: q in a.requests && q.user.id != uid ==> q in b.requests)
      && b.(participants := a.participants, requests := a.requests,
            currentParticipants := a.currentParticipants) == a
  {
    var b := Accept(a, uid);
    var r := RequestOf(a.requests, uid).value;
    assert b.participants == a.participants + [r.user];
    assert b.participants[|a.participants|] in b.participants;
  }

  /** Accept on a full activity, or for a user without a request, changes nothing. */
  lemma AcceptNoop(a: Activity, uid: UserId)
    requires IsFull(a) || !HasRequested(a, uid)
    ensures Accept(a, uid) == a
  {
  }

  lemma {:induction false} AcceptPreservesRoster(a: Activity, uid: UserId)
    ensures WithinCapacity(a) ==> WithinCapacity(Accept(a, uid))
    ensures RosterConsistent(a) ==> RosterConsistent(Accept(a, uid))
  {
    if RequestOf(a.requests, uid).Some? && !IsFull(a) && RosterConsistent(a) {
      var r := RequestOf(a.requests, uid).value;
      var b := Accept(a, uid);
      var ps := b.participants;
      assert ps == a.participants + [r.user];
      forall i, j | 0 <= i < j < |ps| ensures PersonId(ps[i]) != PersonId(ps[j]) {
        if j == |ps| - 1 {
          assert ps[i] in a.participants;
        } else {
          assert ps[i] == a.participants[i] && ps[j] == a.participants[j];
        }
      }
      forall p, q | p in ps && q in b.requests ensures p.id != q.user.id {
        if p !in a.participants {
          assert p == r.user;
        }
      }
    }
  }

  // ---------------------------------------------------------------------------
  // Reject

  /**
   * Rejecting a requester removes all of that user's requests, keeps the
   * other requests in order, and leaves everything else unchanged.
   */
  lemma RejectEffect(a: Activity, uid: UserId)
    ensures var b := Reject(a, uid);
      && !HasRequested(b, uid)
      && IsSubsequence(b.requests, a.requests)
      && (forall q :: q in a.requests && q.user.id != uid ==> q in b.requests)
      && b.(requests := a.requests) == a
  {
  }

  lemma {:induction false} RejectPreservesRoster(a: Activity, uid: UserId)
    ensures WithinCapacity(a) ==> WithinCapacity(Reject(a, uid))
    ensures RosterConsistent(a) ==> RosterConsistent(Reject(a, uid))
  {
  }

  // ---------------------------------------------------------------------------
  // The activity list

  /** `activities.map(act => act.id === id ? f(act) : act)`. */
  function UpdateWhere(acts: seq<Activity>, id: ActivityId, f: Activity -> Activity): (r: seq<Activity>)
    ensures |r| == |acts|
    ensures forall i :: 0 <= i < |acts| ==> r[i] == if acts[i].id == id then f(acts[i]) else acts[i]
  {
    seq(|acts|, i requires 0 <= i < |acts| => if acts[i].id == id then f(acts[i]) else acts[i])
  }

  /**
   * A join request on the list: no activity's participants or count change,
   * and every activity with another identifier is left as it is.
   */
  function JoinAll(acts: seq<Activity>, id: ActivityId, u: Person): (r: seq<Activity>)
    ensures |r| == |acts|
    ensures forall i :: 0 <= i < |acts| ==>
      && r[i].id == acts[i].id
      && r[i].participants == acts[i].participants
      && r[i].currentParticipants == acts[i].currentParticipants
    ensures forall i :: 0 <= i < |acts| && acts[i].id != id ==> r[i] == acts[i]
    ensures forall i :: 0 <= i < |acts| && acts[i].id == id ==> r[i] == Join(acts[i], u)
  {
    UpdateWhere(acts, id, a => Join(a, u))
  }

  /**
   * Accept on the list: on every activity with the identifier that has a
   * free seat, `uid` no longer has a request; every other activity is left
   * as it is.
   */
  function AcceptAll(acts: seq<Activity>, id: ActivityId, uid: UserId): (r: seq<Activity>)
    ensures |r| == |acts|
    ensures forall i :: 0 <= i < |acts| ==> r[i].id == acts[i].id
    ensures forall i :: 0 <= i < |acts| && acts[i].id == id && !IsFull(acts[i]) ==> !HasRequested(r[i], uid)
    ensures forall i :: 0 <= i < |acts| && acts[i].id != id ==> r[i] == acts[i]
    ensures forall i :: 0 <= i < |acts| && acts[i].id == id ==> r[i] == Accept(acts[i], uid)
  {
    UpdateWhere(acts, id, a => Accept(a, uid))
  }

  /**
   * Reject on the list: every activity with the identifier loses the
   * requests of `uid`; every other activity is left as it is.
   */
  function RejectAll(acts: seq<Activity>, id: ActivityId, uid: UserId): (r: seq<Activity>)
    ensures |r| == |acts|
    ensures forall i :: 0 <= i < |acts| ==> r[i].id == acts[i].id
    ensures forall i :: 0 <= i < |acts| && acts[i].id == id ==> !HasRequested(r[i], uid)
    ensures forall i :: 0 <= i < |acts| && acts[i].id != id ==> r[i] == acts[i]
    ensures forall i :: 0 <= i < |acts| && acts[i].id == id ==> r[i] == Reject(acts[i], uid)
  {
    UpdateWhere(acts, id, a => Reject(a, uid))
  }

  /** `activities.find(a => a.id === id)`. */
  function FindActivity(acts: seq<Activity>, id: ActivityId): (r: Option<Activity>)
    ensures r.None? <==> forall a :: a in acts ==> a.id != id
    ensures r.Some? ==> r.value in acts && r.value.id == id
  {
    Find(acts, (a: Activity) => a.id == id)
  }

  predicate DistinctIds(acts: seq<Activity>)
  {
    DistinctBy(acts, ActivityIdOf)
  }

  predicate AllWithinCapacity(acts: seq<Activity>)
  {
    forall a :: a in acts ==> WithinCapacity(a)
  }

  predicate AllConsistent(acts: seq<Activity>)
  {
    forall a {:trigger RosterConsistent(a)} :: a in acts ==> RosterConsistent(a)
  }

  /** With distinct identifiers, the activity `find` returns is the one at that identifier. */
  lemma FindUnique(acts: seq<Activity>, i: nat)
    requires DistinctIds(acts) && i < |acts|
    ensures FindActivity(acts, acts[i].id) == Some(acts[i])
  {
    var a := FindActivity(acts, acts[i].id).value;
    var k :| 0 <= k < |acts| && acts[k] == a;
    assert ActivityIdOf(acts[k]) == ActivityIdOf(acts[i]);
  }

  /** A roster transition keeps every identifier where it was. */
  lemma UpdateKeepsIds(acts: seq<Activity>, id: ActivityId, f: Activity -> Activity)
    requires forall a :: f(a).id == a.id
    ensures DistinctIds(acts) ==> DistinctIds(UpdateWhere(acts, id, f))
    ensures forall i :: 0 <= i < |acts| ==> UpdateWhere(acts, id, f)[i].id == acts[i].id
  {
    var r := UpdateWhere(acts, id, f);
    assert forall i :: 0 <= i < |acts| ==> ActivityIdOf(r[i]) == ActivityIdOf(acts[i]);
  }

  /** Appending an activity with a fresh identifier keeps the identifiers distinct. */
  lemma AppendFreshKeepsIds(acts: seq<Activity>, a: Activity)
    requires DistinctIds(acts)
    requires forall b :: b in acts ==> b.id != a.id
    ensures DistinctIds(acts + [a])
  {
    var r := acts + [a];
    forall i, j | 0 <= i < j < |r| ensures ActivityIdOf(r[i]) != ActivityIdOf(r[j]) {
      if j == |acts| {
        assert r[i] in acts;
      } else {
        assert r[i] == acts[i] && r[j] == acts[j];
      }
    }
  }

  /**
   * A join request on an activity that is missing, or whose guard fails,
   * leaves the whole list unchanged.
   */
  lemma JoinAllNoop(acts: seq<Activity>, id: ActivityId, u: Person)
    requires DistinctIds(acts)
    requires FindActivity(acts, id).None? || !CanJoin(FindActivity(acts, id).value, u)
    ensures JoinAll(acts, id, u) == acts
  {
    var r := JoinAll(acts, id, u);
    forall i | 0 <= i < |acts| ensures r[i] == acts[i] {
      if acts[i].id == id {
        FindUnique(acts, i);
      }
    }
  }

  /**
   * After a successful join request the same request again is a no-op: the
   * targeted activity's guard now fails, so neither the list nor the feed
   * changes on the second call.
   */
  lemma SecondJoinIsNoop(acts: seq<Activity>, id: ActivityId, u: Person)
    requires DistinctIds(acts)
    ensures var once := JoinAll(acts, id, u);
      && DistinctIds(once)
      && (FindActivity(once, id).None? || !CanJoin(FindActivity(once, id).value, u))
      && JoinAll(once, id, u) == once
  {
    var once := JoinAll(acts, id, u);
    UpdateKeepsIds(acts, id, a => Join(a, u));
    var found := FindActivity(once, id);
    if found.Some? {
      var k :| 0 <= k < |once| && once[k] == found.value;
      JoinIdempotent(acts[k], u);
      assert !CanJoin(found.value, u);
    }
    JoinAllNoop(once, id, u);
  }

  /**
   * Join, accept and reject keep the capacity bound (the count never
   * exceeds the maximum) and the roster consistency of every activity.
   */
  lemma {:induction false} TransitionsPreserveRosters(acts: seq<Activity>, id: ActivityId, u: Person, uid: UserId)
    ensures AllWithinCapacity(acts) ==> AllWithinCapacity(JoinAll(acts, id, u))
    ensures AllWithinCapacity(acts) ==> AllWithinCapacity(AcceptAll(acts, id, uid))
    ensures AllWithinCapacity(acts) ==> AllWithinCapacity(RejectAll(acts, id, uid))
    ensures AllConsistent(acts) ==> AllConsistent(JoinAll(acts, id, u))
    ensures AllConsistent(acts) ==> AllConsistent(AcceptAll(acts, id, uid))
    ensures AllConsistent(acts) ==> AllConsistent(RejectAll(acts, id, uid))
  {
    forall a | a in acts
      ensures WithinCapacity(a) ==> WithinCapacity(Join(a, u)) && WithinCapacity(Accept(a, uid)) && WithinCapacity(Reject(a, uid))
      ensures RosterConsistent(a) ==> RosterConsistent(Join(a, u)) && RosterConsistent(Accept(a, uid)) && RosterConsistent(Reject(a, uid))
    {
      JoinPreservesRoster(a, u);
      AcceptPreservesRoster(a, uid);
      RejectPreservesRoster(a, uid);
    }
    forall b | b in JoinAll(acts, id, u) ensures exists a :: a in acts && (b == a || b == Join(a, u)) {
      var i :| 0 <= i < |acts| && JoinAll(acts, id, u)[i] == b;
      assert acts[i] in acts;
    }
    forall b | b in AcceptAll(acts, id, uid) ensures exists a :: a in acts && (b == a || b == Accept(a, uid)) {
      var i :| 0 <= i < |acts| && AcceptAll(acts, id, uid)[i] == b;
      assert acts[i] in acts;
    }
    forall b | b in RejectAll(acts, id, uid) ensures exists a :: a in acts && (b == a || b == Reject(a, uid)) {
      var i :| 0 <= i < |acts| && RejectAll(acts, id, uid)[i] == b;
      assert acts[i] in acts;
    }
  }

  /**
   * The invariant the home screen keeps over its activity list, distinct
   * identifiers and consistent rosters, survives join, accept and reject.
   */
  lemma TransitionsKeepInvariant(acts: seq<Activity>, id: ActivityId, u: Person, uid: UserId)
    requires DistinctIds(acts) && AllConsistent(acts)
    ensures DistinctIds(JoinAll(acts, id, u)) && AllConsistent(JoinAll(acts, id, u))
    ensures DistinctIds(AcceptAll(acts, id, uid)) && AllConsistent(AcceptAll(acts, id, uid))
    ensures DistinctIds(RejectAll(acts, id, uid)) && AllConsistent(RejectAll(acts, id, uid))
  {
    UpdateKeepsIds(acts, id, a => Join(a, u));
    UpdateKeepsIds(acts, id, a => Accept(a, uid));
    UpdateKeepsIds(acts, id, a => Reject(a, uid));
    TransitionsPreserveRosters(acts, id, u, uid);
  }

  // ---------------------------------------------------------------------------
  // Queries

  /**
   * The home screen filter: a sport ('all' or exact), a city ('all' or
   * exact), and a search term found, case-insensitively, in the title, the
   * sport or the location.
   */
  predicate MatchesFilters(a: Activity, sport: string, city: string, term: string)
  {
    && (sport == "all" || a.sport == sport)
    && (city == "all" || a.city == city)
    && (|| Includes(ToLower(a.title), ToLower(term))
        || Includes(ToLower(a.sport), ToLower(term))
        || Includes(ToLower(a.location), ToLower(term)))
  }

  /** `filteredActivities`. */
  function FilteredActivities(acts: seq<Activity>, sport: string, city: string, term: string): seq<Activity>
  {
    Filter(acts, a => MatchesFilters(a, sport, city, term))
  }

  /**
   * The filtered list is an order-preserving subsequence of the activities
   * holding exactly the activities that match.
   */
  lemma FilteredIsMatchingSubsequence(acts: seq<Activity>, sport: string, city: string, term: string)
    ensures var r := FilteredActivities(acts, sport, city, term);
      && IsSubsequence(r, acts)
      && forall a :: a in r <==> a in acts && MatchesFilters(a, sport, city, term)
  {
    FilterIsSubsequence(acts, a => MatchesFilters(a, sport, city, term));
  }

  /** With both selectors on 'all' and an empty search term, every activity is shown. */
  lemma NoFilterShowsAll(acts: seq<Activity>)
    ensures FilteredActivities(acts, "all", "all", "") == acts
  {
    forall a | a in acts ensures MatchesFilters(a, "all", "all", "") {
      IncludesEmpty(ToLower(a.title));
    }
    FilterKeepsAll(acts, a => MatchesFilters(a, "all", "all", ""));
  }

  /** The profile statistic "created": activities whose creator is `uid`. */
  function CreatedCount(acts: seq<Activity>, uid: UserId): (n: nat)
    ensures n <= |acts|
    ensures n == 0 <==> forall a :: a in acts ==> a.createdBy.id != uid
  {
    var r := Filter(acts, (a: Activity) => a.createdBy.id == uid);
    assert r != [] ==> r[0] in r;
    |r|
  }

  /** The profile statistic "joined": activities listing `uid` as a participant. */
  function JoinedCount(acts: seq<Activity>, uid: UserId): (n: nat)
    ensures n <= |acts|
    ensures n == 0 <==> forall a :: a in acts ==> !IsParticipant(a, uid)
  {
    var r := Filter(acts, a => IsParticipant(a, uid));
    assert r != [] ==> r[0] in r;
    |r|
  }

  /**
   * Creating an activity adds one to its creator's "created" and "joined"
   * statistics (the creator is its first participant) and leaves every
   * other user's "created" statistic unchanged.
   */
  lemma {:induction false} StatsAfterCreate(acts: seq<Activity>, row: StoredRow, creator: Person, uid: UserId)
    ensures CreatedCount(acts + [CreatedActivity(row, creator)], uid)
            == CreatedCount(acts, uid) + (if uid == creator.id then 1 else 0)
    ensures JoinedCount(acts + [CreatedActivity(row, creator)], creator.id) == JoinedCount(acts, creator.id) + 1
  {
    var a := CreatedActivity(row, creator);
    FilterAppend(acts, [a], (b: Activity) => b.createdBy.id == uid);
    FilterAppend(acts, [a], b => IsParticipant(b, creator.id));
    assert creator in a.participants;
    assert Filter([a], b => IsParticipant(b, creator.id)) == [a];
  }

  /**
   * A two-seat activity end to end: after creation, a request from another
   * user is pending; accepting it fills the activity with creator and
   * requester; a third user's request is then refused with no change.
   */
  lemma TwoSeatScenario(row: StoredRow, creator: Person, b: Person, c: Person)
    requires row.maxParticipants == 2
    requires b.id != creator.id && c.id != creator.id && c.id != b.id
    ensures var a1 := Join(CreatedActivity(row, creator), b);
      && a1.requests == [JoinRequest(b, Pending)]
      && var a2 := Accept(a1, b.id);
      && a2.participants == [creator, b] && a2.requests == [] && a2.currentParticipants == 2
      && IsFull(a2) && RosterConsistent(a2)
      && Join(a2, c) == a2
  {
    var a0 := CreatedActivity(row, creator);
    assert RosterConsistent(a0);
    assert !IsParticipant(a0, b.id) && !HasRequested(a0, b.id);
    var a1 := Join(a0, b);
    assert a1.requests == [JoinRequest(b, Pending)];
    JoinPreservesRoster(a0, b);
    assert RequestOf(a1.requests, b.id) == Some(JoinRequest(b, Pending));
    assert WithoutRequestsOf(a1.requests, b.id) == [];
    var a2 := Accept(a1, b.id);
    assert a2.participants == [creator, b] && a2.currentParticipants == 2;
    AcceptPreservesRoster(a1, b.id);
    JoinGuardFails(a2, c);
  }
}
