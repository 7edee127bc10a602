/**
 * The notification feed of the home screen: every successful roster
 * transition puts one unread notification at the front, with identifier
 * `length + 1`; notifications are only ever marked read, never removed.
 */
module Notifications {
  import opened Common
  import opened Seqs

  datatype Kind = ActivityCreated | RequestSent | RequestReceived | RequestAccepted | RequestRejected

  datatype Notification = Notification(
    id: int,
    kind: Kind,
    message: string,
    activityId: ActivityId,
    read: bool,
    timestamp: Timestamp)

  function NotificationId(n: Notification): int { n.id }

  predicate IsUnread(n: Notification) { !n.read }

  /** `[newNotification, ...notifications]` with `id: notifications.length + 1` and `read: false`. */
  function Push(ns: seq<Notification>, kind: Kind, message: string, activityId: ActivityId, now: Timestamp): seq<Notification>
  {
    [Notification(|ns| + 1, kind, message, activityId, false, now)] + ns
  }

  /** `markNotificationAsRead`: every notification with identifier `id` becomes read. */
  function MarkRead(ns: seq<Notification>, id: int): seq<Notification>
  {
    seq(|ns|, i requires 0 <= i < |ns| => if ns[i].id == id then ns[i].(read := true) else ns[i])
  }

  /** `markAllNotificationsAsRead`. */
  function MarkAllRead(ns: seq<Notification>): seq<Notification>
  {
    seq(|ns|, i requires 0 <= i < |ns| => ns[i].(read := true))
  }

  /** The badge count: `notifications.filter(n => !n.read).length`. */
  function UnreadCount(ns: seq<Notification>): nat
  {
    |Filter(ns, IsUnread)|
  }

  /**
   * The identifiers of a feed of length n are exactly 1..n, each once. The
   * demo feed (identifiers 1, 2, 3) satisfies it, and `length + 1` is then
   * always a fresh identifier.
   */
  predicate IdsOk(ns: seq<Notification>)
  {
    && (forall i :: 0 <= i < |ns| ==> 1 <= ns[i].id <= |ns|)
    && DistinctBy(ns, NotificationId)
  }

  /**
   * Pushing keeps the feed's identifiers exactly 1..n, puts the new
   * notification first, unread, and adds one to the unread count.
   */
  lemma {:induction false} PushEffect(ns: seq<Notification>, kind: Kind, message: string, activityId: ActivityId, now: Timestamp)
    ensures var r := Push(ns, kind, message, activityId, now);
      && |r| == |ns| + 1 && r[1..] == ns
      && r[0].kind == kind && r[0].activityId == activityId && !r[0].read
      && (IdsOk(ns) ==> forall n :: n in ns ==> n.id != r[0].id)
      && (IdsOk(ns) ==> IdsOk(r))
      && UnreadCount(r) == UnreadCount(ns) + 1
  {
    var r := Push(ns, kind, message, activityId, now);
    assert r == [r[0]] + ns;
    FilterAppend([r[0]], ns, IsUnread);
    assert Filter([r[0]], IsUnread) == [r[0]];
    if IdsOk(ns) {
      forall i, j | 0 <= i < j < |r| ensures NotificationId(r[i]) != NotificationId(r[j]) {
        if i == 0 {
          assert r[j] == ns[j - 1];
        } else {
          assert r[i] == ns[i - 1] && r[j] == ns[j - 1];
        }
      }
      forall i | 0 <= i < |r| ensures 1 <= r[i].id <= |r| {
        if i > 0 { assert r[i] == ns[i - 1]; }
      }
    }
  }

  /**
   * Marking one notification read keeps the length, the order and every
   * field except the read flag, which becomes true exactly on the
   * notifications with that identifier; with well-formed identifiers that
   * is at most one notification.
   */
  lemma MarkReadEffect(ns: seq<Notification>, id: int)
    ensures var r := MarkRead(ns, id);
      && |r| == |ns|
      && (forall i :: 0 <= i < |ns| ==> r[i].(read := ns[i].read) == ns[i])
      && (forall i :: 0 <= i < |ns| ==> r[i].read == (ns[i].read || ns[i].id == id))
      && (IdsOk(ns) ==> IdsOk(r))
      && (IdsOk(ns) ==> forall i, j :: 0 <= i < |ns| && 0 <= j < |ns| && r[i] != ns[i] && r[j] != ns[j] ==> i == j)
  {
    var r := MarkRead(ns, id);
    assert forall i :: 0 <= i < |ns| ==> NotificationId(r[i]) == NotificationId(ns[i]);
  }

  /** Marking read twice is the same as marking read once. */
  lemma MarkReadIdempotent(ns: seq<Notification>, id: int)
    ensures MarkRead(MarkRead(ns, id), id) == MarkRead(ns, id)
    ensures MarkAllRead(MarkAllRead(ns)) == MarkAllRead(ns)
  {
  }

  /** After marking all read the unread count is zero; ids and order are kept. */
  lemma MarkAllClearsUnread(ns: seq<Notification>)
    ensures UnreadCount(MarkAllRead(ns)) == 0
    ensures IdsOk(ns) ==> IdsOk(MarkAllRead(ns))
    ensures |MarkAllRead(ns)| == |ns|
    ensures forall i :: 0 <= i < |ns| ==> MarkAllRead(ns)[i].(read := ns[i].read) == ns[i]
  {
    var r := MarkAllRead(ns);
    FilterDropsAll(r, IsUnread);
    assert forall i :: 0 <= i < |ns| ==> NotificationId(r[i]) == NotificationId(ns[i]);
  }

  /** Marking one notification read never increases the unread count. */
  lemma {:induction false} MarkReadNeverAddsUnread(ns: seq<Notification>, id: int)
    ensures UnreadCount(MarkRead(ns, id)) <= UnreadCount(ns)
  {
    if ns != [] {
      MarkReadNeverAddsUnread(ns[1..], id);
      var r := MarkRead(ns, id);
      assert r == [r[0]] + MarkRead(ns[1..], id);
      assert ns == [ns[0]] + ns[1..];
      FilterAppend([r[0]], MarkRead(ns[1..], id), IsUnread);
      FilterAppend([ns[0]], ns[1..], IsUnread);
    }
  }

  /**
   * Marking one notification read and then marking all read leaves no
   * unread notification, whatever the feed held.
   */
  lemma MarkOneThenAll(ns: seq<Notification>, id: int)
    ensures UnreadCount(MarkAllRead(MarkRead(ns, id))) == 0
  {
    MarkAllClearsUnread(MarkRead(ns, id));
  }
}
