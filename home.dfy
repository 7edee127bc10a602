/**
 * The state of the home screen and its event handlers. The component owns
 * the activity list, the notification feed, the chat threads, the selected
 * thread, the message being typed and the "create activity" form; each
 * handler replaces some of these with a new value computed by the
 * functions of the Activities, Notifications and Chats modules.
 *
 * The clock is a parameter (`now`) of every handler that reads it, and the
 * store's answer to the insert of `handleCreateActivity` is a parameter
 * (`None` when the insert failed).
 */
module Home {
  import opened Common
  import opened Text
  import opened Seqs
  import opened Activities
  import opened Notifications
  import opened Chats

  datatype View = HomeView | CreateView | ProfileView | InboxView | ChatView | NotificationsView

  /** The "create activity" form. */
  datatype Draft = Draft(
    sport: string,
    title: string,
    date: string,
    time: string,
    location: string,
    city: string,
    maxParticipants: int,
    description: string)

  /** The form's initial value, restored after a successful creation. */
  const InitialDraft: Draft := Draft("Tenis", "", "", "", "", "Ankara", 2, "")

  /** The required fields of the form: title, date, time and location must be non-empty. */
  predicate DraftComplete(d: Draft)
  {
    d.title != "" && d.date != "" && d.time != "" && d.location != ""
  }

  function Quoted(title: string): string { "\"" + title + "\"" }

  function RequestSentText(title: string): string
  {
    Quoted(title) + " aktivitesine katılım isteği gönderildi"
  }

  function AcceptedText(name: string, title: string): string
  {
    name + " " + Quoted(title) + " aktivitesine kabul edildi"
  }

  function RejectedText(name: string, title: string): string
  {
    name + " " + Quoted(title) + " aktivitesine reddedildi"
  }

  function CreatedText(title: string): string
  {
    Quoted(title) + " aktivitesi başarıyla oluşturuldu!"
  }

  /**
   * The whole seconds elapsed between two instants given in milliseconds,
   * rounded down as `Math.floor` does (Dafny's division by a positive
   * divisor already rounds down, negative differences included).
   */
  function ElapsedSeconds(nowMs: int, thenMs: int): (d: int)
    ensures d * 1000 <= nowMs - thenMs < (d + 1) * 1000
  {
    (nowMs - thenMs) / 1000
  }

  /** The buckets of `getTimeAgo`; the last one is rendered as a calendar date. */
  datatype Age = JustNow | MinutesAgo(minutes: nat) | HoursAgo(hours: nat) | DaysAgo(days: nat) | CalendarDate

  /**
   * `getTimeAgo` on an elapsed time in seconds: under a minute (a
   * timestamp in the future included) is "just now"; then whole minutes,
   * whole hours and whole days, each rounded down; from a week on, the date.
   */
  function TimeAgo(diff: int): (r: Age)
    ensures r.JustNow? <==> diff < 60
    ensures r.MinutesAgo? <==> 60 <= diff < 3600
    ensures r.HoursAgo? <==> 3600 <= diff < 86400
    ensures r.DaysAgo? <==> 86400 <= diff < 604800
    ensures r.CalendarDate? <==> 604800 <= diff
    ensures r.MinutesAgo? ==> 1 <= r.minutes <= 59 && r.minutes * 60 <= diff < (r.minutes + 1) * 60
    ensures r.HoursAgo? ==> 1 <= r.hours <= 23 && r.hours * 3600 <= diff < (r.hours + 1) * 3600
    ensures r.DaysAgo? ==> 1 <= r.days <= 6 && r.days * 86400 <= diff < (r.days + 1) * 86400
  {
    if diff < 60 then JustNow
    else if diff < 3600 then MinutesAgo(diff / 60)
    else if diff < 86400 then HoursAgo(diff / 3600)
    else if diff < 604800 then DaysAgo(diff / 86400)
    else CalendarDate
  }

  /**
   * `getTimeAgo(timestamp)` with the clock reading `nowMs`: the bucket is
   * chosen by the elapsed milliseconds, and each count is the whole number
   * of minutes, hours or days they make.
   */
  function GetTimeAgo(nowMs: int, thenMs: int): (r: Age)
    ensures r.JustNow? <==> nowMs - thenMs < 60000
    ensures r.MinutesAgo? <==> 60000 <= nowMs - thenMs < 3600000
    ensures r.HoursAgo? <==> 3600000 <= nowMs - thenMs < 86400000
    ensures r.DaysAgo? <==> 86400000 <= nowMs - thenMs < 604800000
    ensures r.CalendarDate? <==> 604800000 <= nowMs - thenMs
    ensures r.MinutesAgo? ==> r.minutes * 60000 <= nowMs - thenMs < (r.minutes + 1) * 60000
    ensures r.HoursAgo? ==> r.hours * 3600000 <= nowMs - thenMs < (r.hours + 1) * 3600000
    ensures r.DaysAgo? ==> r.days * 86400000 <= nowMs - thenMs < (r.days + 1) * 86400000
  {
    var d := ElapsedSeconds(nowMs, thenMs);
    var r := TimeAgo(d);
    assert r.MinutesAgo? ==> r.minutes * 60000 <= d * 1000 && (d + 1) * 1000 <= (r.minutes + 1) * 60000;
    assert r.HoursAgo? ==> r.hours * 3600000 <= d * 1000 && (d + 1) * 1000 <= (r.hours + 1) * 3600000;
    assert r.DaysAgo? ==> r.days * 86400000 <= d * 1000 && (d + 1) * 1000 <= (r.days + 1) * 86400000;
    r
  }

  /** The rendered text of a bucket; the calendar date needs the locale and is not rendered here. */
  function AgeText(a: Age): string
  {
    match a
    case JustNow => "Az önce"
    case MinutesAgo(m) => NatToString(m) + " dakika önce"
    case HoursAgo(h) => NatToString(h) + " saat önce"
    case DaysAgo(d) => NatToString(d) + " gün önce"
    case CalendarDate => ""
  }

  /**
   * Only the calendar date is left to the locale: every other bucket
   * renders as a non-empty label, and the minutes, hours and days labels
   * begin with the numeral of their count.
   */
  lemma AgeTextShape(a: Age)
    ensures AgeText(a) == "" <==> a.CalendarDate?
    ensures a.MinutesAgo? ==> AgeText(a)[..|NatToString(a.minutes)|] == NatToString(a.minutes)
    ensures a.HoursAgo? ==> AgeText(a)[..|NatToString(a.hours)|] == NatToString(a.hours)
    ensures a.DaysAgo? ==> AgeText(a)[..|NatToString(a.days)|] == NatToString(a.days)
  {
  }

  /** An age as a lower bound on the elapsed seconds it stands for. */
  function AgeFloor(a: Age): int
  {
    match a
    case JustNow => 0
    case MinutesAgo(m) => m * 60
    case HoursAgo(h) => h * 3600
    case DaysAgo(d) => d * 86400
    case CalendarDate => 604800
  }

  /** An older timestamp never shows a younger age. */
  lemma TimeAgoMonotone(d1: int, d2: int)
    requires d1 <= d2
    ensures AgeFloor(TimeAgo(d1)) <= AgeFloor(TimeAgo(d2))
  {
    var a1, a2 := TimeAgo(d1), TimeAgo(d2);
    if a1.MinutesAgo? && a2.MinutesAgo? {
      assert a1.minutes * 60 <= d2 < (a2.minutes + 1) * 60;
    } else if a1.HoursAgo? && a2.HoursAgo? {
      assert a1.hours * 3600 <= d2 < (a2.hours + 1) * 3600;
    } else if a1.DaysAgo? && a2.DaysAgo? {
      assert a1.days * 86400 <= d2 < (a2.days + 1) * 86400;
    }
  }

  class SportsApp {
    var currentUser: Person
    var currentView: View
    var activities: seq<Activity>
    var notifications: seq<Notification>
    /** The thread list; the component calls it `messages`. */
    var chats: seq<Chat>
    var selectedChat: Option<Chat>
    var newMessage: string
    var newActivity: Draft
    var filterSport: string
    var filterCity: string
    var searchTerm: string

    /**
     * Activity identifiers are distinct (they are the store's keys), every
     * activity's roster is consistent, the notification identifiers of a
     * feed of length n are exactly 1..n, and the thread at position i has
     * the key `chat_<i+1>`, so thread keys are distinct.
     */
    ghost predicate Valid()
      reads this
    {
      DistinctIds(activities) && AllConsistent(activities) && IdsOk(notifications) && KeysOk(chats)
    }

    /** The component as mounted: no activities yet, and the given feed and threads. */
    constructor (user: Person, feed: seq<Notification>, threads: seq<Chat>)
      requires IdsOk(feed) && KeysOk(threads)
      ensures Valid()
      ensures currentUser == user && currentView == HomeView
      ensures activities == [] && notifications == feed && chats == threads
      ensures selectedChat == None && newMessage == "" && newActivity == InitialDraft
      ensures filterSport == "all" && filterCity == "all" && searchTerm == ""
      ensures Visible() == []
    {
      currentUser := user;
      currentView := HomeView;
      activities := [];
      notifications := feed;
      chats := threads;
      selectedChat := None;
      newMessage := "";
      newActivity := InitialDraft;
      filterSport := "all";
      filterCity := "all";
      searchTerm := "";
    }

    /**
     * The activities the home view lists: those matching the sport and
     * city selectors and the search term, in list order.
     */
    function Visible(): (r: seq<Activity>)
      reads this
      ensures IsSubsequence(r, activities)
      ensures forall a :: a in r <==> a in activities && MatchesFilters(a, filterSport, filterCity, searchTerm)
    {
      FilteredIsMatchingSubsequence(activities, filterSport, filterCity, searchTerm);
      FilteredActivities(activities, filterSport, filterCity, searchTerm)
    }

    /** The change handlers of the sport and city selectors and the search box. */
    method EditFilters(sport: string, city: string, term: string)
      modifies this`filterSport, this`filterCity, this`searchTerm
      ensures filterSport == sport && filterCity == city && searchTerm == term
      ensures sport == "all" && city == "all" && term == "" ==> Visible() == activities
    {
      filterSport, filterCity, searchTerm := sport, city, term;
      NoFilterShowsAll(activities);
    }

    /** The state update after the list query: every row becomes a loaded activity. */
    method LoadActivities(rows: seq<StoredRow>)
      requires Valid()
      requires forall i, j :: 0 <= i < j < |rows| ==> rows[i].id != rows[j].id
      modifies this`activities
      ensures Valid()
      ensures |activities| == |rows|
      ensures forall i :: 0 <= i < |rows| ==> activities[i] == LoadedActivity(rows[i])
    {
      activities := seq(|rows|, i requires 0 <= i < |rows| => LoadedActivity(rows[i]));
      assert forall i :: 0 <= i < |rows| ==> ActivityIdOf(activities[i]) == rows[i].id;
      forall a | a in activities
        ensures RosterConsistent(a)
      {
        var i :| 0 <= i < |rows| && a == activities[i];
        NewActivitiesConsistent(rows[i], currentUser);
      }
    }

    /** `handleJoinRequest`: the current user asks to join activity `activityId`. */
    method HandleJoinRequest(activityId: ActivityId, now: Timestamp)
      requires Valid()
      modifies this`activities, this`notifications
      ensures Valid()
      ensures activities == JoinAll(old(activities), activityId, currentUser)
      ensures notifications ==
        match FindActivity(old(activities), activityId)
        case Some(a) =>
          if CanJoin(a, currentUser)
          then Push(old(notifications), RequestSent, RequestSentText(a.title), activityId, now)
          else old(notifications)
        case None => old(notifications)
    {
      var found := FindActivity(activities, activityId);
      var joined := JoinAll(activities, activityId, currentUser);
      assert DistinctIds(joined) && AllConsistent(joined) by {
        TransitionsKeepInvariant(activities, activityId, currentUser, "");
      }
      activities := joined;
      if found.Some? && CanJoin(found.value, currentUser) {
        var feed := Push(notifications, RequestSent, RequestSentText(found.value.title), activityId, now);
        assert IdsOk(feed) by {
          PushEffect(notifications, RequestSent, RequestSentText(found.value.title), activityId, now);
        }
        notifications := feed;
      }
    }

    /**
     * `handleAcceptRequest`. The handler reads `activity.requests` of the
     * activity it looks up, so the activity must exist.
     */
    method HandleAcceptRequest(activityId: ActivityId, userId: UserId, now: Timestamp)
      requires Valid()
      requires FindActivity(activities, activityId).Some?
      modifies this`activities, this`notifications
      ensures Valid()
      ensures activities == AcceptAll(old(activities), activityId, userId)
      ensures var a := FindActivity(old(activities), activityId).value;
        notifications ==
          match RequestOf(a.requests, userId)
          case Some(r) =>
            if a.currentParticipants < a.maxParticipants
            then Push(old(notifications), RequestAccepted, AcceptedText(r.user.name, a.title), activityId, now)
            else old(notifications)
          case None => old(notifications)
    {
      var a := FindActivity(activities, activityId).value;
      var user := RequestOf(a.requests, userId);
      var accepted := AcceptAll(activities, activityId, userId);
      assert DistinctIds(accepted) && AllConsistent(accepted) by {
        TransitionsKeepInvariant(activities, activityId, currentUser, userId);
      }
      activities := accepted;
      if user.Some? && a.currentParticipants < a.maxParticipants {
        var feed := Push(notifications, RequestAccepted, AcceptedText(user.value.user.name, a.title), activityId, now);
        assert IdsOk(feed) by {
          PushEffect(notifications, RequestAccepted, AcceptedText(user.value.user.name, a.title), activityId, now);
        }
        notifications := feed;
      }
    }

    /**
     * `handleRejectRequest`. The handler reads the name of the request it
     * looks up without checking it exists, so activity and request must exist.
     */
    method HandleRejectRequest(activityId: ActivityId, userId: UserId, now: Timestamp)
      requires Valid()
      requires FindActivity(activities, activityId).Some?
      requires HasRequested(FindActivity(activities, activityId).value, userId)
      modifies this`activities, this`notifications
      ensures Valid()
      ensures activities == RejectAll(old(activities), activityId, userId)
      ensures var a := FindActivity(old(activities), activityId).value;
        notifications == Push(old(notifications), RequestRejected,
                              RejectedText(RequestOf(a.requests, userId).value.user.name, a.title),
                              activityId, now)
    {
      var a := FindActivity(activities, activityId).value;
      var user := RequestOf(a.requests, userId).value;
      var rejected := RejectAll(activities, activityId, userId);
      assert DistinctIds(rejected) && AllConsistent(rejected) by {
        TransitionsKeepInvariant(activities, activityId, currentUser, userId);
      }
      activities := rejected;
      var feed := Push(notifications, RequestRejected, RejectedText(user.user.name, a.title), activityId, now);
      assert IdsOk(feed) by {
        PushEffect(notifications, RequestRejected, RejectedText(user.user.name, a.title), activityId, now);
      }
      notifications := feed;
    }

    /** `markNotificationAsRead`. */
    method MarkNotificationAsRead(id: int)
      requires Valid()
      modifies this`notifications
      ensures Valid()
      ensures notifications == MarkRead(old(notifications), id)
    {
      MarkReadEffect(notifications, id);
      notifications := MarkRead(notifications, id);
    }

    /** `markAllNotificationsAsRead`: afterwards the unread badge shows zero. */
    method MarkAllNotificationsAsRead()
      requires Valid()
      modifies this`notifications
      ensures Valid()
      ensures notifications == MarkAllRead(old(notifications))
      ensures UnreadCount(notifications) == 0
    {
      MarkAllClearsUnread(notifications);
      notifications := MarkAllRead(notifications);
    }

    /** `handleSendMessage`: open the thread with the activity's creator, creating it if needed. */
    method HandleSendMessage(activity: Activity, now: Timestamp)
      requires Valid()
      modifies this`chats, this`selectedChat, this`currentView
      ensures Valid()
      ensures var o := GetOrCreate(old(chats), activity, currentUser, now);
        chats == o.chats && selectedChat == Some(o.selected)
      ensures currentView == ChatView
    {
      var existing := ExistingThread(chats, activity);
      if existing.Some? {
        selectedChat := existing;
      } else {
        var thread := NewThread(chats, activity, currentUser, now);
        assert KeysOk(chats + [thread]) by {
          GetOrCreateEffect(chats, activity, currentUser, now);
        }
        chats := chats + [thread];
        selectedChat := Some(thread);
      }
      currentView := ChatView;
    }

    /** The message box's change handler. */
    method EditMessage(text: string)
      modifies this`newMessage
      ensures newMessage == text
    {
      newMessage := text;
    }

    /**
     * `sendMessage`: nothing happens when the typed text is empty or white
     * space only, or no thread is selected. Otherwise the text is appended
     * to the selected thread, the selection is refreshed from the new list
     * and the message box is cleared.
     */
    method SendMessage(now: Timestamp)
      requires Valid()
      modifies this`chats, this`selectedChat, this`newMessage
      ensures Valid()
      ensures Trim(old(newMessage)) == "" || old(selectedChat).None? ==>
        chats == old(chats) && selectedChat == old(selectedChat) && newMessage == old(newMessage)
      ensures Trim(old(newMessage)) != "" && old(selectedChat).Some? ==>
        && chats == AppendMessage(old(chats), old(selectedChat).value.chatId, currentUser.id, old(newMessage), now)
        && selectedChat == FindChat(chats, old(selectedChat).value.chatId)
        && newMessage == ""
    {
      if Trim(newMessage) == "" || selectedChat.None? {
        return;
      }
      var key := selectedChat.value.chatId;
      var threads := AppendMessage(chats, key, currentUser.id, newMessage, now);
      assert KeysOk(threads) by {
        AppendMessageEffect(chats, key, currentUser.id, newMessage, now);
      }
      chats := threads;
      selectedChat := FindChat(chats, key);
      newMessage := "";
    }

    /** The change handlers of the "create activity" form. */
    method EditDraft(d: Draft)
      modifies this`newActivity
      ensures newActivity == d
    {
      newActivity := d;
    }

    /**
     * `handleCreateActivity` around its insert: refused with no change when
     * a required field is empty or the insert failed (`inserted == None`);
     * otherwise the activity built from the inserted row is appended last,
     * one `activity_created` notification is put at the front, the form is
     * reset and the home view is shown. The store assigns a fresh identifier.
     */
    method HandleCreateActivity(inserted: Option<StoredRow>, now: Timestamp)
      requires Valid()
      requires inserted.Some? ==> forall a :: a in activities ==> a.id != inserted.value.id
      modifies this`activities, this`notifications, this`newActivity, this`currentView
      ensures Valid()
      ensures !DraftComplete(old(newActivity)) || inserted.None? ==>
        && activities == old(activities) && notifications == old(notifications)
        && newActivity == old(newActivity) && currentView == old(currentView)
      ensures DraftComplete(old(newActivity)) && inserted.Some? ==>
        var a := CreatedActivity(inserted.value, currentUser);
        && activities == old(activities) + [a]
        && notifications == Push(old(notifications), ActivityCreated, CreatedText(a.title), a.id, now)
        && newActivity == InitialDraft && currentView == HomeView
    {
      if !DraftComplete(newActivity) {
        return;
      }
      if inserted.None? {
        return;
      }
      var a := CreatedActivity(inserted.value, currentUser);
      assert DistinctIds(activities + [a]) && AllConsistent(activities + [a]) by {
        AppendFreshKeepsIds(activities, a);
        NewActivitiesConsistent(inserted.value, currentUser);
      }
      activities := activities + [a];
      var feed := Push(notifications, ActivityCreated, CreatedText(a.title), a.id, now);
      assert IdsOk(feed) by {
        PushEffect(notifications, ActivityCreated, CreatedText(a.title), a.id, now);
      }
      notifications := feed;
      newActivity := InitialDraft;
      currentView := HomeView;
    }
  }
}
