/**
 * The inbox of the home screen: per-activity message threads, the
 * get-or-create lookup behind the "send a message" button of an activity
 * card, and appending a message to the selected thread.
 */
module Chats {
  import opened Common
  import opened Text
  import opened Seqs
  import opened Activities

  datatype Message = Message(senderId: UserId, text: string, timestamp: Timestamp)

  datatype Chat = Chat(
    id: int,
    chatId: string,
    activityId: ActivityId,
    activityTitle: string,
    participants: seq<Person>,
    messages: seq<Message>,
    lastMessage: string,
    lastMessageTime: Timestamp,
    unread: bool)

  /** The key of the n-th thread: `chat_${n}`. */
  function ChatKey(n: nat): string
  {
    "chat_" + NatToString(n)
  }

  /** Distinct numbers give distinct keys: the numeral after `chat_` reads back as the number. */
  lemma ChatKeyInjective(m: nat, n: nat)
    ensures ChatKey(m) == ChatKey(n) ==> m == n
  {
    if ChatKey(m) == ChatKey(n) {
      assert ChatKey(m)[5..] == NatToString(m);
      assert ChatKey(n)[5..] == NatToString(n);
    }
  }

  /**
   * The thread list as the inbox builds it: the n-th thread (from one) has
   * the key `chat_<n>`, so no two threads share a key.
   */
  ghost predicate KeysOk(chats: seq<Chat>)
  {
    forall n :: 1 <= n <= |chats| ==> chats[n - 1].chatId == ChatKey(n)
  }

  /** Under `KeysOk` every key names at most one thread. */
  lemma KeysDistinct(chats: seq<Chat>)
    requires KeysOk(chats)
    ensures forall i, j :: 0 <= i < |chats| && 0 <= j < |chats| && chats[i].chatId == chats[j].chatId ==> i == j
  {
    forall i, j | 0 <= i < |chats| && 0 <= j < |chats| && chats[i].chatId == chats[j].chatId
      ensures i == j
    {
      ChatKeyInjective(i + 1, j + 1);
    }
  }

  /**
   * The lookup of `handleSendMessage`: a thread of the same activity that
   * lists the activity's creator among its participants.
   */
  predicate IsThreadOf(c: Chat, a: Activity)
  {
    c.activityId == a.id && exists p :: p in c.participants && p.id == a.createdBy.id
  }

  function ExistingThread(chats: seq<Chat>, a: Activity): (r: Option<Chat>)
    ensures r.None? <==> forall c :: c in chats ==> !IsThreadOf(c, a)
    ensures r.Some? ==> r.value in chats && IsThreadOf(r.value, a)
  {
    Find(chats, c => IsThreadOf(c, a))
  }

  /** The thread created when none exists: numbered `length + 1`, between the user and the creator, empty. */
  function NewThread(chats: seq<Chat>, a: Activity, user: Person, now: Timestamp): Chat
  {
    Chat(|chats| + 1, ChatKey(|chats| + 1), a.id, a.title, [user, a.createdBy], [], "", now, false)
  }

  /** The thread list after `handleSendMessage`, and the thread it selects. */
  datatype Opened = Opened(chats: seq<Chat>, selected: Chat)

  function GetOrCreate(chats: seq<Chat>, a: Activity, user: Person, now: Timestamp): Opened
  {
    match ExistingThread(chats, a)
    case Some(c) => Opened(chats, c)
    case None =>
      var c := NewThread(chats, a, user, now);
      Opened(chats + [c], c)
  }

  /**
   * Get-or-create either selects an existing thread of the activity and
   * leaves the list alone, or appends exactly one new, empty thread numbered
   * `length + 1` and selects it; in both cases the selected thread is a
   * thread of the activity and is in the list.
   */
  lemma GetOrCreateEffect(chats: seq<Chat>, a: Activity, user: Person, now: Timestamp)
    ensures var o := GetOrCreate(chats, a, user, now);
      && IsThreadOf(o.selected, a) && o.selected in o.chats
      && ((exists c :: c in chats && IsThreadOf(c, a)) ==> o.chats == chats)
      && ((forall c :: c in chats ==> !IsThreadOf(c, a)) ==>
            && o.chats == chats + [o.selected]
            && o.selected.id == |chats| + 1 && o.selected.chatId == ChatKey(|chats| + 1)
            && o.selected.messages == [] && o.selected.participants == [user, a.createdBy])
      && (KeysOk(chats) ==> KeysOk(o.chats))
  {
    var o := GetOrCreate(chats, a, user, now);
    if ExistingThread(chats, a).None? {
      assert a.createdBy in o.selected.participants;
    }
  }

  /**
   * Calling get-or-create a second time for the same activity selects the
   * same thread and adds nothing.
   */
  lemma GetOrCreateTwice(chats: seq<Chat>, a: Activity, user: Person, now: Timestamp, later: Timestamp)
    ensures var o := GetOrCreate(chats, a, user, now);
      GetOrCreate(o.chats, a, user, later) == o
  {
    var o := GetOrCreate(chats, a, user, now);
    if ExistingThread(chats, a).None? {
      var c := NewThread(chats, a, user, now);
      assert a.createdBy in c.participants;
      FindAfterUnmatched(chats, [c], x => IsThreadOf(x, a));
      assert Find([c], x => IsThreadOf(x, a)) == Some(c);
    }
  }

  /** The selected thread after a message: its messages, last message and read state. */
  function WithMessage(c: Chat, sender: UserId, text: string, now: Timestamp): Chat
  {
    c.(messages := c.messages + [Message(sender, text, now)], lastMessage := text,
       lastMessageTime := now, unread := false)
  }

  /** `messages.map(chat => chat.chatId === chatId ? withMessage(chat) : chat)`. */
  function AppendMessage(chats: seq<Chat>, chatId: string, sender: UserId, text: string, now: Timestamp): seq<Chat>
  {
    seq(|chats|, i requires 0 <= i < |chats| =>
      if chats[i].chatId == chatId then WithMessage(chats[i], sender, text, now) else chats[i])
  }

  /** `messages.find(m => m.chatId === chatId)`. */
  function FindChat(chats: seq<Chat>, chatId: string): (r: Option<Chat>)
    ensures r.None? <==> forall c :: c in chats ==> c.chatId != chatId
    ensures r.Some? ==> r.value in chats && r.value.chatId == chatId
  {
    Find(chats, (c: Chat) => c.chatId == chatId)
  }

  /**
   * Appending a message changes only the threads with that key: each grows
   * by exactly that message at the end, its last message becomes the text
   * and it is marked read; every other field and every other thread is
   * unchanged, and the thread count is kept.
   */
  lemma AppendMessageEffect(chats: seq<Chat>, chatId: string, sender: UserId, text: string, now: Timestamp)
    ensures var r := AppendMessage(chats, chatId, sender, text, now);
      && |r| == |chats|
      && (forall i :: 0 <= i < |chats| && chats[i].chatId != chatId ==> r[i] == chats[i])
      && (forall i :: 0 <= i < |chats| && chats[i].chatId == chatId ==>
            && r[i].messages == chats[i].messages + [Message(sender, text, now)]
            && r[i].lastMessage == text && !r[i].unread
            && r[i].(messages := chats[i].messages, lastMessage := chats[i].lastMessage,
                     lastMessageTime := chats[i].lastMessageTime, unread := chats[i].unread) == chats[i])
      && (KeysOk(chats) ==> KeysOk(r))
      && (KeysOk(chats) ==> forall i, j :: 0 <= i < |chats| && 0 <= j < |chats| && r[i] != chats[i] && r[j] != chats[j] ==> i == j)
  {
    if KeysOk(chats) {
      KeysDistinct(chats);
    }
  }

  /**
   * The thread selected after sending is the first thread with the
   * selected key, now holding the new message.
   */
  lemma {:induction false} SelectedAfterSend(chats: seq<Chat>, chatId: string, sender: UserId, text: string, now: Timestamp)
    ensures var r := AppendMessage(chats, chatId, sender, text, now);
      FindChat(r, chatId) == (match FindChat(chats, chatId)
                              case None => None
                              case Some(c) => Some(WithMessage(c, sender, text, now)))
  {
    if chats != [] {
      SelectedAfterSend(chats[1..], chatId, sender, text, now);
      var r := AppendMessage(chats, chatId, sender, text, now);
      assert r[1..] == AppendMessage(chats[1..], chatId, sender, text, now);
    }
  }
}
