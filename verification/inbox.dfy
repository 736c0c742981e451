/**
 * The unified inbox's bookkeeping: the `conversations` table with one row
 * per practice, the `messages` table keyed by message id, and what adding a
 * message, marking a conversation read and counting unread messages do to
 * them.
 *
 * The conversations table is a sequence of rows in insertion order; the
 * messages table is a map from the primary key. The clock (`now`) and the
 * generated message id are parameters.
 */
module Inbox {
  import opened Wrappers
  import opened Text
  import opened MessageModel
  import Folds

  /** A row of the `conversations` table. */
  datatype ConversationRow = ConversationRow(
    id: string,
    practiceId: int,
    practiceName: string,
    channels: seq<string>,
    unreadCount: int,
    createdAt: DateTime,
    updatedAt: DateTime)

  /** A row of the `messages` table; `read` is the stored integer flag. */
  datatype MessageRow = MessageRow(
    conversationId: string,
    practiceId: int,
    channel: string,
    direction: string,
    content: string,
    sender: string,
    recipient: string,
    timestamp: DateTime,
    status: string,
    metadata: map<string, Value>,
    read: int,
    attachments: seq<Value>)

  datatype Store = Store(conversations: seq<ConversationRow>, messages: map<string, MessageRow>)

  /** The id of a practice's conversation, `f"conv_{practice_id}"`. */
  function ConversationId(practiceId: int): string {
    "conv_" + IntToString(practiceId)
  }

  /** Different practices have different conversation ids. */
  lemma {:induction false} ConversationIdInjective(a: int, b: int)
    requires ConversationId(a) == ConversationId(b)
    ensures a == b
  {
    var sa, sb := IntToString(a), IntToString(b);
    assert sa == ConversationId(a)[5..] && sb == ConversationId(b)[5..];
    assert sa == sb;
    LeadingMinus(a);
    LeadingMinus(b);
    if a < 0 && b < 0 {
      assert NatToString(-a) == sa[1..] == sb[1..] == NatToString(-b);
      ParseNatToString(-a);
      ParseNatToString(-b);
    } else if a >= 0 && b >= 0 {
      assert NatToString(a) == sa == sb == NatToString(b);
      ParseNatToString(a);
      ParseNatToString(b);
      assert a == ParseNat(sa) == ParseNat(sb) == b;
    }
  }

  /** A rendered integer starts with `-` exactly when it is negative. */
  lemma LeadingMinus(i: int)
    ensures |IntToString(i)| > 0 && (IntToString(i)[0] == '-' <==> i < 0)
  {
    if i >= 0 {
      assert IsDigit(NatToString(i)[0]);
    }
  }

  predicate NoDuplicates<T(==)>(s: seq<T>) {
    forall i, j | 0 <= i < j < |s| :: s[i] != s[j]
  }

  /**
   * The states `add_message` and `mark_as_read` produce: each row's id is
   * its practice's conversation id (so one row per practice), its channels
   * hold no duplicates and its unread counter is not negative.
   */
  predicate GoodRows(rows: seq<ConversationRow>) {
    (forall i | 0 <= i < |rows| ::
       rows[i].id == ConversationId(rows[i].practiceId)
       && NoDuplicates(rows[i].channels)
       && rows[i].unreadCount >= 0)
    && (forall i, j | 0 <= i < j < |rows| :: rows[i].id != rows[j].id)
  }

  /** In a good store, two rows never belong to the same practice. */
  lemma OnePerPractice(rows: seq<ConversationRow>, i: nat, j: nat)
    requires GoodRows(rows) && i < j < |rows|
    ensures rows[i].practiceId != rows[j].practiceId
  {
  }

  /** The position of the row with id `id`. */
  function Find(rows: seq<ConversationRow>, id: string): (r: Option<nat>)
    ensures r.None? <==> forall i | 0 <= i < |rows| :: rows[i].id != id
    ensures r.Some? ==> r.value < |rows| && rows[r.value].id == id
                        && forall i | 0 <= i < r.value :: rows[i].id != id
  {
    if rows == [] then None
    else if rows[0].id == id then Some(0)
    else match Find(rows[1..], id)
      case None => None
      case Some(i) => Some(i + 1)
  }

  /** The direction strings the service writes. */
  const Inbound := "inbound"
  const Outbound := "outbound"

  /** The stored flag: 0 (unread) for an inbound message, 1 for every other direction. */
  function StoredRead(direction: string): (flag: int)
    ensures flag == 0 <==> direction == Inbound
    ensures flag == 0 || flag == 1
  {
    if direction == Inbound then 0 else 1
  }

  /** `message_id or f"msg_…"`: an empty or missing id is replaced by the generated one. */
  function MessageId(messageId: Option<string>, generated: string): (id: string)
    ensures messageId.Some? && messageId.value != "" ==> id == messageId.value
    ensures messageId.None? || messageId.value == "" ==> id == generated
  {
    if messageId.Some? && messageId.value != "" then messageId.value else generated
  }

  /** Why `add_message` raised: the message id is already a primary key of the messages table. */
  datatype AddError = DuplicateMessageId(id: string)

  datatype Added = Added(store: Store, message: Message)

  /**
   * The conversation row after the message: created by the `INSERT OR
   * IGNORE` if missing, given the channel if it lacks it, touched, and
   * counted unread if the message is inbound.
   */
  function Touch(row: ConversationRow, channel: string, direction: string, now: DateTime): (r: ConversationRow)
    ensures r.id == row.id && r.practiceId == row.practiceId && r.practiceName == row.practiceName
    ensures r.createdAt == row.createdAt && r.updatedAt == now
    ensures channel in r.channels
    ensures channel in row.channels ==> r.channels == row.channels
    ensures channel !in row.channels ==> r.channels == row.channels + [channel]
    ensures r.unreadCount == row.unreadCount + (if direction == Inbound then 1 else 0)
  {
    var channels := if channel in row.channels then row.channels else row.channels + [channel];
    row.(channels := channels, updatedAt := now,
         unreadCount := row.unreadCount + (if direction == Inbound then 1 else 0))
  }

  /**
   * What `add_message` does to the conversations table. The practice's row
   * exists afterwards. A row that already existed keeps its name, gains the
   * channel only if it lacked it, and counts one more unread message iff
   * the message is inbound. A missing row is appended with just this
   * channel. Every other row is unchanged.
   */
  function Record(rows: seq<ConversationRow>, practiceId: int, practiceName: string, channel: string,
                  direction: string, now: DateTime): (r: seq<ConversationRow>)
    ensures Find(r, ConversationId(practiceId)).Some?
    ensures var inc := if direction == Inbound then 1 else 0;
            match Find(rows, ConversationId(practiceId))
            case Some(i) =>
              && |r| == |rows|
              && r[i].practiceName == rows[i].practiceName
              && r[i].channels == (if channel in rows[i].channels then rows[i].channels
                                   else rows[i].channels + [channel])
              && r[i].unreadCount == rows[i].unreadCount + inc
              && (forall j | 0 <= j < |rows| && j != i :: r[j] == rows[j])
            case None =>
              && |r| == |rows| + 1
              && r[..|rows|] == rows
              && r[|rows|] == ConversationRow(ConversationId(practiceId), practiceId, practiceName,
                                              [channel], inc, now, now)
  {
    var convId := ConversationId(practiceId);
    match Find(rows, convId)
    case Some(i) => rows[i := Touch(rows[i], channel, direction, now)]
    case None =>
      var r := rows + [Touch(ConversationRow(convId, practiceId, practiceName, [channel], 0, now, now),
                             channel, direction, now)];
      assert r[|rows|].id == convId;
      r
  }

  /**
   * `add_message`. The returned message is read iff it is outbound, while
   * the stored flag says read for every direction except inbound.
   */
  function AddMessage(st: Store, practiceId: int, practiceName: string, channel: string,
                      direction: string, content: string, sender: string, recipient: string,
                      messageId: Option<string>, status: string, metadata: Option<map<string, Value>>,
                      attachments: Option<seq<Value>>, generated: string, now: DateTime)
    : (r: Result<Added, AddError>)
    ensures r.Failure? <==> MessageId(messageId, generated) in st.messages
    ensures r.Success? ==>
              var id := MessageId(messageId, generated);
              && r.value.store.conversations == Record(st.conversations, practiceId, practiceName, channel, direction, now)
              && r.value.store.messages.Keys == st.messages.Keys + {id}
              && (forall k | k in st.messages :: r.value.store.messages[k] == st.messages[k])
              && r.value.store.messages[id].conversationId == ConversationId(practiceId)
              && r.value.store.messages[id].read == StoredRead(direction)
              && r.value.message.id == id
              && r.value.message.read == (direction == Outbound)
              && r.value.message.conversationId == ConversationId(practiceId)
              && r.value.store.messages[id]
                 == MessageRow(ConversationId(practiceId), practiceId, channel, direction, content, sender, recipient,
                               now, status, MetadataOr(metadata), StoredRead(direction), AttachmentsOr(attachments))
              && r.value.message
                 == NewMessage(id, ConversationId(practiceId), practiceId, channel, direction, content, sender,
                               recipient, now, Some(status), metadata, Some(direction == Outbound), attachments)
  {
    var id := MessageId(messageId, generated);
    if id in st.messages then Failure(DuplicateMessageId(id))
    else
      var convId := ConversationId(practiceId);
      var rows := Record(st.conversations, practiceId, practiceName, channel, direction, now);
      var row := MessageRow(convId, practiceId, channel, direction, content, sender, recipient, now,
                            status, MetadataOr(metadata), StoredRead(direction), AttachmentsOr(attachments));
      var message := NewMessage(id, convId, practiceId, channel, direction, content, sender, recipient,
                                now, Some(status), metadata, Some(direction == Outbound), attachments);
      Success(Added(Store(rows, st.messages[id := row]), message))
  }

  /** The inbox read flags agree only for the two directions the service writes. */
  lemma ReadFlagsDisagree(direction: string)
    ensures (StoredRead(direction) == 1) == (direction == Outbound) <==> direction in {Inbound, Outbound}
  {
  }

  /** Adding a message keeps the store good: one row per practice, no repeated channel, no negative count. */
  lemma RecordKeepsGood(rows: seq<ConversationRow>, practiceId: int, practiceName: string, channel: string,
                        direction: string, now: DateTime)
    requires GoodRows(rows)
    ensures GoodRows(Record(rows, practiceId, practiceName, channel, direction, now))
  {
    var convId := ConversationId(practiceId);
    match Find(rows, convId)
    case Some(i) =>
      TouchKeepsNoDuplicates(rows[i], channel, direction, now);
      TouchKeepsGood(rows, i, Touch(rows[i], channel, direction, now));
    case None =>
      var row := Touch(ConversationRow(convId, practiceId, practiceName, [channel], 0, now, now),
                       channel, direction, now);
      AppendKeepsGood(rows, row);
  }

  lemma TouchKeepsGood(rows: seq<ConversationRow>, i: nat, row: ConversationRow)
    requires GoodRows(rows) && i < |rows|
    requires row.id == rows[i].id && row.practiceId == rows[i].practiceId
    requires NoDuplicates(row.channels) && row.unreadCount >= 0
    ensures GoodRows(rows[i := row])
  {
    var r := rows[i := row];
    assert forall j | 0 <= j < |r| :: r[j].id == rows[j].id;
  }

  lemma AppendKeepsGood(rows: seq<ConversationRow>, row: ConversationRow)
    requires GoodRows(rows)
    requires row.id == ConversationId(row.practiceId) && NoDuplicates(row.channels) && row.unreadCount >= 0
    requires forall j | 0 <= j < |rows| :: rows[j].id != row.id
    ensures GoodRows(rows + [row])
  {
    var r := rows + [row];
    assert forall j | 0 <= j < |rows| :: r[j] == rows[j];
  }

  lemma TouchKeepsNoDuplicates(row: ConversationRow, channel: string, direction: string, now: DateTime)
    requires NoDuplicates(row.channels)
    ensures NoDuplicates(Touch(row, channel, direction, now).channels)
  {
    var cs := row.channels;
    if channel !in cs {
      var ds := Touch(row, channel, direction, now).channels;
      assert ds == cs + [channel];
      forall a, b | 0 <= a < b < |ds|
        ensures ds[a] != ds[b]
      {
        if b == |cs| { assert ds[a] == cs[a]; }
      }
    }
  }

  // ---- mark_as_read ----

  /**
   * `mark_as_read`: every inbound message of the conversation is stored as
   * read and the conversation's counter becomes 0. An unknown id changes
   * nothing; the call reports success either way.
   */
  function MarkAsRead(st: Store, conversationId: string): (r: Store)
    ensures r.messages.Keys == st.messages.Keys
    ensures forall k | k in st.messages ::
              r.messages[k] == if st.messages[k].conversationId == conversationId && st.messages[k].direction == Inbound
                               then st.messages[k].(read := 1) else st.messages[k]
    ensures |r.conversations| == |st.conversations|
    ensures forall i | 0 <= i < |st.conversations| ::
              r.conversations[i] == if st.conversations[i].id == conversationId
                                    then st.conversations[i].(unreadCount := 0) else st.conversations[i]
  {
    var messages := map k | k in st.messages ::
      if st.messages[k].conversationId == conversationId && st.messages[k].direction == Inbound
      then st.messages[k].(read := 1) else st.messages[k];
    var rows := seq(|st.conversations|, i requires 0 <= i < |st.conversations| =>
      if st.conversations[i].id == conversationId then st.conversations[i].(unreadCount := 0)
      else st.conversations[i]);
    Store(rows, messages)
  }

  /** Marking a conversation read keeps the store good. */
  lemma MarkAsReadKeepsGood(st: Store, conversationId: string)
    requires GoodRows(st.conversations)
    ensures GoodRows(MarkAsRead(st, conversationId).conversations)
  {
  }

  /** After marking, no inbound message of that conversation is stored unread. */
  lemma MarkAsReadClears(st: Store, conversationId: string)
    ensures var r := MarkAsRead(st, conversationId);
            forall k | k in r.messages && r.messages[k].conversationId == conversationId
                                       && r.messages[k].direction == Inbound :: r.messages[k].read == 1
  {
  }

  // ---- get_unread_count ----

  function Unread(row: ConversationRow): int {
    row.unreadCount
  }

  /** `get_unread_count`: `SUM(unread_count)`, which is `NULL` (so 0) for an empty table. */
  function UnreadCount(st: Store): int {
    Folds.SumOf(st.conversations, Unread)
  }

  lemma {:induction false} SumNonNegative(rows: seq<ConversationRow>)
    requires forall i | 0 <= i < |rows| :: rows[i].unreadCount >= 0
    ensures Folds.SumOf(rows, Unread) >= 0
    decreases |rows|
  {
    if rows != [] {
      SumNonNegative(rows[..|rows| - 1]);
    }
  }

  /** The total is never negative in a good store, and 0 when there are no conversations. */
  lemma UnreadCountBounds(st: Store)
    requires GoodRows(st.conversations)
    ensures UnreadCount(st) >= 0
    ensures st.conversations == [] ==> UnreadCount(st) == 0
  {
    SumNonNegative(st.conversations);
  }

  /** Adding a message raises the total by one iff the message is inbound. */
  lemma RecordUnreadCount(rows: seq<ConversationRow>, practiceId: int, practiceName: string, channel: string,
                          direction: string, now: DateTime)
    ensures Folds.SumOf(Record(rows, practiceId, practiceName, channel, direction, now), Unread)
            == Folds.SumOf(rows, Unread) + (if direction == Inbound then 1 else 0)
  {
    var r := Record(rows, practiceId, practiceName, channel, direction, now);
    match Find(rows, ConversationId(practiceId))
    case Some(i) =>
      assert r == rows[i := r[i]];
      Folds.SumOfUpdate(rows, i, r[i], Unread);
    case None =>
      var n := |rows|;
      assert r == rows + [r[n]];
      Folds.SumOfSnoc(rows, r[n], Unread);
  }

  /** Marking a conversation read lowers the total by exactly that conversation's count. */
  lemma MarkAsReadUnreadCount(st: Store, i: nat)
    requires GoodRows(st.conversations) && i < |st.conversations|
    ensures UnreadCount(MarkAsRead(st, st.conversations[i].id))
            == UnreadCount(st) - st.conversations[i].unreadCount
  {
    var r := MarkAsRead(st, st.conversations[i].id);
    assert r.conversations == st.conversations[i := st.conversations[i].(unreadCount := 0)];
    Folds.SumOfUpdate(st.conversations, i, st.conversations[i].(unreadCount := 0), Unread);
  }
}
