/**
 * The unified inbox records: a `Message` of any channel and the
 * `Conversation` that groups a practice's messages, with their dictionary
 * forms for the API.
 *
 * A dictionary is a map from key to `Value`, the Python values these
 * dictionaries hold. A `datetime` is an abstract `DateTime`; its ISO text
 * form is produced by `iso` and read back by `parse`, both parameters.
 */
module MessageModel {
  import opened Wrappers

  /** A point in time, as Python's `datetime`; only its identity matters here. */
  datatype DateTime = DateTime(micros: int)

  /** The Python values found in the message dictionaries. */
  datatype Value =
    | Null
    | Flag(b: bool)
    | Num(i: int)
    | Str(s: string)
    | List(items: seq<Value>)
    | Dict(entries: map<string, Value>)
    | Moment(t: DateTime)

  datatype Message = Message(
    id: string,
    conversationId: string,
    practiceId: int,
    channel: string,
    direction: string,
    content: string,
    sender: string,
    recipient: string,
    timestamp: DateTime,
    status: string,
    metadata: map<string, Value>,
    read: bool,
    attachments: seq<Value>)

  /** `metadata or {}`: a missing or empty dictionary becomes the empty one. */
  function MetadataOr(metadata: Option<map<string, Value>>): (m: map<string, Value>)
    ensures metadata.None? ==> m == map[]
    ensures metadata.Some? ==> m == metadata.value
  {
    if metadata.Some? && metadata.value != map[] then metadata.value else map[]
  }

  /** `attachments or []`. */
  function AttachmentsOr(attachments: Option<seq<Value>>): (a: seq<Value>)
    ensures attachments.None? ==> a == []
    ensures attachments.Some? ==> a == attachments.value
  {
    if attachments.Some? && attachments.value != [] then attachments.value else []
  }

  /**
   * `Message.__init__`, with the optional arguments as options: a missing
   * status is "sent", a missing read flag false, and missing metadata and
   * attachments are empty.
   */
  function NewMessage(id: string, conversationId: string, practiceId: int, channel: string,
                      direction: string, content: string, sender: string, recipient: string,
                      timestamp: DateTime, status: Option<string>, metadata: Option<map<string, Value>>,
                      read: Option<bool>, attachments: Option<seq<Value>>): (m: Message)
    ensures m.id == id && m.conversationId == conversationId && m.practiceId == practiceId
    ensures m.channel == channel && m.direction == direction && m.content == content
    ensures m.sender == sender && m.recipient == recipient && m.timestamp == timestamp
    ensures m.status == (if status.Some? then status.value else "sent")
    ensures m.read == (read.Some? && read.value)
    ensures metadata.None? ==> m.metadata == map[]
    ensures attachments.None? ==> m.attachments == []
  {
    Message(id, conversationId, practiceId, channel, direction, content, sender, recipient,
            timestamp, status.GetOr("sent"), MetadataOr(metadata), read.GetOr(false),
            AttachmentsOr(attachments))
  }

  /** The thirteen keys of a message dictionary, which are also `Message.__init__`'s parameters. */
  function MessageKeys(): set<string> {
    {"id", "conversation_id", "practice_id", "channel", "direction", "content", "sender",
     "recipient", "timestamp", "status", "metadata", "read", "attachments"}
  }

  /** `Message.to_dict`: every field under its snake-case key, the timestamp as ISO text. */
  function ToDict(m: Message, iso: DateTime -> string): (d: map<string, Value>)
    ensures d.Keys == MessageKeys()
    ensures d["timestamp"] == Str(iso(m.timestamp))
  {
    map["id" := Str(m.id), "conversation_id" := Str(m.conversationId),
        "practice_id" := Num(m.practiceId), "channel" := Str(m.channel),
        "direction" := Str(m.direction), "content" := Str(m.content),
        "sender" := Str(m.sender), "recipient" := Str(m.recipient),
        "timestamp" := Str(iso(m.timestamp)), "status" := Str(m.status),
        "metadata" := Dict(m.metadata), "read" := Flag(m.read),
        "attachments" := List(m.attachments)]
  }

  /**
   * Why `from_dict` cannot build a message: a missing required key or an
   * unknown key (a `KeyError` or `TypeError` in Python), a value of a type
   * the field cannot hold, or timestamp text that `datetime.fromisoformat`
   * rejects (a `ValueError`).
   */
  datatype DictError =
    | MissingKey(key: string)
    | UnknownKeys(keys: set<string>)
    | Untyped(key: string)
    | Unparsable(text: string)

  function StrField(d: map<string, Value>, key: string): (r: Result<string, DictError>)
    ensures r.Success? <==> key in d && d[key].Str?
    ensures r.Success? ==> d[key] == Str(r.value)
  {
    if key !in d then Failure(MissingKey(key))
    else if d[key].Str? then Success(d[key].s)
    else Failure(Untyped(key))
  }

  /**
   * The timestamp entry: ISO text is parsed (`parse` gives `None` where
   * `fromisoformat` raises), a `datetime` is kept as it is.
   */
  function TimestampField(d: map<string, Value>, parse: string -> Option<DateTime>): (r: Result<DateTime, DictError>)
    ensures "timestamp" in d && d["timestamp"].Moment? ==> r == Success(d["timestamp"].t)
    ensures "timestamp" in d && d["timestamp"].Str? && parse(d["timestamp"].s).Some?
            ==> r == Success(parse(d["timestamp"].s).value)
    ensures "timestamp" in d && d["timestamp"].Str? && parse(d["timestamp"].s).None?
            ==> r == Failure(Unparsable(d["timestamp"].s))
    ensures "timestamp" !in d ==> r == Failure(MissingKey("timestamp"))
  {
    if "timestamp" !in d then Failure(MissingKey("timestamp"))
    else match d["timestamp"]
      case Str(s) => if parse(s).Some? then Success(parse(s).value) else Failure(Unparsable(s))
      case Moment(t) => Success(t)
      case _ => Failure(Untyped("timestamp"))
  }

  /** An optional entry: missing is `None`; `None` for metadata and attachments is `Null`. */
  function OptStatus(d: map<string, Value>): Result<Option<string>, DictError> {
    if "status" !in d then Success(None)
    else if d["status"].Str? then Success(Some(d["status"].s))
    else Failure(Untyped("status"))
  }

  function OptRead(d: map<string, Value>): Result<Option<bool>, DictError> {
    if "read" !in d then Success(None)
    else if d["read"].Flag? then Success(Some(d["read"].b))
    else Failure(Untyped("read"))
  }

  function OptMetadata(d: map<string, Value>): Result<Option<map<string, Value>>, DictError> {
    if "metadata" !in d || d["metadata"].Null? then Success(None)
    else if d["metadata"].Dict? then Success(Some(d["metadata"].entries))
    else Failure(Untyped("metadata"))
  }

  function OptAttachments(d: map<string, Value>): Result<Option<seq<Value>>, DictError> {
    if "attachments" !in d || d["attachments"].Null? then Success(None)
    else if d["attachments"].List? then Success(Some(d["attachments"].items))
    else Failure(Untyped("attachments"))
  }

  /**
   * `Message.from_dict`: the timestamp is read first (a missing one is a
   * `KeyError`), then the dictionary is passed as keyword arguments to
   * `Message`, which refuses unknown keys and missing required ones.
   */
  function FromDict(d: map<string, Value>, parse: string -> Option<DateTime>): (r: Result<Message, DictError>)
    ensures "timestamp" !in d ==> r == Failure(MissingKey("timestamp"))
    ensures "timestamp" in d && d["timestamp"].Str? && parse(d["timestamp"].s).None?
            ==> r == Failure(Unparsable(d["timestamp"].s))
    ensures r.Success? ==> d.Keys <= MessageKeys()
    ensures r.Success? ==> "id" in d && d["id"] == Str(r.value.id)
    ensures r.Success? ==> "content" in d && d["content"] == Str(r.value.content)
    ensures r.Success? && d["timestamp"].Moment? ==> r.value.timestamp == d["timestamp"].t
  {
    var t :- TimestampField(d, parse);
    if !(d.Keys <= MessageKeys()) then Failure(UnknownKeys(d.Keys - MessageKeys()))
    else
      var id :- StrField(d, "id");
      var conversationId :- StrField(d, "conversation_id");
      var practiceId :- if "practice_id" !in d then Failure(MissingKey("practice_id"))
                        else if d["practice_id"].Num? then Success(d["practice_id"].i)
                        else Failure(Untyped("practice_id"));
      var channel :- StrField(d, "channel");
      var direction :- StrField(d, "direction");
      var content :- StrField(d, "content");
      var sender :- StrField(d, "sender");
      var recipient :- StrField(d, "recipient");
      var status :- OptStatus(d);
      var metadata :- OptMetadata(d);
      var read :- OptRead(d);
      var attachments :- OptAttachments(d);
      Success(NewMessage(id, conversationId, practiceId, channel, direction, content, sender,
                         recipient, t, status, metadata, read, attachments))
  }

  /** The entries of a message's dictionary that `from_dict` requires. */
  lemma ToDictRequired(m: Message, iso: DateTime -> string)
    ensures var d := ToDict(m, iso);
            && d["id"] == Str(m.id) && d["conversation_id"] == Str(m.conversationId)
            && d["practice_id"] == Num(m.practiceId) && d["channel"] == Str(m.channel)
            && d["direction"] == Str(m.direction) && d["content"] == Str(m.content)
            && d["sender"] == Str(m.sender) && d["recipient"] == Str(m.recipient)
  {
  }

  /** The entries of a message's dictionary that `from_dict` may do without. */
  lemma ToDictOptional(m: Message, iso: DateTime -> string)
    ensures var d := ToDict(m, iso);
            && d["status"] == Str(m.status) && d["metadata"] == Dict(m.metadata)
            && d["read"] == Flag(m.read) && d["attachments"] == List(m.attachments)
  {
  }

  /**
   * `d` holds the fields of `m` under their keys and nothing else, apart
   * from the timestamp; an optional key that is missing stands for the
   * constructor's default.
   */
  predicate Describes(d: map<string, Value>, m: Message) {
    && d.Keys <= MessageKeys()
    && "id" in d && d["id"] == Str(m.id)
    && "conversation_id" in d && d["conversation_id"] == Str(m.conversationId)
    && "practice_id" in d && d["practice_id"] == Num(m.practiceId)
    && "channel" in d && d["channel"] == Str(m.channel)
    && "direction" in d && d["direction"] == Str(m.direction)
    && "content" in d && d["content"] == Str(m.content)
    && "sender" in d && d["sender"] == Str(m.sender)
    && "recipient" in d && d["recipient"] == Str(m.recipient)
    && (if "status" in d then d["status"] == Str(m.status) else m.status == "sent")
    && (if "metadata" in d then d["metadata"] == Dict(m.metadata) else m.metadata == map[])
    && (if "read" in d then d["read"] == Flag(m.read) else !m.read)
    && (if "attachments" in d then d["attachments"] == List(m.attachments) else m.attachments == [])
  }

  /** `from_dict` rebuilds the message a dictionary describes, once its timestamp reads back. */
  lemma FromDictReads(d: map<string, Value>, parse: string -> Option<DateTime>, m: Message)
    requires Describes(d, m) && TimestampField(d, parse) == Success(m.timestamp)
    ensures FromDict(d, parse) == Success(m)
  {
  }

  /**
   * Reading back a message's own dictionary gives the same message, as
   * long as parsing its ISO timestamp gives the timestamp back.
   */
  lemma RoundTrip(m: Message, iso: DateTime -> string, parse: string -> Option<DateTime>)
    requires parse(iso(m.timestamp)) == Some(m.timestamp)
    ensures FromDict(ToDict(m, iso), parse) == Success(m)
  {
    ToDictRequired(m, iso);
    ToDictOptional(m, iso);
    FromDictReads(ToDict(m, iso), parse, m);
  }

  /** A dictionary whose timestamp is already a `datetime` is read without parsing. */
  lemma FromDictKeepsDateTime(m: Message, iso: DateTime -> string, parse: string -> Option<DateTime>)
    ensures FromDict(ToDict(m, iso)["timestamp" := Moment(m.timestamp)], parse) == Success(m)
  {
    var d0 := ToDict(m, iso);
    var d := d0["timestamp" := Moment(m.timestamp)];
    assert Describes(d, m) by {
      ToDictRequired(m, iso);
      ToDictOptional(m, iso);
      assert d.Keys == MessageKeys();
      assert forall k | k in d && k != "timestamp" :: d[k] == d0[k];
    }
    FromDictReads(d, parse, m);
  }

  /** The dictionary without its optional entries describes the message with default options. */
  lemma RequiredOnly(m: Message, iso: DateTime -> string)
    ensures var d := ToDict(m, iso) - {"status", "metadata", "read", "attachments"};
            && Describes(d, m.(status := "sent", metadata := map[], read := false, attachments := []))
            && "timestamp" in d && d["timestamp"] == Str(iso(m.timestamp))
  {
    var d0 := ToDict(m, iso);
    var d := d0 - {"status", "metadata", "read", "attachments"};
    ToDictRequired(m, iso);
    assert forall k | k in d :: d[k] == d0[k];
  }

  /** Only the nine required keys are needed; the others take the constructor's defaults. */
  lemma FromDictDefaults(m: Message, iso: DateTime -> string, parse: string -> Option<DateTime>)
    requires parse(iso(m.timestamp)) == Some(m.timestamp)
    ensures var d := ToDict(m, iso) - {"status", "metadata", "read", "attachments"};
            FromDict(d, parse) == Success(m.(status := "sent", metadata := map[], read := false, attachments := []))
  {
    RequiredOnly(m, iso);
    FromDictReads(ToDict(m, iso) - {"status", "metadata", "read", "attachments"}, parse,
                  m.(status := "sent", metadata := map[], read := false, attachments := []));
  }

  // ---- Conversation ----

  datatype Conversation = Conversation(
    id: string,
    practiceId: int,
    practiceName: string,
    channels: seq<string>,
    lastMessage: Option<Message>,
    unreadCount: int,
    messages: seq<Message>,
    createdAt: DateTime,
    updatedAt: DateTime)

  /**
   * `Conversation.__init__`: missing messages are the empty list and
   * missing dates are `now` (a `datetime` is never falsy).
   */
  function NewConversation(id: string, practiceId: int, practiceName: string, channels: seq<string>,
                           lastMessage: Option<Message>, unreadCount: int,
                           messages: Option<seq<Message>>, createdAt: Option<DateTime>,
                           updatedAt: Option<DateTime>, now: DateTime): (c: Conversation)
    ensures messages.None? ==> c.messages == []
    ensures messages.Some? ==> c.messages == messages.value
    ensures c.createdAt == createdAt.GetOr(now) && c.updatedAt == updatedAt.GetOr(now)
    ensures c.id == id && c.practiceId == practiceId && c.practiceName == practiceName
    ensures c.channels == channels && c.lastMessage == lastMessage && c.unreadCount == unreadCount
  {
    Conversation(id, practiceId, practiceName, channels, lastMessage, unreadCount,
                 if messages.Some? && messages.value != [] then messages.value else [],
                 createdAt.GetOr(now), updatedAt.GetOr(now))
  }

  function ConversationKeys(): set<string> {
    {"id", "practice_id", "practice_name", "channels", "last_message", "unread_count",
     "messages", "created_at", "updated_at"}
  }

  function StrList(ss: seq<string>): (v: seq<Value>)
    ensures |v| == |ss| && forall k | 0 <= k < |ss| :: v[k] == Str(ss[k])
  {
    seq(|ss|, k requires 0 <= k < |ss| => Str(ss[k]))
  }

  /** `Conversation.to_dict`. */
  function ConversationToDict(c: Conversation, iso: DateTime -> string): (d: map<string, Value>)
    ensures d.Keys == ConversationKeys()
    ensures c.lastMessage.None? <==> d["last_message"] == Null
    ensures d["messages"].List? && |d["messages"].items| == |c.messages|
  {
    map["id" := Str(c.id), "practice_id" := Num(c.practiceId),
        "practice_name" := Str(c.practiceName), "channels" := List(StrList(c.channels)),
        "last_message" := (if c.lastMessage.Some? then Dict(ToDict(c.lastMessage.value, iso)) else Null),
        "unread_count" := Num(c.unreadCount),
        "messages" := List(seq(|c.messages|, k requires 0 <= k < |c.messages| => Dict(ToDict(c.messages[k], iso)))),
        "created_at" := Str(iso(c.createdAt)), "updated_at" := Str(iso(c.updatedAt))]
  }

  /**
   * The serialised conversation lists its messages in order: reading back
   * its `k`-th entry gives the `k`-th message, and its last message reads
   * back to the last message.
   */
  lemma ConversationMessagesInOrder(c: Conversation, iso: DateTime -> string, parse: string -> Option<DateTime>, k: nat)
    requires k < |c.messages|
    requires parse(iso(c.messages[k].timestamp)) == Some(c.messages[k].timestamp)
    ensures var items := ConversationToDict(c, iso)["messages"].items;
            items[k].Dict? && FromDict(items[k].entries, parse) == Success(c.messages[k])
  {
    var m := c.messages[k];
    assert ConversationToDict(c, iso)["messages"].items[k] == Dict(ToDict(m, iso));
    RoundTrip(m, iso, parse);
  }

  lemma ConversationLastMessage(c: Conversation, iso: DateTime -> string, parse: string -> Option<DateTime>)
    requires c.lastMessage.Some?
    requires parse(iso(c.lastMessage.value.timestamp)) == Some(c.lastMessage.value.timestamp)
    ensures var v := ConversationToDict(c, iso)["last_message"];
            v.Dict? && FromDict(v.entries, parse) == Success(c.lastMessage.value)
  {
    var m := c.lastMessage.value;
    assert ConversationToDict(c, iso)["last_message"] == Dict(ToDict(m, iso));
    RoundTrip(m, iso, parse);
  }
}
