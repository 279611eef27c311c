/** The chat archive service over a pinning store. The store is a map from
    content hash to pinned JSON plus its metadata, and may be unreachable;
    an upload is told the hash the store assigns. The service's own state
    is its message cache. Timestamps (`new Date().toISOString()`,
    `Date.now()`) and `crypto.randomUUID()` are parameters. */
module IpfsService {
  import opened Wrappers
  import opened Json
  import opened JsStrings
  import opened Decimal

  type Hash = string

  /** Pin metadata: a display name and string key/values used for listing. */
  datatype Metadata = Metadata(name: string, keyvalues: Object)

  datatype Pin = Pin(content: Json, metadata: Metadata)

  /** The remote pinning store. */
  datatype Remote = Remote(pins: map<Hash, Pin>, available: bool)

  /** Why a call into the store threw. */
  datatype StoreError = Unreachable | NotPinned

  /** The service: its cache from hash to record, and the store it talks to. */
  datatype Service = Service(cache: map<Hash, Json>, remote: Remote)

  /** A call's result (or rethrown error) and the service afterwards. */
  datatype Outcome<T> = Outcome(result: Result<T, StoreError>, service: Service)

  // Record keys and tags.
  const TypeKey: string := "type"
  const RoomIdKey: string := "roomId"
  const SenderKey: string := "sender"
  const TimestampKey: string := "timestamp"
  const IdKey: string := "id"
  const MessagesKey: string := "messages"
  const LastUpdatedKey: string := "lastUpdated"
  const MessageCountKey: string := "messageCount"
  const CreatedAtKey: string := "createdAt"
  const TotalMessagesKey: string := "totalMessages"
  const IpfsHashKey: string := "ipfsHash"
  const ChatMessageType: string := "chat-message"
  const ChatRoomType: string := "chat-room"
  const ChatLogType: string := "chat-log"

  // ---------------------------------------------------------------------
  // The store's two primitives

  /** `pinata.upload.json`: pins `content` under the hash the store assigns. */
  function Upload(remote: Remote, content: Json, metadata: Metadata, hash: Hash): (r: Result<Remote, StoreError>)
    ensures r.Success? <==> remote.available
    ensures r.Success? ==> r.value == remote.(pins := remote.pins[hash := Pin(content, metadata)])
  {
    if remote.available then Success(remote.(pins := remote.pins[hash := Pin(content, metadata)]))
    else Failure(Unreachable)
  }

  /** `pinata.gateways.get`: the pinned content, if the store is reachable
      and holds the hash. */
  function Fetch(remote: Remote, hash: Hash): (r: Result<Json, StoreError>)
    ensures r.Success? <==> remote.available && hash in remote.pins
    ensures r.Success? ==> r.value == remote.pins[hash].content
  {
    if !remote.available then Failure(Unreachable)
    else if hash !in remote.pins then Failure(NotPinned)
    else Success(remote.pins[hash].content)
  }

  // ---------------------------------------------------------------------
  // storeMessage / getMessage

  /** The stored message: the caller's fields with a fresh `timestamp` and
      `id` overriding any the caller supplied. */
  function StampMessage(data: Object, isoNow: string, uuid: string): (rec: Object)
    ensures rec.Keys == data.Keys + {TimestampKey, IdKey}
    ensures rec[TimestampKey] == JStr(isoNow) && rec[IdKey] == JStr(uuid)
    ensures forall k :: k in data && k != TimestampKey && k != IdKey ==> rec[k] == data[k]
  {
    Spread(data, map[TimestampKey := JStr(isoNow), IdKey := JStr(uuid)])
  }

  function MessageMetadata(data: Object, isoNow: string, uuid: string): Metadata {
    var kv := map[TypeKey := JStr(ChatMessageType), TimestampKey := JStr(isoNow)];
    Metadata("chat-message-" + uuid,
             PutDefined(PutDefined(kv, RoomIdKey, Get(data, RoomIdKey)), SenderKey, Get(data, SenderKey)))
  }

  /** `storeMessage`: upload the stamped message; only when the upload
      succeeds does the cache map the returned hash to exactly the record
      uploaded. The pin is named after the record's `id`, tagged
      `chat-message`, and carries the message's room and sender when the
      caller gave them, and the record's `timestamp`. No other pin changes.
      A failed upload is rethrown and changes nothing. */
  function StoreMessage(svc: Service, data: Object, isoNow: string, uuid: string, hash: Hash): (r: Outcome<Hash>)
    ensures r.result.Success? <==> svc.remote.available
    ensures r.result.Success? ==>
              && r.result.value == hash
              && r.service.cache == svc.cache[hash := JObj(StampMessage(data, isoNow, uuid))]
              && hash in r.service.remote.pins
              && r.service.remote == svc.remote.(pins := svc.remote.pins[hash := r.service.remote.pins[hash]])
              && var pin := r.service.remote.pins[hash];
                 var kv := pin.metadata.keyvalues;
                 && pin.content == r.service.cache[hash]
                 && pin.metadata.name == "chat-message-" + uuid
                 && kv.Keys <= {TypeKey, RoomIdKey, SenderKey, TimestampKey}
                 && Get(kv, TypeKey) == Some(JStr(ChatMessageType))
                 && Get(kv, RoomIdKey) == Get(data, RoomIdKey)
                 && Get(kv, SenderKey) == Get(data, SenderKey)
                 && Get(kv, TimestampKey) == Some(JStr(isoNow))
    ensures r.result.Failure? ==> r.service == svc
  {
    var record := JObj(StampMessage(data, isoNow, uuid));
    match Upload(svc.remote, record, MessageMetadata(data, isoNow, uuid), hash)
    case Failure(e) => Outcome(Failure(e), svc)
    case Success(remote) => Outcome(Success(hash), Service(svc.cache[hash := record], remote))
  }

  /** `getMessage`: a cached hash is answered from the cache and the store is
      not consulted; otherwise the record is fetched and cached under its
      hash. A failed fetch is rethrown and changes nothing. */
  function GetMessage(svc: Service, hash: Hash): (r: Outcome<Json>)
    ensures r.service.remote == svc.remote
    ensures hash in svc.cache ==> r == Outcome(Success(svc.cache[hash]), svc)
    ensures hash !in svc.cache && r.result.Success? ==>
              r.result == Fetch(svc.remote, hash) && r.service.cache == svc.cache[hash := r.result.value]
    ensures r.result.Failure? ==> r.service == svc && r.result == Fetch(svc.remote, hash)
  {
    if hash in svc.cache then Outcome(Success(svc.cache[hash]), svc)
    else
      match Fetch(svc.remote, hash)
      case Failure(e) => Outcome(Failure(e), svc)
      case Success(data) => Outcome(Success(data), svc.(cache := svc.cache[hash := data]))
  }

  /** Every cached record is what the store holds under that hash. */
  ghost predicate CacheCoherent(svc: Service) {
    forall h :: h in svc.cache ==> h in svc.remote.pins && svc.remote.pins[h].content == svc.cache[h]
  }

  /** With a coherent cache the cache is invisible: `getMessage` answers
      what a fetch from the reachable store answers. */
  lemma CacheTransparent(svc: Service, hash: Hash)
    requires CacheCoherent(svc) && svc.remote.available
    ensures GetMessage(svc, hash).result == Fetch(svc.remote, hash)
  {
  }

  /** A message just stored is read back from the cache, even once the store
      is unreachable. */
  lemma StoreThenGetMessage(svc: Service, data: Object, isoNow: string, uuid: string, hash: Hash, later: Remote)
    requires StoreMessage(svc, data, isoNow, uuid, hash).result.Success?
    ensures var s1 := StoreMessage(svc, data, isoNow, uuid, hash).service;
            GetMessage(s1.(remote := later), hash).result == Success(JObj(StampMessage(data, isoNow, uuid)))
  {
  }

  /** Reading a message twice gives the same record, and the second read
      changes nothing. */
  lemma GetMessageIdempotent(svc: Service, hash: Hash)
    requires GetMessage(svc, hash).result.Success?
    ensures var first := GetMessage(svc, hash);
            GetMessage(first.service, hash) == first.(service := first.service)
  {
  }

  // ---------------------------------------------------------------------
  // storeChatRoom / getChatRoom

  /** The chat-room snapshot record. */
  datatype ChatRoomSnapshot = ChatRoomSnapshot(roomId: string, messages: seq<Json>, lastUpdated: string, messageCount: int)

  function SnapshotJson(s: ChatRoomSnapshot): Json {
    JObj(map[RoomIdKey := JStr(s.roomId), MessagesKey := JArr(s.messages),
             LastUpdatedKey := JStr(s.lastUpdated), MessageCountKey := JNum(s.messageCount)])
  }

  /** Reading a snapshot back from fetched JSON. */
  function ParseSnapshot(j: Json): Option<ChatRoomSnapshot> {
    if !j.JObj? then None
    else
      var o := j.fields;
      if && Get(o, RoomIdKey).Some? && o[RoomIdKey].JStr?
         && Get(o, MessagesKey).Some? && o[MessagesKey].JArr?
         && Get(o, LastUpdatedKey).Some? && o[LastUpdatedKey].JStr?
         && Get(o, MessageCountKey).Some? && o[MessageCountKey].JNum?
      then Some(ChatRoomSnapshot(o[RoomIdKey].s, o[MessagesKey].items, o[LastUpdatedKey].s, o[MessageCountKey].n))
      else None
  }

  lemma SnapshotRoundTrip(s: ChatRoomSnapshot)
    ensures ParseSnapshot(SnapshotJson(s)) == Some(s)
  {
  }

  function ChatRoomMetadata(roomId: string, messages: seq<Json>, isoNow: string): Metadata {
    Metadata("chat-room-" + roomId,
             map[TypeKey := JStr(ChatRoomType), RoomIdKey := JStr(roomId),
                 MessageCountKey := JStr(NatToDecimal(|messages|)), LastUpdatedKey := JStr(isoNow)])
  }

  /** `storeChatRoom`: upload one snapshot of the room; the cache is not
      involved. The snapshot holds the messages unchanged with their count,
      and the metadata names the room, is tagged `chat-room`, and repeats
      the count (in decimal) and the snapshot's own `lastUpdated`. No other
      pin changes. */
  function StoreChatRoom(svc: Service, roomId: string, messages: seq<Json>, isoNow: string, hash: Hash): (r: Outcome<Hash>)
    ensures r.service.cache == svc.cache
    ensures r.result.Success? <==> svc.remote.available
    ensures r.result.Failure? ==> r.service == svc
    ensures r.result.Success? ==>
              && r.result.value == hash
              && hash in r.service.remote.pins
              && r.service.remote == svc.remote.(pins := svc.remote.pins[hash := r.service.remote.pins[hash]])
              && var pin := r.service.remote.pins[hash];
                 var kv := pin.metadata.keyvalues;
                 && pin.content.JObj?
                 && pin.content.fields.Keys == {RoomIdKey, MessagesKey, LastUpdatedKey, MessageCountKey}
                 && ParseSnapshot(pin.content).Some?
                 && var snap := ParseSnapshot(pin.content).value;
                    && snap.roomId == roomId
                    && snap.messages == messages
                    && snap.messageCount == |messages|
                    && pin.metadata.name == "chat-room-" + roomId
                    && kv.Keys == {TypeKey, RoomIdKey, MessageCountKey, LastUpdatedKey}
                    && kv[TypeKey] == JStr(ChatRoomType)
                    && kv[RoomIdKey] == JStr(roomId)
                    && kv[MessageCountKey] == JStr(NatToDecimal(|messages|))
                    && kv[LastUpdatedKey] == JStr(snap.lastUpdated)
  {
    var snapshot := ChatRoomSnapshot(roomId, messages, isoNow, |messages|);
    SnapshotRoundTrip(snapshot);
    DecimalRoundTrip(|messages|);
    match Upload(svc.remote, SnapshotJson(snapshot), ChatRoomMetadata(roomId, messages, isoNow), hash)
    case Failure(e) => Outcome(Failure(e), svc)
    case Success(remote) => Outcome(Success(hash), svc.(remote := remote))
  }

  /** `getChatRoom`: a plain fetch; the cache is neither read nor written. */
  function GetChatRoom(svc: Service, hash: Hash): (r: Outcome<Json>)
    ensures r.service == svc
    ensures r.result == Fetch(svc.remote, hash)
  {
    Outcome(Fetch(svc.remote, hash), svc)
  }

  /** Whatever the cache holds, `getChatRoom` answers the same. */
  lemma GetChatRoomIgnoresCache(svc: Service, otherCache: map<Hash, Json>, hash: Hash)
    ensures GetChatRoom(svc, hash).result == GetChatRoom(svc.(cache := otherCache), hash).result
  {
  }

  /** A stored room snapshot reads back with the same room, messages and
      count. */
  lemma StoreThenGetChatRoom(svc: Service, roomId: string, messages: seq<Json>, isoNow: string, hash: Hash)
    requires StoreChatRoom(svc, roomId, messages, isoNow, hash).result.Success?
    ensures var s1 := StoreChatRoom(svc, roomId, messages, isoNow, hash).service;
            var got := GetChatRoom(s1, hash).result;
            && got.Success?
            && ParseSnapshot(got.value) == Some(ChatRoomSnapshot(roomId, messages, isoNow, |messages|))
  {
    SnapshotRoundTrip(ChatRoomSnapshot(roomId, messages, isoNow, |messages|));
  }

  // ---------------------------------------------------------------------
  // listChatFiles

  /** The listing filter: always `type = chat-room`, plus `roomId` when one
      is given. */
  function ChatFileFilter(roomId: Option<string>): (f: Object)
    ensures TypeKey in f && f[TypeKey] == JStr(ChatRoomType)
    ensures RoomIdKey in f <==> TruthyString(roomId)
    ensures TruthyString(roomId) ==> f[RoomIdKey] == JStr(roomId.value)
    ensures f.Keys <= {TypeKey, RoomIdKey}
  {
    var f := map[TypeKey := JStr(ChatRoomType)];
    if TruthyString(roomId) then f[RoomIdKey := JStr(roomId.value)] else f
  }

  /** A pin matches a filter when every filter key is present with the same
      value. */
  predicate MatchesFilter(m: Metadata, filter: Object) {
    forall k :: k in filter ==> k in m.keyvalues && m.keyvalues[k] == filter[k]
  }

  /** The pins a listing should return: chat-room snapshots, of the given
      room when one is given. */
  predicate IsListedRoom(p: Pin, roomId: Option<string>) {
    && Get(p.metadata.keyvalues, TypeKey) == Some(JStr(ChatRoomType))
    && (TruthyString(roomId) ==> Get(p.metadata.keyvalues, RoomIdKey) == Some(JStr(roomId.value)))
  }

  /** `listChatFiles`: the hashes of the pins matching the filter. */
  function ListChatFiles(svc: Service, roomId: Option<string>): (r: Outcome<set<Hash>>)
    ensures r.service == svc
    ensures r.result.Success? <==> svc.remote.available
    ensures r.result.Success? ==>
              forall h :: h in r.result.value <==> h in svc.remote.pins && IsListedRoom(svc.remote.pins[h], roomId)
  {
    if !svc.remote.available then Outcome(Failure(Unreachable), svc)
    else
      var filter := ChatFileFilter(roomId);
      var files := set h | h in svc.remote.pins && MatchesFilter(svc.remote.pins[h].metadata, filter);
      assert forall h :: h in svc.remote.pins ==>
               (MatchesFilter(svc.remote.pins[h].metadata, filter) <==> IsListedRoom(svc.remote.pins[h], roomId));
      Outcome(Success(files), svc)
  }

  /** A stored room snapshot is listed, both among all rooms and under its
      own room id. */
  lemma StoredRoomIsListed(svc: Service, roomId: string, messages: seq<Json>, isoNow: string, hash: Hash)
    requires StoreChatRoom(svc, roomId, messages, isoNow, hash).result.Success?
    ensures var s1 := StoreChatRoom(svc, roomId, messages, isoNow, hash).service;
            && hash in ListChatFiles(s1, None).result.value
            && hash in ListChatFiles(s1, Some(roomId)).result.value
  {
  }

  // ---------------------------------------------------------------------
  // createChatLog

  /** A log entry: the message's fields with `ipfsHash` set to its own value
      when truthy and to `null` otherwise. */
  function LogEntry(msg: Object): (e: Object)
    ensures e.Keys == msg.Keys + {IpfsHashKey}
    ensures forall k :: k in msg && k != IpfsHashKey ==> e[k] == msg[k]
    ensures e[IpfsHashKey] == if Truthy(Get(msg, IpfsHashKey)) then msg[IpfsHashKey] else JNull
  {
    Spread(msg, map[IpfsHashKey := if Truthy(Get(msg, IpfsHashKey)) then msg[IpfsHashKey] else JNull])
  }

  /** The log's message list: one entry per message, in the same order. */
  function LogEntries(messages: seq<Object>): (es: seq<Json>)
    ensures |es| == |messages|
    ensures forall i :: 0 <= i < |messages| ==> es[i] == JObj(LogEntry(messages[i]))
  {
    seq(|messages|, i requires 0 <= i < |messages| => JObj(LogEntry(messages[i])))
  }

  /** Logging two batches of messages gives the two logs one after the
      other. */
  lemma LogEntriesAppend(a: seq<Object>, b: seq<Object>)
    ensures LogEntries(a + b) == LogEntries(a) + LogEntries(b)
  {
  }

  function ChatLogJson(roomId: string, messages: seq<Object>, isoNow: string): Json {
    JObj(map[RoomIdKey := JStr(roomId), MessagesKey := JArr(LogEntries(messages)),
             CreatedAtKey := JStr(isoNow), TotalMessagesKey := JNum(|messages|)])
  }

  function ChatLogMetadata(roomId: string, messages: seq<Object>, isoNow: string, nowMs: nat): Metadata {
    Metadata("chat-log-" + roomId + "-" + NatToDecimal(nowMs),
             map[TypeKey := JStr(ChatLogType), RoomIdKey := JStr(roomId),
                 MessageCountKey := JStr(NatToDecimal(|messages|)), CreatedAtKey := JStr(isoNow)])
  }

  /** `createChatLog`: upload a log of the room tagged `chat-log`; the cache
      is not involved. The log keeps the messages in order with their
      fields, normalises `ipfsHash`, and counts the messages; the metadata
      names the room and the creation time in milliseconds. No other pin
      changes. */
  function CreateChatLog(svc: Service, roomId: string, messages: seq<Object>, isoNow: string,
                         nowMs: nat, hash: Hash): (r: Outcome<Hash>)
    ensures r.service.cache == svc.cache
    ensures r.result.Success? <==> svc.remote.available
    ensures r.result.Failure? ==> r.service == svc
    ensures r.result.Success? ==>
              && r.result.value == hash
              && hash in r.service.remote.pins
              && r.service.remote == svc.remote.(pins := svc.remote.pins[hash := r.service.remote.pins[hash]])
              && var pin := r.service.remote.pins[hash];
                 var kv := pin.metadata.keyvalues;
                 && pin.content.JObj?
                 && pin.content.fields.Keys == {RoomIdKey, MessagesKey, CreatedAtKey, TotalMessagesKey}
                 && Get(pin.content.fields, RoomIdKey) == Some(JStr(roomId))
                 && Get(pin.content.fields, CreatedAtKey) == Some(JStr(isoNow))
                 && Get(pin.content.fields, TotalMessagesKey) == Some(JNum(|messages|))
                 && Get(pin.content.fields, MessagesKey).Some?
                 && pin.content.fields[MessagesKey].JArr?
                 && var logged := pin.content.fields[MessagesKey].items;
                    && |logged| == |messages|
                    && (forall i :: 0 <= i < |messages| ==> logged[i] == JObj(LogEntry(messages[i])))
                    && pin.metadata.name == "chat-log-" + roomId + "-" + NatToDecimal(nowMs)
                    && kv.Keys == {TypeKey, RoomIdKey, MessageCountKey, CreatedAtKey}
                    && Get(kv, TypeKey) == Some(JStr(ChatLogType))
                    && Get(kv, RoomIdKey) == Some(JStr(roomId))
                    && Get(kv, MessageCountKey) == Some(JStr(NatToDecimal(|messages|)))
                    && Get(kv, CreatedAtKey) == Some(JStr(isoNow))
  {
    match Upload(svc.remote, ChatLogJson(roomId, messages, isoNow), ChatLogMetadata(roomId, messages, isoNow, nowMs), hash)
    case Failure(e) => Outcome(Failure(e), svc)
    case Success(remote) => Outcome(Success(hash), svc.(remote := remote))
  }

  /** Chat logs are never returned by the chat-room listing. */
  lemma ChatLogNotListed(svc: Service, roomId: string, messages: seq<Object>, isoNow: string,
                         nowMs: nat, hash: Hash, filter: Option<string>)
    requires CreateChatLog(svc, roomId, messages, isoNow, nowMs, hash).result.Success?
    ensures var s1 := CreateChatLog(svc, roomId, messages, isoNow, nowMs, hash).service;
            hash !in ListChatFiles(s1, filter).result.value
  {
  }

  // ---------------------------------------------------------------------
  // The cache invariant across operations

  /** Every operation keeps the cache coherent with the store, provided each
      upload is assigned a hash the store does not hold yet. */
  lemma OperationsKeepCacheCoherent(svc: Service, data: Object, roomId: string, messages: seq<Json>,
                                    logMessages: seq<Object>, isoNow: string, uuid: string, nowMs: nat,
                                    hash: Hash, newHash: Hash)
    requires CacheCoherent(svc)
    requires newHash !in svc.remote.pins
    ensures CacheCoherent(StoreMessage(svc, data, isoNow, uuid, hash).service)
    ensures CacheCoherent(GetMessage(svc, hash).service)
    ensures CacheCoherent(StoreChatRoom(svc, roomId, messages, isoNow, newHash).service)
    ensures CacheCoherent(CreateChatLog(svc, roomId, logMessages, isoNow, nowMs, newHash).service)
    ensures CacheCoherent(GetChatRoom(svc, hash).service)
    ensures CacheCoherent(ListChatFiles(svc, Some(roomId)).service)
  {
    StoreMessageKeepsCoherent(svc, data, isoNow, uuid, hash);
    var room := StoreChatRoom(svc, roomId, messages, isoNow, newHash);
    if room.result.Success? {
      FreshPinKeepsCoherent(svc, room.service.remote, newHash);
    }
    var log := CreateChatLog(svc, roomId, logMessages, isoNow, nowMs, newHash);
    if log.result.Success? {
      FreshPinKeepsCoherent(svc, log.service.remote, newHash);
    }
  }

  /** Storing a message pins and caches the same record under its hash. */
  lemma StoreMessageKeepsCoherent(svc: Service, data: Object, isoNow: string, uuid: string, hash: Hash)
    requires CacheCoherent(svc)
    ensures CacheCoherent(StoreMessage(svc, data, isoNow, uuid, hash).service)
  {
  }

  /** Adding a pin under a hash the store did not hold, with the cache
      untouched, keeps every cached record equal to its pin. */
  lemma FreshPinKeepsCoherent(svc: Service, remote: Remote, newHash: Hash)
    requires CacheCoherent(svc) && newHash !in svc.remote.pins && newHash in remote.pins
    requires remote == svc.remote.(pins := svc.remote.pins[newHash := remote.pins[newHash]])
    ensures CacheCoherent(svc.(remote := remote))
  {
  }

  /** The store only grows under fresh hashes: every pin listed before a
      room snapshot is stored is still listed afterwards. */
  lemma ListingGrows(svc: Service, roomId: string, messages: seq<Json>, isoNow: string, newHash: Hash,
                     filter: Option<string>)
    requires svc.remote.available && newHash !in svc.remote.pins
    ensures var s1 := StoreChatRoom(svc, roomId, messages, isoNow, newHash).service;
            ListChatFiles(svc, filter).result.value <= ListChatFiles(s1, filter).result.value
  {
  }
}
