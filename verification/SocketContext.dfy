/** The socket provider's protocol logic: the connection message sent when
    the socket opens, and the inbound-message handler as a pure reducer over
    the provider's state. Events arrive already JSON-decoded; a field the
    payload lacks is `None`. */
module SocketContext {
  import opened Wrappers
  import opened JsStrings

  /** A decoded inbound payload; only the fields the handler reads. */
  datatype Event = Event(
    eventType: Option<string>,   // `type`
    message: Option<string>,
    userId: Option<string>,
    therapistId: Option<string>,
    did: Option<string>,
    status: Option<string>,
    time: Option<string>
  )

  /** An entry of the chat list the provider keeps (its `type` is always
      `chat` and is not stored). */
  datatype ChatEntry = ChatEntry(message: Option<string>, sender: Option<string>, time: Option<string>)

  /** The provider's state. */
  datatype SocketState = SocketState(
    pendingRequest: Option<Event>,
    acceptedRequest: Option<Event>,
    messages: seq<ChatEntry>,
    userDID: Option<string>
  )

  // Wire tags, spelled as on the wire.
  const AppointmentRequestTag: string := "appoinment_request"
  const AppointmentFixedTag: string := "appoinment_fixed"
  const AppointmentRejectedTag: string := "appoinment_rejected"
  const ChatType: string := "chat"
  const DidRegistered: string := "DID registered"
  const DidAlreadyRegistered: string := "DID already registered"

  // ---------------------------------------------------------------------
  // Connection message

  /** The two shapes of the `connection` message. */
  datatype ConnectionMessage =
    | UserConnection(userId: string, idToken: string, walletAddress: string, time: int)
    | TherapistConnection(therapistId: string, time: int)

  /** The wallet a connection message announces. */
  function AnnouncedWallet(m: ConnectionMessage): string {
    match m
    case UserConnection(_, _, w, _) => w
    case TherapistConnection(t, _) => t
  }

  /** The message sent when the socket opens, or `None` when no socket is
      opened because no wallet address is connected. A phone-verified user
      with an id token and a phone number announces them with the wallet;
      everyone else announces the wallet as a therapist id. */
  function OnOpen(address: Option<string>, isPhoneVerified: bool, idToken: Option<string>,
                  phoneNumber: Option<string>, now: int): (r: Option<ConnectionMessage>)
    ensures r.None? <==> !TruthyString(address)
    ensures r.Some? ==> AnnouncedWallet(r.value) == address.value && r.value.time == now
    ensures r.Some? ==> (r.value.UserConnection? <==> isPhoneVerified && TruthyString(idToken) && TruthyString(phoneNumber))
    ensures r.Some? && r.value.UserConnection? ==>
              r.value.userId == phoneNumber.value && r.value.idToken == idToken.value
  {
    if !TruthyString(address) then None
    else if isPhoneVerified && TruthyString(idToken) && TruthyString(phoneNumber) then
      Some(UserConnection(phoneNumber.value, idToken.value, address.value, now))
    else
      Some(TherapistConnection(address.value, now))
  }

  // ---------------------------------------------------------------------
  // Inbound messages

  /** A DID-registration acknowledgement. */
  predicate IsDidAck(e: Event) {
    TruthyString(e.did) && (e.status == Some(DidRegistered) || e.status == Some(DidAlreadyRegistered))
  }

  /** An appointment request addressed to this wallet as therapist. */
  predicate IsRequestFor(e: Event, address: string) {
    e.message == Some(AppointmentRequestTag) && e.therapistId == Some(address)
  }

  /** A fixed appointment in which this wallet takes part. */
  predicate IsFixedFor(e: Event, address: string) {
    e.message == Some(AppointmentFixedTag) && (e.therapistId == Some(address) || e.userId == Some(address))
  }

  predicate IsChat(e: Event) {
    e.eventType == Some(ChatType)
  }

  /** The chat entry for an event: the sender is the event's user id unless
      that is this wallet, in which case it is the therapist id. So the
      entry names one of the event's two parties, and names this wallet only
      when the event gives it both roles. */
  function ChatEntryOf(e: Event, address: string): (c: ChatEntry)
    ensures c.message == e.message && c.time == e.time
    ensures c.sender == e.userId || c.sender == e.therapistId
    ensures e.userId != Some(address) ==> c.sender == e.userId
    ensures c.sender == Some(address) <==> e.userId == Some(address) && e.therapistId == Some(address)
  {
    ChatEntry(e.message, if e.userId != Some(address) then e.userId else e.therapistId, e.time)
  }

  /** The `onmessage` handler for a connected wallet. Its four branches are
      independent tests, so one event may update several fields; a field
      whose test fails keeps its value. */
  function OnMessage(s: SocketState, address: string, e: Event): (r: SocketState)
    ensures r.userDID == (if IsDidAck(e) then e.did else s.userDID)
    ensures r.pendingRequest == (if IsRequestFor(e, address) then Some(e) else s.pendingRequest)
    ensures r.acceptedRequest == (if IsFixedFor(e, address) then Some(e) else s.acceptedRequest)
    ensures IsChat(e) ==> r.messages == s.messages + [ChatEntryOf(e, address)]
    ensures !IsChat(e) ==> r.messages == s.messages
  {
    var s1 := if IsDidAck(e) then s.(userDID := e.did) else s;
    var s2 := if IsRequestFor(e, address) then s1.(pendingRequest := Some(e)) else s1;
    var s3 := if IsFixedFor(e, address) then s2.(acceptedRequest := Some(e)) else s2;
    if IsChat(e) then s3.(messages := s3.messages + [ChatEntryOf(e, address)]) else s3
  }

  /** One inbound event for the provider as a whole: without a connected
      wallet no socket exists and nothing changes. With one, each field
      either keeps its value or takes the event's, and the chat list only
      grows at its end, by at most one entry. */
  function Step(s: SocketState, address: Option<string>, e: Event): (r: SocketState)
    ensures !TruthyString(address) ==> r == s
    ensures r.userDID == s.userDID || (r.userDID == e.did && TruthyString(e.did))
    ensures r.pendingRequest == s.pendingRequest || r.pendingRequest == Some(e)
    ensures r.acceptedRequest == s.acceptedRequest || r.acceptedRequest == Some(e)
    ensures |s.messages| <= |r.messages| <= |s.messages| + 1
    ensures r.messages[..|s.messages|] == s.messages
  {
    if TruthyString(address) then OnMessage(s, address.value, e) else s
  }

  /** The state after a sequence of events, in arrival order. */
  function Run(s: SocketState, address: Option<string>, events: seq<Event>): SocketState
    decreases |events|
  {
    if |events| == 0 then s
    else Step(Run(s, address, events[..|events| - 1]), address, events[|events| - 1])
  }

  /** The chat entries a sequence of events produces, in order. */
  function ChatEntries(events: seq<Event>, address: string): (c: seq<ChatEntry>)
    ensures |c| <= |events|
  {
    if |events| == 0 then []
    else (if IsChat(events[0]) then [ChatEntryOf(events[0], address)] else [])
         + ChatEntries(events[1..], address)
  }

  lemma {:induction false} ChatEntriesSnoc(events: seq<Event>, e: Event, address: string)
    ensures ChatEntries(events + [e], address)
            == ChatEntries(events, address) + (if IsChat(e) then [ChatEntryOf(e, address)] else [])
    decreases |events|
  {
    if |events| == 0 {
      assert events + [e] == [e];
    } else {
      var all := events + [e];
      assert all[0] == events[0] && all[1..] == events[1..] + [e];
      var head := if IsChat(events[0]) then [ChatEntryOf(events[0], address)] else [];
      var tail := if IsChat(e) then [ChatEntryOf(e, address)] else [];
      ChatEntriesSnoc(events[1..], e, address);
      calc {
        ChatEntries(all, address);
        head + ChatEntries(events[1..] + [e], address);
        head + (ChatEntries(events[1..], address) + tail);
        (head + ChatEntries(events[1..], address)) + tail;
        ChatEntries(events, address) + tail;
      }
    }
  }

  /** Without a connected wallet, no event changes anything. */
  lemma {:induction false} RunWithoutWallet(s: SocketState, address: Option<string>, events: seq<Event>)
    requires !TruthyString(address)
    ensures Run(s, address, events) == s
    decreases |events|
  {
    if |events| > 0 {
      RunWithoutWallet(s, address, events[..|events| - 1]);
    }
  }

  /** The chat list only grows at its end: after any sequence of events it
      is the earlier list followed by one entry per chat event, in arrival
      order. */
  lemma {:induction false} RunMessages(s: SocketState, address: string, events: seq<Event>)
    requires address != ""
    ensures Run(s, Some(address), events).messages == s.messages + ChatEntries(events, address)
    decreases |events|
  {
    if |events| > 0 {
      var prefix, e := events[..|events| - 1], events[|events| - 1];
      RunMessages(s, address, prefix);
      ChatEntriesSnoc(prefix, e, address);
      assert events == prefix + [e];
    }
  }

  /** The last appointment request addressed to `address` in a sequence. */
  function LastRequest(events: seq<Event>, address: string): (r: Option<Event>)
    ensures r.Some? ==> r.value in events && IsRequestFor(r.value, address)
  {
    if |events| == 0 then None
    else if IsRequestFor(events[|events| - 1], address) then Some(events[|events| - 1])
    else LastRequest(events[..|events| - 1], address)
  }

  /** A later request overwrites an earlier one: the pending request after a
      sequence of events is the last request addressed to this wallet, or
      the earlier pending request when there was none. */
  lemma {:induction false} RunPending(s: SocketState, address: string, events: seq<Event>)
    requires address != ""
    ensures Run(s, Some(address), events).pendingRequest
            == (if LastRequest(events, address).Some? then LastRequest(events, address) else s.pendingRequest)
    decreases |events|
  {
    if |events| > 0 {
      RunPending(s, address, events[..|events| - 1]);
    }
  }

  /** The branches do not exclude each other: one event can at once record
      a DID, become the pending request and add a chat entry. */
  lemma BranchesIndependent(s: SocketState, address: string, did: string)
    requires address != "" && did != ""
    ensures var e := Event(Some(ChatType), Some(AppointmentRequestTag), None, Some(address),
                           Some(did), Some(DidRegistered), None);
            var r := OnMessage(s, address, e);
            && r.userDID == Some(did)
            && r.pendingRequest == Some(e)
            && r.acceptedRequest == s.acceptedRequest
            && |r.messages| == |s.messages| + 1
  {
  }
}
