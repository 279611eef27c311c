/** The therapist's answer to a pending appointment request: send exactly
    one `appoinment_fixed` or `appoinment_rejected` message, navigate to the
    chat page on acceptance, and clear the pending request. */
module SessionRequestPopup {
  import opened Wrappers
  import opened JsStrings
  import opened Decimal
  import opened RoomUtils
  import opened SocketContext

  const ChatRoute: string := "/chat/"

  /** The `readyState` of the socket the provider holds. `send` throws
      `InvalidStateError` while it is `Connecting`; on a socket already
      closing or closed it returns normally and the data is discarded, as
      the WHATWG WebSockets standard defines `send()`. */
  datatype ReadyState = Connecting | Open | Closing | Closed

  /** The two outbound answers. `userId` and `therapistId` are copied from the
      pending request and may be absent there. */
  datatype Outbound =
    | AppointmentFixed(userId: Option<string>, therapistId: Option<string>, roomId: string, time: string)
    | AppointmentRejected(userId: Option<string>, therapistId: Option<string>, time: string)
  {
    function WireType(): string {
      if AppointmentFixed? then AppointmentFixedTag else AppointmentRejectedTag
    }
  }

  /** What one click does: the message handed to `socket.send`, the page
      navigated to, the pending request afterwards, and whether the handler
      threw (leaving the rest of its work undone). */
  datatype Response = Response(sent: Option<Outbound>, navigateTo: Option<string>,
                               pendingRequest: Option<Event>, threw: bool)

  /** A template literal's rendering of an optional string field: an absent
      field renders as `undefined`. */
  function Interpolate(v: Option<string>): string {
    match v
    case Some(s) => s
    case None => "undefined"
  }

  /** The room id built on acceptance: user, therapist and `Date.now()` in
      that order, separated by `_`, with no sorting and no `room_` prefix.
      It carries two separators more than the two ids hold, and it starts
      with the user's id. */
  function AcceptedRoomId(request: Event, nowMs: nat): (id: string)
    ensures Count(id, Separator) == Count(Interpolate(request.userId), Separator)
                                    + Count(Interpolate(request.therapistId), Separator) + 2
    ensures StartsWith(id, Interpolate(request.userId) + [Separator])
  {
    var u, t, d := Interpolate(request.userId), Interpolate(request.therapistId), NatToDecimal(nowMs);
    assert Separator !in d by {
      assert forall i :: 0 <= i < |d| ==> d[i] != Separator;
    }
    CountAbsent(d, Separator);
    CountConcat(u + [Separator] + t + [Separator], d, Separator);
    CountConcat(u + [Separator] + t, [Separator], Separator);
    CountConcat(u + [Separator], t, Separator);
    CountConcat(u, [Separator], Separator);
    var id := u + [Separator] + t + [Separator] + d;
    assert id[..|u| + 1] == u + [Separator];
    id
  }

  /** The popup is shown exactly while a request is pending. */
  predicate Renders(pendingRequest: Option<Event>) {
    pendingRequest.Some?
  }

  /** `handleResponse(accepted)`. `socket` is the ready state of the socket
      the provider holds, if any; `nowMs` is `Date.now()` and `isoNow` is
      `new Date().toISOString()`. Without a socket or a pending request
      nothing happens. A socket still connecting makes `send` throw, so the
      click neither navigates nor clears the request. Otherwise exactly one
      answer is handed to the socket, an acceptance navigates to its room,
      and the request is cleared. */
  function HandleResponse(socket: Option<ReadyState>, pendingRequest: Option<Event>, accepted: bool,
                          nowMs: nat, isoNow: string): (r: Response)
    ensures socket.None? || pendingRequest.None? ==> r == Response(None, None, pendingRequest, false)
    ensures r.threw <==> socket == Some(Connecting) && pendingRequest.Some?
    ensures r.threw ==> r == Response(None, None, pendingRequest, true)
    ensures socket.Some? && socket != Some(Connecting) && pendingRequest.Some? ==>
              && r.pendingRequest.None?
              && r.sent.Some?
              && r.sent.value.userId == pendingRequest.value.userId
              && r.sent.value.therapistId == pendingRequest.value.therapistId
              && r.sent.value.time == isoNow
              && (r.sent.value.AppointmentFixed? <==> accepted)
    ensures r.sent.Some? ==>
              r.sent.value.WireType() == if accepted then AppointmentFixedTag else AppointmentRejectedTag
    ensures r.navigateTo.Some? <==> r.sent.Some? && r.sent.value.AppointmentFixed?
    ensures r.navigateTo.Some? ==> r.navigateTo.value == ChatRoute + r.sent.value.roomId
    ensures r.sent.Some? && r.sent.value.AppointmentFixed? ==>
              r.sent.value.roomId == AcceptedRoomId(pendingRequest.value, nowMs)
  {
    if socket.None? || pendingRequest.None? then Response(None, None, pendingRequest, false)
    else if socket.value == Connecting then Response(None, None, pendingRequest, true)
    else
      var request := pendingRequest.value;
      var roomId := AcceptedRoomId(request, nowMs);
      if accepted then
        Response(Some(AppointmentFixed(request.userId, request.therapistId, roomId, isoNow)),
                 Some(ChatRoute + roomId), None, false)
      else
        Response(Some(AppointmentRejected(request.userId, request.therapistId, isoNow)), None, None, false)
  }

  /** The accepted room id keeps the roles: for separator-free ids it splits
      into the user, the therapist and the time, in that order, and the time
      reads back as `Date.now()`. */
  lemma AcceptedRoomIdSegments(request: Event, nowMs: nat)
    requires request.userId.Some? && request.therapistId.Some?
    requires Separator !in request.userId.value && Separator !in request.therapistId.value
    ensures var parts := Split(AcceptedRoomId(request, nowMs), Separator);
            && parts == [request.userId.value, request.therapistId.value, NatToDecimal(nowMs)]
            && DecimalValue(parts[2]) == nowMs
  {
    var u, t, d := request.userId.value, request.therapistId.value, NatToDecimal(nowMs);
    assert forall i :: 0 <= i < |d| ==> d[i] != Separator;
    var parts := [u, t, d];
    assert parts[1..] == [t, d] && [t, d][1..] == [d];
    assert Join([t, d], Separator) == t + [Separator] + d;
    assert Join(parts, Separator) == u + [Separator] + (t + [Separator] + d);
    assert AcceptedRoomId(request, nowMs) == u + [Separator] + (t + [Separator] + d);
    SplitJoin(parts, Separator);
    DecimalRoundTrip(nowMs);
  }

  /** The pending request this component clears is the provider's: applying
      the response writes it back. */
  function ApplyResponse(s: SocketState, r: Response): SocketState {
    s.(pendingRequest := r.pendingRequest)
  }

  /** The therapist half of the handshake: a request addressed to this
      wallet becomes pending, and accepting it on an open socket sends one fixed message for
      the same user and this therapist, navigates to that room's chat page,
      and leaves nothing pending while the rest of the state is kept. */
  lemma {:induction false} RequestThenAccept(s: SocketState, address: string, e: Event,
                                             nowMs: nat, isoNow: string)
    requires address != "" && IsRequestFor(e, address)
    ensures var s1 := Step(s, Some(address), e);
            var r := HandleResponse(Some(Open), s1.pendingRequest, true, nowMs, isoNow);
            && r.sent == Some(AppointmentFixed(e.userId, Some(address), AcceptedRoomId(e, nowMs), isoNow))
            && r.navigateTo == Some(ChatRoute + AcceptedRoomId(e, nowMs))
            && ApplyResponse(s1, r) == s1.(pendingRequest := None)
  {
    var s1 := Step(s, Some(address), e);
    assert s1.pendingRequest == Some(e);
  }

  /** A click while the socket is still connecting loses nothing: the
      request stays pending, and the same click once the socket is open
      sends the answer and clears it. */
  lemma RetryAfterConnect(request: Event, accepted: bool, nowMs: nat, isoNow: string)
    ensures var first := HandleResponse(Some(Connecting), Some(request), accepted, nowMs, isoNow);
            var second := HandleResponse(Some(Open), first.pendingRequest, accepted, nowMs, isoNow);
            && first.threw && first.sent.None?
            && !second.threw && second.sent.Some? && second.pendingRequest.None?
            && (second.sent.value.AppointmentFixed? <==> accepted)
  {
  }

  /** Two acceptances of the same request at different times name different
      rooms: the time segment tells them apart. */
  lemma AcceptedRoomIdsDistinct(request: Event, m: nat, n: nat)
    requires request.userId.Some? && request.therapistId.Some?
    requires Separator !in request.userId.value && Separator !in request.therapistId.value
    requires m != n
    ensures AcceptedRoomId(request, m) != AcceptedRoomId(request, n)
  {
    AcceptedRoomIdSegments(request, m);
    AcceptedRoomIdSegments(request, n);
    if AcceptedRoomId(request, m) == AcceptedRoomId(request, n) {
      DecimalInjective(m, n);
    }
  }

  /** The accepted id and a `generateRoomId` room are not kept apart: a
      user whose id is `room` can be handed an id that is also the
      generated room of two other ids. */
  lemma AcceptedCanMatchGenerated()
    ensures var request := Event(None, None, Some("room"), Some("0"), None, None, None);
            AcceptedRoomId(request, 5) == GenerateRoomId("0", "5") == "room_0_5"
  {
    assert NatToDecimal(5) == "5";
    assert LexLess("0", "5");
  }
}
