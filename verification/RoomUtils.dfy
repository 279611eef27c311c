/** Room identifiers for a user/therapist pair: `room_<lo>_<hi>` where `lo`
    and `hi` are the two ids in sorted order, together with the parser,
    the validator and the two participant queries built on the parser. */
module RoomUtils {
  import opened Wrappers
  import opened JsStrings

  const RoomPrefix: string := "room_"
  const Separator: char := '_'

  /** The two segments a room id parses into, named as `parseRoomId`'s
      result fields `userId` and `therapistId`. Since ids are sorted when a
      room id is built, `userId` is simply the smaller id and need not be
      the user. */
  datatype Participants = Participants(userId: string, therapistId: string)

  /** The `Invalid room ID format` error. */
  datatype RoomError = InvalidRoomIdFormat

  /** `generateRoomId`: the prefix, the smaller id, the separator, the larger
      id. Either argument order gives the same room. */
  function GenerateRoomId(userId: string, therapistId: string): (r: string)
    ensures LexLessEq(userId, therapistId) ==> r == RoomPrefix + (userId + [Separator] + therapistId)
    ensures LexLessEq(therapistId, userId) ==> r == RoomPrefix + (therapistId + [Separator] + userId)
  {
    var sorted := SortPair(userId, therapistId);
    LexLessEqTotal(userId, therapistId);
    RoomPrefix + (sorted[0] + [Separator] + sorted[1])
  }

  /** The room id does not depend on which participant is passed first. */
  lemma {:induction false} GenerateRoomIdSymmetric(a: string, b: string)
    ensures GenerateRoomId(a, b) == GenerateRoomId(b, a)
  {
    LexLessEqTotal(a, b);
  }

  /** `roomId.replace('room_', '')`: the first `room_` is removed wherever it
      occurs, not only as a leading prefix. */
  function StripRoomPrefix(roomId: string): string {
    ReplaceFirst(roomId, RoomPrefix, "")
  }

  /** `parseRoomId`: split the stripped id on every separator and demand
      exactly two parts. It succeeds exactly when the stripped id contains
      one separator, and then the parts are the text around it. */
  function ParseRoomId(roomId: string): (r: Result<Participants, RoomError>)
    ensures r.Success? <==> Count(StripRoomPrefix(roomId), Separator) == 1
    ensures r.Success? ==>
              && StripRoomPrefix(roomId) == r.value.userId + [Separator] + r.value.therapistId
              && Separator !in r.value.userId
              && Separator !in r.value.therapistId
  {
    var parts := Split(StripRoomPrefix(roomId), Separator);
    if |parts| != 2 then Failure(InvalidRoomIdFormat)
    else
      assert parts[1..] == [parts[1]];
      assert Join(parts, Separator) == parts[0] + [Separator] + Join([parts[1]], Separator);
      Success(Participants(parts[0], parts[1]))
  }

  /** A room id parses into `(u, t)` if and only if stripping its first
      `room_` leaves `u`, the separator and `t`, with no separator in `u` or
      `t`. */
  lemma {:induction false} ParseRoomIdExactly(roomId: string, u: string, t: string)
    ensures ParseRoomId(roomId) == Success(Participants(u, t))
            <==> (StripRoomPrefix(roomId) == u + [Separator] + t && Separator !in u && Separator !in t)
  {
    if StripRoomPrefix(roomId) == u + [Separator] + t && Separator !in u && Separator !in t {
      SplitJoin([u, t], Separator);
    }
  }

  /** The pattern `^room_[^_]+_[^_]+$`: the prefix, a non-empty
      separator-free segment, the separator, and another non-empty
      separator-free segment. */
  predicate MatchesRoomPattern(roomId: string) {
    && |RoomPrefix| <= |roomId|
    && roomId[..|RoomPrefix|] == RoomPrefix
    && exists k | |RoomPrefix| < k < |roomId| - 1 ::
         && roomId[k] == Separator
         && Separator !in roomId[|RoomPrefix|..k]
         && Separator !in roomId[k + 1..]
  }

  /** The pattern in counting terms: after the prefix, exactly one separator,
      neither first nor last. */
  predicate OneInnerSeparator(roomId: string) {
    && StartsWith(roomId, RoomPrefix)
    && |RoomPrefix| < |roomId|
    && roomId[|RoomPrefix|] != Separator
    && roomId[|roomId| - 1] != Separator
    && Count(roomId[|RoomPrefix|..], Separator) == 1
  }

  lemma {:induction false} PatternAsCount(roomId: string)
    ensures MatchesRoomPattern(roomId) <==> OneInnerSeparator(roomId)
  {
    var n := |RoomPrefix|;
    if MatchesRoomPattern(roomId) {
      var k :| n < k < |roomId| - 1 && roomId[k] == Separator
               && Separator !in roomId[n..k] && Separator !in roomId[k + 1..];
      var rest := roomId[n..];
      assert rest == roomId[n..k] + [Separator] + roomId[k + 1..];
      CountConcat(roomId[n..k] + [Separator], roomId[k + 1..], Separator);
      CountConcat(roomId[n..k], [Separator], Separator);
      CountAbsent(roomId[n..k], Separator);
      CountAbsent(roomId[k + 1..], Separator);
      assert roomId[n] == roomId[n..k][0];
      assert roomId[|roomId| - 1] == roomId[k + 1..][|roomId| - k - 2];
    }
    if OneInnerSeparator(roomId) {
      var rest := roomId[n..];
      var j := OnlyOccurrence(rest, Separator);
      var k := n + j;
      assert rest[0] == roomId[n];
      assert rest[|rest| - 1] == roomId[|roomId| - 1];
      assert roomId[n..k] == rest[..j] && roomId[k + 1..] == rest[j + 1..];
      assert roomId[k] == Separator;
    }
  }

  /** `isValidRoomId`: whether the id matches `^room_[^_]+_[^_]+$`, which is
      the prefix followed by text with exactly one separator, neither at its
      start nor at its end. */
  function IsValidRoomId(roomId: string): (valid: bool)
    ensures valid <==> OneInnerSeparator(roomId)
  {
    PatternAsCount(roomId);
    MatchesRoomPattern(roomId)
  }

  /** A string that begins with `room_` has its first `room_` at index 0. */
  lemma StripLeadingPrefix(rest: string)
    ensures StripRoomPrefix(RoomPrefix + rest) == rest
  {
    var s := RoomPrefix + rest;
    assert OccursAt(s, RoomPrefix, 0);
    assert s[|RoomPrefix|..] == rest;
  }

  /** Cutting a string at `start` and around index `k`. */
  lemma SliceAround(s: string, start: nat, k: nat)
    requires start <= k < |s|
    ensures s == s[..start] + (s[start..k] + [s[k]] + s[k + 1..])
  {
    assert s == s[..start] + s[start..];
    assert s[start..] == s[start..k] + [s[k]] + s[k + 1..];
  }

  /** Every id the validator accepts parses, into its two segments. */
  lemma {:induction false} ValidRoomIdParses(roomId: string)
    requires IsValidRoomId(roomId)
    ensures ParseRoomId(roomId).Success?
    ensures var p := ParseRoomId(roomId).value;
            && roomId == RoomPrefix + (p.userId + [Separator] + p.therapistId)
            && p.userId != "" && p.therapistId != ""
  {
    var k :| |RoomPrefix| < k < |roomId| - 1 && roomId[k] == Separator
             && Separator !in roomId[|RoomPrefix|..k] && Separator !in roomId[k + 1..];
    var u, t := roomId[|RoomPrefix|..k], roomId[k + 1..];
    SliceAround(roomId, |RoomPrefix|, k);
    StripLeadingPrefix(u + [Separator] + t);
    ParseRoomIdExactly(roomId, u, t);
  }

  /** The converse fails: `room__x` parses (into an empty first segment and
      `x`) but is not a valid room id. */
  lemma ParsedNotAlwaysValid()
    ensures ParseRoomId("room__x") == Success(Participants("", "x"))
    ensures !IsValidRoomId("room__x")
  {
    StripLeadingPrefix("_x");
    assert "_x" == "" + [Separator] + "x";
    ParseRoomIdExactly("room__x", "", "x");
  }

  /** Round trip: for ids without a separator, the generated room id parses
      back into the two ids in sorted order (the roles are not recovered). */
  lemma {:induction false} GenerateThenParse(u: string, t: string)
    requires Separator !in u && Separator !in t
    ensures LexLessEq(u, t) ==> ParseRoomId(GenerateRoomId(u, t)) == Success(Participants(u, t))
    ensures LexLessEq(t, u) ==> ParseRoomId(GenerateRoomId(u, t)) == Success(Participants(t, u))
  {
    LexLessEqTotal(u, t);
    var r := GenerateRoomId(u, t);
    if LexLessEq(u, t) {
      StripLeadingPrefix(u + [Separator] + t);
      ParseRoomIdExactly(r, u, t);
    }
    if LexLessEq(t, u) {
      StripLeadingPrefix(t + [Separator] + u);
      ParseRoomIdExactly(r, t, u);
    }
  }

  /** A room id built from two non-empty separator-free segments is valid. */
  lemma SegmentsMakeValid(lo: string, hi: string)
    requires lo != "" && hi != "" && Separator !in lo && Separator !in hi
    ensures IsValidRoomId(RoomPrefix + (lo + [Separator] + hi))
  {
    var r := RoomPrefix + (lo + [Separator] + hi);
    var k := |RoomPrefix| + |lo|;
    assert r[k] == Separator;
    assert r[|RoomPrefix|..k] == lo;
    assert r[k + 1..] == hi;
  }

  /** A valid room id built from two segments has both non-empty and
      separator-free. */
  lemma ValidMeansSegments(lo: string, hi: string)
    requires IsValidRoomId(RoomPrefix + (lo + [Separator] + hi))
    ensures lo != "" && hi != "" && Separator !in lo && Separator !in hi
  {
    var r := RoomPrefix + (lo + [Separator] + hi);
    ValidRoomIdParses(r);
    var p := ParseRoomId(r).value;
    StripLeadingPrefix(lo + [Separator] + hi);
    CountConcat(lo + [Separator], hi, Separator);
    CountConcat(lo, [Separator], Separator);
    CountAbsent(lo, Separator);
    CountAbsent(hi, Separator);
    ParseRoomIdExactly(r, lo, hi);
  }

  /** A generated room id is valid exactly when both ids are non-empty and
      free of the separator. */
  lemma {:induction false} GeneratedValidIff(u: string, t: string)
    ensures IsValidRoomId(GenerateRoomId(u, t))
            <==> (u != "" && t != "" && Separator !in u && Separator !in t)
  {
    LexLessEqTotal(u, t);
    if LexLessEq(u, t) {
      if u != "" && t != "" && Separator !in u && Separator !in t {
        SegmentsMakeValid(u, t);
      }
      if IsValidRoomId(GenerateRoomId(u, t)) {
        ValidMeansSegments(u, t);
      }
    } else {
      if u != "" && t != "" && Separator !in u && Separator !in t {
        SegmentsMakeValid(t, u);
      }
      if IsValidRoomId(GenerateRoomId(u, t)) {
        ValidMeansSegments(t, u);
      }
    }
  }

  /** `getOtherParticipant`: the second segment when the given id is the
      first, and the first segment otherwise (also when the id is not in the
      room); a malformed room id propagates the parse error. */
  function GetOtherParticipant(roomId: string, currentUserId: string): (r: Result<string, RoomError>)
    ensures ParseRoomId(roomId).Failure? <==> r.Failure?
  {
    match ParseRoomId(roomId)
    case Failure(e) => Failure(e)
    case Success(p) => Success(if p.userId == currentUserId then p.therapistId else p.userId)
  }

  /** `isParticipant`: never throws; false for an id the parser rejects, and
      otherwise whether the id is one of the two segments. Read directly off
      the string: the id with its first `room_` removed has exactly one
      separator, and the candidate (which has none) stands before it or
      after it. */
  function IsParticipant(roomId: string, userId: string): (b: bool)
    ensures b <==> var s := StripRoomPrefix(roomId);
                   && Count(s, Separator) == 1
                   && Separator !in userId
                   && (StartsWith(s, userId + [Separator]) || EndsWith(s, [Separator] + userId))
  {
    match ParseRoomId(roomId)
    case Failure(_) => false
    case Success(p) =>
      SegmentsAroundSeparator(StripRoomPrefix(roomId), p.userId, p.therapistId, userId);
      p.userId == userId || p.therapistId == userId
  }

  /** In a generated room, each participant's counterpart is the other
      participant, whichever argument order built the room. */
  lemma {:induction false} OtherOfGenerated(u: string, t: string)
    requires Separator !in u && Separator !in t
    ensures GetOtherParticipant(GenerateRoomId(u, t), u) == Success(t)
    ensures GetOtherParticipant(GenerateRoomId(u, t), t) == Success(u)
  {
    GenerateThenParse(u, t);
    LexLessEqTotal(u, t);
  }

  /** The participants of a room id that parses are its two segments. */
  lemma ParticipantsOfParsed(roomId: string, u: string, t: string, x: string)
    requires ParseRoomId(roomId) == Success(Participants(u, t))
    ensures IsParticipant(roomId, x) <==> (x == u || x == t)
  {
  }

  /** In a generated room, exactly the two ids are participants. */
  lemma {:induction false} IsParticipantGenerated(u: string, t: string, x: string)
    requires Separator !in u && Separator !in t
    ensures IsParticipant(GenerateRoomId(u, t), x) <==> (x == u || x == t)
  {
    GenerateThenParse(u, t);
    LexLessEqTotal(u, t);
    if LexLessEq(u, t) {
      ParticipantsOfParsed(GenerateRoomId(u, t), u, t, x);
    } else {
      ParticipantsOfParsed(GenerateRoomId(u, t), t, u, x);
    }
  }

  /** For a room id that parses and a participant `x`, the counterpart of
      `x` is a participant too, and differs from `x` unless both segments
      are equal. */
  lemma OtherIsParticipant(roomId: string, x: string)
    requires IsParticipant(roomId, x)
    ensures GetOtherParticipant(roomId, x).Success?
    ensures IsParticipant(roomId, GetOtherParticipant(roomId, x).value)
    ensures var p := ParseRoomId(roomId).value;
            p.userId != p.therapistId ==> GetOtherParticipant(roomId, x).value != x
  {
  }

  /** For a room that parses, whoever asks gets an answer, and the answer is
      one of the room's own participants. */
  lemma AnswerIsParticipant(roomId: string, x: string)
    requires ParseRoomId(roomId).Success?
    ensures GetOtherParticipant(roomId, x).Success?
    ensures IsParticipant(roomId, GetOtherParticipant(roomId, x).value)
  {
  }

  /** A participant other than the first segment (including one not in the
      room at all) is answered with the first segment. */
  lemma OtherOfOutsider(roomId: string, x: string)
    requires ParseRoomId(roomId).Success? && ParseRoomId(roomId).value.userId != x
    ensures GetOtherParticipant(roomId, x) == Success(ParseRoomId(roomId).value.userId)
  {
  }

  /** The text before the only separator is determined by any
      separator-free prefix ending in the separator. */
  lemma {:induction false} SeparatedPrefixUnique(u: string, t: string, x: string)
    requires Separator !in u && Separator !in x
    requires StartsWith(u + [Separator] + t, x + [Separator])
    ensures x == u
  {
    var s := u + [Separator] + t;
    assert s[|u|] == Separator && s[|x|] == (x + [Separator])[|x|] == Separator;
    assert forall i :: 0 <= i < |u| ==> s[i] == u[i] != Separator;
    assert forall i :: 0 <= i < |x| ==> s[i] == (x + [Separator])[i] == x[i] != Separator;
    assert |x| == |u|;
    assert x == s[..|x|] == u;
  }

  /** The text after the only separator is determined by any separator-free
      suffix starting with the separator. */
  lemma {:induction false} SeparatedSuffixUnique(u: string, t: string, x: string)
    requires Separator !in t && Separator !in x
    requires EndsWith(u + [Separator] + t, [Separator] + x)
    ensures x == t
  {
    var s := u + [Separator] + t;
    var n := |s|;
    assert s[n - |t| - 1] == Separator;
    assert s[n - |x| - 1] == ([Separator] + x)[0] == Separator;
    assert forall i :: n - |t| <= i < n ==> s[i] == t[i - (n - |t|)] != Separator;
    assert forall i :: n - |x| <= i < n ==> s[i] == ([Separator] + x)[i - (n - |x| - 1)] != Separator;
    assert |x| == |t|;
    assert x == s[n - |x|..] == t;
  }

  /** With exactly one separator, the separator-free strings that stand
      before or after it are exactly the two segments. */
  lemma {:induction false} SegmentsAroundSeparator(s: string, u: string, t: string, x: string)
    requires s == u + [Separator] + t && Separator !in u && Separator !in t
    ensures (x == u || x == t)
            <==> Separator !in x && (StartsWith(s, x + [Separator]) || EndsWith(s, [Separator] + x))
  {
    if x == u {
      assert s[..|x| + 1] == x + [Separator];
    }
    if x == t {
      assert s[|s| - |x| - 1..] == [Separator] + x;
    }
    if Separator !in x && StartsWith(s, x + [Separator]) {
      SeparatedPrefixUnique(u, t, x);
    }
    if Separator !in x && EndsWith(s, [Separator] + x) {
      SeparatedSuffixUnique(u, t, x);
    }
  }
}
