/**
 * The `/api/chat-rooms` route: `GET` lists every room, newest first, with its
 * participant count; `POST` creates a room and then, in a second write, makes
 * its creator a participant.
 *
 * The two tables (`chat_rooms`, `chat_room_participants`) are the fields of
 * `RoomStore`. The identity provider's answer, the clock and the outcome of
 * every store call are parameters of the handlers.
 */
module ChatRoomsApi {
  import opened Common

  type UserId = string

  /** The JavaScript values a field of a parsed JSON body can hold (`Undefined`
      when the field is absent). JSON has no NaN, and numbers are modelled as
      integers. */
  datatype JsValue = Undefined | Null | Bool(b: bool) | Number(n: int) | Str(s: string) | Object | Array

  /** JavaScript truthiness, as decided by `!name`. */
  predicate Truthy(v: JsValue)
  {
    match v
    case Undefined => false
    case Null => false
    case Bool(b) => b
    case Number(n) => n != 0
    case Str(s) => s != ""
    case Object => true
    case Array => true
  }

  datatype Room = Room(id: nat, name: JsValue, description: JsValue, createdBy: UserId, createdAt: int, updatedAt: int)

  datatype Participant = Participant(roomId: nat, userId: UserId)

  /** One entry of the `GET` answer: the room and `chat_room_participants(count)`. */
  datatype RoomListing = RoomListing(room: Room, participantCount: nat)

  datatype Body = ErrorBody(error: string) | RoomsBody(rooms: seq<RoomListing>) | RoomBody(room: Room)

  datatype Response = Response(status: int, body: Body)

  /** What `await request.json()` followed by `const { name, description } = ...`
      yields: either it throws (the body is not JSON, or is JSON `null`), or it
      binds the two fields. */
  datatype RequestBody = Unparseable | Fields(name: JsValue, description: JsValue)

  /** The outcome of one insert: it succeeded, the store answered with an
      error object, or the call threw. */
  datatype WriteOutcome = Written | WriteError(message: string) | WriteThrew

  /** The outcome of the list query. */
  datatype QueryOutcome = QueryOk | QueryError(message: string)

  const Unauthorized := Response(401, ErrorBody("Unauthorized"))
  const NameRequired := Response(400, ErrorBody("Room name is required"))
  const InvalidRequest := Response(400, ErrorBody("Invalid request"))

  /** The checks `POST` makes before writing: an identity, a parsed body, a truthy name. */
  predicate Admits(caller: Option<UserId>, body: RequestBody)
  {
    caller.Some? && body.Fields? && Truthy(body.name)
  }

  // ---------------------------------------------------------------------------
  // Ordering of the `GET` answer: `.order("created_at", { ascending: false })`
  // ---------------------------------------------------------------------------

  predicate NewestFirst(rs: seq<Room>)
  {
    forall i, j :: 0 <= i < j < |rs| ==> rs[i].createdAt >= rs[j].createdAt
  }

  /** Places `r` into a newest-first sequence, before the first room older than it. */
  function InsertByDate(r: Room, rs: seq<Room>): (out: seq<Room>)
    ensures NewestFirst(rs) ==> NewestFirst(out)
    ensures |out| == |rs| + 1
    ensures out[0] == r || (rs != [] && out[0] == rs[0])
  {
    if rs == [] || r.createdAt >= rs[0].createdAt then
      [r] + rs
    else
      [rs[0]] + InsertByDate(r, rs[1..])
  }

  /** Inserting adds `r` and loses nothing. */
  lemma {:induction false} InsertByDateMultiset(r: Room, rs: seq<Room>)
    ensures multiset(InsertByDate(r, rs)) == multiset(rs) + multiset{r}
  {
    if rs != [] && r.createdAt < rs[0].createdAt {
      InsertByDateMultiset(r, rs[1..]);
      MultisetOfCons(rs);
    }
  }

  lemma MultisetOfCons<T>(s: seq<T>)
    requires s != []
    ensures multiset(s) == multiset(s[1..]) + multiset{s[0]}
  {
    assert s == [s[0]] + s[1..];
  }

  /** The rooms, reordered newest first. */
  function SortNewestFirst(rs: seq<Room>): (out: seq<Room>)
    ensures NewestFirst(out)
    ensures |out| == |rs|
  {
    if rs == [] then [] else InsertByDate(rs[0], SortNewestFirst(rs[1..]))
  }

  /** Sorting reorders the rooms and neither adds nor drops any. */
  lemma {:induction false} SortNewestFirstMultiset(rs: seq<Room>)
    ensures multiset(SortNewestFirst(rs)) == multiset(rs)
  {
    if rs != [] {
      var sortedTail := SortNewestFirst(rs[1..]);
      SortNewestFirstMultiset(rs[1..]);
      InsertByDateMultiset(rs[0], sortedTail);
      assert SortNewestFirst(rs) == InsertByDate(rs[0], sortedTail);
      MultisetOfCons(rs);
    }
  }

  /** A sequence already newest first is left as it is. */
  lemma {:induction false} SortKeepsSorted(rs: seq<Room>)
    requires NewestFirst(rs)
    ensures SortNewestFirst(rs) == rs
  {
    if rs != [] {
      SortKeepsSorted(rs[1..]);
      assert rs == [rs[0]] + rs[1..];
    }
  }

  /** The rooms of a listing, in the listing's order. */
  function RoomsOf(ls: seq<RoomListing>): (rs: seq<Room>)
    ensures |rs| == |ls|
    ensures forall k :: 0 <= k < |ls| ==> rs[k] == ls[k].room
  {
    if ls == [] then [] else [ls[0].room] + RoomsOf(ls[1..])
  }

  function IdsOf(rs: seq<Room>): set<nat>
  {
    set i | 0 <= i < |rs| :: rs[i].id
  }

  lemma IdsOfAppend(rs: seq<Room>, r: Room)
    ensures IdsOf(rs + [r]) == IdsOf(rs) + {r.id}
  {
    var both := rs + [r];
    forall x | x in IdsOf(rs) ensures x in IdsOf(both) {
      var i :| 0 <= i < |rs| && rs[i].id == x;
      assert both[i].id == x;
    }
    assert both[|rs|].id == r.id;
  }

  /** Ids are increasing and below `next`, and every participant row names a
      room of `rs`. */
  ghost predicate TablesValid(rs: seq<Room>, ps: set<Participant>, next: nat)
  {
    && (forall i :: 0 <= i < |rs| ==> rs[i].id < next)
    && (forall i, j :: 0 <= i < j < |rs| ==> rs[i].id < rs[j].id)
    && (forall p :: p in ps ==> p.roomId in IdsOf(rs))
  }

  /** Every room's creator is one of its participants. */
  ghost predicate CreatorsAmong(rs: seq<Room>, ps: set<Participant>)
  {
    forall i :: 0 <= i < |rs| ==> Participant(rs[i].id, rs[i].createdBy) in ps
  }

  /** Storing a room with the next id, with or without a participant row for
      it, keeps the tables valid. */
  lemma AddRoomKeepsValid(rs: seq<Room>, ps: set<Participant>, next: nat, room: Room, user: UserId)
    requires TablesValid(rs, ps, next) && room.id == next
    ensures TablesValid(rs + [room], ps, next + 1)
    ensures TablesValid(rs + [room], ps + {Participant(room.id, user)}, next + 1)
  {
    IdsOfAppend(rs, room);
  }

  /** Storing a room together with its creator's row keeps every creator joined. */
  lemma AddRoomKeepsCreators(rs: seq<Room>, ps: set<Participant>, room: Room)
    ensures CreatorsAmong(rs, ps) ==> CreatorsAmong(rs + [room], ps + {Participant(room.id, room.createdBy)})
  {
  }

  /** Storing a room without its creator's row leaves that creator out. */
  lemma AddRoomAloneLosesCreator(rs: seq<Room>, ps: set<Participant>, next: nat, room: Room)
    requires TablesValid(rs, ps, next) && room.id == next
    ensures !CreatorsAmong(rs + [room], ps)
  {
    assert Participant(room.id, room.createdBy) !in ps by {
      forall p | p in ps ensures p.roomId != next {
        var i :| 0 <= i < |rs| && rs[i].id == p.roomId;
      }
    }
    assert (rs + [room])[|rs|] == room;
  }

  class RoomStore {
    /** `chat_rooms`, in insertion order. */
    var rooms: seq<Room>
    /** `chat_room_participants`; a set, so each `(room_id, user_id)` occurs once. */
    var participants: set<Participant>
    /** The next id the store hands out. */
    var nextId: nat

    /** Ids are unique and below `nextId`, and every participant row names a stored room. */
    ghost predicate Valid()
      reads this
    {
      TablesValid(rooms, participants, nextId)
    }

    /** Every room's creator is one of its participants. */
    ghost predicate CreatorsJoined()
      reads this
    {
      CreatorsAmong(rooms, participants)
    }

    constructor ()
      ensures Valid() && CreatorsJoined()
      ensures rooms == [] && participants == {} && nextId == 0
    {
      rooms, participants, nextId := [], {}, 0;
    }

    /** The number of participant rows for room `id`. */
    function ParticipantCount(id: nat): nat
      reads this
    {
      |set p | p in participants && p.roomId == id|
    }

    /** The row `POST` inserts for `caller` with the given body at time `now`. */
    function NewRoom(caller: UserId, body: RequestBody, now: int): Room
      requires body.Fields?
      reads this
    {
      Room(nextId, body.name, body.description, caller, now, now)
    }

    /** Pairs each room with its participant count, keeping the order. */
    function WithCounts(rs: seq<Room>): (ls: seq<RoomListing>)
      reads this
      ensures |ls| == |rs|
      ensures forall k :: 0 <= k < |rs| ==> ls[k] == RoomListing(rs[k], ParticipantCount(rs[k].id))
    {
      if rs == [] then [] else [RoomListing(rs[0], ParticipantCount(rs[0].id))] + WithCounts(rs[1..])
    }

    /** `GET /api/chat-rooms`. */
    function Get(caller: Option<UserId>, query: QueryOutcome): (r: Response)
      reads this
      ensures caller.None? ==> r == Unauthorized
      ensures caller.Some? && query.QueryError? ==> r == Response(500, ErrorBody(query.message))
      ensures caller.Some? && query.QueryOk? ==>
        && r.status == 200 && r.body.RoomsBody?
        && |r.body.rooms| == |rooms|
        && NewestFirst(RoomsOf(r.body.rooms))
        && multiset(RoomsOf(r.body.rooms)) == multiset(rooms)
        && forall k :: 0 <= k < |r.body.rooms| ==>
             r.body.rooms[k].participantCount == |set p | p in participants && p.roomId == r.body.rooms[k].room.id|
    {
      if caller.None? then Unauthorized
      else if query.QueryError? then Response(500, ErrorBody(query.message))
      else
        var sorted := SortNewestFirst(rooms);
        SortNewestFirstMultiset(rooms);
        var listing := WithCounts(sorted);
        assert RoomsOf(listing) == sorted;
        Response(200, RoomsBody(listing))
    }

    /** `POST /api/chat-rooms` as written: the room row is inserted first and the
        creator's participant row second, and a failure of the second write does
        not remove the first. */
    method Post(caller: Option<UserId>, body: RequestBody, now: int, roomWrite: WriteOutcome, participantWrite: WriteOutcome)
      returns (r: Response)
      requires Valid()
      modifies this
      ensures Valid()
      ensures caller.None? ==> r == Unauthorized
      ensures caller.Some? && body.Unparseable? ==> r == InvalidRequest
      ensures caller.Some? && body.Fields? && !Truthy(body.name) ==> r == NameRequired
      ensures Admits(caller, body) && roomWrite.WriteError? ==> r == Response(500, ErrorBody(roomWrite.message))
      ensures Admits(caller, body) && roomWrite.WriteThrew? ==> r == InvalidRequest
      // Nothing is written unless the checks pass and the room insert succeeds.
      ensures !(Admits(caller, body) && roomWrite.Written?) ==>
        rooms == old(rooms) && participants == old(participants) && nextId == old(nextId)
      ensures Admits(caller, body) && roomWrite.Written? ==>
        var room := old(NewRoom(caller.value, body, now));
        && rooms == old(rooms) + [room]
        && nextId == old(nextId) + 1
        && (participantWrite.Written? ==>
              participants == old(participants) + {Participant(room.id, caller.value)} && r == Response(201, RoomBody(room)))
        && (participantWrite.WriteError? ==>
              participants == old(participants) && r == Response(500, ErrorBody(participantWrite.message)))
        && (participantWrite.WriteThrew? ==>
              participants == old(participants) && r == InvalidRequest)
      // A full success keeps every creator a participant ...
      ensures old(CreatorsJoined()) && (r.status == 201 || (participants == old(participants) && rooms == old(rooms))) ==> CreatorsJoined()
      // ... but a failed second write leaves a stored room whose creator is not a participant.
      ensures Admits(caller, body) && roomWrite.Written? && !participantWrite.Written? ==> !CreatorsJoined()
    {
      if caller.None? {
        return Unauthorized;
      }
      var user := caller.value;
      if body.Unparseable? {
        return InvalidRequest;
      }
      if !Truthy(body.name) {
        return NameRequired;
      }
      match roomWrite {
        case WriteError(msg) => return Response(500, ErrorBody(msg));
        case WriteThrew => return InvalidRequest;
        case Written =>
      }
      var room := NewRoom(user, body, now);
      AddRoomKeepsValid(rooms, participants, nextId, room, user);
      AddRoomKeepsCreators(rooms, participants, room);
      AddRoomAloneLosesCreator(rooms, participants, nextId, room);
      rooms := rooms + [room];
      nextId := nextId + 1;
      match participantWrite {
        case WriteError(msg) => return Response(500, ErrorBody(msg));
        case WriteThrew => return InvalidRequest;
        case Written =>
      }
      participants := participants + {Participant(room.id, user)};
      r := Response(201, RoomBody(room));
    }

    /** `POST /api/chat-rooms` with the two writes made one unit: when the
        participant insert fails, the room insert is undone, so no room is ever
        left without its creator as participant. */
    method PostAtomic(caller: Option<UserId>, body: RequestBody, now: int, roomWrite: WriteOutcome, participantWrite: WriteOutcome)
      returns (r: Response)
      requires Valid()
      modifies this
      ensures Valid()
      ensures old(CreatorsJoined()) ==> CreatorsJoined()
      ensures caller.None? ==> r == Unauthorized
      ensures caller.Some? && body.Unparseable? ==> r == InvalidRequest
      ensures caller.Some? && body.Fields? && !Truthy(body.name) ==> r == NameRequired
      ensures Admits(caller, body) && roomWrite.WriteError? ==> r == Response(500, ErrorBody(roomWrite.message))
      ensures Admits(caller, body) && roomWrite.WriteThrew? ==> r == InvalidRequest
      ensures Admits(caller, body) && roomWrite.Written? && participantWrite.WriteError? ==>
        r == Response(500, ErrorBody(participantWrite.message))
      ensures Admits(caller, body) && roomWrite.Written? && participantWrite.WriteThrew? ==> r == InvalidRequest
      // Either both rows are written and 201 is answered, or nothing changes.
      ensures Admits(caller, body) && roomWrite.Written? && participantWrite.Written? ==>
        var room := old(NewRoom(caller.value, body, now));
        && rooms == old(rooms) + [room]
        && participants == old(participants) + {Participant(room.id, caller.value)}
        && nextId == old(nextId) + 1
        && r == Response(201, RoomBody(room))
      ensures !(Admits(caller, body) && roomWrite.Written? && participantWrite.Written?) ==>
        rooms == old(rooms) && participants == old(participants)
    {
      if caller.None? {
        return Unauthorized;
      }
      var user := caller.value;
      if body.Unparseable? {
        return InvalidRequest;
      }
      if !Truthy(body.name) {
        return NameRequired;
      }
      match roomWrite {
        case WriteError(msg) => return Response(500, ErrorBody(msg));
        case WriteThrew => return InvalidRequest;
        case Written =>
      }
      var room := NewRoom(user, body, now);
      AddRoomKeepsValid(rooms, participants, nextId, room, user);
      AddRoomKeepsCreators(rooms, participants, room);
      var before := rooms;
      rooms := rooms + [room];
      nextId := nextId + 1;
      match participantWrite {
        case WriteError(msg) =>
          rooms := before;
          return Response(500, ErrorBody(msg));
        case WriteThrew =>
          rooms := before;
          return InvalidRequest;
        case Written =>
      }
      participants := participants + {Participant(room.id, user)};
      r := Response(201, RoomBody(room));
    }
  }

  /** A concrete scenario of the handler as written: user "u" creates room "Trivia",
      the participant insert fails, and the room stays stored without its creator
      among its participants. */
  method NoRollbackScenario() returns (status: int, storedRooms: nat, creatorJoined: bool)
    ensures status == 500 && storedRooms == 1 && !creatorJoined
  {
    var store := new RoomStore();
    var r := store.Post(Some("u"), Fields(Str("Trivia"), Undefined), 0, Written, WriteError("insert failed"));
    status, storedRooms := r.status, |store.rooms|;
    creatorJoined := Participant(store.rooms[0].id, "u") in store.participants;
  }

  /** The same scenario against the corrected handler: the room is undone. */
  method RollbackScenario() returns (status: int, storedRooms: nat)
    ensures status == 500 && storedRooms == 0
  {
    var store := new RoomStore();
    var r := store.PostAtomic(Some("u"), Fields(Str("Trivia"), Undefined), 0, Written, WriteError("insert failed"));
    status, storedRooms := r.status, |store.rooms|;
  }

  /** A name made only of spaces is truthy, so the server stores it. */
  lemma BlankNameAccepted(caller: UserId)
    ensures Admits(Some(caller), Fields(Str(" "), Undefined))
    ensures forall v :: Truthy(v) <==> v !in {Undefined, Null, Bool(false), Number(0), Str("")}
  {
  }
}
