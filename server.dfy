// Network/Server.cpp, without its sockets: the matchmaking queue, the ready checks
// that turn a full group into a room, and the session and room lists.
module Servers {
  import Sessions

  type Session = Sessions.Session

  /** `Game::ERoomState`. */
  datatype RoomState = Opened | Waited | Doing | End | Closed

  /** The server packets the matchmaking sends. */
  datatype ServerPacket =
    | ReadyMatching(playerIndex: int, maxUser: int)
    | ChangeMatchingInfo(currentUser: int, maxUser: int)
    | CancelReadyMatching
    | MatchCanceled

  /** One `SendPacket` call: the session it went to and the packet. */
  datatype Delivery = Delivery(to: Session, packet: ServerPacket)

  /** `RequestMatch`: a session asking to be matched. */
  datatype RequestMatch = RequestMatch(requester: Session)

  /** `ReadyMatch`: a full group waiting for every member to confirm. */
  datatype ReadyMatch = ReadyMatch(userCount: int, readyUserCount: int,
                                   users: seq<Session>, userReadys: seq<bool>)

  /** A room in the server's list. The room's own code (`AddSession`, `ReadyToGame`,
      `GetState`) is not part of this model: an entry records the calls the server
      makes on the room, and the state the room reports. */
  datatype RoomEntry = RoomEntry(userCount: int, added: seq<(int, Session)>,
                                 readyToGame: bool, state: RoomState)

  // ---------------------------------------------------------------- queue

  function Requesters(q: seq<RequestMatch>): (r: seq<Session>)
    ensures |r| == |q| && forall k :: 0 <= k < |q| ==> r[k] == q[k].requester
  {
    seq(|q|, k requires 0 <= k < |q| => q[k].requester)
  }

  /** The position of the first request from `requester` (`std::find_if`). */
  function FirstRequestOf(q: seq<RequestMatch>, requester: Session): (i: nat)
    requires requester in Requesters(q)
    ensures i < |q| && q[i].requester == requester
    ensures forall k :: 0 <= k < i ==> q[k].requester != requester
  {
    if q[0].requester == requester then 0 else 1 + FirstRequestOf(q[1..], requester)
  }

  /** Cancelling takes out exactly one request of the requester, and keeps the others in
      their order. */
  lemma CancelRemovesOne(q: seq<RequestMatch>, requester: Session)
    requires requester in Requesters(q)
    ensures var i := FirstRequestOf(q, requester);
            multiset(Requesters(q[..i] + q[i + 1..]))
              == multiset(Requesters(q)) - multiset{requester}
  {
    RemoveRequestAt(q, FirstRequestOf(q, requester));
  }

  /** Taking out the request at `i` takes its requester out of the queue's multiset of
      requesters. */
  lemma RemoveRequestAt(q: seq<RequestMatch>, i: nat)
    requires i < |q|
    ensures multiset(Requesters(q[..i] + q[i + 1..])) == multiset(Requesters(q)) - multiset{q[i].requester}
  {
    var r := Requesters(q);
    calc {
      multiset(Requesters(q[..i] + q[i + 1..]));
      { RequestersWithout(q, i); }
      multiset(r[..i] + r[i + 1..]);
      { RemoveAt(r, i); }
      multiset(r) - multiset{r[i]};
    }
  }

  lemma RequestersWithout(q: seq<RequestMatch>, i: nat)
    requires i < |q|
    ensures Requesters(q[..i] + q[i + 1..]) == Requesters(q)[..i] + Requesters(q)[i + 1..]
  {
  }

  lemma RemoveAt<T>(r: seq<T>, i: nat)
    requires i < |r|
    ensures multiset(r[..i] + r[i + 1..]) == multiset(r) - multiset{r[i]}
  {
    assert r == r[..i] + [r[i]] + r[i + 1..];
  }

  lemma RequestersAppend(a: seq<RequestMatch>, b: seq<RequestMatch>)
    ensures Requesters(a + b) == Requesters(a) + Requesters(b)
  {
  }

  /** A freshly formed match: the group's requesters in queue order, nobody ready. */
  function NewMatch(group: seq<RequestMatch>): (m: ReadyMatch)
    ensures Shaped(m, |group|) && m.readyUserCount == 0 && !AnyReady(m.userReadys)
    ensures m.users == Requesters(group)
  {
    ReadyMatch(|group|, 0, Requesters(group), seq(|group|, _ => false))
  }

  /** The matches `QueuingMatch` forms: consecutive groups of `maxUser` requests from
      the front of the queue, while there are enough. */
  function Groups(q: seq<RequestMatch>, maxUser: nat): (r: seq<ReadyMatch>)
    requires maxUser > 0
    ensures r == [] <==> |q| < maxUser
    ensures |r| <= |q|
    decreases |q|
  {
    if |q| < maxUser then [] else [NewMatch(q[..maxUser])] + Groups(q[maxUser..], maxUser)
  }

  /** The requests `QueuingMatch` leaves queued. */
  function Leftover(q: seq<RequestMatch>, maxUser: nat): (r: seq<RequestMatch>)
    requires maxUser > 0
    ensures |r| < maxUser && |r| <= |q|
    decreases |q|
  {
    if |q| < maxUser then q else Leftover(q[maxUser..], maxUser)
  }

  /** `ReadyMatching` to each member of a group, with its seat. */
  function SeatNotices(group: seq<RequestMatch>, maxUser: int): (r: seq<Delivery>)
    ensures |r| == |group|
    ensures forall k :: 0 <= k < |group| ==>
              r[k] == Delivery(group[k].requester, ReadyMatching(k, maxUser))
  {
    seq(|group|, k requires 0 <= k < |group| => Delivery(group[k].requester, ReadyMatching(k, maxUser)))
  }

  /** The `ReadyMatching` packets of all the groups formed, group by group. */
  function ReadyNotices(q: seq<RequestMatch>, maxUser: nat): seq<Delivery>
    requires maxUser > 0
    decreases |q|
  {
    if |q| < maxUser then []
    else SeatNotices(q[..maxUser], maxUser) + ReadyNotices(q[maxUser..], maxUser)
  }

  /** `ChangeMatchingInfo` to each request still queued, with the queue's length. */
  function WaitNotices(rest: seq<RequestMatch>, maxUser: int): (r: seq<Delivery>)
    ensures |r| == |rest|
    ensures forall k :: 0 <= k < |rest| ==>
              r[k] == Delivery(rest[k].requester, ChangeMatchingInfo(|rest|, maxUser))
  {
    seq(|rest|, k requires 0 <= k < |rest| => Delivery(rest[k].requester, ChangeMatchingInfo(|rest|, maxUser)))
  }

  function AllUsers(matches: seq<ReadyMatch>): seq<Session> {
    if matches == [] then [] else matches[0].users + AllUsers(matches[1..])
  }

  /** One round of `QueuingMatch`'s first loop: with a full group at the front, the
      group's match, its notices and what is left follow from the rest of the queue. */
  lemma GroupStep(q: seq<RequestMatch>, maxUser: nat, formed: seq<ReadyMatch>, told: seq<Delivery>)
    requires maxUser > 0 && |q| >= maxUser
    ensures formed + Groups(q, maxUser)
            == formed + [NewMatch(q[..maxUser])] + Groups(q[maxUser..], maxUser)
    ensures told + ReadyNotices(q, maxUser)
            == told + SeatNotices(q[..maxUser], maxUser) + ReadyNotices(q[maxUser..], maxUser)
    ensures Leftover(q, maxUser) == Leftover(q[maxUser..], maxUser)
  {
    var front, rest := q[..maxUser], q[maxUser..];
    Associative(formed, [NewMatch(front)], Groups(rest, maxUser));
    Associative(told, SeatNotices(front, maxUser), ReadyNotices(rest, maxUser));
  }

  lemma Associative<T>(a: seq<T>, b: seq<T>, c: seq<T>)
    ensures a + (b + c) == a + b + c
  {
  }

  /** Matchmaking loses, duplicates and reorders nobody: the members of the groups, in
      order, followed by the requests left queued, are the queue. */
  lemma {:induction false} GroupsPartition(q: seq<RequestMatch>, maxUser: nat)
    requires maxUser > 0
    ensures AllUsers(Groups(q, maxUser)) + Requesters(Leftover(q, maxUser)) == Requesters(q)
    decreases |q|
  {
    if |q| >= maxUser {
      var front, rest := q[..maxUser], q[maxUser..];
      var g := Groups(q, maxUser);
      calc {
        AllUsers(g) + Requesters(Leftover(q, maxUser));
        { assert g[1..] == Groups(rest, maxUser); }
        (Requesters(front) + AllUsers(Groups(rest, maxUser))) + Requesters(Leftover(rest, maxUser));
        Requesters(front) + (AllUsers(Groups(rest, maxUser)) + Requesters(Leftover(rest, maxUser)));
        { GroupsPartition(rest, maxUser); }
        Requesters(front) + Requesters(rest);
        { RequestersAppend(front, rest); assert front + rest == q; }
        Requesters(q);
      }
    }
  }

  /** Every match formed seats exactly `maxUser` users, none of them ready yet. */
  lemma {:induction false} GroupsShape(q: seq<RequestMatch>, maxUser: nat)
    requires maxUser > 0
    ensures var g := Groups(q, maxUser);
            forall i :: 0 <= i < |g| ==>
              Shaped(g[i], maxUser) && g[i].readyUserCount == 0 && !AnyReady(g[i].userReadys)
    decreases |q|
  {
    if |q| >= maxUser {
      var g := Groups(q, maxUser);
      var m := NewMatch(q[..maxUser]);
      GroupsShape(q[maxUser..], maxUser);
      assert g == [m] + Groups(q[maxUser..], maxUser);
      assert !AnyReady(m.userReadys);
    }
  }

  /** A ready match with one seat and one ready flag per user. */
  ghost predicate Shaped(m: ReadyMatch, maxUser: int) {
    m.userCount == maxUser && |m.users| == maxUser && |m.userReadys| == maxUser
  }

  // ---------------------------------------------------------------- ready checks

  /** The first ready match seating `requester`, if any. */
  function MatchOf(matches: seq<ReadyMatch>, requester: Session): (r: Option<nat>)
    ensures r.Some? ==> r.value < |matches| && requester in matches[r.value].users
    ensures r.Some? ==> forall k :: 0 <= k < r.value ==> requester !in matches[k].users
    ensures r.None? <==> forall k :: 0 <= k < |matches| ==> requester !in matches[k].users
  {
    if matches == [] then None
    else if requester in matches[0].users then Some(0)
    else match MatchOf(matches[1..], requester)
         case None => None
         case Some(k) => Some(k + 1)
  }

  datatype Option<T> = None | Some(value: T)

  /** The seat of `user` in a match: its first position. */
  function SeatOf(users: seq<Session>, user: Session): (i: nat)
    requires user in users
    ensures i < |users| && users[i] == user
    ensures forall k :: 0 <= k < i ==> users[k] != user
  {
    if users[0] == user then 0 else 1 + SeatOf(users[1..], user)
  }

  predicate AnyReady(readys: seq<bool>) {
    exists k :: 0 <= k < |readys| && readys[k]
  }

  /** `std::all_of` over the ready flags. */
  predicate AllReady(readys: seq<bool>) {
    forall k :: 0 <= k < |readys| ==> readys[k]
  }

  /** The `AddSession` calls that seat a match in a room: seat `k` gets user `k`. */
  function Seating(users: seq<Session>): (r: seq<(int, Session)>)
    ensures |r| == |users| && forall k :: 0 <= k < |users| ==> r[k] == (k, users[k])
  {
    seq(|users|, k requires 0 <= k < |users| => (k, users[k]))
  }

  /** What cancelling a ready match re-queues: every other user, in seat order. */
  function Requeued(users: seq<Session>, requester: Session): (r: seq<RequestMatch>)
    ensures |r| <= |users|
  {
    if users == [] then []
    else (if users[0] != requester then [RequestMatch(users[0])] else [])
         + Requeued(users[1..], requester)
  }

  /** `CancelReadyMatching` to every user of a cancelled match, in seat order. */
  function CancelNotices(users: seq<Session>): (r: seq<Delivery>)
    ensures |r| == |users|
    ensures forall k :: 0 <= k < |users| ==> r[k] == Delivery(users[k], CancelReadyMatching)
  {
    seq(|users|, k requires 0 <= k < |users| => Delivery(users[k], CancelReadyMatching))
  }

  /** A match whose users are all distinct re-queues one user fewer than it seats. */
  lemma {:induction false} RequeuedCount(users: seq<Session>, requester: Session)
    requires requester in users
    requires forall i, j :: 0 <= i < j < |users| ==> users[i] != users[j]
    ensures |Requeued(users, requester)| == |users| - 1
  {
    if users[0] == requester {
      assert requester !in users[1..];
      RequeuedAll(users[1..], requester);
    } else {
      RequeuedCount(users[1..], requester);
    }
  }

  lemma {:induction false} RequeuedAll(users: seq<Session>, requester: Session)
    requires requester !in users
    ensures |Requeued(users, requester)| == |users|
  {
    if users != [] {
      RequeuedAll(users[1..], requester);
    }
  }

  // ---------------------------------------------------------------- lists

  /** The sessions `RemoveExpiredSession` keeps: the open ones, in order. */
  function OpenSessions(sessions: seq<Session>): (r: seq<Session>)
    reads sessions
    ensures |r| <= |sessions|
  {
    if sessions == [] then []
    else (if sessions[0].IsClosed() then [] else [sessions[0]]) + OpenSessions(sessions[1..])
  }

  /** The rooms `RemoveExpiredRoom` keeps: those not in state `End`, in order. */
  function LiveRooms(rooms: seq<RoomEntry>): (r: seq<RoomEntry>)
    ensures |r| <= |rooms|
  {
    if rooms == [] then []
    else (if rooms[0].state == End then [] else [rooms[0]]) + LiveRooms(rooms[1..])
  }

  /** One step of `RemoveExpiredSession`'s loop: after `kept`, the session at `k` is
      kept exactly when it is open. */
  lemma OpenSessionsStep(kept: seq<Session>, sessions: seq<Session>, k: nat)
    requires k < |sessions|
    ensures kept + OpenSessions(sessions[k..])
            == kept + (if sessions[k].IsClosed() then [] else [sessions[k]])
               + OpenSessions(sessions[k + 1..])
  {
    assert sessions[k..][1..] == sessions[k + 1..];
  }

  /** One step of `RemoveExpiredRoom`'s loop: after `kept`, the room at `k` is kept
      exactly when it has not ended. */
  lemma LiveRoomsStep(kept: seq<RoomEntry>, rooms: seq<RoomEntry>, k: nat)
    requires k < |rooms|
    ensures kept + LiveRooms(rooms[k..])
            == kept + (if rooms[k].state == End then [] else [rooms[k]]) + LiveRooms(rooms[k + 1..])
  {
    assert rooms[k..][1..] == rooms[k + 1..];
  }

  /** The loop of `RemoveExpiredSession`: walks the sessions in order and keeps the
      open ones. */
  method KeepOpen(all: seq<Session>) returns (kept: seq<Session>)
    ensures kept == OpenSessions(all)
  {
    kept := [];
    var k := 0;
    while k < |all|
      invariant 0 <= k <= |all|
      invariant OpenSessions(all) == kept + OpenSessions(all[k..])
    {
      OpenSessionsStep(kept, all, k);
      var head: seq<Session> := if all[k].IsClosed() then [] else [all[k]];
      kept := kept + head;
      k := k + 1;
    }
    assert all[k..] == [];
  }

  /** The loop of `RemoveExpiredRoom`: walks the rooms in order and keeps those that
      have not ended. */
  method KeepLive(all: seq<RoomEntry>) returns (kept: seq<RoomEntry>)
    ensures kept == LiveRooms(all)
  {
    kept := [];
    var k := 0;
    while k < |all|
      invariant 0 <= k <= |all|
      invariant LiveRooms(all) == kept + LiveRooms(all[k..])
    {
      LiveRoomsStep(kept, all, k);
      var head: seq<RoomEntry> := if all[k].state == End then [] else [all[k]];
      kept := kept + head;
      k := k + 1;
    }
    assert all[k..] == [];
  }

  /** Exactly the other users of the match are queued again. */
  lemma {:induction false} RequeuedMembers(users: seq<Session>, requester: Session)
    ensures forall u :: RequestMatch(u) in Requeued(users, requester) <==> u in users && u != requester
  {
    if users != [] {
      RequeuedMembers(users[1..], requester);
      assert users == [users[0]] + users[1..];
    }
  }

  /** `RemoveExpiredSession` keeps exactly the sessions that are not closed. */
  lemma {:induction false} OpenSessionsMembers(sessions: seq<Session>)
    ensures forall s :: s in OpenSessions(sessions) <==> s in sessions && !s.IsClosed()
  {
    if sessions != [] {
      OpenSessionsMembers(sessions[1..]);
      assert sessions == [sessions[0]] + sessions[1..];
    }
  }

  /** `RemoveExpiredRoom` keeps exactly the rooms that have not ended. */
  lemma {:induction false} LiveRoomsMembers(rooms: seq<RoomEntry>)
    ensures forall e :: e in LiveRooms(rooms) <==> e in rooms && e.state != End
  {
    if rooms != [] {
      LiveRoomsMembers(rooms[1..]);
      assert rooms == [rooms[0]] + rooms[1..];
    }
  }

  class Server {
    /** `Constant::MaxUserCount`, the size of a match. */
    const maxUserCount: int
    var rooms: seq<RoomEntry>
    var sessions: seq<Session>
    var matchQueue: seq<RequestMatch>
    var readyMatches: seq<ReadyMatch>
    var turnOnMatch: bool
    /** Every packet the matchmaking has sent, in order. */
    var sent: seq<Delivery>

    /** Every ready match seats `maxUserCount` users with one ready flag each. */
    ghost predicate Valid()
      reads this
    {
      forall i :: 0 <= i < |readyMatches| ==> Shaped(readyMatches[i], maxUserCount)
    }

    constructor (maxUserCount: int)
      ensures Valid() && this.maxUserCount == maxUserCount
      ensures rooms == [] && sessions == [] && matchQueue == [] && readyMatches == []
      ensures !turnOnMatch && sent == []
    {
      this.maxUserCount := maxUserCount;
      rooms := [];
      sessions := [];
      matchQueue := [];
      readyMatches := [];
      turnOnMatch := false;
      sent := [];
    }

    /** `AddRequest`: queues the request at the back and asks for a matchmaking pass. */
    method AddRequest(req: RequestMatch)
      modifies this
      ensures matchQueue == old(matchQueue) + [req] && turnOnMatch
      ensures readyMatches == old(readyMatches) && rooms == old(rooms)
      ensures sessions == old(sessions) && sent == old(sent)
    {
      matchQueue := matchQueue + [req];
      turnOnMatch := true;
    }

    /** `CancelRequest`: drops the requester's first request, keeping the rest in
        order. The requester must be queued: erasing the end iterator is undefined. */
    method CancelRequest(requester: Session)
      requires requester in Requesters(matchQueue)
      modifies this
      ensures var i := FirstRequestOf(old(matchQueue), requester);
              matchQueue == old(matchQueue)[..i] + old(matchQueue)[i + 1..]
      ensures turnOnMatch
      ensures readyMatches == old(readyMatches) && rooms == old(rooms)
      ensures sessions == old(sessions) && sent == old(sent)
    {
      var i := FirstRequestOf(matchQueue, requester);
      matchQueue := matchQueue[..i] + matchQueue[i + 1..];
      turnOnMatch := true;
    }

    /** `AddNewRoom`: appends a room for `userCount` players and returns its position.
        The room constructor in `Room.cpp` does not set the state; it is recorded as
        `Opened`. */
    method AddNewRoom(userCount: int) returns (index: nat)
      modifies this
      ensures rooms == old(rooms) + [RoomEntry(userCount, [], false, Opened)]
      ensures index == |rooms| - 1
      ensures sessions == old(sessions) && matchQueue == old(matchQueue)
      ensures readyMatches == old(readyMatches) && sent == old(sent)
      ensures turnOnMatch == old(turnOnMatch)
    {
      rooms := rooms + [RoomEntry(userCount, [], false, Opened)];
      index := |rooms| - 1;
    }

    /** `AddNewSession`: appends a new session on `socket` and returns it. */
    method AddNewSession(socket: int) returns (session: Session)
      modifies this
      ensures fresh(session) && session.socket == socket && session.state == Sessions.Wait
      ensures sessions == old(sessions) + [session]
      ensures rooms == old(rooms) && matchQueue == old(matchQueue)
      ensures readyMatches == old(readyMatches) && sent == old(sent)
      ensures turnOnMatch == old(turnOnMatch)
    {
      session := new Sessions.Session(socket);
      sessions := sessions + [session];
    }

    /** `RemoveExpiredSession`: drops the closed sessions. */
    method RemoveExpiredSession()
      modifies this
      ensures sessions == OpenSessions(old(sessions))
      ensures rooms == old(rooms) && matchQueue == old(matchQueue)
      ensures readyMatches == old(readyMatches) && sent == old(sent)
      ensures turnOnMatch == old(turnOnMatch)
    {
      sessions := KeepOpen(sessions);
    }

    /** `RemoveExpiredRoom`: drops the rooms that have ended. */
    method RemoveExpiredRoom()
      modifies this
      ensures rooms == LiveRooms(old(rooms))
      ensures sessions == old(sessions) && matchQueue == old(matchQueue)
      ensures readyMatches == old(readyMatches) && sent == old(sent)
      ensures turnOnMatch == old(turnOnMatch)
    {
      rooms := KeepLive(rooms);
    }

    /** `QueuingMatch`: nothing on an empty queue. Otherwise, while a full group is
        queued, its requests leave the front of the queue for a new ready match and each
        member learns its seat; then everyone still queued learns the queue's length.
        A match size of zero or less would never stop forming empty matches. */
    method QueuingMatch()
      requires Valid() && maxUserCount > 0
      modifies this
      ensures Valid()
      ensures old(matchQueue) == [] ==>
                matchQueue == [] && readyMatches == old(readyMatches) && sent == old(sent)
      ensures old(matchQueue) != [] ==>
                readyMatches == old(readyMatches) + Groups(old(matchQueue), maxUserCount)
                && matchQueue == Leftover(old(matchQueue), maxUserCount)
                && sent == old(sent) + ReadyNotices(old(matchQueue), maxUserCount)
                            + WaitNotices(matchQueue, maxUserCount)
      ensures rooms == old(rooms) && sessions == old(sessions)
      ensures turnOnMatch == old(turnOnMatch)
    {
      if matchQueue == [] {
        return;
      }
      ghost var queued := matchQueue;
      FormMatches();
      var rest := matchQueue;
      var remainUser := |rest|;
      for k := 0 to |rest|
        invariant sent == old(sent) + ReadyNotices(queued, maxUserCount) + WaitNotices(rest, maxUserCount)[..k]
        invariant matchQueue == rest && readyMatches == old(readyMatches) + Groups(queued, maxUserCount)
        invariant rooms == old(rooms) && sessions == old(sessions)
        invariant turnOnMatch == old(turnOnMatch) && Valid()
      {
        sent := sent + [Delivery(rest[k].requester, ChangeMatchingInfo(remainUser, maxUserCount))];
      }
    }

    /** The first loop of `QueuingMatch`: forms matches while a full group is queued. */
    method FormMatches()
      requires Valid() && maxUserCount > 0
      modifies this
      ensures Valid()
      ensures readyMatches == old(readyMatches) + Groups(old(matchQueue), maxUserCount)
      ensures matchQueue == Leftover(old(matchQueue), maxUserCount)
      ensures sent == old(sent) + ReadyNotices(old(matchQueue), maxUserCount)
      ensures rooms == old(rooms) && sessions == old(sessions)
      ensures turnOnMatch == old(turnOnMatch)
    {
      ghost var queued := matchQueue;
      ghost var matched := readyMatches;
      ghost var told := sent;
      while |matchQueue| >= maxUserCount
        invariant Valid()
        invariant matched + Groups(queued, maxUserCount) == readyMatches + Groups(matchQueue, maxUserCount)
        invariant Leftover(queued, maxUserCount) == Leftover(matchQueue, maxUserCount)
        invariant told + ReadyNotices(queued, maxUserCount)
                  == sent + ReadyNotices(matchQueue, maxUserCount)
        invariant rooms == old(rooms) && sessions == old(sessions)
        invariant turnOnMatch == old(turnOnMatch)
        decreases |matchQueue|
      {
        GroupStep(matchQueue, maxUserCount, readyMatches, sent);
        var group := FormMatch();
        readyMatches := readyMatches + [group];
      }
    }

    /** One full group: the first `maxUserCount` requests leave the queue, in order,
        each requester is told its seat, and the match seating them is returned. */
    method FormMatch() returns (group: ReadyMatch)
      requires maxUserCount > 0 && |matchQueue| >= maxUserCount
      modifies this
      ensures group == NewMatch(old(matchQueue)[..maxUserCount])
      ensures matchQueue == old(matchQueue)[maxUserCount..]
      ensures sent == old(sent) + SeatNotices(old(matchQueue)[..maxUserCount], maxUserCount)
      ensures readyMatches == old(readyMatches) && rooms == old(rooms)
      ensures sessions == old(sessions) && turnOnMatch == old(turnOnMatch)
    {
      ghost var queued := matchQueue;
      var users: seq<Session> := [];
      var userReadys: seq<bool> := [];
      for i := 0 to maxUserCount
        invariant matchQueue == queued[i..]
        invariant users == Requesters(queued[..i])
        invariant userReadys == seq(i, _ => false)
        invariant sent == old(sent) + SeatNotices(queued[..i], maxUserCount)
        invariant readyMatches == old(readyMatches) && rooms == old(rooms)
        invariant sessions == old(sessions) && turnOnMatch == old(turnOnMatch)
      {
        var request := matchQueue[0];
        users := users + [request.requester];
        userReadys := userReadys + [false];
        sent := sent + [Delivery(request.requester, ReadyMatching(i, maxUserCount))];
        matchQueue := matchQueue[1..];
        assert queued[..i + 1] == queued[..i] + [queued[i]];
        RequestersAppend(queued[..i], [queued[i]]);
      }
      group := ReadyMatch(maxUserCount, 0, users, userReadys);
    }

    /** `PostReadyMatch`: marks the requester ready in the first match seating it. Once
        every seat is ready, a room is made for the match, each user is seated in seat
        order, the room is started and the match is dropped. A requester in no match
        changes nothing. */
    method PostReadyMatch(requester: Session)
      requires Valid()
      modifies this
      ensures Valid()
      ensures MatchOf(old(readyMatches), requester).None? ==>
                readyMatches == old(readyMatches) && rooms == old(rooms)
      ensures MatchOf(old(readyMatches), requester).Some? ==>
                var i := MatchOf(old(readyMatches), requester).value;
                var m := old(readyMatches)[i];
                var readys := m.userReadys[SeatOf(m.users, requester) := true];
                if AllReady(readys) then
                  readyMatches == old(readyMatches)[..i] + old(readyMatches)[i + 1..]
                  && rooms == old(rooms) + [RoomEntry(maxUserCount, Seating(m.users), true, Opened)]
                else
                  readyMatches == old(readyMatches)[i := m.(userReadys := readys)]
                  && rooms == old(rooms)
      ensures matchQueue == old(matchQueue) && sessions == old(sessions)
      ensures sent == old(sent) && turnOnMatch == old(turnOnMatch)
    {
      var found := MatchOf(readyMatches, requester);
      if found.None? {
        return;
      }
      var i := found.value;
      var m := readyMatches[i];
      assert m in readyMatches;
      var index := SeatOf(m.users, requester);
      var readys := m.userReadys[index := true];
      m := m.(userReadys := readys);
      if AllReady(readys) {
        var room := AddNewRoom(maxUserCount);
        for k := 0 to maxUserCount
          invariant rooms == old(rooms) + [RoomEntry(maxUserCount, Seating(m.users[..k]), false, Opened)]
          invariant room == |rooms| - 1
          invariant readyMatches == old(readyMatches) && Valid()
          invariant matchQueue == old(matchQueue) && sessions == old(sessions)
          invariant sent == old(sent) && turnOnMatch == old(turnOnMatch)
        {
          assert Seating(m.users[..k + 1]) == Seating(m.users[..k]) + [(k, m.users[k])];
          rooms := rooms[room := rooms[room].(added := rooms[room].added + [(k, m.users[k])])];
        }
        assert m.users[..maxUserCount] == m.users;
        rooms := rooms[room := rooms[room].(readyToGame := true)];
        DropMatch(i);
      } else {
        readyMatches := readyMatches[i := m];
      }
    }

    /** The loop of `PostCancelReadyMatch`: each user in seat order is told the match
        is off, and queued again unless it is the requester. */
    method CancelAndRequeue(users: seq<Session>, requester: Session)
      modifies this
      ensures matchQueue == old(matchQueue) + Requeued(users, requester)
      ensures sent == old(sent) + CancelNotices(users)
      ensures turnOnMatch == (old(turnOnMatch) || Requeued(users, requester) != [])
      ensures readyMatches == old(readyMatches) && rooms == old(rooms) && sessions == old(sessions)
    {
      for k := 0 to |users|
        invariant matchQueue == old(matchQueue) + Requeued(users[..k], requester)
        invariant sent == old(sent) + CancelNotices(users[..k])
        invariant turnOnMatch == (old(turnOnMatch) || Requeued(users[..k], requester) != [])
        invariant readyMatches == old(readyMatches) && rooms == old(rooms) && sessions == old(sessions)
      {
        sent := sent + [Delivery(users[k], CancelReadyMatching)];
        if users[k] != requester {
          AddRequest(RequestMatch(users[k]));
        }
        RequeuedSnoc(users[..k], users[k], requester);
        assert users[..k + 1] == users[..k] + [users[k]];
      }
      assert users[..|users|] == users;
    }

    /** `readyMatches.erase( it )`. */
    method DropMatch(i: nat)
      requires Valid() && i < |readyMatches|
      modifies this
      ensures Valid() && readyMatches == old(readyMatches)[..i] + old(readyMatches)[i + 1..]
      ensures rooms == old(rooms) && sessions == old(sessions) && matchQueue == old(matchQueue)
      ensures sent == old(sent) && turnOnMatch == old(turnOnMatch)
    {
      readyMatches := readyMatches[..i] + readyMatches[i + 1..];
    }

    /** `PostCancelReadyMatch`: every user of the requester's match is told the match
        is off and every user but the requester is queued again, in seat order; the
        match is dropped and the requester is told it was cancelled. The requester must
        be in some match: the match is erased unconditionally. */
    method PostCancelReadyMatch(requester: Session)
      requires Valid() && MatchOf(readyMatches, requester).Some?
      modifies this
      ensures Valid()
      ensures var i := MatchOf(old(readyMatches), requester).value;
              var users := old(readyMatches)[i].users;
              readyMatches == old(readyMatches)[..i] + old(readyMatches)[i + 1..]
              && matchQueue == old(matchQueue) + Requeued(users, requester)
              && sent == old(sent) + CancelNotices(users) + [Delivery(requester, MatchCanceled)]
              && turnOnMatch == (old(turnOnMatch) || Requeued(users, requester) != [])
      ensures rooms == old(rooms) && sessions == old(sessions)
    {
      var i := MatchOf(readyMatches, requester).value;
      CancelAndRequeue(readyMatches[i].users, requester);
      DropMatch(i);
      sent := sent + [Delivery(requester, MatchCanceled)];
    }
  }

  lemma {:induction false} RequeuedSnoc(users: seq<Session>, user: Session, requester: Session)
    ensures Requeued(users + [user], requester)
            == Requeued(users, requester) + (if user != requester then [RequestMatch(user)] else [])
  {
    if users != [] {
      assert (users + [user])[1..] == users[1..] + [user];
      RequeuedSnoc(users[1..], user, requester);
    }
  }
}
