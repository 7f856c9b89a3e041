/** `RoomManager`: which sessions are in a room, and which rooms a session is
    in, as two maps of insertion-ordered sets. */
module Rooms {

  // ------------------------------------------------ insertion-ordered sets

  ghost predicate NoDup(s: seq<string>) {
    forall i, j :: 0 <= i < j < |s| ==> s[i] != s[j]
  }

  /** `Set.add` */
  function Add(s: seq<string>, x: string): seq<string> {
    if x in s then s else s + [x]
  }

  /** `Set.delete` */
  function Del(s: seq<string>, x: string): seq<string> {
    if s == [] then [] else (if s[0] == x then [] else [s[0]]) + Del(s[1..], x)
  }

  lemma {:induction false} DelMembers(s: seq<string>, x: string)
    ensures forall y :: y in Del(s, x) <==> y in s && y != x
    ensures x !in s ==> Del(s, x) == s
    ensures |Del(s, x)| <= |s| && (x in s ==> |Del(s, x)| < |s|)
  {
    if s != [] {
      DelMembers(s[1..], x);
      assert forall y :: y in s <==> y == s[0] || y in s[1..];
    }
  }

  lemma NoDupCons(x: string, t: seq<string>)
    requires NoDup(t) && x !in t
    ensures NoDup([x] + t)
  {
    assert forall i :: 0 <= i < |t| ==> t[i] in t;
  }

  lemma {:induction false} DelNoDup(s: seq<string>, x: string)
    requires NoDup(s)
    ensures NoDup(Del(s, x))
  {
    if s != [] {
      var t := Del(s[1..], x);
      DelNoDup(s[1..], x);
      DelMembers(s[1..], x);
      forall i | 0 <= i < |s[1..]| ensures s[1..][i] != s[0] {
        assert s[1..][i] == s[i + 1];
      }
      NoDupCons(s[0], t);
      assert [] + t == t;
    }
  }

  lemma DelLaws(s: seq<string>, x: string)
    ensures forall y :: y in Del(s, x) <==> y in s && y != x
    ensures NoDup(s) ==> NoDup(Del(s, x))
    ensures x !in s ==> Del(s, x) == s
    ensures |Del(s, x)| <= |s| && (x in s ==> |Del(s, x)| < |s|)
  {
    DelMembers(s, x);
    if NoDup(s) {
      DelNoDup(s, x);
    }
  }

  // ------------------------------------------------------- specification

  type Index = map<string, seq<string>>

  datatype State = State(rooms: Index, sessionRooms: Index)

  function Members(m: Index, k: string): seq<string> {
    if k in m then m[k] else []
  }

  function AddTo(m: Index, k: string, x: string): Index {
    m[k := Add(Members(m, k), x)]
  }

  /** Deletes from the set of k, and the key with its last element. */
  function RemoveFrom(m: Index, k: string, x: string): Index {
    if k !in m then m else if Del(m[k], x) == [] then m - {k} else m[k := Del(m[k], x)]
  }

  function Join(v: State, room: string, session: string): State {
    State(AddTo(v.rooms, room, session), AddTo(v.sessionRooms, session, room))
  }

  function Leave(v: State, room: string, session: string): State {
    State(RemoveFrom(v.rooms, room, session), RemoveFrom(v.sessionRooms, session, room))
  }

  /** The session is in no room; everything else is as before. */
  function LeaveAll(v: State, session: string): State {
    State(map r | r in v.rooms && Del(v.rooms[r], session) != [] :: Del(v.rooms[r], session),
          v.sessionRooms - {session})
  }

  /** The two maps are inverse to each other, neither holds an empty set, and
      no set holds an element twice. */
  ghost predicate Inv(v: State) {
    && (forall r, s :: s in Members(v.rooms, r) <==> r in Members(v.sessionRooms, s))
    && (forall r :: r in v.rooms ==> v.rooms[r] != [] && NoDup(v.rooms[r]))
    && (forall s :: s in v.sessionRooms ==> v.sessionRooms[s] != [] && NoDup(v.sessionRooms[s]))
  }

  // --------------------------------------------------------------- proofs

  lemma AddToLaws(m: Index, k: string, x: string)
    ensures forall j, y :: y in Members(AddTo(m, k, x), j) <==> y in Members(m, j) || (j == k && y == x)
    ensures (forall j :: j in m ==> m[j] != [] && NoDup(m[j])) ==>
              forall j :: j in AddTo(m, k, x) ==> AddTo(m, k, x)[j] != [] && NoDup(AddTo(m, k, x)[j])
  {
  }

  lemma AddInTwoSteps(m: Index, k: string, x: string)
    ensures k !in m ==> m[k := []][k := Add(m[k := []][k], x)] == AddTo(m, k, x)
    ensures k in m ==> m[k := Add(m[k], x)] == AddTo(m, k, x)
  {
  }

  lemma RemoveFromLaws(m: Index, k: string, x: string)
    ensures forall j, y :: y in Members(RemoveFrom(m, k, x), j) <==> y in Members(m, j) && !(j == k && y == x)
    ensures (forall j :: j in m ==> m[j] != [] && NoDup(m[j])) ==>
              forall j :: j in RemoveFrom(m, k, x) ==> RemoveFrom(m, k, x)[j] != [] && NoDup(RemoveFrom(m, k, x)[j])
  {
    DelLaws(Members(m, k), x);
  }

  lemma JoinKeeps(v: State, room: string, session: string)
    requires Inv(v)
    ensures Inv(Join(v, room, session))
    ensures forall r, s :: s in Members(Join(v, room, session).rooms, r) <==>
                           s in Members(v.rooms, r) || (r == room && s == session)
  {
    AddToLaws(v.rooms, room, session);
    AddToLaws(v.sessionRooms, session, room);
  }

  lemma LeaveKeeps(v: State, room: string, session: string)
    requires Inv(v)
    ensures Inv(Leave(v, room, session))
    ensures forall r, s :: s in Members(Leave(v, room, session).rooms, r) <==>
                           s in Members(v.rooms, r) && !(r == room && s == session)
  {
    RemoveFromLaws(v.rooms, room, session);
    RemoveFromLaws(v.sessionRooms, session, room);
  }

  /** Leaving all rooms removes exactly that session, and keeps the order of
      the others in every room. */
  lemma LeaveAllKeeps(v: State, session: string)
    requires Inv(v)
    ensures Inv(LeaveAll(v, session))
    ensures forall r, s :: s in Members(LeaveAll(v, session).rooms, r) <==> s in Members(v.rooms, r) && s != session
    ensures forall r :: Members(LeaveAll(v, session).rooms, r) == Del(Members(v.rooms, r), session)
  {
    var w := LeaveAll(v, session);
    forall r
      ensures Members(w.rooms, r) == Del(Members(v.rooms, r), session)
      ensures NoDup(Members(v.rooms, r)) ==> NoDup(Members(w.rooms, r))
      ensures forall s :: s in Members(w.rooms, r) <==> s in Members(v.rooms, r) && s != session
    {
      DelLaws(Members(v.rooms, r), session);
    }
    forall r, s ensures s in Members(w.rooms, r) <==> r in Members(w.sessionRooms, s) {
      assert s in Members(v.rooms, r) <==> r in Members(v.sessionRooms, s);
      assert s in Members(w.rooms, r) <==> s in Members(v.rooms, r) && s != session;
    }
    forall r | r in w.rooms ensures w.rooms[r] != [] && NoDup(w.rooms[r]) {
      assert w.rooms[r] == Members(w.rooms, r);
      assert Members(v.rooms, r) == v.rooms[r];
    }
  }

  lemma {:induction false} DelTwice(s: seq<string>, x: string)
    ensures Del(Del(s, x), x) == Del(s, x)
  {
    DelLaws(s, x);
    DelLaws(Del(s, x), x);
  }

  lemma LeaveAbsorbed(v: State, room: string, session: string)
    requires session in v.sessionRooms
    ensures LeaveAll(Leave(v, room, session), session) == LeaveAll(v, session)
  {
    var w := Leave(v, room, session);
    assert w.sessionRooms - {session} == v.sessionRooms - {session};
    if room in v.rooms {
      DelTwice(v.rooms[room], session);
    }
    assert LeaveAll(w, session).rooms == LeaveAll(v, session).rooms;
  }

  lemma NothingToLeave(v: State, session: string)
    requires Inv(v) && session !in v.sessionRooms
    ensures LeaveAll(v, session) == v
  {
    forall r | r in v.rooms ensures Del(v.rooms[r], session) == v.rooms[r] {
      DelLaws(v.rooms[r], session);
      assert session in Members(v.rooms, r) <==> r in Members(v.sessionRooms, session);
    }
    assert LeaveAll(v, session).rooms == v.rooms;
  }

  // ------------------------------------------------------------ the class

  class RoomManager {
    var rooms: Index
    var sessionRooms: Index

    ghost function View(): State
      reads this
    {
      State(rooms, sessionRooms)
    }

    ghost predicate Valid()
      reads this
    {
      Inv(View())
    }

    constructor ()
      ensures Valid() && View() == State(map[], map[])
    {
      rooms, sessionRooms := map[], map[];
    }

    method JoinRoom(roomId: string, sessionId: string)
      requires Valid()
      modifies this
      ensures Valid() && View() == Join(old(View()), roomId, sessionId)
    {
      JoinKeeps(View(), roomId, sessionId);
      AddInTwoSteps(rooms, roomId, sessionId);
      AddInTwoSteps(sessionRooms, sessionId, roomId);
      if roomId !in rooms {
        rooms := rooms[roomId := []];
      }
      if sessionId !in sessionRooms {
        sessionRooms := sessionRooms[sessionId := []];
      }
      rooms := rooms[roomId := Add(rooms[roomId], sessionId)];
      sessionRooms := sessionRooms[sessionId := Add(sessionRooms[sessionId], roomId)];
    }

    method LeaveRoom(roomId: string, sessionId: string)
      requires Valid()
      modifies this
      ensures Valid() && View() == Leave(old(View()), roomId, sessionId)
    {
      LeaveKeeps(View(), roomId, sessionId);
      if roomId in rooms {
        var room := Del(rooms[roomId], sessionId);
        rooms := if |room| == 0 then rooms - {roomId} else rooms[roomId := room];
      }
      if sessionId in sessionRooms {
        var left := Del(sessionRooms[sessionId], roomId);
        sessionRooms := if |left| == 0 then sessionRooms - {sessionId} else sessionRooms[sessionId := left];
      }
    }

    /** Visits the session's rooms in order while each visit removes its room. */
    method LeaveAllRooms(sessionId: string)
      requires Valid()
      modifies this
      ensures Valid() && View() == LeaveAll(old(View()), sessionId)
    {
      while sessionId in sessionRooms
        invariant Valid() && LeaveAll(View(), sessionId) == LeaveAll(old(View()), sessionId)
        decreases |Members(sessionRooms, sessionId)|
      {
        var roomId := sessionRooms[sessionId][0];
        LeaveAbsorbed(View(), roomId, sessionId);
        DelLaws(sessionRooms[sessionId], roomId);
        LeaveRoom(roomId, sessionId);
      }
      NothingToLeave(View(), sessionId);
    }

    /** `getSessionsInRoom`: each session that the other index has in the room, once. */
    function SessionsInRoom(roomId: string): (r: seq<string>)
      requires Valid()
      reads this
      ensures NoDup(r)
      ensures forall s :: s in r <==> s in sessionRooms && roomId in sessionRooms[s]
    {
      assert forall s :: s in Members(rooms, roomId) <==> roomId in Members(sessionRooms, s);
      Members(rooms, roomId)
    }
  }

  // ------------------------------------------------------- over every run

  datatype Op = JoinOp(room: string, session: string) | LeaveOp(room: string, session: string) | LeaveAllOp(session: string)

  function Apply(v: State, op: Op): State {
    match op
    case JoinOp(r, s) => Join(v, r, s)
    case LeaveOp(r, s) => Leave(v, r, s)
    case LeaveAllOp(s) => LeaveAll(v, s)
  }

  function Run(v: State, ops: seq<Op>): State
    decreases |ops|
  {
    if ops == [] then v else Run(Apply(v, ops[0]), ops[1..])
  }

  /** Whether the session last joined the room without leaving it since. */
  predicate Joined(was: bool, ops: seq<Op>, room: string, session: string)
    decreases |ops|
  {
    if ops == [] then was
    else Joined(match ops[0]
                case JoinOp(r, s) => was || (r == room && s == session)
                case LeaveOp(r, s) => was && !(r == room && s == session)
                case LeaveAllOp(s) => was && s != session,
                ops[1..], room, session)
  }

  /** The members of one room in their order: who joins anew comes last. */
  function Replay(was: seq<string>, ops: seq<Op>, room: string): seq<string>
    decreases |ops|
  {
    if ops == [] then was
    else Replay(match ops[0]
                case JoinOp(r, s) => if r == room && s !in was then was + [s] else was
                case LeaveOp(r, s) => if r == room then Without(was, s) else was
                case LeaveAllOp(s) => Without(was, s),
                ops[1..], room)
  }

  /** The others, in their order. */
  function Without(s: seq<string>, x: string): seq<string> {
    if s == [] then [] else Without(s[..|s| - 1], x) + if s[|s| - 1] == x then [] else [s[|s| - 1]]
  }

  lemma {:induction false} DelConcat(a: seq<string>, b: seq<string>, x: string)
    ensures Del(a + b, x) == Del(a, x) + Del(b, x)
  {
    if a == [] {
      assert a + b == b;
    } else {
      assert (a + b)[1..] == a[1..] + b;
      DelConcat(a[1..], b, x);
    }
  }

  lemma {:induction false} DelIsWithout(s: seq<string>, x: string)
    ensures Del(s, x) == Without(s, x)
  {
    if s != [] {
      var last := s[|s| - 1];
      DelConcat(s[..|s| - 1], [last], x);
      assert s == s[..|s| - 1] + [last] && [last][1..] == [];
      DelIsWithout(s[..|s| - 1], x);
    }
  }

  lemma OneReplay(v: State, op: Op, room: string)
    requires Inv(v)
    ensures Members(Apply(v, op).rooms, room) == Replay(Members(v.rooms, room), [op], room)
  {
    assert [op][1..] == [];
    var was := Members(v.rooms, room);
    match op
    case JoinOp(r, s) =>
    case LeaveOp(r, s) => DelIsWithout(was, s);
    case LeaveAllOp(s) =>
      DelIsWithout(was, s);
      LeaveAllKeeps(v, s);
  }

  /** ORDER. After any run a room lists its members in the order in which they joined,
      whatever happens to the other rooms. */
  lemma {:induction false} RunOrder(v: State, ops: seq<Op>, room: string)
    requires Inv(v)
    ensures Members(Run(v, ops).rooms, room) == Replay(Members(v.rooms, room), ops, room)
    decreases |ops|
  {
    if ops != [] {
      RunConsistent(v, [ops[0]]);
      assert [ops[0]][1..] == [];
      assert Run(v, [ops[0]]) == Apply(v, ops[0]);
      OneReplay(v, ops[0], room);
      RunOrder(Apply(v, ops[0]), ops[1..], room);
    }
  }

  /** INDEX CONSISTENCY. In every reachable state both indexes agree with each
      other and with the history of joins and leaves. */
  lemma {:induction false} RunConsistent(v: State, ops: seq<Op>)
    requires Inv(v)
    ensures Inv(Run(v, ops))
    ensures forall r, s :: s in Members(Run(v, ops).rooms, r) <==> Joined(s in Members(v.rooms, r), ops, r, s)
    decreases |ops|
  {
    if ops != [] {
      match ops[0] {
        case JoinOp(r, s) => JoinKeeps(v, r, s);
        case LeaveOp(r, s) => LeaveKeeps(v, r, s);
        case LeaveAllOp(s) => LeaveAllKeeps(v, s);
      }
      RunConsistent(Apply(v, ops[0]), ops[1..]);
    }
  }
}
