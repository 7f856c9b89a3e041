/** The mutable objects behind sending and the registry: `Session`,
    `SessionManager` and the room broadcast of `FixService`. What they do to the
    registry is the step of the same name in `Registry`. */
module Sessions {
  import opened Text
  import opened Fields
  import opened Messages
  import opened Registry
  import Sending
  import FixDate
  import Rooms

  datatype SendResult = Sent | WriteError | Refused(outcome: Sending.Outcome)

  class Session {
    const config: Sending.SessionConfig
    const sessionManager: SessionManager
    var state: SessionState
    var nextOutgoingSeqNum: nat
    /** The socket: whether it is writable, and what it was given to write. */
    var writable: bool
    var log: seq<string>

    function Id(): string {
      Sending.SessionId(config)
    }

    ghost function View(): Sending.Line
      reads this
    {
      Sending.Line(config, nextOutgoingSeqNum, writable, log)
    }

    constructor (config: Sending.SessionConfig, writable: bool, sessionManager: SessionManager)
      ensures this.config == config && this.sessionManager == sessionManager
      ensures state == DISCONNECTED && View() == Sending.Line(config, 1, writable, [])
    {
      this.config, this.writable, this.sessionManager := config, writable, sessionManager;
      state, nextOutgoingSeqNum, log := DISCONNECTED, 1, [];
    }

    /** Stamps the caller's message in place, then writes its reverse; `writeOk`
        is the answer of the socket's callback. */
    method SendMessage(message: Message, now: FixDate.UtcTime, writeOk: bool) returns (r: SendResult)
      requires message.Valid()
      modifies this`nextOutgoingSeqNum, this`log, message
      ensures message.Valid()
      ensures message.fields ==
              Sending.Stamp(config, old(nextOutgoingSeqNum), FixDate.FormatDateTime(now), old(message.fields))
      ensures View() == Sending.SendLine(old(View()), old(message.fields), FixDate.FormatDateTime(now))
      ensures r == match Sending.OutcomeOf(old(View()), message.fields)
                   case Handed => if writeOk then Sent else WriteError
                   case o => Refused(o)
    {
      Sending.StampLaws(config, nextOutgoingSeqNum, FixDate.FormatDateTime(now), message.fields);
      AddRequiredFields(message, now);
      if !writable {
        return Refused(Sending.NotWritable);
      }
      r := WriteReversed(message, writeOk);
    }

    method WriteReversed(message: Message, writeOk: bool) returns (r: SendResult)
      requires message.Valid()
      modifies this`log
      ensures match FirstMissing(Reverse(message.fields), REQUIRED)
              case Some(t) => r == Refused(Sending.Unprintable(t)) && log == old(log)
              case None => r == (if writeOk then Sent else WriteError) && log == old(log) + [Wire(Reverse(message.fields))]
    {
      var reversed := message.CreateReverse();
      var raw := reversed.ToString();
      match raw
      case MissingField(t) => r := Refused(Sending.Unprintable(t));
      case Printed(text) =>
        log := log + [text];
        r := if writeOk then Sent else WriteError;
    }

    method AddRequiredFields(message: Message, now: FixDate.UtcTime)
      requires message.Valid()
      modifies this`nextOutgoingSeqNum, message
      ensures message.Valid() && nextOutgoingSeqNum == old(nextOutgoingSeqNum) + 1
      ensures message.fields ==
              Sending.Stamp(config, old(nextOutgoingSeqNum), FixDate.FormatDateTime(now), old(message.fields))
    {
      var defaults := [Field(BEGIN_STRING, Str(config.beginString)), Field(MSG_SEQ_NUM, Whole(nextOutgoingSeqNum)),
                       Field(SENDER_COMP_ID, Str(config.senderCompId)),
                       Field(SENDING_TIME, Str(FixDate.FormatDateTime(now))),
                       Field(TARGET_COMP_ID, Str(config.targetCompId))];
      nextOutgoingSeqNum := nextOutgoingSeqNum + 1;
      FillDefaults(message, defaults);
      StampIsFill(old(message.fields), defaults, config, old(nextOutgoingSeqNum), FixDate.FormatDateTime(now));
    }

    /** A session of the manager. */
    ghost predicate Known()
      reads sessionManager, sessionManager.roomManager, sessionManager.Objects()`state
    {
      sessionManager.Valid() && this in sessionManager.index
    }

    /** Its number there. */
    ghost function Number(): nat
      requires this in sessionManager.index
      reads sessionManager
    {
      sessionManager.index[this]
    }

    method SetState(s: SessionState)
      requires Known()
      modifies this`state, sessionManager`world
      ensures Known() && state == s
      ensures sessionManager.world == Registry.SetState(old(sessionManager.world), Number(), s)
    {
      state := s;
      sessionManager.world := Registry.SetState(sessionManager.world, Number(), s);
    }

    /** `logout` up to its send; false where it rejects at once. */
    method BeginLogout(ghost call: nat) returns (ok: bool)
      requires Known()
      modifies this`state, sessionManager`world
      ensures Known() && ok == (old(state) != DISCONNECTED) && state == if ok then LOGGING_OUT else DISCONNECTED
      ensures sessionManager.world == Registry.BeginLogout(old(sessionManager.world), Number(), call)
    {
      ok := state != DISCONNECTED;
      if ok {
        SetState(LOGGING_OUT);
        sessionManager.AddTask(LogoutTask(Number(), call));
      }
    }

    /** A logout that the application begins. */
    method Logout() returns (ok: bool)
      requires Known()
      modifies this`state, sessionManager`world
      ensures Known() && ok == (old(state) != DISCONNECTED)
      ensures sessionManager.world == Apply(old(sessionManager.world), LogoutBegin(Number()))
    {
      ghost var call := sessionManager.NextCall();
      ok := BeginLogout(call);
    }

    /** A logout after its send. */
    method LogoutEnds(ghost call: nat, ending: Ending)
      requires Known() && LogoutTask(Number(), call) in sessionManager.world.tasks
      modifies this`state, sessionManager`sessions, sessionManager`world, sessionManager.roomManager
      ensures Known()
      ensures sessionManager.world == Apply(old(sessionManager.world), LogoutEnd(Number(), call, ending))
    {
      sessionManager.EndTasks(Ended(Number(), call, ending));
      Disconnect(ending);
    }

    /** An incoming logon, up to the send of its response. */
    method HandleLogonBegin()
      requires Known()
      modifies this`state, sessionManager`world
      ensures Known()
      ensures sessionManager.world == Apply(old(sessionManager.world), HandleLogon(Number(), true))
    {
      SetState(LOGGED_ON);
    }

    /** What follows the send; `succeeds` if it is written and no handler throws. */
    method HandleLogonEnds(succeeds: bool)
      requires Known()
      modifies this`state, sessionManager`world
      ensures Known()
      ensures sessionManager.world ==
              if succeeds then old(sessionManager.world) else Apply(old(sessionManager.world), HandleLogon(Number(), false))
    {
      if !succeeds {
        SetState(ERROR);
      }
    }

    /** An incoming logout. */
    method HandleLogout(ending: Ending)
      requires Known()
      modifies this`state, sessionManager`sessions, sessionManager`world, sessionManager.roomManager
      ensures Known()
      ensures sessionManager.world == Apply(old(sessionManager.world), Step.HandleLogout(Number(), ending))
    {
      Disconnect(ending);
    }

    /** What a logout, an incoming logout and a closed socket have in common. */
    method Disconnect(ending: Ending)
      requires Known()
      modifies this`state, sessionManager`sessions, sessionManager`world, sessionManager.roomManager
      ensures Known()
      ensures sessionManager.world == Registry.Disconnect(old(sessionManager.world), Number(), ending)
    {
      if ending == ThrowsFirst {
        return;
      }
      SetState(DISCONNECTED);
      if ending != ThrowsDisconnecting {
        sessionManager.RemoveSession(Id());
      }
    }
  }

  /** Sets each listed field the message lacks, in order. */
  function Fill(m: FieldMap, fs: seq<Field>): FieldMap
    decreases |fs|
  {
    if fs == [] then m else Fill(Sending.PutMissing(m, fs[0].tag, fs[0].value), fs[1..])
  }

  method FillDefaults(message: Message, defaults: seq<Field>)
    requires message.Valid()
    modifies message
    ensures message.Valid() && message.fields == Fill(old(message.fields), defaults)
  {
    for i := 0 to |defaults|
      invariant message.Valid() && Fill(message.fields, defaults[i..]) == Fill(old(message.fields), defaults)
    {
      if !Has(message.fields, defaults[i].tag) {
        message.SetField(defaults[i].tag, defaults[i].value);
      }
    }
  }

  lemma FillStep(m: FieldMap, f: Field, fs: seq<Field>)
    ensures Fill(m, [f] + fs) == Fill(Sending.PutMissing(m, f.tag, f.value), fs)
  {
    assert ([f] + fs)[1..] == fs;
  }

  lemma StampIsFill(m: FieldMap, fs: seq<Field>, c: Sending.SessionConfig, n: nat, time: string)
    requires fs == [Field(BEGIN_STRING, Str(c.beginString)), Field(MSG_SEQ_NUM, Whole(n)),
                    Field(SENDER_COMP_ID, Str(c.senderCompId)), Field(SENDING_TIME, Str(time)),
                    Field(TARGET_COMP_ID, Str(c.targetCompId))]
    ensures Fill(m, fs) == Sending.Stamp(c, n, time, m)
  {
    var m1 := Sending.PutMissing(m, fs[0].tag, fs[0].value);
    var m2 := Sending.PutMissing(m1, fs[1].tag, fs[1].value);
    var m3 := Sending.PutMissing(m2, fs[2].tag, fs[2].value);
    var m4 := Sending.PutMissing(m3, fs[3].tag, fs[3].value);
    assert fs == [fs[0]] + ([fs[1]] + ([fs[2]] + ([fs[3]] + ([fs[4]] + []))));
    FillStep(m, fs[0], [fs[1]] + ([fs[2]] + ([fs[3]] + ([fs[4]] + []))));
    FillStep(m1, fs[1], [fs[2]] + ([fs[3]] + ([fs[4]] + [])));
    FillStep(m2, fs[2], [fs[3]] + ([fs[4]] + []));
    FillStep(m3, fs[3], [fs[4]] + []);
    FillStep(m4, fs[4], []);
  }

  class SessionManager {
    const maxSessions: nat
    const roomManager: Rooms.RoomManager
    var sessions: map<string, Session>
    /** All session objects made for this manager, and their numbers. */
    ghost var objs: seq<Session>
    ghost var index: map<Session, nat>
    /** The registry as a value, with its suspended calls. */
    ghost var world: World

    ghost function Objects(): set<Session>
      reads this
    {
      set s | s in objs
    }

    /** The numbers are those of the objects. */
    ghost predicate Indexed()
      reads this
    {
      && (forall i :: 0 <= i < |objs| ==> objs[i].sessionManager == this && objs[i] in index && index[objs[i]] == i)
      && (forall s :: s in index ==> index[s] < |objs| && objs[index[s]] == s)
    }

    /** `world` says what the fields say. */
    ghost predicate Valid()
      reads this, roomManager, Objects()`state
    {
      && roomManager.Valid() && Indexed()
      && world.maxSessions == maxSessions && world.rooms == roomManager.View()
      && |world.objs| == |objs|
      && (forall i :: 0 <= i < |objs| ==> world.objs[i].id == objs[i].Id() && world.objs[i].state == objs[i].state)
      && Matches(sessions, world.sessions)
    }

    /** The same entries, as objects and as numbers. */
    ghost predicate Matches(m: map<string, Session>, n: map<string, nat>)
      reads this
    {
      && m.Keys == n.Keys
      && forall id :: id in m ==> m[id] in index && n[id] == index[m[id]] && m[id].Id() == id
    }

    constructor (maxSessions: nat, roomManager: Rooms.RoomManager)
      requires roomManager.Valid() && roomManager.View() == Rooms.State(map[], map[])
      ensures Valid() && this.maxSessions == maxSessions && this.roomManager == roomManager
      ensures world == Init(maxSessions)
    {
      this.maxSessions, this.roomManager, sessions := maxSessions, roomManager, map[];
      objs, index, world := [], map[], Init(maxSessions);
    }

    ghost method AddTask(t: Task)
      requires Valid()
      modifies this`world
      ensures Valid() && world == old(world).(tasks := old(world).tasks + {t})
    {
      world := world.(tasks := world.tasks + {t});
    }

    ghost method EndTasks(ts: set<Task>)
      requires Valid()
      modifies this`world
      ensures Valid() && world == old(world).(tasks := old(world).tasks - ts)
    {
      world := world.(tasks := world.tasks - ts);
    }

    ghost method NextCall() returns (call: nat)
      requires Valid()
      modifies this`world
      ensures Valid() && call == old(world).calls && world == old(world).(calls := call + 1)
    {
      call := world.calls;
      world := world.(calls := call + 1);
    }

    /** Takes a new session object into account. */
    ghost method Know(session: Session)
      requires Valid() && session.sessionManager == this && session.state == DISCONNECTED && session !in index
      modifies this`objs, this`index, this`world
      ensures Valid() && session in index && index[session] == |old(objs)|
      ensures forall s :: s in old(index) ==> s in index && index[s] == old(index[s])
      ensures world == Apply(old(world), NewSession(session.Id()))
    {
      objs, index := objs + [session], index[session := |objs|];
      world := Apply(world, NewSession(session.Id()));
    }

    lemma SessionCount()
      requires Valid()
      ensures |world.sessions| == |sessions|
    {
      assert |world.sessions.Keys| == |sessions.Keys|;
    }

    /** `sessions.set` */
    method PutSession(session: Session)
      requires Valid() && session in index
      modifies this`sessions, this`world
      ensures Valid() && sessions == old(sessions)[session.Id() := session]
      ensures world == old(world).(sessions := old(world).sessions[session.Id() := index[session]])
    {
      sessions := sessions[session.Id() := session];
      world := world.(sessions := world.sessions[session.Id() := index[session]]);
    }

    /** Nothing where the code throws. */
    method CreateSession(config: Sending.SessionConfig, writable: bool) returns (r: Option<Session>)
      requires Valid()
      modifies this`sessions, this`objs, this`index, this`world
      ensures Valid() && world == Apply(old(world), Step.CreateSession(Sending.SessionId(config)))
      ensures r == None <==> Full(maxSessions, old(sessions))
      ensures r.Some? ==> fresh(r.value) && r.value.config == config
                          && sessions == old(sessions)[Sending.SessionId(config) := r.value]
    {
      SessionCount();
      if maxSessions > 0 && |sessions| >= maxSessions {
        return None;
      }
      var session := new Session(config, writable, this);
      Know(session);
      PutSession(session);
      r := Some(session);
    }

    method RemoveSession(sessionId: string)
      requires Valid()
      modifies this`sessions, this`world, roomManager
      ensures Valid() && sessions == old(sessions) - {sessionId}
      ensures world == RemoveId(old(world), sessionId)
    {
      if sessionId in sessions {
        roomManager.LeaveAllRooms(sessionId);
        sessions := sessions - {sessionId};
        world := RemoveId(world, sessionId);
      } else {
        assert sessions - {sessionId} == sessions;
      }
    }

    /** `registerSession` up to its await: hands back the session it has begun to
        log out, or finishes at once; false where it throws. */
    method RegisterBegin(session: Session) returns (previous: Option<Session>, ok: bool)
      requires Valid() && session in index
      modifies this`sessions, this`world
      modifies (if session.Id() in sessions then {sessions[session.Id()]} else {})`state
      ensures Valid() && world == Apply(old(world), Step.RegisterBegin(index[session]))
      ensures previous == if session.Id() in old(sessions) then Some(old(sessions)[session.Id()]) else None
      ensures ok == (previous.Some? || !Full(maxSessions, old(sessions)))
    {
      RegisterIs(world, index[session]);
      if session.Id() in sessions {
        previous, ok := Some(sessions[session.Id()]), true;
        RegisterOver(session, previous.value);
      } else {
        previous := None;
        ok := EnterSession(session);
      }
    }

    method RegisterOver(session: Session, holder: Session)
      requires Valid() && session in index && holder in index
      modifies this`world, holder`state
      ensures Valid() && world == BeginRegister(old(world), index[session], index[holder])
    {
      ghost var call := NextCall();
      var _ := holder.BeginLogout(call);
      AddTask(RegisterTask(index[session], call));
    }

    /** `registerSession` after its await; false where the code throws. */
    method RegisterEnds(session: Session, ghost call: nat) returns (ok: bool)
      requires Valid() && session in index && RegisterReady(world, index[session], call)
      modifies this`sessions, this`world
      ensures Valid() && ok == !Full(maxSessions, old(sessions))
      ensures world == Apply(old(world), RegisterEnd(index[session], call))
    {
      ghost var w, o := world, index[session];
      ok := FinishRegister(session, call);
      RegisterGoesOn(w, o, call);
    }

    method FinishRegister(session: Session, ghost call: nat) returns (ok: bool)
      requires Valid() && session in index
      modifies this`sessions, this`world
      ensures Valid() && ok == !Full(maxSessions, old(sessions))
      ensures world == EndRegister(old(world), index[session], call)
    {
      EndTasks({RegisterTask(index[session], call)});
      ok := EnterSession(session);
    }

    method EnterSession(session: Session) returns (ok: bool)
      requires Valid() && session in index
      modifies this`sessions, this`world
      ensures Valid() && ok == !Full(maxSessions, old(sessions)) && world == Enter(old(world), index[session])
    {
      SessionCount();
      ok := !(maxSessions > 0 && |sessions| >= maxSessions);
      if ok {
        PutSession(session);
      }
    }

    /** `closeAll` up to its await; ok unless a logout rejects at once. */
    method CloseAllBegin() returns (ok: bool)
      requires Valid()
      modifies this`world, sessions.Values`state
      ensures Valid() && ok == NoneDisconnected(old(world))
      ensures world == Apply(old(world), Step.CloseAllBegin)
    {
      ghost var call := NextCall();
      ok := LogoutEach(old(world), call);
      Await(old(world), call);
    }

    /** Waits for the logouts, unless one has been rejected. */
    ghost method Await(w: World, call: nat)
      requires Valid() && call == w.calls && world == BegunSome(w, w.sessions.Values, call)
      requires forall id :: id in w.sessions ==> w.sessions[id] < |w.objs|
      modifies this`world
      ensures Valid() && world == Apply(w, Step.CloseAllBegin) && AllLive(w, w.sessions.Values) == NoneDisconnected(w)
    {
      BegunAll(w, call);
      if NoneDisconnected(w) {
        AddTask(CloseTask(call));
      }
    }

    /** Exactly the sessions of `all` that are no longer pending have begun. */
    ghost predicate Underway(all: set<Session>, pending: set<Session>, begun: set<nat>)
      requires Indexed()
      reads this
    {
      && pending <= all
      && (forall s :: s in all ==> s in index && (s in pending <==> index[s] !in begun))
      && (forall o :: o in begun ==> o < |objs| && objs[o] in all)
    }

    lemma UnderwayNext(all: set<Session>, pending: set<Session>, begun: set<nat>, s: Session)
      requires Indexed() && Underway(all, pending, begun) && s in pending
      ensures Underway(all, pending - {s}, begun + {index[s]})
    {
    }

    /** Starts the logout of each registered session. */
    method LogoutEach(ghost w: World, ghost call: nat) returns (ok: bool)
      requires Valid() && world == w.(calls := call + 1)
      modifies this`world, sessions.Values`state
      ensures Valid() && world == BegunSome(w, w.sessions.Values, call)
      ensures ok == AllLive(w, w.sessions.Values)
    {
      NoneBegun(w, call);
      ghost var begun;
      ok, begun := LogoutThese(sessions.Values, w, call);
      NumbersOf(begun);
    }

    method LogoutThese(all: set<Session>, ghost w: World, ghost call: nat) returns (ok: bool, ghost begun: set<nat>)
      requires Valid() && Underway(all, all, {}) && world == BegunSome(w, {}, call)
      modifies this`world, all`state
      ensures Valid() && Underway(all, {}, begun)
      ensures world == BegunSome(w, begun, call) && ok == AllLive(w, begun)
    {
      ok, begun := true, {};
      var pending := all;
      while pending != {}
        invariant Valid() && Underway(all, pending, begun)
        invariant world == BegunSome(w, begun, call) && ok == AllLive(w, begun)
        decreases pending
      {
        var session :| session in pending;
        UnderwayNext(all, pending, begun, session);
        LiveNext(w, begun, index[session]);
        var started := LogoutOne(session, w, begun, call);
        ok, pending, begun := ok && started, pending - {session}, begun + {index[session]};
      }
    }

    method LogoutOne(session: Session, ghost w: World, ghost begun: set<nat>, ghost call: nat) returns (started: bool)
      requires Valid() && session in index && index[session] !in begun
      requires world == BegunSome(w, begun, call)
      modifies this`world, session`state
      ensures Valid() && world == BegunSome(w, begun + {index[session]}, call)
      ensures index[session] < |w.objs| && started == (w.objs[index[session]].state != DISCONNECTED)
    {
      BegunNext(w, begun, call, index[session]);
      started := session.BeginLogout(call);
    }

    lemma NumbersOf(begun: set<nat>)
      requires Valid()
      requires forall s :: s in sessions.Values ==> index[s] in begun
      requires forall o :: o in begun ==> o < |objs| && objs[o] in sessions.Values
      ensures begun == world.sessions.Values
    {
      forall o: nat ensures o in world.sessions.Values <==> o in begun {
        if o in world.sessions.Values {
          var id :| id in world.sessions && world.sessions[id] == o;
          assert sessions[id] in sessions.Values;
        }
        if o in begun {
          var id :| id in sessions && sessions[id] == objs[o];
          assert world.sessions[id] == o;
        }
      }
    }

    /** `closeAll` once all its logouts have resolved. */
    method CloseAllEnds(ghost call: nat)
      requires Valid() && CloseReady(world, call)
      modifies this`sessions, this`world
      ensures Valid() && sessions == map[] && world == Apply(old(world), CloseAllEnd(call))
    {
      sessions := map[];
      world := Apply(world, CloseAllEnd(call));
    }

    function GetSessionById(sessionId: string): Option<Session>
      reads this
    {
      if sessionId in sessions then Some(sessions[sessionId]) else None
    }

    /** `createNewSession` of the acceptor: the registration it starts is not awaited. */
    method CreateNewSession(config: Sending.SessionConfig, writable: bool) returns (session: Session)
      requires Valid()
      modifies this`sessions, this`objs, this`index, this`world
      modifies (if Sending.SessionId(config) in sessions then {sessions[Sending.SessionId(config)]} else {})`state
      ensures Valid() && fresh(session) && session.config == config && session in index
      ensures world == Apply(Apply(old(world), NewSession(session.Id())), Step.RegisterBegin(index[session]))
    {
      session := new Session(config, writable, this);
      Know(session);
      var _, _ := RegisterBegin(session);
    }
  }

  lemma RegisterIs(w: World, o: nat)
    requires o < |w.objs| && forall id :: id in w.sessions ==> w.sessions[id] < |w.objs|
    ensures Apply(w, RegisterBegin(o)) ==
            if w.objs[o].id in w.sessions then BeginRegister(w, o, w.sessions[w.objs[o].id]) else Enter(w, o)
  {
  }

  lemma RegisterGoesOn(w: World, o: nat, call: nat)
    requires RegisterReady(w, o, call)
    ensures Apply(w, RegisterEnd(o, call)) == EndRegister(w, o, call)
  {
  }

  // -------------------------------------------------- closing one by one

  /** The logouts of the sessions in `begun` have been started. */
  ghost function BegunSome(w: World, begun: set<nat>, call: nat): World {
    w.(objs := seq(|w.objs|, o requires 0 <= o < |w.objs| =>
                            if o in begun && w.objs[o].state != DISCONNECTED then w.objs[o].(state := LOGGING_OUT)
                            else w.objs[o]),
    tasks := w.tasks + set o | o in begun && o < |w.objs| && w.objs[o].state != DISCONNECTED :: LogoutTask(o, call),
    calls := call + 1)
  }

  ghost predicate AllLive(w: World, begun: set<nat>) {
    forall o :: o in begun && o < |w.objs| ==> w.objs[o].state != DISCONNECTED
  }

  lemma LiveNext(w: World, begun: set<nat>, o: nat)
    requires o < |w.objs|
    ensures AllLive(w, begun + {o}) <==> AllLive(w, begun) && w.objs[o].state != DISCONNECTED
  {
  }

  lemma NoneBegun(w: World, call: nat)
    ensures BegunSome(w, {}, call) == w.(calls := call + 1)
  {
    assert BegunSome(w, {}, call).objs == w.objs && BegunSome(w, {}, call).tasks == w.tasks;
  }

  lemma BegunNext(w: World, begun: set<nat>, call: nat, o: nat)
    requires o < |w.objs| && o !in begun
    ensures BegunSome(w, begun + {o}, call) == Registry.BeginLogout(BegunSome(w, begun, call), o, call)
  {
    var v, u := BegunSome(w, begun, call), BegunSome(w, begun + {o}, call);
    assert u.objs == Registry.BeginLogout(v, o, call).objs;
    assert u.tasks == Registry.BeginLogout(v, o, call).tasks;
  }

  lemma BegunAll(w: World, call: nat)
    requires call == w.calls && forall id :: id in w.sessions ==> w.sessions[id] < |w.objs|
    ensures var v := BegunSome(w, w.sessions.Values, call);
            BeginAll(w) == if NoneDisconnected(w) then v.(tasks := v.tasks + {CloseTask(call)}) else v
    ensures NoneDisconnected(w) == AllLive(w, w.sessions.Values)
  {
    var v := BegunSome(w, w.sessions.Values, call);
    forall o: nat
      ensures o in Live(w) <==> o in w.sessions.Values && o < |w.objs| && w.objs[o].state != DISCONNECTED
    {
      if o in w.sessions.Values {
        var id :| id in w.sessions && w.sessions[id] == o;
      }
    }
    assert BeginAll(w).objs == v.objs;
    assert (set o | o in Live(w) :: LogoutTask(o, call))
        == set o | o in w.sessions.Values && o < |w.objs| && w.objs[o].state != DISCONNECTED :: LogoutTask(o, call);
  }

  // ------------------------------------------------------------ broadcast

  class FixService {
    const sessionManager: SessionManager
    const roomManager: Rooms.RoomManager
    var targetId: Option<string>

    constructor (sessionManager: SessionManager, roomManager: Rooms.RoomManager)
      ensures this.sessionManager == sessionManager && this.roomManager == roomManager && targetId == None
    {
      this.sessionManager, this.roomManager, targetId := sessionManager, roomManager, None;
    }

    method To(target: string)
      modifies this
      ensures targetId == Some(target) == Target(old(targetId), Call.To(target))
    {
      targetId := Some(target);
    }

    /** The room is one of the session's rooms. */
    predicate InRoom(id: string, room: string)
      reads roomManager
    {
      id in roomManager.sessionRooms && room in roomManager.sessionRooms[id]
    }

    /** `send` up to its await; false where it throws, and `waiting` unless it is
        over. Each registered session in the room gets exactly one send, of its own
        clone addressed to its own target, whatever happens to the sends of the
        others; every other session and the caller's message stay as they are. */
    method SendBegin(message: Message, now: FixDate.UtcTime, writeOk: string -> bool) returns (ok: bool, waiting: bool)
      requires message.Valid() && sessionManager.Valid() && roomManager.Valid()
      modifies this`targetId, sessionManager.sessions.Values`nextOutgoingSeqNum, sessionManager.sessions.Values`log
      ensures ok == (old(targetId).Some? && old(targetId).value != "")
      ensures waiting == (ok && exists id :: InRoom(id, old(targetId).value))
      ensures targetId == Target(old(targetId), Begin(ok && !waiting))
      ensures forall id :: id in sessionManager.sessions ==>
                             sessionManager.sessions[id].View() ==
                             if ok && InRoom(id, old(targetId).value) then
                               BroadcastLine(old(sessionManager.sessions[id].View()), message.fields, now)
                             else old(sessionManager.sessions[id].View())
    {
      if targetId == None || targetId == Some("") {
        return false, false;
      }
      var sessionIds := roomManager.SessionsInRoom(targetId.value);
      assert forall id :: id in sessionIds <==> InRoom(id, targetId.value);
      if |sessionIds| == 0 {
        targetId := None;
        return true, false;
      }
      assert sessionIds[0] in sessionIds;
      Broadcast(sessionIds, message, now, writeOk);
      ok, waiting := true, true;
      assert InRoom(sessionIds[0], targetId.value);
    }

    /** `send` after its await. */
    method SendEnd()
      modifies this`targetId
      ensures targetId == None == Target(old(targetId), End)
    {
      targetId := None;
    }

    method Broadcast(sessionIds: seq<string>, message: Message, now: FixDate.UtcTime, writeOk: string -> bool)
      requires message.Valid() && sessionManager.Valid() && Rooms.NoDup(sessionIds)
      modifies sessionManager.sessions.Values`nextOutgoingSeqNum, sessionManager.sessions.Values`log
      ensures forall id :: id in sessionManager.sessions ==>
                             sessionManager.sessions[id].View() ==
                             if id in sessionIds then
                               BroadcastLine(old(sessionManager.sessions[id].View()), message.fields, now)
                             else old(sessionManager.sessions[id].View())
    {
      for i := 0 to |sessionIds|
        invariant forall id :: id in sessionManager.sessions ==>
                                 sessionManager.sessions[id].View() ==
                                 if id in sessionIds[..i] then
                                   BroadcastLine(old(sessionManager.sessions[id].View()), message.fields, now)
                                 else old(sessionManager.sessions[id].View())
      {
        NextId(sessionIds, i);
        SendToId(sessionIds[i], message, now, writeOk(sessionIds[i]));
      }
      assert sessionIds[..|sessionIds|] == sessionIds;
    }

    method SendToId(sessionId: string, message: Message, now: FixDate.UtcTime, writeOk: bool)
      requires message.Valid() && sessionManager.Valid()
      modifies sessionManager.sessions.Values`nextOutgoingSeqNum, sessionManager.sessions.Values`log
      ensures forall id :: id in sessionManager.sessions ==>
                             sessionManager.sessions[id].View() ==
                             if id == sessionId then
                               BroadcastLine(old(sessionManager.sessions[id].View()), message.fields, now)
                             else old(sessionManager.sessions[id].View())
    {
      var found := sessionManager.GetSessionById(sessionId);
      if found.Some? {
        SendTo(found.value, message, now, writeOk);
      }
    }

    method SendTo(session: Session, message: Message, now: FixDate.UtcTime, writeOk: bool)
      requires message.Valid()
      modifies session`nextOutgoingSeqNum, session`log
      ensures session.View() == BroadcastLine(old(session.View()), message.fields, now)
    {
      var messageClone := message.Clone();
      messageClone.SetField(TARGET_COMP_ID, Str(session.config.targetCompId));
      var _ := session.SendMessage(messageClone, now, writeOk);
    }
  }

  lemma NextId(ids: seq<string>, i: nat)
    requires Rooms.NoDup(ids) && i < |ids|
    ensures ids[i] !in ids[..i] && forall id :: id in ids[..i + 1] <==> id in ids[..i] || id == ids[i]
  {
    assert ids[..i + 1] == ids[..i] + [ids[i]];
  }

  /** What calls do to the target: `to`, the two halves of `send`. */
  datatype Call = To(target: string) | Begin(emptyRoom: bool) | End

  function Target(t: Option<string>, call: Call): Option<string> {
    match call
    case To(x) => Some(x)
    case Begin(emptyRoom) => if emptyRoom && t != Some("") then None else t
    case End => None
  }

  function TargetAfter(t: Option<string>, calls: seq<Call>): Option<string>
    decreases |calls|
  {
    if calls == [] then t else TargetAfter(Target(t, calls[0]), calls[1..])
  }

  predicate Clears(call: Call) {
    call == End || call == Begin(true)
  }

  /** A target set while an earlier `send` is waiting is lost when that one ends: the
      target survives until the next `to` if and only if no send ends meanwhile. */
  lemma {:induction false} TargetSurvivesIff(x: string, calls: seq<Call>)
    requires x != "" && forall i :: 0 <= i < |calls| ==> !calls[i].To?
    ensures TargetAfter(Some(x), calls) == Some(x) <==> forall i :: 0 <= i < |calls| ==> !Clears(calls[i])
    decreases |calls|
  {
    if calls != [] {
      assert forall i :: 0 < i < |calls| ==> calls[i] == calls[1..][i - 1];
      if Clears(calls[0]) {
        StaysClear(calls[1..]);
      } else {
        TargetSurvivesIff(x, calls[1..]);
      }
    }
  }

  lemma {:induction false} StaysClear(calls: seq<Call>)
    requires forall i :: 0 <= i < |calls| ==> !calls[i].To?
    ensures TargetAfter(None, calls) == None
    decreases |calls|
  {
    if calls != [] {
      StaysClear(calls[1..]);
    }
  }

  /** The session's line after it has sent its clone. */
  function BroadcastLine(l: Sending.Line, m: FieldMap, now: FixDate.UtcTime): Sending.Line {
    Sending.SendLine(l, Put(m, TARGET_COMP_ID, Str(l.config.targetCompId)), FixDate.FormatDateTime(now))
  }

  /** On a broadcast each receiving session uses up one number; it writes the
      message if and only if its socket is writable and the message has a type,
      and the copy it writes goes out with the session's own CompIDs swapped,
      unless the message brought a sender of its own. */
  lemma BroadcastWrites(l: Sending.Line, m: FieldMap, now: FixDate.UtcTime)
    requires Distinct(m)
    ensures var l' := BroadcastLine(l, m, now);
            var s := Sending.Stamp(l.config, l.nextSeqNum, FixDate.FormatDateTime(now),
                                   Put(m, TARGET_COMP_ID, Str(l.config.targetCompId)));
            && l'.nextSeqNum == l.nextSeqNum + 1
            && l'.log == (if l.writable && Has(m, Number(35)) then l.log + [Wire(Reverse(s))] else l.log)
            && Get(Reverse(s), Number(49)) == Str(l.config.targetCompId)
            && (!Has(m, Number(49)) ==> Get(Reverse(s), Number(56)) == Str(l.config.senderCompId))
  {
    var p, time := Put(m, TARGET_COMP_ID, Str(l.config.targetCompId)), FixDate.FormatDateTime(now);
    PutLaws(m, TARGET_COMP_ID, Str(l.config.targetCompId));
    LineWrites(l, p, time);
    StampedIds(l.config, l.nextSeqNum, time, p);
  }

  lemma LineWrites(l: Sending.Line, m: FieldMap, time: string)
    requires Distinct(m)
    ensures Sending.SendLine(l, m, time) ==
            l.(nextSeqNum := l.nextSeqNum + 1,
            log := if l.writable && Has(m, MSG_TYPE)
                   then l.log + [Wire(Reverse(Sending.Stamp(l.config, l.nextSeqNum, time, m)))] else l.log)
  {
    Sending.StampedReverse(l.config, l.nextSeqNum, time, m);
  }

  lemma StampedIds(c: Sending.SessionConfig, n: nat, time: string, m: FieldMap)
    requires Distinct(m)
    ensures var r := Reverse(Sending.Stamp(c, n, time, m));
            && (Has(m, TARGET_COMP_ID) ==> Get(r, SENDER_COMP_ID) == Get(m, TARGET_COMP_ID))
            && (!Has(m, SENDER_COMP_ID) ==> Get(r, TARGET_COMP_ID) == Str(c.senderCompId))
  {
    Sending.StampLaws(c, n, time, m);
    Sending.StampedReverse(c, n, time, m);
  }
}
