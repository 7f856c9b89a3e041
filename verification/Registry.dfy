/** The session registry as a concurrent system: `SessionManager`, the logout
    and logon paths of `Session` and the socket's close handler interleave at
    every await. A step is one uninterrupted run of code; a suspended call is a
    task that continues at any time after what it awaits has settled. */
module Registry {
  import Rooms

  datatype SessionState = DISCONNECTED | CONNECTED | LOGGING_ON | LOGGED_ON | LOGGING_OUT | ERROR | RESENDING

  /** A session object: its own id and its state. */
  datatype Obj = Obj(id: string, state: SessionState)

  /** Suspended calls. Calls are numbered; a logout belongs to the call that
      started it. */
  datatype Task =
    | LogoutTask(obj: nat, call: nat)    // session.ts: logout, awaiting its send
    | RegisterTask(obj: nat, call: nat)  // registerSession, awaiting its logout
    | CloseTask(call: nat)               // closeAll, awaiting its logouts, none of which has rejected

  /** Which user handler or listener throws while a session goes down: one called
      before the session is disconnected, one called while it is, one called after
      its removal, or none. */
  datatype Ending = ThrowsFirst | ThrowsDisconnecting | ThrowsLast | Completes

  datatype World = World(
    maxSessions: nat,
    objs: seq<Obj>,
    sessions: map<string, nat>,
    tasks: set<Task>,
    calls: nat,
    rooms: Rooms.State)

  datatype Step =
    | CreateSession(id: string)
    | NewSession(id: string)
    | RegisterBegin(obj: nat)
    | RegisterEnd(obj: nat, call: nat)
    | LogoutBegin(obj: nat)
    | LogoutEnd(obj: nat, call: nat, ending: Ending)
    | HandleLogon(obj: nat, succeeds: bool) // logs on at once; a failing response sets ERROR later
    | HandleLogout(obj: nat, ending: Ending)
    | SocketClose(obj: nat, ending: Ending)
    | CloseAllBegin
    | CloseAllEnd(call: nat)
    | JoinRoom(obj: nat, room: string)
    | LeaveRoom(obj: nat, room: string)

  // ------------------------------------------------------------- the steps

  predicate Full<S>(max: nat, m: map<string, S>) {
    max > 0 && |m| >= max
  }

  function SetState(w: World, o: nat, s: SessionState): World
    requires o < |w.objs|
  {
    w.(objs := w.objs[o := w.objs[o].(state := s)])
  }

  /** `removeSession` */
  function RemoveId(w: World, id: string): World {
    if id !in w.sessions then w
    else w.(sessions := w.sessions - {id}, rooms := Rooms.LeaveAll(w.rooms, id))
  }

  /** `logout` up to its first await; rejected at once when disconnected. */
  function BeginLogout(w: World, o: nat, call: nat): World
    requires o < |w.objs|
  {
    if w.objs[o].state == DISCONNECTED then w
    else SetState(w, o, LOGGING_OUT).(tasks := w.tasks + {LogoutTask(o, call)})
  }

  /** The session reaches its removal from the registry. */
  predicate Removing(e: Ending) {
    e == ThrowsLast || e == Completes
  }

  /** Disconnects the session and removes the entry under its id, as far as the
      handlers let it. */
  function Disconnect(w: World, o: nat, e: Ending): World
    requires o < |w.objs|
  {
    if e == ThrowsFirst then w
    else if e == ThrowsDisconnecting then SetState(w, o, DISCONNECTED)
    else RemoveId(SetState(w, o, DISCONNECTED), w.objs[o].id)
  }

  /** The second half of `registerSession`. */
  function Enter(w: World, o: nat): World
    requires o < |w.objs|
  {
    if Full(w.maxSessions, w.sessions) then w else w.(sessions := w.sessions[w.objs[o].id := o])
  }

  /** `registerSession` while another session holds the id. */
  function BeginRegister(w: World, o: nat, holder: nat): World
    requires holder < |w.objs|
  {
    var w1 := BeginLogout(w.(calls := w.calls + 1), holder, w.calls);
    w1.(tasks := w1.tasks + {RegisterTask(o, w.calls)})
  }

  /** `registerSession` after its await. */
  function EndRegister(w: World, o: nat, call: nat): World
    requires o < |w.objs|
  {
    Enter(w.(tasks := w.tasks - {RegisterTask(o, call)}), o)
  }

  /** No logout of this call is pending. */
  predicate Settled(w: World, call: nat) {
    forall t :: t in w.tasks && t.LogoutTask? ==> t.call != call
  }

  predicate NoneDisconnected(w: World) {
    forall id :: id in w.sessions && w.sessions[id] < |w.objs| ==> w.objs[w.sessions[id]].state != DISCONNECTED
  }

  /** The registered sessions that are not disconnected. */
  function Live(w: World): set<nat> {
    set id | id in w.sessions && w.sessions[id] < |w.objs| && w.objs[w.sessions[id]].state != DISCONNECTED
      :: w.sessions[id]
  }

  /** `closeAll` up to its await; rejected at once if a logout is. */
  function BeginAll(w: World): World {
    var live := Live(w);
    w.(objs := seq(|w.objs|, o requires 0 <= o < |w.objs| =>
                            if o in live then w.objs[o].(state := LOGGING_OUT) else w.objs[o]),
    tasks := w.tasks + (set o | o in live :: LogoutTask(o, w.calls))
             + (if NoneDisconnected(w) then {CloseTask(w.calls)} else {}),
    calls := w.calls + 1)
  }

  predicate RegisterReady(w: World, o: nat, call: nat) {
    RegisterTask(o, call) in w.tasks && o < |w.objs| && Settled(w, call)
  }

  predicate CloseReady(w: World, call: nat) {
    CloseTask(call) in w.tasks && Settled(w, call)
  }

  /** The tasks a finished logout takes with it. */
  function Ended(o: nat, call: nat, e: Ending): set<Task> {
    {LogoutTask(o, call)} + if e == Completes then {} else {CloseTask(call)}
  }

  /** A logout continues after its send; if it rejects, so does its `closeAll`. */
  function EndLogout(w: World, o: nat, call: nat, e: Ending): World
    requires o < |w.objs|
  {
    Disconnect(w.(tasks := w.tasks - Ended(o, call, e)), o, e)
  }

  function Apply(w: World, step: Step): World {
    match step
    case CreateSession(id) =>
      if Full(w.maxSessions, w.sessions) then w
      else w.(objs := w.objs + [Obj(id, DISCONNECTED)], sessions := w.sessions[id := |w.objs|])
    case NewSession(id) => w.(objs := w.objs + [Obj(id, DISCONNECTED)])
    case RegisterBegin(o) =>
      if o >= |w.objs| then w
      else if w.objs[o].id !in w.sessions then Enter(w, o)
      else if w.sessions[w.objs[o].id] >= |w.objs| then w
      else BeginRegister(w, o, w.sessions[w.objs[o].id])
    case RegisterEnd(o, call) =>
      if RegisterReady(w, o, call) then EndRegister(w, o, call) else w
    case LogoutBegin(o) => if o >= |w.objs| then w else BeginLogout(w.(calls := w.calls + 1), o, w.calls)
    case LogoutEnd(o, call, e) => if LogoutTask(o, call) in w.tasks && o < |w.objs| then EndLogout(w, o, call, e) else w
    case HandleLogon(o, succeeds) =>
      if o >= |w.objs| then w else SetState(w, o, if succeeds then LOGGED_ON else ERROR)
    case HandleLogout(o, e) => if o >= |w.objs| then w else Disconnect(w, o, e)
    case SocketClose(o, e) => if o >= |w.objs| then w else Disconnect(w, o, e)
    case CloseAllBegin => BeginAll(w)
    case CloseAllEnd(call) =>
      if CloseReady(w, call) then w.(sessions := map[], tasks := w.tasks - {CloseTask(call)}) else w
    case JoinRoom(o, room) =>
      if o >= |w.objs| then w else w.(rooms := Rooms.Join(w.rooms, room, w.objs[o].id))
    case LeaveRoom(o, room) =>
      if o >= |w.objs| then w else w.(rooms := Rooms.Leave(w.rooms, room, w.objs[o].id))
  }

  function Run(w: World, steps: seq<Step>): World
    decreases |steps|
  {
    if steps == [] then w else Run(Apply(w, steps[0]), steps[1..])
  }

  function Init(maxSessions: nat): World {
    World(maxSessions, [], map[], {}, 0, Rooms.State(map[], map[]))
  }

  // ---------------------------------------------------------------- safety

  /** Every key is the id of the session stored under it. */
  ghost predicate Keyed(objs: seq<Obj>, sessions: map<string, nat>) {
    forall id :: id in sessions ==> sessions[id] < |objs| && objs[sessions[id]].id == id
  }

  /** Tasks belong to calls made and objects made. */
  ghost predicate Known(tasks: set<Task>, calls: nat, objs: nat) {
    forall t :: t in tasks ==> t.call < calls && (!t.CloseTask? ==> t.obj < objs)
  }

  /** A limited registry holds at most maxSessions entries, every key is the id
      of the session stored under it, and the room indexes agree. */
  ghost predicate Safe(w: World) {
    && (w.maxSessions > 0 ==> |w.sessions| <= w.maxSessions)
    && Keyed(w.objs, w.sessions) && Known(w.tasks, w.calls, |w.objs|)
    && Rooms.Inv(w.rooms)
  }

  lemma SizeOfUpdate(m: map<string, nat>, id: string, o: nat)
    ensures |m[id := o]| <= |m| + 1
  {
    var r := m[id := o];
    assert r.Keys == m.Keys + {id};
    assert |r.Keys| <= |m.Keys| + 1 by {
      if id in m.Keys {
        assert m.Keys + {id} == m.Keys;
      }
    }
  }

  lemma SizeOfRemoval(m: map<string, nat>, id: string)
    ensures |m - {id}| <= |m| && (id in m ==> |m - {id}| < |m|)
  {
    var r := m - {id};
    assert r.Keys == m.Keys - {id};
    if id !in m.Keys {
      assert m.Keys - {id} == m.Keys;
    }
  }

  lemma EnterSafe(w: World, o: nat)
    requires Safe(w) && o < |w.objs|
    ensures Safe(Enter(w, o))
  {
    SizeOfUpdate(w.sessions, w.objs[o].id, o);
  }

  lemma RemoveIdSafe(w: World, id: string)
    requires Safe(w)
    ensures Safe(RemoveId(w, id))
  {
    SizeOfRemoval(w.sessions, id);
    Rooms.LeaveAllKeeps(w.rooms, id);
  }

  lemma SetStateSafe(w: World, o: nat, s: SessionState)
    requires Safe(w) && o < |w.objs|
    ensures Safe(SetState(w, o, s))
  {
  }

  lemma DisconnectSafe(w: World, o: nat, e: Ending)
    requires Safe(w) && o < |w.objs|
    ensures Safe(Disconnect(w, o, e))
  {
    SetStateSafe(w, o, DISCONNECTED);
    RemoveIdSafe(SetState(w, o, DISCONNECTED), w.objs[o].id);
  }

  lemma FewerTasksSafe(w: World, tasks: set<Task>)
    requires Safe(w)
    ensures Safe(w.(tasks := w.tasks - tasks))
  {
  }

  lemma BeginLogoutSafe(w: World, o: nat, call: nat)
    requires Safe(w) && o < |w.objs| && call < w.calls
    ensures Safe(BeginLogout(w, o, call))
  {
  }

  lemma CreateSafe(w: World, id: string)
    requires Safe(w)
    ensures Safe(Apply(w, CreateSession(id))) && Safe(Apply(w, NewSession(id)))
  {
    SizeOfUpdate(w.sessions, id, |w.objs|);
  }

  lemma MoreCallsSafe(w: World)
    requires Safe(w)
    ensures Safe(w.(calls := w.calls + 1))
  {
  }

  lemma RegisterBeginSafe(w: World, o: nat)
    requires Safe(w) && o < |w.objs|
    ensures Safe(Apply(w, RegisterBegin(o)))
  {
    EnterSafe(w, o);
    MoreCallsSafe(w);
    if w.objs[o].id in w.sessions {
      BeginLogoutSafe(w.(calls := w.calls + 1), w.sessions[w.objs[o].id], w.calls);
    }
  }

  lemma RegisterEndSafe(w: World, o: nat, call: nat)
    requires Safe(w)
    ensures Safe(Apply(w, RegisterEnd(o, call)))
  {
    if o < |w.objs| {
      FewerTasksSafe(w, {RegisterTask(o, call)});
      EnterSafe(w.(tasks := w.tasks - {RegisterTask(o, call)}), o);
    }
  }

  lemma EndLogoutSafe(w: World, o: nat, call: nat, e: Ending)
    requires Safe(w) && o < |w.objs|
    ensures Safe(EndLogout(w, o, call, e))
  {
    FewerTasksSafe(w, Ended(o, call, e));
    DisconnectSafe(w.(tasks := w.tasks - Ended(o, call, e)), o, e);
  }

  lemma BeginAllSafe(w: World)
    requires Safe(w)
    ensures Safe(BeginAll(w))
  {
    assert forall o :: 0 <= o < |w.objs| ==> BeginAll(w).objs[o].id == w.objs[o].id;
  }

  lemma RoomStepSafe(w: World, o: nat, room: string)
    requires Safe(w) && o < |w.objs|
    ensures Safe(Apply(w, JoinRoom(o, room))) && Safe(Apply(w, LeaveRoom(o, room)))
  {
    Rooms.JoinKeeps(w.rooms, room, w.objs[o].id);
    Rooms.LeaveKeeps(w.rooms, room, w.objs[o].id);
  }

  lemma StepSafe(w: World, step: Step)
    requires Safe(w)
    ensures Safe(Apply(w, step))
  {
    if KeepsEntries(step) {
      KeepingSafe(w, step);
    } else {
      LosingSafe(w, step);
    }
  }

  /** Steps that take no id out of the registry and leave the rooms alone. */
  predicate KeepsEntries(step: Step) {
    !step.LogoutEnd? && !step.HandleLogout? && !step.SocketClose? && !step.CloseAllEnd? && !step.JoinRoom? && !step.LeaveRoom?
  }

  lemma KeepingSafe(w: World, step: Step)
    requires Safe(w) && KeepsEntries(step)
    ensures Safe(Apply(w, step))
  {
    match step
    case CreateSession(id) => CreateSafe(w, id);
    case NewSession(id) => CreateSafe(w, id);
    case RegisterBegin(o) => if o < |w.objs| { RegisterBeginSafe(w, o); }
    case RegisterEnd(o, call) => RegisterEndSafe(w, o, call);
    case LogoutBegin(o) =>
      MoreCallsSafe(w);
      if o < |w.objs| { BeginLogoutSafe(w.(calls := w.calls + 1), o, w.calls); }
    case HandleLogon(o, succeeds) => if o < |w.objs| { SetStateSafe(w, o, if succeeds then LOGGED_ON else ERROR); }
    case CloseAllBegin => BeginAllSafe(w);
  }

  lemma LosingSafe(w: World, step: Step)
    requires Safe(w) && !KeepsEntries(step)
    ensures Safe(Apply(w, step))
  {
    match step
    case LogoutEnd(o, call, e) => if o < |w.objs| { EndLogoutSafe(w, o, call, e); }
    case HandleLogout(o, e) => if o < |w.objs| { DisconnectSafe(w, o, e); }
    case SocketClose(o, e) => if o < |w.objs| { DisconnectSafe(w, o, e); }
    case CloseAllEnd(_) =>
    case JoinRoom(o, room) => if o < |w.objs| { RoomStepSafe(w, o, room); }
    case LeaveRoom(o, room) => if o < |w.objs| { RoomStepSafe(w, o, room); }
  }

  lemma StepKeepsLimit(w: World, step: Step)
    ensures Apply(w, step).maxSessions == w.maxSessions
  {
  }

  /** REGISTRY SAFETY over all interleavings. */
  lemma {:induction false} RunSafe(w: World, steps: seq<Step>)
    requires Safe(w)
    ensures Safe(Run(w, steps)) && Run(w, steps).maxSessions == w.maxSessions
    decreases |steps|
  {
    if steps != [] {
      StepSafe(w, steps[0]);
      StepKeepsLimit(w, steps[0]);
      RunSafe(Apply(w, steps[0]), steps[1..]);
    }
  }

  lemma RunFromInitSafe(maxSessions: nat, steps: seq<Step>)
    ensures var w := Run(Init(maxSessions), steps);
            && (maxSessions > 0 ==> |w.sessions| <= maxSessions)
            && (forall id :: id in w.sessions ==> w.sessions[id] < |w.objs| && w.objs[w.sessions[id]].id == id)
            && Rooms.Inv(w.rooms)
  {
    RunSafe(Init(maxSessions), steps);
  }

  /** Removing a registered id takes it out of the registry and of every room,
      and touches no other entry and no other member. */
  lemma RemovalIsComplete(w: World, id: string)
    requires Safe(w) && id in w.sessions
    ensures var w' := RemoveId(w, id);
            && id !in w'.sessions && (forall k :: k in w.sessions && k != id ==> k in w'.sessions && w'.sessions[k] == w.sessions[k])
            && (forall r :: id !in Rooms.Members(w'.rooms.rooms, r))
            && (forall r, s :: s != id ==> (s in Rooms.Members(w'.rooms.rooms, r) <==> s in Rooms.Members(w.rooms.rooms, r)))
  {
    Rooms.LeaveAllKeeps(w.rooms, id);
  }

  // -------------------------------------------------- who is registered, when

  predicate Registered(w: World, o: nat) {
    o < |w.objs| && w.objs[o].id in w.sessions && w.sessions[w.objs[o].id] == o
  }

  /** The steps that register o. */
  predicate Installs(w: World, step: Step, o: nat) {
    && !Full(w.maxSessions, w.sessions)
    && match step
       case CreateSession(_) => o == |w.objs|
       case RegisterBegin(n) => n == o && o < |w.objs| && w.objs[o].id !in w.sessions
       case RegisterEnd(n, call) => n == o && RegisterReady(w, o, call)
       case _ => false
  }

  /** A step that disconnects p as far as its removal. */
  predicate TakesDown(w: World, step: Step, p: nat) {
    && p < |w.objs|
    && match step
       case LogoutEnd(q, call, e) => q == p && LogoutTask(p, call) in w.tasks && Removing(e)
       case HandleLogout(q, e) => q == p && Removing(e)
       case SocketClose(q, e) => q == p && Removing(e)
       case _ => false
  }

  /** The steps that take the entry away from o: a new session under its id, a
      replacement, the removal of any session with its id, and a closing. */
  predicate Dislodges(w: World, step: Step, o: nat)
    requires o < |w.objs|
  {
    match step
    case CreateSession(id) => id == w.objs[o].id && !Full(w.maxSessions, w.sessions)
    case RegisterEnd(n, call) =>
      n != o && RegisterReady(w, n, call) && w.objs[n].id == w.objs[o].id && !Full(w.maxSessions, w.sessions)
    case LogoutEnd(p, call, e) => LogoutTask(p, call) in w.tasks && RemovesEntry(w, p, e, o)
    case HandleLogout(p, e) => RemovesEntry(w, p, e, o)
    case SocketClose(p, e) => RemovesEntry(w, p, e, o)
    case CloseAllEnd(call) => CloseReady(w, call)
    case _ => false
  }

  predicate RemovesEntry(w: World, p: nat, e: Ending, o: nat)
    requires o < |w.objs|
  {
    p < |w.objs| && Removing(e) && w.objs[p].id == w.objs[o].id
  }

  lemma RemovedEntry(w: World, p: nat, e: Ending, o: nat)
    requires Safe(w) && p < |w.objs| && o < |w.objs|
    ensures Registered(Disconnect(w, p, e), o) <==>
            Registered(w, o) && !(Removing(e) && w.objs[p].id == w.objs[o].id)
  {
  }

  lemma OtherTasks(w: World, tasks: set<Task>, o: nat)
    ensures Registered(w.(tasks := tasks), o) == Registered(w, o)
  {
  }

  lemma LogoutEntry(w: World, p: nat, call: nat, e: Ending, o: nat)
    requires Safe(w) && p < |w.objs| && o < |w.objs|
    ensures Registered(EndLogout(w, p, call, e), o) <==>
            Registered(w, o) && !(Removing(e) && w.objs[p].id == w.objs[o].id)
  {
    OtherTasks(w, w.tasks - Ended(p, call, e), o);
    FewerTasksSafe(w, Ended(p, call, e));
    RemovedEntry(w.(tasks := w.tasks - Ended(p, call, e)), p, e, o);
  }

  lemma NewEntry(w: World, id: string, o: nat)
    requires Safe(w)
    ensures Registered(Apply(w, CreateSession(id)), o) <==>
            Installs(w, CreateSession(id), o)
            || (Registered(w, o) && !Dislodges(w, CreateSession(id), o))
    ensures Registered(Apply(w, NewSession(id)), o) <==> Registered(w, o)
  {
  }

  lemma BegunEntry(w: World, n: nat, o: nat)
    requires Safe(w)
    ensures Registered(Apply(w, RegisterBegin(n)), o) <==> Installs(w, RegisterBegin(n), o) || Registered(w, o)
    ensures Registered(Apply(w, LogoutBegin(n)), o) <==> Registered(w, o)
    ensures forall s :: Registered(Apply(w, HandleLogon(n, s)), o) <==> Registered(w, o)
  {
  }

  lemma EndedEntry(w: World, n: nat, call: nat, o: nat)
    requires Safe(w)
    ensures Registered(Apply(w, RegisterEnd(n, call)), o) <==>
            Installs(w, RegisterEnd(n, call), o)
            || (Registered(w, o) && !Dislodges(w, RegisterEnd(n, call), o))
  {
  }

  lemma SameEntry(w: World, v: World, o: nat)
    requires |v.objs| == |w.objs| && v.sessions == w.sessions && (o < |w.objs| ==> v.objs[o].id == w.objs[o].id)
    ensures Registered(v, o) == Registered(w, o)
  {
  }

  lemma ClosedEntry(w: World, call: nat, o: nat)
    requires Safe(w)
    ensures Registered(Apply(w, CloseAllBegin), o) <==> Registered(w, o)
    ensures Registered(Apply(w, CloseAllEnd(call)), o) <==> Registered(w, o) && !CloseReady(w, call)
  {
    SameEntry(w, BeginAll(w), o);
  }

  lemma KeepingEntry(w: World, step: Step, o: nat)
    requires Safe(w) && KeepsEntries(step)
    ensures Registered(Apply(w, step), o) <==>
            Installs(w, step, o) || (Registered(w, o) && !Dislodges(w, step, o))
  {
    match step
    case CreateSession(id) => NewEntry(w, id, o);
    case NewSession(id) => NewEntry(w, id, o);
    case RegisterBegin(n) => BegunEntry(w, n, o);
    case RegisterEnd(n, call) => EndedEntry(w, n, call, o);
    case LogoutBegin(n) => BegunEntry(w, n, o);
    case HandleLogon(n, _) => BegunEntry(w, n, o);
    case CloseAllBegin => ClosedEntry(w, 0, o);
  }

  lemma LosingEntry(w: World, step: Step, o: nat)
    requires Safe(w) && !KeepsEntries(step)
    ensures Registered(Apply(w, step), o) <==> Registered(w, o) && !Dislodges(w, step, o)
  {
    match step
    case LogoutEnd(p, call, e) => if p < |w.objs| && o < |w.objs| { LogoutEntry(w, p, call, e, o); }
    case HandleLogout(p, e) => if p < |w.objs| && o < |w.objs| { RemovedEntry(w, p, e, o); }
    case SocketClose(p, e) => if p < |w.objs| && o < |w.objs| { RemovedEntry(w, p, e, o); }
    case CloseAllEnd(call) => ClosedEntry(w, call, o);
    case JoinRoom(_, _) =>
    case LeaveRoom(_, _) =>
  }

  /** ONE STEP. A session is registered after a step if and only if the step
      registers it, or it was registered and the step does not dislodge it. */
  lemma RegisteredStep(w: World, step: Step, o: nat)
    requires Safe(w)
    ensures Registered(Apply(w, step), o) <==>
            Installs(w, step, o) || (Registered(w, o) && !Dislodges(w, step, o))
  {
    if KeepsEntries(step) {
      KeepingEntry(w, step, o);
    } else {
      LosingEntry(w, step, o);
    }
  }

  /** Registered at the start or by some step, and not dislodged since. */
  predicate Holds(was: bool, w: World, steps: seq<Step>, o: nat)
    decreases |steps|
  {
    if steps == [] then was
    else Holds(Installs(w, steps[0], o) || (was && o < |w.objs| && !Dislodges(w, steps[0], o)),
               Apply(w, steps[0]), steps[1..], o)
  }

  /** EVERY RUN. A session is registered at the end of a run if and only if its
      history of installing and dislodging steps says so. */
  lemma {:induction false} RegisteredIff(w: World, steps: seq<Step>, o: nat)
    requires Safe(w)
    ensures Registered(Run(w, steps), o) <==> Holds(Registered(w, o), w, steps, o)
    decreases |steps|
  {
    if steps != [] {
      StepSafe(w, steps[0]);
      RegisteredStep(w, steps[0], o);
      RegisteredIff(Apply(w, steps[0]), steps[1..], o);
    }
  }

  // ------------------------------------------------- objects and tasks of a step

  lemma DisconnectFrame(w: World, p: nat, e: Ending)
    requires p < |w.objs|
    ensures Disconnect(w, p, e).tasks == w.tasks
    ensures Disconnect(w, p, e).objs == if e == ThrowsFirst then w.objs else w.objs[p := Obj(w.objs[p].id, DISCONNECTED)]
  {
  }

  lemma EndLogoutFrame(w: World, p: nat, call: nat, e: Ending)
    requires p < |w.objs|
    ensures EndLogout(w, p, call, e).tasks == w.tasks - Ended(p, call, e)
    ensures EndLogout(w, p, call, e).objs ==
            if e == ThrowsFirst then w.objs else w.objs[p := Obj(w.objs[p].id, DISCONNECTED)]
  {
    DisconnectFrame(w.(tasks := w.tasks - Ended(p, call, e)), p, e);
  }

  lemma BeginLogoutFrame(w: World, p: nat, call: nat)
    requires p < |w.objs|
    ensures BeginLogout(w, p, call).objs ==
            if w.objs[p].state == DISCONNECTED then w.objs else w.objs[p := Obj(w.objs[p].id, LOGGING_OUT)]
    ensures BeginLogout(w, p, call).tasks == w.tasks || BeginLogout(w, p, call).tasks == w.tasks + {LogoutTask(p, call)}
  {
  }

  /** What a step may do to the state of a session. */
  predicate StateMoves(w: World, step: Step, o: nat, s: SessionState)
    requires o < |w.objs|
  {
    || s == w.objs[o].state
    || (s == LOGGING_OUT && w.objs[o].state != DISCONNECTED)
    || s == DISCONNECTED
    || (step.HandleLogon? && step.obj == o)
  }

  /** What every step keeps: sessions stay and their states move only so, new
      sessions are disconnected, logouts are added only under the number of a new
      call, and registrations wait until they go on. */
  ghost predicate Frame(w: World, step: Step, v: World) {
    && |w.objs| <= |v.objs|
    && (forall o :: 0 <= o < |w.objs| ==> StateMoves(w, step, o, v.objs[o].state))
    && (forall o :: |w.objs| <= o < |v.objs| ==> v.objs[o].state == DISCONNECTED)
    && (forall t :: t in v.tasks && t.LogoutTask? ==> t in w.tasks || t.call == w.calls)
    && (forall t :: t in w.tasks && t.RegisterTask? ==>
                      t in v.tasks || (step == RegisterEnd(t.obj, t.call) && RegisterReady(w, t.obj, t.call)))
  }

  lemma BeginFrame(w: World, step: Step)
    requires Safe(w) && (step.RegisterBegin? || step.LogoutBegin?)
    ensures Frame(w, step, Apply(w, step))
  {
    var o := step.obj;
    if o < |w.objs| {
      BeginLogoutFrame(w.(calls := w.calls + 1), o, w.calls);
      if w.objs[o].id in w.sessions {
        BeginLogoutFrame(w.(calls := w.calls + 1), w.sessions[w.objs[o].id], w.calls);
      }
    }
  }

  lemma LogoutFrame(w: World, step: Step)
    requires step.LogoutEnd?
    ensures Frame(w, step, Apply(w, step))
  {
    if step.obj < |w.objs| {
      EndLogoutFrame(w, step.obj, step.call, step.ending);
    }
  }

  lemma DownFrame(w: World, step: Step)
    requires step.HandleLogout? || step.SocketClose?
    ensures Frame(w, step, Apply(w, step))
  {
    if step.obj < |w.objs| {
      DisconnectFrame(w, step.obj, step.ending);
    }
  }

  lemma CloseFrame(w: World, step: Step)
    requires step.CloseAllBegin? || step.CloseAllEnd?
    ensures Frame(w, step, Apply(w, step))
  {
  }

  lemma OtherFrame(w: World, step: Step)
    requires step.CreateSession? || step.NewSession? || step.RegisterEnd? || step.HandleLogon? || step.JoinRoom? || step.LeaveRoom?
    ensures Frame(w, step, Apply(w, step))
  {
  }

  lemma StepFrame(w: World, step: Step)
    requires Safe(w)
    ensures Frame(w, step, Apply(w, step))
  {
    if step.RegisterBegin? || step.LogoutBegin? {
      BeginFrame(w, step);
    } else if step.LogoutEnd? {
      LogoutFrame(w, step);
    } else if step.HandleLogout? || step.SocketClose? {
      DownFrame(w, step);
    } else if step.CloseAllBegin? || step.CloseAllEnd? {
      CloseFrame(w, step);
    } else {
      OtherFrame(w, step);
    }
  }

  // -------------------------------------------------- the tasks of one call

  /** What ends a pending `closeAll` call: one of its own logouts rejects, or it
      clears the registry. */
  predicate Settles(w: World, step: Step, call: nat) {
    || (step.LogoutEnd? && step.call == call && step.ending != Completes
        && LogoutTask(step.obj, call) in w.tasks && step.obj < |w.objs|)
    || (step == CloseAllEnd(call) && CloseReady(w, call))
  }

  predicate EndsLogout(step: Step, o: nat, call: nat) {
    step.LogoutEnd? && step.obj == o && step.call == call
  }

  /** What a step does to the tasks of a call already made. */
  ghost predicate CallFrame(w: World, step: Step, v: World, call: nat) {
    && w.calls <= v.calls
    && (forall o: nat :: LogoutTask(o, call) in v.tasks <==> LogoutTask(o, call) in w.tasks && !EndsLogout(step, o, call))
    && (CloseTask(call) in v.tasks <==> CloseTask(call) in w.tasks && !Settles(w, step, call))
  }

  lemma BeginCalls(w: World, step: Step, call: nat)
    requires Safe(w) && call < w.calls && (step.RegisterBegin? || step.LogoutBegin?)
    ensures CallFrame(w, step, Apply(w, step), call)
  {
    var o := step.obj;
    if o < |w.objs| {
      if step.LogoutBegin? {
        NewLogout(w, step, o, {}, call);
      } else if w.objs[o].id in w.sessions {
        NewLogout(w, step, w.sessions[w.objs[o].id], {RegisterTask(o, w.calls)}, call);
      }
    }
  }

  /** A logout begun under a new number adds nothing to a call already made. */
  lemma NewLogout(w: World, step: Step, p: nat, more: set<Task>, call: nat)
    requires call < w.calls && p < |w.objs| && (step.RegisterBegin? || step.LogoutBegin?)
    requires forall t :: t in more ==> t.RegisterTask?
    ensures var v := BeginLogout(w.(calls := w.calls + 1), p, w.calls);
            CallFrame(w, step, v.(tasks := v.tasks + more), call)
  {
    BeginLogoutFrame(w.(calls := w.calls + 1), p, w.calls);
  }

  lemma LogoutCalls(w: World, step: Step, call: nat)
    requires Safe(w) && step.LogoutEnd?
    ensures CallFrame(w, step, Apply(w, step), call)
  {
    var o, k, e := step.obj, step.call, step.ending;
    if LogoutTask(o, k) in w.tasks && o < |w.objs| {
      EndLogoutFrame(w, o, k, e);
      EndLogoutCalls(w, o, k, e);
      EndedTasks(w.tasks, o, k, e, call);
    }
  }

  lemma EndLogoutCalls(w: World, o: nat, call: nat, e: Ending)
    requires o < |w.objs|
    ensures EndLogout(w, o, call, e).calls == w.calls
  {
  }

  lemma EndedTasks(tasks: set<Task>, o: nat, k: nat, e: Ending, call: nat)
    ensures forall p: nat :: LogoutTask(p, call) in tasks - Ended(o, k, e) <==>
                             LogoutTask(p, call) in tasks && !(p == o && k == call)
    ensures CloseTask(call) in tasks - Ended(o, k, e) <==> CloseTask(call) in tasks && !(k == call && e != Completes)
  {
  }

  lemma DownCalls(w: World, step: Step, call: nat)
    requires step.HandleLogout? || step.SocketClose?
    ensures CallFrame(w, step, Apply(w, step), call)
  {
    if step.obj < |w.objs| {
      DisconnectFrame(w, step.obj, step.ending);
    }
  }

  lemma CloseCalls(w: World, step: Step, call: nat)
    requires call < w.calls && (step.CloseAllBegin? || step.CloseAllEnd?)
    ensures CallFrame(w, step, Apply(w, step), call)
  {
  }

  lemma OtherCalls(w: World, step: Step, call: nat)
    requires step.CreateSession? || step.NewSession? || step.RegisterEnd? || step.HandleLogon? || step.JoinRoom? || step.LeaveRoom?
    ensures CallFrame(w, step, Apply(w, step), call)
  {
  }

  lemma StepCalls(w: World, step: Step, call: nat)
    requires Safe(w) && call < w.calls
    ensures CallFrame(w, step, Apply(w, step), call)
  {
    if step.RegisterBegin? || step.LogoutBegin? {
      BeginCalls(w, step, call);
    } else if step.LogoutEnd? {
      LogoutCalls(w, step, call);
    } else if step.HandleLogout? || step.SocketClose? {
      DownCalls(w, step, call);
    } else if step.CloseAllBegin? || step.CloseAllEnd? {
      CloseCalls(w, step, call);
    } else {
      OtherCalls(w, step, call);
    }
  }

  /** No step of the run ends the logout of o that the call began. */
  predicate NoEnd(steps: seq<Step>, o: nat, call: nat) {
    forall i :: 0 <= i < |steps| ==> !EndsLogout(steps[i], o, call)
  }

  lemma NoEndCons(steps: seq<Step>, o: nat, call: nat)
    requires steps != []
    ensures NoEnd(steps, o, call) <==> !EndsLogout(steps[0], o, call) && NoEnd(steps[1..], o, call)
  {
    assert forall i :: 0 < i < |steps| ==> steps[i] == steps[1..][i - 1];
  }

  predicate NeverSettles(w: World, steps: seq<Step>, call: nat)
    decreases |steps|
  {
    steps != [] ==> !Settles(w, steps[0], call) && NeverSettles(Apply(w, steps[0]), steps[1..], call)
  }

  /** A logout is pending until it ends; a `closeAll` until it settles. */
  lemma {:induction false} RunCalls(w: World, steps: seq<Step>, call: nat)
    requires Safe(w) && call < w.calls
    ensures var v := Run(w, steps);
            && Safe(v) && w.calls <= v.calls
            && (forall o: nat :: LogoutTask(o, call) in v.tasks <==> LogoutTask(o, call) in w.tasks && NoEnd(steps, o, call))
            && (CloseTask(call) in v.tasks <==> CloseTask(call) in w.tasks && NeverSettles(w, steps, call))
    decreases |steps|
  {
    if steps != [] {
      var w1 := Apply(w, steps[0]);
      StepSafe(w, steps[0]);
      StepCalls(w, steps[0], call);
      RunCalls(w1, steps[1..], call);
      forall o: nat ensures NoEnd(steps, o, call) <==> !EndsLogout(steps[0], o, call) && NoEnd(steps[1..], o, call) {
        NoEndCons(steps, o, call);
      }
    }
  }

  // ------------------------------------------- logged on without an entry

  predicate LoggedOn(w: World, o: nat) {
    o < |w.objs| && w.objs[o].state == LOGGED_ON
  }

  ghost predicate AllRegistered(w: World) {
    forall o: nat :: LoggedOn(w, o) ==> Registered(w, o)
  }

  /** A step that leaves o logged on without an entry: its logon while it has none,
      or the loss of its entry through anything but its own going down. */
  predicate Strands(w: World, step: Step, o: nat) {
    && o < |w.objs|
    && (if step.HandleLogon? then step == HandleLogon(o, true) && !Registered(w, o)
        else LoggedOn(w, o) && Dislodges(w, step, o) && !TakesDown(w, step, o))
  }

  /** Only its logon logs a session on, and its going down logs it off. */
  lemma LoggedOnAfter(w: World, step: Step, o: nat)
    requires Safe(w)
    ensures LoggedOn(Apply(w, step), o) ==> (LoggedOn(w, o) && !TakesDown(w, step, o)) || step == HandleLogon(o, true)
    ensures step == HandleLogon(o, true) && o < |w.objs| ==> LoggedOn(Apply(w, step), o)
  {
    StepFrame(w, step);
    if TakesDown(w, step, o) {
      DownState(w, step, o);
    }
  }

  lemma DownState(w: World, step: Step, o: nat)
    requires TakesDown(w, step, o)
    ensures Apply(w, step).objs == w.objs[o := Obj(w.objs[o].id, DISCONNECTED)]
  {
    match step
    case LogoutEnd(_, call, e) => EndLogoutFrame(w, o, call, e);
    case HandleLogout(_, e) => DisconnectFrame(w, o, e);
    case SocketClose(_, e) => DisconnectFrame(w, o, e);
  }

  /** A session that loses its entry to another stays logged on. */
  lemma StrandedStays(w: World, step: Step, o: nat)
    requires Safe(w) && LoggedOn(w, o) && Dislodges(w, step, o) && !TakesDown(w, step, o)
    ensures LoggedOn(Apply(w, step), o)
  {
    match step
    case LogoutEnd(p, call, e) => EndLogoutFrame(w, p, call, e);
    case HandleLogout(p, e) => DisconnectFrame(w, p, e);
    case SocketClose(p, e) => DisconnectFrame(w, p, e);
    case CreateSession(_) =>
    case RegisterEnd(_, _) =>
    case CloseAllEnd(_) =>
  }

  lemma StrandedIff(w: World, step: Step, o: nat)
    requires Safe(w) && AllRegistered(w)
    ensures LoggedOn(Apply(w, step), o) && !Registered(Apply(w, step), o) <==> Strands(w, step, o)
  {
    RegisteredStep(w, step, o);
    LoggedOnAfter(w, step, o);
    assert LoggedOn(w, o) ==> Registered(w, o);
    if !step.HandleLogon? && LoggedOn(w, o) && Dislodges(w, step, o) && !TakesDown(w, step, o) {
      StrandedStays(w, step, o);
    }
  }

  /** In every state along the run, each logged-on session is registered. */
  ghost predicate AlwaysRegistered(w: World, steps: seq<Step>)
    decreases |steps|
  {
    AllRegistered(w) && (steps != [] ==> AlwaysRegistered(Apply(w, steps[0]), steps[1..]))
  }

  ghost predicate NeverStrands(w: World, steps: seq<Step>)
    decreases |steps|
  {
    steps != [] ==> (forall o: nat :: !Strands(w, steps[0], o)) && NeverStrands(Apply(w, steps[0]), steps[1..])
  }

  /** LOGGED ON MEANS REGISTERED, on a run, if and only if no session logs on
      before it is registered, and none that is logged on loses its entry to
      another session or to a closing. */
  lemma {:induction false} AlwaysRegisteredIff(w: World, steps: seq<Step>)
    requires Safe(w) && AllRegistered(w)
    ensures AlwaysRegistered(w, steps) <==> NeverStrands(w, steps)
    decreases |steps|
  {
    if steps != [] {
      var w1 := Apply(w, steps[0]);
      StepSafe(w, steps[0]);
      forall o: nat ensures (LoggedOn(w1, o) ==> Registered(w1, o)) <==> !Strands(w, steps[0], o) {
        StrandedIff(w, steps[0], o);
      }
      if AllRegistered(w1) {
        AlwaysRegisteredIff(w1, steps[1..]);
      }
    }
  }

  // ------------------------------------------------------- who is in a room

  predicate RemovesMember(w: World, p: nat, e: Ending, id: string) {
    p < |w.objs| && Removing(e) && w.objs[p].id == id && id in w.sessions
  }

  /** A step that takes the id out of the room: leaving it, and the removal of a
      registered session with the id. */
  predicate Evicts(w: World, step: Step, room: string, id: string) {
    match step
    case LeaveRoom(o, r) => o < |w.objs| && r == room && w.objs[o].id == id
    case LogoutEnd(p, call, e) => LogoutTask(p, call) in w.tasks && RemovesMember(w, p, e, id)
    case HandleLogout(p, e) => RemovesMember(w, p, e, id)
    case SocketClose(p, e) => RemovesMember(w, p, e, id)
    case _ => false
  }

  predicate Admits(w: World, step: Step, room: string, id: string) {
    step.JoinRoom? && step.obj < |w.objs| && step.room == room && w.objs[step.obj].id == id
  }

  predicate IsMember(w: World, room: string, id: string) {
    id in Rooms.Members(w.rooms.rooms, room)
  }

  lemma RemovedMember(w: World, p: nat, e: Ending, room: string, id: string)
    requires Rooms.Inv(w.rooms) && p < |w.objs|
    ensures IsMember(Disconnect(w, p, e), room, id) <==> IsMember(w, room, id) && !RemovesMember(w, p, e, id)
  {
    Rooms.LeaveAllKeeps(w.rooms, w.objs[p].id);
  }

  lemma MemberStep(w: World, step: Step, room: string, id: string)
    requires Safe(w)
    ensures IsMember(Apply(w, step), room, id) <==>
            Admits(w, step, room, id) || (IsMember(w, room, id) && !Evicts(w, step, room, id))
  {
    if KeepsEntries(step) {
      EntriesKept(w, step);
    } else {
      MemberLost(w, step, room, id);
    }
  }

  lemma MemberLost(w: World, step: Step, room: string, id: string)
    requires Safe(w) && !KeepsEntries(step)
    ensures IsMember(Apply(w, step), room, id) <==>
            Admits(w, step, room, id) || (IsMember(w, room, id) && !Evicts(w, step, room, id))
  {
    match step
    case LogoutEnd(p, call, e) =>
      if p < |w.objs| { RemovedMember(w.(tasks := w.tasks - Ended(p, call, e)), p, e, room, id); }
    case HandleLogout(p, e) => if p < |w.objs| { RemovedMember(w, p, e, room, id); }
    case SocketClose(p, e) => if p < |w.objs| { RemovedMember(w, p, e, room, id); }
    case JoinRoom(o, r) => if o < |w.objs| { Rooms.JoinKeeps(w.rooms, r, w.objs[o].id); }
    case LeaveRoom(o, r) => if o < |w.objs| { Rooms.LeaveKeeps(w.rooms, r, w.objs[o].id); }
    case CloseAllEnd(_) =>
  }

  /** Admitted to the room, and not evicted since. */
  predicate StaysIn(was: bool, w: World, steps: seq<Step>, room: string, id: string)
    decreases |steps|
  {
    if steps == [] then was
    else StaysIn(Admits(w, steps[0], room, id) || (was && !Evicts(w, steps[0], room, id)),
                 Apply(w, steps[0]), steps[1..], room, id)
  }

  /** MEMBERS. After any run an id is in a room if and only if it has been admitted and
      not evicted since; a removal of a session that is not registered and a closing
      leave the rooms as they are. */
  lemma {:induction false} MembersIff(w: World, steps: seq<Step>, room: string, id: string)
    requires Safe(w)
    ensures IsMember(Run(w, steps), room, id) <==> StaysIn(IsMember(w, room, id), w, steps, room, id)
    decreases |steps|
  {
    if steps != [] {
      StepSafe(w, steps[0]);
      MemberStep(w, steps[0], room, id);
      MembersIff(Apply(w, steps[0]), steps[1..], room, id);
    }
  }

  // ----------------------------------------- room members without an entry

  /** Every member of a room is among the ids. */
  ghost predicate MembersIn(rooms: Rooms.State, ids: set<string>) {
    forall r, id :: id in Rooms.Members(rooms.rooms, r) ==> id in ids
  }

  ghost predicate MembersRegistered(w: World) {
    MembersIn(w.rooms, w.sessions.Keys)
  }

  /** A step that leaves a room member without an entry: a session joins while it has
      none, or a closing clears the registry, which leaves no room. */
  ghost predicate Orphans(w: World, step: Step) {
    match step
    case JoinRoom(o, _) => o < |w.objs| && w.objs[o].id !in w.sessions
    case CloseAllEnd(call) => CloseReady(w, call) && !MembersIn(w.rooms, {})
    case _ => false
  }

  lemma LeaveAllMembers(rooms: Rooms.State, ids: set<string>, id: string)
    requires Rooms.Inv(rooms) && MembersIn(rooms, ids)
    ensures MembersIn(Rooms.LeaveAll(rooms, id), ids - {id})
  {
    Rooms.LeaveAllKeeps(rooms, id);
  }

  lemma JoinMembers(rooms: Rooms.State, ids: set<string>, room: string, id: string)
    requires Rooms.Inv(rooms) && MembersIn(rooms, ids)
    ensures MembersIn(Rooms.Join(rooms, room, id), ids) <==> id in ids
    ensures MembersIn(Rooms.Leave(rooms, room, id), ids)
  {
    Rooms.JoinKeeps(rooms, room, id);
    Rooms.LeaveKeeps(rooms, room, id);
    assert id in Rooms.Members(Rooms.Join(rooms, room, id).rooms, room);
  }

  lemma RemovalMembers(w: World, id: string)
    requires Rooms.Inv(w.rooms) && MembersRegistered(w)
    ensures MembersRegistered(RemoveId(w, id))
  {
    LeaveAllMembers(w.rooms, w.sessions.Keys, id);
    assert (w.sessions - {id}).Keys == w.sessions.Keys - {id};
  }

  lemma DisconnectMembers(w: World, p: nat, e: Ending)
    requires Rooms.Inv(w.rooms) && MembersRegistered(w) && p < |w.objs|
    ensures MembersRegistered(Disconnect(w, p, e))
  {
    RemovalMembers(SetState(w, p, DISCONNECTED), w.objs[p].id);
  }

  lemma EndLogoutMembers(w: World, p: nat, call: nat, e: Ending)
    requires Rooms.Inv(w.rooms) && MembersRegistered(w) && p < |w.objs|
    ensures MembersRegistered(EndLogout(w, p, call, e))
  {
    DisconnectMembers(w.(tasks := w.tasks - Ended(p, call, e)), p, e);
  }

  lemma EntriesKept(w: World, step: Step)
    requires KeepsEntries(step)
    ensures Apply(w, step).rooms == w.rooms && w.sessions.Keys <= Apply(w, step).sessions.Keys
  {
  }

  lemma OrphansIff(w: World, step: Step)
    requires Safe(w) && MembersRegistered(w)
    ensures MembersRegistered(Apply(w, step)) <==> !Orphans(w, step)
  {
    if KeepsEntries(step) {
      EntriesKept(w, step);
    } else {
      LosingOrphans(w, step);
    }
  }

  lemma LosingOrphans(w: World, step: Step)
    requires Safe(w) && MembersRegistered(w) && !KeepsEntries(step)
    ensures MembersRegistered(Apply(w, step)) <==> !Orphans(w, step)
  {
    match step
    case LogoutEnd(p, call, e) => if p < |w.objs| { EndLogoutMembers(w, p, call, e); }
    case HandleLogout(p, e) => if p < |w.objs| { DisconnectMembers(w, p, e); }
    case SocketClose(p, e) => if p < |w.objs| { DisconnectMembers(w, p, e); }
    case JoinRoom(o, room) => if o < |w.objs| { JoinMembers(w.rooms, w.sessions.Keys, room, w.objs[o].id); }
    case LeaveRoom(o, room) => if o < |w.objs| { JoinMembers(w.rooms, w.sessions.Keys, room, w.objs[o].id); }
    case CloseAllEnd(_) =>
      var empty: map<string, nat> := map[];
      assert empty.Keys == {};
  }

  /** In every state along the run, each room member is registered. */
  ghost predicate AlwaysMembersRegistered(w: World, steps: seq<Step>)
    decreases |steps|
  {
    MembersRegistered(w) && (steps != [] ==> AlwaysMembersRegistered(Apply(w, steps[0]), steps[1..]))
  }

  ghost predicate NeverOrphans(w: World, steps: seq<Step>)
    decreases |steps|
  {
    steps != [] ==> !Orphans(w, steps[0]) && NeverOrphans(Apply(w, steps[0]), steps[1..])
  }

  /** ROOM MEMBERS ARE REGISTERED, on a run, if and only if no session joins a room
      while it has no entry, and no closing clears the registry while a room has a
      member. */
  lemma {:induction false} MembersRegisteredIff(w: World, steps: seq<Step>)
    requires Safe(w) && MembersRegistered(w)
    ensures AlwaysMembersRegistered(w, steps) <==> NeverOrphans(w, steps)
    decreases |steps|
  {
    if steps != [] {
      StepSafe(w, steps[0]);
      OrphansIff(w, steps[0]);
      if MembersRegistered(Apply(w, steps[0])) {
        MembersRegisteredIff(Apply(w, steps[0]), steps[1..]);
      }
    }
  }

  // --------------------------------------------------------- duplicate logon

  /** A step that adds an entry. */
  predicate Enters(w: World, step: Step) {
    && !Full(w.maxSessions, w.sessions)
    && match step
       case CreateSession(_) => true
       case RegisterBegin(n) => n < |w.objs| && w.objs[n].id !in w.sessions
       case RegisterEnd(n, call) => RegisterReady(w, n, call)
       case _ => false
  }

  ghost predicate NeverEnters(w: World, steps: seq<Step>)
    decreases |steps|
  {
    steps != [] ==> !Enters(w, steps[0]) && NeverEnters(Apply(w, steps[0]), steps[1..])
  }

  /** The newcomer's registration can go on, and there is room for it. */
  ghost predicate Waiting(w: World, newcomer: nat, call: nat) {
    Safe(w) && RegisterReady(w, newcomer, call) && !Full(w.maxSessions, w.sessions)
  }

  lemma DisconnectSize(w: World, p: nat, e: Ending)
    requires p < |w.objs|
    ensures |Disconnect(w, p, e).sessions| <= |w.sessions|
  {
    SizeOfRemoval(w.sessions, w.objs[p].id);
  }

  lemma EndLogoutSize(w: World, p: nat, call: nat, e: Ending)
    requires p < |w.objs|
    ensures |EndLogout(w, p, call, e).sessions| <= |w.sessions|
  {
    DisconnectSize(w.(tasks := w.tasks - Ended(p, call, e)), p, e);
  }

  lemma NotFuller(w: World, step: Step)
    requires !Full(w.maxSessions, w.sessions) && !Enters(w, step)
    ensures !Full(w.maxSessions, Apply(w, step).sessions)
  {
    match step
    case LogoutEnd(p, call, e) => if p < |w.objs| { EndLogoutSize(w, p, call, e); }
    case HandleLogout(p, e) => if p < |w.objs| { DisconnectSize(w, p, e); }
    case SocketClose(p, e) => if p < |w.objs| { DisconnectSize(w, p, e); }
    case _ =>
  }

  lemma StillReady(w: World, step: Step, newcomer: nat, call: nat)
    requires Safe(w) && RegisterReady(w, newcomer, call)
    requires !Full(w.maxSessions, w.sessions) && !Enters(w, step)
    ensures RegisterReady(Apply(w, step), newcomer, call)
  {
    StepFrame(w, step);
    ReadyKept(w, step, Apply(w, step), newcomer, call);
  }

  lemma ReadyKept(w: World, step: Step, v: World, newcomer: nat, call: nat)
    requires Safe(w) && RegisterReady(w, newcomer, call) && Frame(w, step, v)
    requires !Full(w.maxSessions, w.sessions) && !Enters(w, step)
    ensures RegisterReady(v, newcomer, call)
  {
    assert RegisterTask(newcomer, call).call < w.calls;
  }

  lemma {:induction false} WaitingOn(w: World, steps: seq<Step>, newcomer: nat, call: nat)
    requires Waiting(w, newcomer, call) && NeverEnters(w, steps)
    ensures Waiting(Run(w, steps), newcomer, call)
    decreases |steps|
  {
    if steps != [] {
      StepSafe(w, steps[0]);
      StepKeepsLimit(w, steps[0]);
      NotFuller(w, steps[0]);
      StillReady(w, steps[0], newcomer, call);
      WaitingOn(Apply(w, steps[0]), steps[1..], newcomer, call);
    }
  }

  lemma RegisterWaits(w: World, newcomer: nat)
    requires Safe(w) && newcomer < |w.objs| && w.objs[newcomer].id in w.sessions
    requires w.objs[w.sessions[w.objs[newcomer].id]].state != DISCONNECTED
    ensures var holder, w' := w.sessions[w.objs[newcomer].id], Apply(w, RegisterBegin(newcomer));
            && Waits(w', holder, newcomer, w.calls) && w.calls < w'.calls
            && |w'.objs| == |w.objs| && forall o :: 0 <= o < |w.objs| ==> w'.objs[o].id == w.objs[o].id
  {
    StepSafe(w, RegisterBegin(newcomer));
  }

  /** The newcomer waits for the holder's logout, and for nothing else. */
  ghost predicate Waits(w: World, holder: nat, newcomer: nat, call: nat) {
    && Safe(w) && LogoutTask(holder, call) in w.tasks && RegisterTask(newcomer, call) in w.tasks
    && forall p: nat :: LogoutTask(p, call) in w.tasks ==> p == holder
  }

  lemma {:induction false} StillWaits(w: World, steps: seq<Step>, holder: nat, newcomer: nat, call: nat)
    requires Waits(w, holder, newcomer, call) && NoEnd(steps, holder, call)
    ensures Waits(Run(w, steps), holder, newcomer, call)
    decreases |steps|
  {
    if steps != [] {
      assert LogoutTask(holder, call).call < w.calls;
      StepSafe(w, steps[0]);
      StepFrame(w, steps[0]);
      StepCalls(w, steps[0], call);
      NoEndCons(steps, holder, call);
      StillWaits(Apply(w, steps[0]), steps[1..], holder, newcomer, call);
    }
  }

  lemma ReplacedAfterLogout(w: World, holder: nat, newcomer: nat, call: nat, e: Ending, steps: seq<Step>)
    requires Waits(w, holder, newcomer, call) && w.objs[newcomer].id == w.objs[holder].id
    requires w.objs[holder].id in w.sessions && Removing(e)
    requires NeverEnters(Apply(w, LogoutEnd(holder, call, e)), steps)
    ensures var w' := Run(Apply(w, LogoutEnd(holder, call, e)), steps);
            Registered(Apply(w', RegisterEnd(newcomer, call)), newcomer)
  {
    var w1 := Apply(w, LogoutEnd(holder, call, e));
    RoomForOne(w, holder, newcomer, call, e);
    WaitingOn(w1, steps, newcomer, call);
    RegisteredStep(Run(w1, steps), RegisterEnd(newcomer, call), newcomer);
  }

  lemma {:induction false} RunIds(w: World, steps: seq<Step>)
    ensures |w.objs| <= |Run(w, steps).objs|
    ensures forall o :: 0 <= o < |w.objs| ==> Run(w, steps).objs[o].id == w.objs[o].id
    decreases |steps|
  {
    if steps != [] {
      StepIds(w, steps[0]);
      RunIds(Apply(w, steps[0]), steps[1..]);
    }
  }

  lemma StepIds(w: World, step: Step)
    ensures |w.objs| <= |Apply(w, step).objs|
    ensures forall o :: 0 <= o < |w.objs| ==> Apply(w, step).objs[o].id == w.objs[o].id
  {
    match step
    case LogoutEnd(p, call, e) => if p < |w.objs| { EndLogoutFrame(w, p, call, e); }
    case HandleLogout(p, e) => if p < |w.objs| { DisconnectFrame(w, p, e); }
    case SocketClose(p, e) => if p < |w.objs| { DisconnectFrame(w, p, e); }
    case _ =>
  }

  /** DUPLICATE LOGON. A session registers under an id that a live session holds, and
      any steps follow until the holder's logout ends and removes the entry under the
      common id. Whatever happens then: the newcomer's registration succeeds, unless
      another entry has been made before it goes on. */
  lemma DuplicateLogonReplaces(w: World, newcomer: nat, before: seq<Step>, e: Ending, after: seq<Step>)
    requires Safe(w) && newcomer < |w.objs| && w.objs[newcomer].id in w.sessions
    requires w.objs[w.sessions[w.objs[newcomer].id]].state != DISCONNECTED && Removing(e)
    requires NoEnd(before, w.sessions[w.objs[newcomer].id], w.calls)
    requires var w1 := Run(Apply(w, RegisterBegin(newcomer)), before);
             && w.objs[newcomer].id in w1.sessions
             && NeverEnters(Apply(w1, LogoutEnd(w.sessions[w.objs[newcomer].id], w.calls, e)), after)
    ensures var w1 := Run(Apply(w, RegisterBegin(newcomer)), before);
            var w2 := Run(Apply(w1, LogoutEnd(w.sessions[w.objs[newcomer].id], w.calls, e)), after);
            Registered(Apply(w2, RegisterEnd(newcomer, w.calls)), newcomer)
  {
    var holder, w0 := w.sessions[w.objs[newcomer].id], Apply(w, RegisterBegin(newcomer));
    RegisterWaits(w, newcomer);
    StillWaits(w0, before, holder, newcomer, w.calls);
    RunIds(w0, before);
    ReplacedAfterLogout(Run(w0, before), holder, newcomer, w.calls, e, after);
  }

  lemma RoomForOne(w: World, holder: nat, newcomer: nat, call: nat, e: Ending)
    requires Safe(w) && LogoutTask(holder, call) in w.tasks && RegisterTask(newcomer, call) in w.tasks
    requires forall p: nat :: LogoutTask(p, call) in w.tasks ==> p == holder
    requires w.objs[holder].id in w.sessions && Removing(e)
    ensures Waiting(Apply(w, LogoutEnd(holder, call, e)), newcomer, call)
  {
    StepSafe(w, LogoutEnd(holder, call, e));
    EndLogoutFrame(w, holder, call, e);
    EndLogoutSessions(w, holder, call, e);
    SizeOfRemoval(w.sessions, w.objs[holder].id);
    LastLogout(w, holder, newcomer, call, e);
  }

  lemma LastLogout(w: World, holder: nat, newcomer: nat, call: nat, e: Ending)
    requires RegisterTask(newcomer, call) in w.tasks
    requires forall p: nat :: LogoutTask(p, call) in w.tasks ==> p == holder
    ensures var tasks := w.tasks - Ended(holder, call, e);
            RegisterTask(newcomer, call) in tasks && forall t :: t in tasks && t.LogoutTask? ==> t.call != call
  {
    forall t | t in w.tasks && t.LogoutTask? && t.call == call ensures t == LogoutTask(holder, call) {
      assert LogoutTask(t.obj, call) in w.tasks;
    }
  }

  // ------------------------------------------------------------ closing all

  /** A session stays disconnected until a logon is handled. */
  lemma {:induction false} StaysDisconnected(w: World, steps: seq<Step>, o: nat)
    requires Safe(w) && o < |w.objs| && w.objs[o].state == DISCONNECTED
    requires forall i :: 0 <= i < |steps| && steps[i].HandleLogon? ==> steps[i].obj != o
    ensures Safe(Run(w, steps)) && o < |Run(w, steps).objs| && Run(w, steps).objs[o].state == DISCONNECTED
    decreases |steps|
  {
    if steps != [] {
      StepSafe(w, steps[0]);
      IdleStep(w, steps[0], o);
      StaysDisconnected(Apply(w, steps[0]), steps[1..], o);
    }
  }

  lemma IdleStep(w: World, step: Step, o: nat)
    requires Safe(w) && o < |w.objs| && w.objs[o].state == DISCONNECTED
    requires step.HandleLogon? ==> step.obj != o
    ensures var w' := Apply(w, step); o < |w'.objs| && w'.objs[o].state == DISCONNECTED
  {
    StepFrame(w, step);
  }

  /** A session made by `createSession` makes `closeAll` reject at once, as long as
      it is registered and has not handled a logon. */
  lemma CreatedSessionBlocksClose(w: World, id: string, steps: seq<Step>)
    requires Safe(w) && !Full(w.maxSessions, w.sessions)
    requires forall i :: 0 <= i < |steps| && steps[i].HandleLogon? ==> steps[i].obj != |w.objs|
    ensures var w' := Run(Apply(w, CreateSession(id)), steps);
            Registered(w', |w.objs|) ==> CloseTask(w'.calls) !in Apply(w', CloseAllBegin).tasks
  {
    var w1 := Apply(w, CreateSession(id));
    StepSafe(w, CreateSession(id));
    StaysDisconnected(w1, steps, |w.objs|);
    CloseBegun(Run(w1, steps));
  }

  // ------------------------------------------------- the state of a session

  /** A step that takes o down, whether or not it reaches its removal. */
  predicate GoesDown(w: World, step: Step, o: nat) {
    match step
    case LogoutEnd(p, call, e) => p == o && LogoutTask(o, call) in w.tasks && e != ThrowsFirst
    case HandleLogout(p, e) => p == o && e != ThrowsFirst
    case SocketClose(p, e) => p == o && e != ThrowsFirst
    case _ => false
  }

  /** A step that starts a logout of o, if it is not disconnected. */
  ghost predicate AsksOut(w: World, step: Step, o: nat) {
    match step
    case LogoutBegin(p) => p == o
    case RegisterBegin(n) => n < |w.objs| && w.objs[n].id in w.sessions && w.sessions[w.objs[n].id] == o
    case CloseAllBegin => exists id :: id in w.sessions && w.sessions[id] == o
    case _ => false
  }

  /** The state of o after a step, where it was `was` before. */
  ghost function StateAfter(was: SessionState, w: World, step: Step, o: nat): SessionState {
    if step == HandleLogon(o, true) then LOGGED_ON
    else if step == HandleLogon(o, false) then ERROR
    else if GoesDown(w, step, o) then DISCONNECTED
    else if was != DISCONNECTED && AsksOut(w, step, o) then LOGGING_OUT
    else was
  }

  ghost function StateAfterAll(was: SessionState, w: World, steps: seq<Step>, o: nat): SessionState
    decreases |steps|
  {
    if steps == [] then was else StateAfterAll(StateAfter(was, w, steps[0], o), Apply(w, steps[0]), steps[1..], o)
  }

  lemma StateKept(w: World, step: Step, o: nat)
    requires Safe(w) && o < |w.objs| && KeepsEntries(step)
    ensures o < |Apply(w, step).objs|
    ensures Apply(w, step).objs[o].state == StateAfter(w.objs[o].state, w, step, o)
  {
    match step
    case RegisterBegin(n) => RegisterState(w, n, o);
    case LogoutBegin(p) => if p < |w.objs| { BeginLogoutFrame(w.(calls := w.calls + 1), p, w.calls); }
    case CloseAllBegin => ClosingState(w, o);
    case _ =>
  }

  lemma RegisterState(w: World, n: nat, o: nat)
    requires Safe(w) && o < |w.objs|
    ensures o < |Apply(w, RegisterBegin(n)).objs|
    ensures Apply(w, RegisterBegin(n)).objs[o].state == StateAfter(w.objs[o].state, w, RegisterBegin(n), o)
  {
    if n < |w.objs| && w.objs[n].id in w.sessions {
      BeginLogoutFrame(w.(calls := w.calls + 1), w.sessions[w.objs[n].id], w.calls);
    }
  }

  lemma ClosingState(w: World, o: nat)
    requires Safe(w) && o < |w.objs|
    ensures o < |BeginAll(w).objs| && BeginAll(w).objs[o].state == StateAfter(w.objs[o].state, w, CloseAllBegin, o)
  {
    assert o in Live(w) <==> w.objs[o].state != DISCONNECTED && exists id :: id in w.sessions && w.sessions[id] == o;
  }

  lemma StateLost(w: World, step: Step, o: nat)
    requires Safe(w) && o < |w.objs| && !KeepsEntries(step)
    ensures o < |Apply(w, step).objs|
    ensures Apply(w, step).objs[o].state == StateAfter(w.objs[o].state, w, step, o)
  {
    match step
    case LogoutEnd(p, call, e) => LogoutState(w, p, call, e, o);
    case HandleLogout(p, e) => if p < |w.objs| { DownTo(w, p, e, o); }
    case SocketClose(p, e) => if p < |w.objs| { DownTo(w, p, e, o); }
    case _ =>
  }

  lemma DownTo(w: World, p: nat, e: Ending, o: nat)
    requires p < |w.objs| && o < |w.objs|
    ensures o < |Disconnect(w, p, e).objs|
    ensures Disconnect(w, p, e).objs[o].state == if p == o && e != ThrowsFirst then DISCONNECTED else w.objs[o].state
  {
    DisconnectFrame(w, p, e);
  }

  lemma LogoutState(w: World, p: nat, call: nat, e: Ending, o: nat)
    requires o < |w.objs|
    ensures var v := Apply(w, LogoutEnd(p, call, e));
            o < |v.objs| && v.objs[o].state == StateAfter(w.objs[o].state, w, LogoutEnd(p, call, e), o)
  {
    if p < |w.objs| {
      DownTo(w.(tasks := w.tasks - Ended(p, call, e)), p, e, o);
    }
  }

  lemma StateStep(w: World, step: Step, o: nat)
    requires Safe(w) && o < |w.objs|
    ensures o < |Apply(w, step).objs|
    ensures Apply(w, step).objs[o].state == StateAfter(w.objs[o].state, w, step, o)
  {
    if KeepsEntries(step) {
      StateKept(w, step, o);
    } else {
      StateLost(w, step, o);
    }
  }

  /** STATES. After any run a session's state follows from the logons handled for it,
      the logouts begun for it and its going down, whoever caused them. */
  lemma {:induction false} RunStates(w: World, steps: seq<Step>, o: nat)
    requires Safe(w) && o < |w.objs|
    ensures o < |Run(w, steps).objs|
    ensures Run(w, steps).objs[o].state == StateAfterAll(w.objs[o].state, w, steps, o)
    decreases |steps|
  {
    if steps != [] {
      StepSafe(w, steps[0]);
      StateStep(w, steps[0], o);
      RunStates(Apply(w, steps[0]), steps[1..], o);
    }
  }

  ghost predicate NeverDown(w: World, steps: seq<Step>, o: nat)
    decreases |steps|
  {
    steps != [] ==> !GoesDown(w, steps[0], o) && NeverDown(Apply(w, steps[0]), steps[1..], o)
  }

  lemma {:induction false} StaysUp(w: World, steps: seq<Step>, o: nat)
    requires Safe(w) && o < |w.objs| && w.objs[o].state != DISCONNECTED && NeverDown(w, steps, o)
    ensures Safe(Run(w, steps)) && o < |Run(w, steps).objs| && Run(w, steps).objs[o].state != DISCONNECTED
    decreases |steps|
  {
    if steps != [] {
      StepSafe(w, steps[0]);
      StateStep(w, steps[0], o);
      StaysUp(Apply(w, steps[0]), steps[1..], o);
    }
  }

  /** A session that has handled a logon, even one whose response failed, does not
      block `closeAll` before it goes down: only the others can. */
  lemma LogonUnblocksClose(w: World, o: nat, succeeds: bool, steps: seq<Step>)
    requires Safe(w) && o < |w.objs| && NeverDown(Apply(w, HandleLogon(o, succeeds)), steps, o)
    ensures var w' := Run(Apply(w, HandleLogon(o, succeeds)), steps);
            && (forall id :: id in w'.sessions ==> w'.sessions[id] < |w'.objs|)
            && (CloseTask(w'.calls) in Apply(w', CloseAllBegin).tasks <==>
                forall id :: id in w'.sessions && w'.sessions[id] != o ==> w'.objs[w'.sessions[id]].state != DISCONNECTED)
  {
    StepSafe(w, HandleLogon(o, succeeds));
    StaysUp(Apply(w, HandleLogon(o, succeeds)), steps, o);
    CloseBegun(Run(Apply(w, HandleLogon(o, succeeds)), steps));
  }

  // --------------------------------------------------------- interleaved closing

  lemma CloseBegun(w: World)
    requires Safe(w)
    ensures var v := Apply(w, CloseAllBegin);
            && Safe(v) && w.calls < v.calls && v.sessions == w.sessions
            && (forall o: nat :: LogoutTask(o, w.calls) in v.tasks <==> o in Live(w))
            && (CloseTask(w.calls) in v.tasks <==> NoneDisconnected(w))
  {
    StepSafe(w, CloseAllBegin);
    assert forall t :: t in w.tasks ==> t.call != w.calls;
  }

  /** WHEN CLOSING ALL GOES ON. Whatever happens after a `closeAll` call has begun: it
      is about to clear the registry if and only if no registered session was
      disconnected at the call, none of its own logouts has rejected, all of them have
      ended, and it has not cleared the registry yet. */
  lemma CloseReadyIff(w: World, steps: seq<Step>)
    requires Safe(w)
    ensures var w1 := Apply(w, CloseAllBegin);
            CloseReady(Run(w1, steps), w.calls) <==>
            && NoneDisconnected(w) && NeverSettles(w1, steps, w.calls)
            && forall o :: o in Live(w) ==> !NoEnd(steps, o, w.calls)
  {
    var w1 := Apply(w, CloseAllBegin);
    CloseBegun(w);
    RunCalls(w1, steps, w.calls);
    SettledIff(Run(w1, steps), w.calls);
  }

  lemma SettledIff(w: World, call: nat)
    ensures Settled(w, call) <==> forall o: nat :: LogoutTask(o, call) !in w.tasks
  {
    if forall o: nat :: LogoutTask(o, call) !in w.tasks {
      forall t | t in w.tasks && t.LogoutTask? ensures t.call != call {
        assert t == LogoutTask(t.obj, t.call);
      }
    }
  }

  /** CLOSING ALL. Let any steps interleave with a `closeAll` call. When its turn comes,
      it empties the registry if the condition above holds; otherwise it changes no
      entry, and a session is registered if and only if the history of the run, from
      before the call on, says so. */
  lemma CloseAllOnAnyRun(w: World, steps: seq<Step>, o: nat)
    requires Safe(w)
    ensures var w1 := Apply(w, CloseAllBegin);
            var ready := NoneDisconnected(w) && NeverSettles(w1, steps, w.calls)
                         && forall p :: p in Live(w) ==> !NoEnd(steps, p, w.calls);
            var end := Apply(Run(w1, steps), CloseAllEnd(w.calls));
            && end.sessions == (if ready then map[] else Run(w1, steps).sessions)
            && (Registered(end, o) <==> !ready && Holds(Registered(w, o), w, [CloseAllBegin] + steps, o))
  {
    CloseReadyIff(w, steps);
    RegisteredIff(w, [CloseAllBegin] + steps, o);
    assert ([CloseAllBegin] + steps)[1..] == steps;
    LastOfClosing(Run(Apply(w, CloseAllBegin), steps), w.calls, o);
  }

  lemma LastOfClosing(w: World, call: nat, o: nat)
    ensures Apply(w, CloseAllEnd(call)).sessions == if CloseReady(w, call) then map[] else w.sessions
    ensures Registered(Apply(w, CloseAllEnd(call)), o) <==> !CloseReady(w, call) && Registered(w, o)
  {
  }

  /** The logouts of a `closeAll` call end in the given order. */
  function EndAll(w: World, call: nat, order: seq<nat>, endings: nat -> Ending): World
    decreases |order|
  {
    if order == [] then w
    else EndAll(Apply(w, LogoutEnd(order[0], call, endings(order[0]))), call, order[1..], endings)
  }

  /** The call from its first step to its last. */
  function CloseAll(w: World, order: seq<nat>, endings: nat -> Ending): World {
    Apply(EndAll(Apply(w, CloseAllBegin), w.calls, order, endings), CloseAllEnd(w.calls))
  }

  /** A registered session keeps its entry: its logout rejects at once, or a
      handler throws before its removal. */
  predicate Stays(w: World, endings: nat -> Ending, o: nat)
    requires o < |w.objs|
  {
    w.objs[o].state == DISCONNECTED || !Removing(endings(o))
  }

  /** The entries of the sessions that stay. */
  function Survivors(w: World, endings: nat -> Ending): map<string, nat> {
    map id | id in w.sessions && w.sessions[id] < |w.objs| && Stays(w, endings, w.sessions[id]) :: w.sessions[id]
  }

  /** The entries left when the sessions of `ended` have gone down. */
  function Kept(w: World, ended: set<nat>, endings: nat -> Ending): map<string, nat> {
    map id | id in w.sessions && !(w.sessions[id] in ended && Removing(endings(w.sessions[id]))) :: w.sessions[id]
  }

  ghost predicate NoRepeat(order: seq<nat>) {
    forall i, j :: 0 <= i < j < |order| ==> order[i] != order[j]
  }

  function Items(order: seq<nat>): set<nat> {
    set i | 0 <= i < |order| :: order[i]
  }

  /** The logouts of the call that are pending, and whether it has rejected. */
  ghost predicate Pending(w: World, tasks: set<Task>, ended: set<nat>, rest: set<nat>, endings: nat -> Ending) {
    && (forall o: nat :: LogoutTask(o, w.calls) in tasks <==> o in rest)
    && (CloseTask(w.calls) in tasks <==> NoneDisconnected(w) && forall o: nat :: o in ended ==> endings(o) == Completes)
  }

  /** Midway: the sessions of `rest` still have to end. */
  ghost predicate Closing(w: World, v: World, ended: set<nat>, rest: seq<nat>, endings: nat -> Ending) {
    && |v.objs| == |w.objs| && (forall o :: 0 <= o < |w.objs| ==> v.objs[o].id == w.objs[o].id)
    && v.sessions == Kept(w, ended, endings) && Pending(w, v.tasks, ended, Items(rest), endings)
  }

  lemma KeptOne(w: World, ended: set<nat>, o: nat, endings: nat -> Ending)
    requires Safe(w) && o in Live(w)
    ensures Kept(w, ended + {o}, endings) ==
            if Removing(endings(o)) then Kept(w, ended, endings) - {w.objs[o].id} else Kept(w, ended, endings)
  {
    assert forall id :: id in w.sessions && w.sessions[id] == o ==> id == w.objs[o].id;
  }

  lemma RestItems(order: seq<nat>)
    requires order != [] && NoRepeat(order)
    ensures Items(order) == {order[0]} + Items(order[1..]) && order[0] !in Items(order[1..]) && NoRepeat(order[1..])
  {
    assert forall i :: 0 < i < |order| ==> order[1..][i - 1] == order[i];
    assert forall o :: o in Items(order) ==> o == order[0] || o in Items(order[1..]);
  }

  lemma PendingStep(w: World, tasks: set<Task>, ended: set<nat>, rest: set<nat>, o: nat, endings: nat -> Ending)
    requires o in rest && Pending(w, tasks, ended, rest, endings)
    ensures Pending(w, tasks - Ended(o, w.calls, endings(o)), ended + {o}, rest - {o}, endings)
  {
  }

  lemma EndLogoutSessions(v: World, o: nat, call: nat, e: Ending)
    requires o < |v.objs|
    ensures EndLogout(v, o, call, e).sessions == if Removing(e) then v.sessions - {v.objs[o].id} else v.sessions
  {
    if v.objs[o].id !in v.sessions {
      assert v.sessions - {v.objs[o].id} == v.sessions;
    }
  }

  lemma ClosingStep(w: World, v: World, ended: set<nat>, order: seq<nat>, endings: nat -> Ending)
    requires Safe(w) && order != [] && NoRepeat(order) && order[0] in Live(w) && Closing(w, v, ended, order, endings)
    ensures Closing(w, Apply(v, LogoutEnd(order[0], w.calls, endings(order[0]))), ended + {order[0]}, order[1..], endings)
  {
    var o := order[0];
    RestItems(order);
    assert Items(order) - {o} == Items(order[1..]);
    assert o in Items(order) && LogoutTask(o, w.calls) in v.tasks;
    KeptOne(w, ended, o, endings);
    PendingStep(w, v.tasks, ended, Items(order), o, endings);
    EndLogoutSessions(v, o, w.calls, endings(o));
    EndLogoutFrame(v, o, w.calls, endings(o));
  }

  lemma {:induction false} ClosingRun(w: World, v: World, ended: set<nat>, order: seq<nat>, all: set<nat>, endings: nat -> Ending)
    requires Safe(w) && NoRepeat(order) && all <= Live(w) && ended + Items(order) == all
    requires Closing(w, v, ended, order, endings)
    ensures Closing(w, EndAll(v, w.calls, order, endings), all, [], endings)
    decreases |order|
  {
    if order == [] {
      assert ended + Items(order) == ended;
    } else {
      RestItems(order);
      assert order[0] in all;
      ClosingStep(w, v, ended, order, endings);
      assert ended + {order[0]} + Items(order[1..]) == all;
      ClosingRun(w, Apply(v, LogoutEnd(order[0], w.calls, endings(order[0]))), ended + {order[0]}, order[1..], all, endings);
    }
  }

  lemma ClosingBegins(w: World, order: seq<nat>, endings: nat -> Ending)
    requires Safe(w) && Items(order) == Live(w)
    ensures Closing(w, Apply(w, CloseAllBegin), {}, order, endings)
  {
    assert Kept(w, {}, endings) == w.sessions;
    assert forall o :: 0 <= o < |w.objs| ==> BeginAll(w).objs[o].id == w.objs[o].id;
    PendingBegins(w, endings);
  }

  lemma PendingBegins(w: World, endings: nat -> Ending)
    requires Known(w.tasks, w.calls, |w.objs|)
    ensures Pending(w, BeginAll(w).tasks, {}, Live(w), endings)
  {
    assert forall t :: t in w.tasks ==> t.call != w.calls;
  }

  lemma AllKept(w: World, endings: nat -> Ending)
    requires Safe(w) && NoneDisconnected(w) && forall o :: o in Live(w) ==> endings(o) == Completes
    ensures Kept(w, Live(w), endings) == map[]
  {
    assert forall id :: id in w.sessions ==> w.sessions[id] in Live(w);
  }

  /** UNDISTURBED CLOSING. When a `closeAll` call has run to its end with nothing but
      its own logouts in between, in any order and with any of them throwing, the
      registry holds exactly the sessions that were disconnected at the call and those
      a handler of which threw before their removal. */
  lemma CloseAllLeaves(w: World, order: seq<nat>, endings: nat -> Ending)
    requires Safe(w) && NoRepeat(order) && Items(order) == Live(w)
    ensures CloseAll(w, order, endings).sessions == Survivors(w, endings)
  {
    ClosingBegins(w, order, endings);
    assert {} + Items(order) == Live(w);
    ClosingRun(w, Apply(w, CloseAllBegin), {}, order, Live(w), endings);
    ClosingEnds(w, EndAll(Apply(w, CloseAllBegin), w.calls, order, endings), endings);
    KeptIsStays(w, endings);
  }

  lemma ClosingEnds(w: World, v: World, endings: nat -> Ending)
    requires Safe(w) && Closing(w, v, Live(w), [], endings)
    ensures Apply(v, CloseAllEnd(w.calls)).sessions == Kept(w, Live(w), endings)
  {
    if CloseTask(w.calls) in v.tasks {
      AllKept(w, endings);
    }
  }

  lemma KeptIsStays(w: World, endings: nat -> Ending)
    requires Safe(w)
    ensures Kept(w, Live(w), endings) == Survivors(w, endings)
  {
    forall id | id in w.sessions ensures w.sessions[id] in Live(w) <==> w.objs[w.sessions[id]].state != DISCONNECTED {
      if w.sessions[id] in Live(w) {
        var k :| k in w.sessions && w.sessions[k] == w.sessions[id] && w.objs[w.sessions[k]].state != DISCONNECTED;
      }
    }
  }

  /** So, undisturbed, it empties the registry if and only if no session was
      disconnected at the call and no handler threw before a removal. */
  lemma CloseAllEmptiesIff(w: World, order: seq<nat>, endings: nat -> Ending)
    requires Safe(w) && NoRepeat(order) && Items(order) == Live(w)
    ensures CloseAll(w, order, endings).sessions == map[] <==> forall id :: id in w.sessions ==> !Stays(w, endings, w.sessions[id])
  {
    CloseAllLeaves(w, order, endings);
    assert forall id :: id in Survivors(w, endings) <==> id in w.sessions && Stays(w, endings, w.sessions[id]);
  }

  // --------------------------------------------------------------- witnesses

  lemma {:induction false} RunConcat(w: World, a: seq<Step>, b: seq<Step>)
    ensures Run(w, a + b) == Run(Run(w, a), b)
    decreases |a|
  {
    if a == [] {
      assert a + b == b;
    } else {
      assert (a + b)[1..] == a[1..] + b;
      RunConcat(Apply(w, a[0]), a[1..], b);
    }
  }

  lemma RunTwo(w: World, p: Step, q: Step)
    ensures Run(w, [p, q]) == Apply(Apply(w, p), q)
  {
    assert [p, q][1..] == [q] && [q][1..] == [];
    assert Run(w, [p, q]) == Run(Apply(w, p), [q]) == Run(Apply(Apply(w, p), q), []);
  }

  /** A new session object registers under a free id and logs on. */
  function Connect(id: string, o: nat): seq<Step> {
    [NewSession(id), RegisterBegin(o)] + [HandleLogon(o, true)]
  }

  lemma Connects(w: World, id: string)
    requires w.maxSessions == 0 && id !in w.sessions
    ensures Run(w, Connect(id, |w.objs|)) ==
            w.(objs := w.objs + [Obj(id, LOGGED_ON)], sessions := w.sessions[id := |w.objs|])
  {
    var o := |w.objs|;
    RunConcat(w, [NewSession(id), RegisterBegin(o)], [HandleLogon(o, true)]);
    RunTwo(w, NewSession(id), RegisterBegin(o));
    var w1 := w.(objs := w.objs + [Obj(id, DISCONNECTED)], sessions := w.sessions[id := o]);
    assert Run(w, [NewSession(id), RegisterBegin(o)]) == w1;
    assert Run(w1, [HandleLogon(o, true)]) == Apply(w1, HandleLogon(o, true));
    assert (w.objs + [Obj(id, DISCONNECTED)])[o := Obj(id, LOGGED_ON)] == w.objs + [Obj(id, LOGGED_ON)];
  }

  /** The session's logout starts, and the peer's own logout overtakes it. */
  lemma Overtaken(w: World, id: string)
    requires w.objs == [Obj(id, LOGGED_ON)] && w.sessions == map[id := 0]
    ensures var w' := Run(w, [LogoutBegin(0), HandleLogout(0, Completes)]);
            && w'.maxSessions == w.maxSessions && w'.objs == [Obj(id, DISCONNECTED)]
            && w'.sessions == map[] && LogoutTask(0, w.calls) in w'.tasks
  {
    RunTwo(w, LogoutBegin(0), HandleLogout(0, Completes));
    var w1 := Apply(w, LogoutBegin(0));
    assert w1.objs == [Obj(id, LOGGING_OUT)] && w1.sessions == w.sessions && LogoutTask(0, w.calls) in w1.tasks;
    LastLeaves(w1, id);
  }

  lemma LastLeaves(w: World, id: string)
    requires w.objs == [Obj(id, LOGGING_OUT)] && w.sessions == map[id := 0]
    ensures var w' := Apply(w, HandleLogout(0, Completes));
            && w'.maxSessions == w.maxSessions && w'.tasks == w.tasks
            && w'.objs == [Obj(id, DISCONNECTED)] && w'.sessions == map[]
  {
    DisconnectFrame(w, 0, Completes);
    assert w.sessions - {id} == map[];
  }

  lemma ReplacedThenRemoved(w: World, id: string, call: nat)
    requires w.maxSessions == 0 && w.objs == [Obj(id, DISCONNECTED)] && w.sessions == map[] && LogoutTask(0, call) in w.tasks
    ensures var w' := Run(w, Connect(id, 1) + [LogoutEnd(0, call, Completes)]);
            |w'.objs| == 2 && w'.objs[1] == Obj(id, LOGGED_ON) && w'.sessions == map[]
  {
    RunConcat(w, Connect(id, 1), [LogoutEnd(0, call, Completes)]);
    Connects(w, id);
    var w1 := Run(w, Connect(id, 1));
    assert w1.sessions == map[id := 1] && w1.objs == [Obj(id, DISCONNECTED), Obj(id, LOGGED_ON)];
    assert w1.sessions - {id} == map[];
    assert [LogoutEnd(0, call, Completes)][1..] == [];
    assert Run(w1, [LogoutEnd(0, call, Completes)]) == Apply(w1, LogoutEnd(0, call, Completes));
  }

  /** A run that strands a session: a peer logs out and on again while the answer to
      an earlier logout is still being written; it ends logged on, unregistered. */
  lemma LoggedOnButUnregistered(id: string)
    ensures var w := Run(Init(0), Connect(id, 0) + ([LogoutBegin(0), HandleLogout(0, Completes)]
                                                    + (Connect(id, 1) + [LogoutEnd(0, 0, Completes)])));
            |w.objs| == 2 && w.objs[1] == Obj(id, LOGGED_ON) && w.sessions == map[]
  {
    var w := Init(0);
    var middle, last := [LogoutBegin(0), HandleLogout(0, Completes)], Connect(id, 1) + [LogoutEnd(0, 0, Completes)];
    RunConcat(w, Connect(id, 0), middle + last);
    Connects(w, id);
    var w1 := Run(w, Connect(id, 0));
    assert w1.objs == [Obj(id, LOGGED_ON)] && w1.sessions == map[id := 0] && w1.calls == 0;
    RunConcat(w1, middle, last);
    Overtaken(w1, id);
    ReplacedThenRemoved(Run(w1, middle), id, 0);
  }

  lemma ClosingBegun(w: World, id: string)
    requires w.objs == [Obj(id, LOGGED_ON)] && w.sessions == map[id := 0] && w.tasks == {}
    ensures var w' := Run(w, [CloseAllBegin, LogoutEnd(0, w.calls, ThrowsLast)]);
            && w'.maxSessions == w.maxSessions && w'.objs == [Obj(id, DISCONNECTED)] && w'.sessions == map[]
            && w'.tasks == {}
  {
    RunTwo(w, CloseAllBegin, LogoutEnd(0, w.calls, ThrowsLast));
    ClosesOne(w, id);
    OneRejects(Apply(w, CloseAllBegin), id, w.calls);
  }

  lemma ClosesOne(w: World, id: string)
    requires w.objs == [Obj(id, LOGGED_ON)] && w.sessions == map[id := 0] && w.tasks == {}
    ensures var v := Apply(w, CloseAllBegin);
            && v.maxSessions == w.maxSessions && v.objs == [Obj(id, LOGGING_OUT)] && v.sessions == w.sessions
            && v.tasks == {LogoutTask(0, w.calls), CloseTask(w.calls)}
  {
    assert Live(w) == {0} by {
      assert id in w.sessions;
    }
    assert Apply(w, CloseAllBegin).tasks == {LogoutTask(0, w.calls), CloseTask(w.calls)};
  }

  lemma OneRejects(w: World, id: string, call: nat)
    requires w.objs == [Obj(id, LOGGING_OUT)] && w.sessions == map[id := 0]
    requires w.tasks == {LogoutTask(0, call), CloseTask(call)}
    ensures var v := Apply(w, LogoutEnd(0, call, ThrowsLast));
            && v.maxSessions == w.maxSessions && v.objs == [Obj(id, DISCONNECTED)] && v.sessions == map[] && v.tasks == {}
  {
    EndLogoutFrame(w, 0, call, ThrowsLast);
    EndLogoutSessions(w, 0, call, ThrowsLast);
    assert w.sessions - {id} == map[];
  }

  /** A run in which a step between spoils the closing, though no session was
      disconnected at the call and none stayed: its logout rejects after the removal,
      and a session that connects before the end keeps its entry. */
  lemma ClosingDisturbed(w: World, a: string, b: string)
    requires w == Run(Init(0), Connect(a, 0))
    ensures NoneDisconnected(w)
    ensures Run(w, [CloseAllBegin, LogoutEnd(0, 0, ThrowsLast)] + (Connect(b, 1) + [CloseAllEnd(0)])).sessions == map[b := 1]
  {
    var first, last := [CloseAllBegin, LogoutEnd(0, 0, ThrowsLast)], Connect(b, 1) + [CloseAllEnd(0)];
    Connects(Init(0), a);
    assert w.objs == [Obj(a, LOGGED_ON)] && w.sessions == map[a := 0] && w.calls == 0 && w.tasks == {};
    RunConcat(w, first, last);
    ClosingBegun(w, a);
    LateConnect(Run(w, first), b);
  }

  lemma LateConnect(w: World, b: string)
    requires w.maxSessions == 0 && |w.objs| == 1 && w.sessions == map[] && w.tasks == {}
    ensures Run(w, Connect(b, 1) + [CloseAllEnd(0)]).sessions == map[b := 1]
  {
    RunConcat(w, Connect(b, 1), [CloseAllEnd(0)]);
    Connects(w, b);
    var v := Run(w, Connect(b, 1));
    RunOne(v, CloseAllEnd(0));
    NothingToClose(v);
  }

  lemma NothingToClose(w: World)
    requires w.tasks == {}
    ensures Apply(w, CloseAllEnd(0)) == w
  {
  }

  /** Another: the registry is full, so the registration that nobody awaits fails,
      and the logon is handled all the same. */
  lemma LogonWithoutRoom(w: World, id: string)
    requires Safe(w) && Full(w.maxSessions, w.sessions) && id !in w.sessions
    ensures var o, w' := |w.objs|, Run(w, Connect(id, |w.objs|));
            LoggedOn(w', o) && !Registered(w', o) && w'.sessions == w.sessions
  {
    var o := |w.objs|;
    RunConcat(w, [NewSession(id), RegisterBegin(o)], [HandleLogon(o, true)]);
    RunTwo(w, NewSession(id), RegisterBegin(o));
    NoRoom(w, id);
    RunOne(w.(objs := w.objs + [Obj(id, DISCONNECTED)]), HandleLogon(o, true));
    LogsOn(w, id);
  }

  lemma LogsOn(w: World, id: string)
    requires id !in w.sessions
    ensures var o := |w.objs|;
            var w' := Apply(w.(objs := w.objs + [Obj(id, DISCONNECTED)]), HandleLogon(o, true));
            LoggedOn(w', o) && !Registered(w', o) && w'.sessions == w.sessions
  {
  }

  lemma RunOne(w: World, p: Step)
    ensures Run(w, [p]) == Apply(w, p)
  {
    assert [p][1..] == [];
  }

  lemma NoRoom(w: World, id: string)
    requires Full(w.maxSessions, w.sessions) && id !in w.sessions
    ensures Apply(Apply(w, NewSession(id)), RegisterBegin(|w.objs|)) == w.(objs := w.objs + [Obj(id, DISCONNECTED)])
  {
  }
}
