/** `ProtocolManager`: messages that arrive before the logon wait in a queue,
    which the logon drains through the same handler. */
module Protocol {
  import opened Text
  import opened Fields
  import opened Messages

  // ------------------------------------------------------- specification

  const VALIDATED: seq<Tag> :=
    [BEGIN_STRING, BODY_LENGTH, MSG_TYPE, SENDER_COMP_ID, TARGET_COMP_ID, MSG_SEQ_NUM, SENDING_TIME]

  predicate IsLogon(m: FieldMap) {
    Get(m, MSG_TYPE) == Str("A")
  }

  predicate IsLogout(m: FieldMap) {
    Get(m, MSG_TYPE) == Str("5")
  }

  /** Accepted by `FIX44Validator`; otherwise `processIncoming` throws. */
  predicate IsValid(m: FieldMap) {
    FirstMissing(m, VALIDATED) == None && (IsLogon(m) ==> Has(m, HEART_BT_INT))
  }

  /** The manager's state, with the trace of handled messages. */
  datatype State = State(isLoggedOn: bool, queue: seq<FieldMap>, handled: seq<FieldMap>)

  /** `handleMessage` */
  function Handle(s: State, m: FieldMap): (r: State)
    ensures |r.queue| <= |s.queue|
    decreases |s.queue|, 1
  {
    var s1 := s.(handled := s.handled + [m]);
    if IsLogon(m) then Drain(s1.(isLoggedOn := true))
    else if IsLogout(m) then s1.(isLoggedOn := false)
    else s1
  }

  /** The loop of `handleLogon`. */
  function Drain(s: State): (r: State)
    ensures |r.queue| <= |s.queue|
    decreases |s.queue|, 0
  {
    if s.queue == [] then s else Drain(Handle(s.(queue := s.queue[1..]), s.queue[0]))
  }

  /** `processIncoming` */
  function Incoming(s: State, m: FieldMap): State {
    if !IsValid(m) then s
    else if !s.isLoggedOn && !IsLogon(m) then s.(queue := s.queue + [m])
    else Handle(s, m)
  }

  function Run(s: State, ms: seq<FieldMap>): State
    decreases |ms|
  {
    if ms == [] then s else Run(Incoming(s, ms[0]), ms[1..])
  }

  // ------------------------------------------------------------ the class

  class ProtocolManager {
    var messageQueue: seq<FieldMap>
    var isLoggedOn: bool
    ghost var handled: seq<FieldMap>

    ghost function View(): State
      reads this
    {
      State(isLoggedOn, messageQueue, handled)
    }

    constructor ()
      ensures View() == State(false, [], [])
    {
      messageQueue, isLoggedOn, handled := [], false, [];
    }

    /** Returns false where the code throws. */
    method ProcessIncoming(m: FieldMap) returns (ok: bool)
      modifies this
      ensures ok == IsValid(m) && View() == Incoming(old(View()), m)
    {
      ok := IsValid(m);
      if !ok {
        return;
      }
      if !isLoggedOn && !IsLogon(m) {
        messageQueue := messageQueue + [m];
        return;
      }
      HandleMessage(m);
    }

    method HandleMessage(m: FieldMap)
      modifies this
      ensures View() == Handle(old(View()), m)
      decreases |messageQueue|, 1
    {
      handled := handled + [m];
      if IsLogon(m) {
        HandleLogon();
      } else if IsLogout(m) {
        isLoggedOn := false;
      }
    }

    method HandleLogon()
      modifies this
      ensures View() == Drain(old(View()).(isLoggedOn := true))
      decreases |messageQueue|, 0
    {
      isLoggedOn := true;
      while |messageQueue| > 0
        invariant |messageQueue| <= |old(messageQueue)|
        invariant Drain(View()) == Drain(old(View()).(isLoggedOn := true))
        decreases |messageQueue|
      {
        var queuedMsg := messageQueue[0];
        messageQueue := messageQueue[1..];
        HandleMessage(queuedMsg);
      }
    }
  }

  // ----------------------------------------------------- the drain and trace

  predicate NoLogon(ms: seq<FieldMap>) {
    forall i :: 0 <= i < |ms| ==> !IsLogon(ms[i])
  }

  predicate NoLogout(ms: seq<FieldMap>) {
    forall i :: 0 <= i < |ms| ==> !IsLogout(ms[i])
  }

  /** DRAIN. A queue without logons is handled once each, in order, without
      re-entering `handleLogon`, and ends empty, even when a queued logout
      clears the flag halfway. */
  lemma {:induction false} DrainHandlesEach(s: State)
    requires NoLogon(s.queue)
    ensures Drain(s) == State(s.isLoggedOn && NoLogout(s.queue), [], s.handled + s.queue)
    decreases |s.queue|
  {
    if s.queue != [] {
      var m, rest := s.queue[0], s.queue[1..];
      var s1 := State(s.isLoggedOn && !IsLogout(m), rest, s.handled + [m]);
      assert Handle(s.(queue := rest), m) == s1;
      DrainHandlesEach(s1);
      assert s.handled + [m] + rest == s.handled + s.queue;
      assert NoLogout(s.queue) <==> !IsLogout(m) && NoLogout(rest) by {
        assert s.queue == [m] + rest;
      }
    }
  }

  /** A logon was handled, and no logout since. */
  ghost predicate LogonStands(handled: seq<FieldMap>) {
    exists i :: 0 <= i < |handled| && IsLogon(handled[i]) && NoLogout(handled[i..])
  }

  ghost predicate Inv(s: State) {
    && NoLogon(s.queue)
    && (s.isLoggedOn ==> s.queue == [])
    && (s.isLoggedOn <==> LogonStands(s.handled))
  }

  lemma ExclusiveTypes(m: FieldMap)
    ensures !(IsLogon(m) && IsLogout(m))
  {
    assert "A"[0] != "5"[0];
  }

  lemma StandsAppend(handled: seq<FieldMap>, m: FieldMap)
    ensures LogonStands(handled + [m]) <==> IsLogon(m) || (!IsLogout(m) && LogonStands(handled))
  {
    var h := handled + [m];
    ExclusiveTypes(m);
    if IsLogon(m) {
      assert h[|handled|..] == [m];
      assert IsLogon(h[|handled|]) && NoLogout(h[|handled|..]);
    } else {
      if LogonStands(h) {
        var i :| 0 <= i < |h| && IsLogon(h[i]) && NoLogout(h[i..]);
        assert i < |handled| && h[i] == handled[i];
        assert h[i..] == handled[i..] + [m];
        assert h[i..][|h| - 1 - i] == m;
        forall j | 0 <= j < |handled[i..]| ensures !IsLogout(handled[i..][j]) {
          assert h[i..][j] == handled[i..][j];
        }
        assert LogonStands(handled);
      }
      if !IsLogout(m) && LogonStands(handled) {
        var i :| 0 <= i < |handled| && IsLogon(handled[i]) && NoLogout(handled[i..]);
        assert h[i..] == handled[i..] + [m] && h[i] == handled[i];
        assert LogonStands(h);
      }
    }
  }

  lemma {:induction false} StandsAppendAll(handled: seq<FieldMap>, ms: seq<FieldMap>)
    requires NoLogon(ms)
    ensures LogonStands(handled + ms) <==> NoLogout(ms) && LogonStands(handled)
    decreases |ms|
  {
    if ms == [] {
      assert handled + ms == handled;
    } else {
      StandsAppend(handled, ms[0]);
      StandsAppendAll(handled + [ms[0]], ms[1..]);
      assert handled + [ms[0]] + ms[1..] == handled + ms;
      assert ms == [ms[0]] + ms[1..];
    }
  }

  function NonLogons(ms: seq<FieldMap>): seq<FieldMap> {
    if ms == [] then [] else (if IsLogon(ms[0]) then [] else [ms[0]]) + NonLogons(ms[1..])
  }

  function Valids(ms: seq<FieldMap>): seq<FieldMap> {
    if ms == [] then [] else (if IsValid(ms[0]) then [ms[0]] else []) + Valids(ms[1..])
  }

  lemma {:induction false} NonLogonsConcat(a: seq<FieldMap>, b: seq<FieldMap>)
    ensures NonLogons(a + b) == NonLogons(a) + NonLogons(b)
  {
    if a == [] {
      assert a + b == b;
    } else {
      var head := if IsLogon(a[0]) then [] else [a[0]];
      assert (a + b)[1..] == a[1..] + b;
      NonLogonsConcat(a[1..], b);
      Assoc(head, NonLogons(a[1..]), NonLogons(b));
    }
  }

  lemma {:induction false} NonLogonsSame(ms: seq<FieldMap>)
    requires NoLogon(ms)
    ensures NonLogons(ms) == ms
  {
    if ms != [] {
      NonLogonsSame(ms[1..]);
    }
  }

  /** Handled non-logon messages, then the waiting ones. */
  function Seen(s: State): seq<FieldMap> {
    NonLogons(s.handled) + s.queue
  }

  lemma NonLogonsOne(m: FieldMap)
    ensures NonLogons([m]) == if IsLogon(m) then [] else [m]
  {
    assert [m][1..] == [];
  }

  /** Handling a logon: the flag, the empty queue and the trace it leaves. */
  lemma LogonDrains(s: State, m: FieldMap)
    requires NoLogon(s.queue) && IsLogon(m)
    ensures Handle(s, m) == State(NoLogout(s.queue), [], s.handled + [m] + s.queue)
  {
    DrainHandlesEach(State(true, s.queue, s.handled + [m]));
  }

  lemma LogonLaw(s: State, m: FieldMap)
    requires Inv(s) && IsLogon(m)
    ensures Inv(Handle(s, m)) && Seen(Handle(s, m)) == Seen(s)
  {
    LogonDrains(s, m);
    var h := s.handled + [m];
    StandsAppend(s.handled, m);
    StandsAppendAll(h, s.queue);
    SeenAfterLogon(s.handled, m, s.queue);
  }

  lemma SeenAfterLogon(handled: seq<FieldMap>, m: FieldMap, queue: seq<FieldMap>)
    requires NoLogon(queue) && IsLogon(m)
    ensures NonLogons(handled + [m] + queue) == NonLogons(handled) + queue
  {
    NonLogonsConcat(handled, [m]);
    NonLogonsOne(m);
    NonLogonsConcat(handled + [m], queue);
    NonLogonsSame(queue);
  }

  lemma OtherLaw(s: State, m: FieldMap)
    requires Inv(s) && s.isLoggedOn && !IsLogon(m)
    ensures Inv(Handle(s, m)) && Seen(Handle(s, m)) == Seen(s) + [m]
  {
    StandsAppend(s.handled, m);
    NonLogonsConcat(s.handled, [m]);
    NonLogonsOne(m);
  }

  /** VALIDITY. A message is accepted if and only if it has tags 8, 9, 35, 49, 56, 34
      and 52 and, if its type is A, tag 108. */
  lemma ValidIff(m: FieldMap)
    ensures IsValid(m) <==>
            && Has(m, Number(8)) && Has(m, Number(9)) && Has(m, Number(35)) && Has(m, Number(49))
            && Has(m, Number(56)) && Has(m, Number(34)) && Has(m, Number(52))
            && (Get(m, Number(35)) == Str("A") ==> Has(m, Number(108)))
  {
    var ts := VALIDATED;
    assert ts[0] == Number(8) && ts[1] == Number(9) && ts[2] == Number(35) && ts[3] == Number(49);
    assert ts[4] == Number(56) && ts[5] == Number(34) && ts[6] == Number(52) && |ts| == 7;
    assert FirstMissing(m, ts) == None <==> forall t :: t in ts ==> Has(m, t);
  }

  /** ARRIVALS BY TYPE. An invalid message changes nothing. A valid one of type A is handled at once, and after it the
      whole queue; any other waits before the logon and is handled after it. Type 5
      ends the logon, also from the queue, and no other type changes the flag. */
  lemma ArrivalByType(s: State, m: FieldMap)
    requires forall q :: q in s.queue ==> Get(q, Number(35)) != Str("A")
    ensures var kind, r := Get(m, Number(35)), Incoming(s, m);
            if !IsValid(m) then
              r == s
            else if kind == Str("A") then
              && r.handled == s.handled + [m] + s.queue && r.queue == []
              && (r.isLoggedOn <==> forall q :: q in s.queue ==> Get(q, Number(35)) != Str("5"))
            else if !s.isLoggedOn then
              r == State(false, s.queue + [m], s.handled)
            else
              r == State(kind != Str("5"), s.queue, s.handled + [m])
  {
    if IsValid(m) && Get(m, Number(35)) == Str("A") {
      assert forall i :: 0 <= i < |s.queue| ==> s.queue[i] in s.queue;
      LogonDrains(s, m);
    }
  }

  /** What one arrival adds to the trace. */
  function Arrived(m: FieldMap): seq<FieldMap> {
    if IsValid(m) && !IsLogon(m) then [m] else []
  }

  lemma ArrivalCounts(ms: seq<FieldMap>)
    requires ms != []
    ensures NonLogons(Valids(ms)) == Arrived(ms[0]) + NonLogons(Valids(ms[1..]))
  {
    var head := if IsValid(ms[0]) then [ms[0]] else [];
    NonLogonsConcat(head, Valids(ms[1..]));
    NonLogonsOne(ms[0]);
  }

  lemma StepLaw(s: State, m: FieldMap)
    requires Inv(s)
    ensures Inv(Incoming(s, m))
    ensures Seen(Incoming(s, m)) == Seen(s) + Arrived(m)
  {
    if IsValid(m) {
      if IsLogon(m) {
        LogonLaw(s, m);
      } else if s.isLoggedOn {
        OtherLaw(s, m);
      }
    }
  }

  /** TRACE LAW. After any run, the handled non-logon messages followed by the
      queue are the valid non-logon arrivals, in order; the queue holds no logon
      and is empty while logged on; and the manager is logged on exactly when a
      logon has been handled with no logout handled since. */
  lemma {:induction false} TraceLaw(s: State, ms: seq<FieldMap>)
    requires Inv(s)
    ensures Inv(Run(s, ms))
    ensures Seen(Run(s, ms)) == Seen(s) + NonLogons(Valids(ms))
    decreases |ms|
  {
    if ms != [] {
      StepLaw(s, ms[0]);
      TraceLaw(Incoming(s, ms[0]), ms[1..]);
      ArrivalCounts(ms);
      Assoc(Seen(s), Arrived(ms[0]), NonLogons(Valids(ms[1..])));
    }
  }

  /** The law from construction on. */
  lemma TraceLawFromStart(ms: seq<FieldMap>)
    ensures var s := Run(State(false, [], []), ms);
            && NonLogons(s.handled) + s.queue == NonLogons(Valids(ms))
            && NoLogon(s.queue) && (s.isLoggedOn ==> s.queue == [])
            && (s.isLoggedOn <==> LogonStands(s.handled))
  {
    TraceLaw(State(false, [], []), ms);
  }
}
