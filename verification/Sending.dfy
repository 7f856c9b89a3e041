/** What one `Session.sendMessage` call does, and what holds over any run of
    such calls: stamping, sequence numbers, reversal and routing. */
module Sending {
  import opened Text
  import opened Fields
  import opened Messages
  import opened Parser

  datatype SessionConfig = SessionConfig(senderCompId: string, targetCompId: string, beginString: string)

  /** `${sender}->${target}` */
  function IdOf(sender: string, target: string): string {
    sender + "->" + target
  }

  function SessionId(c: SessionConfig): string {
    IdOf(c.senderCompId, c.targetCompId)
  }

  /** `buildSessionId` of the acceptor, on a message. */
  function BuildSessionId(m: FieldMap): string {
    IdOf(PrintValue(Get(m, SENDER_COMP_ID)), PrintValue(Get(m, TARGET_COMP_ID)))
  }

  // ----------------------------------------------------- one sendMessage

  function PutMissing(m: FieldMap, t: Tag, v: Value): FieldMap {
    if Has(m, t) then m else Put(m, t, v)
  }

  /** `addRequiredFields`; integer keys of an object enumerate in ascending order. */
  function Stamp(c: SessionConfig, seqNum: nat, time: string, m: FieldMap): FieldMap {
    var m1 := PutMissing(m, BEGIN_STRING, Str(c.beginString));
    var m2 := PutMissing(m1, MSG_SEQ_NUM, Whole(seqNum));
    var m3 := PutMissing(m2, SENDER_COMP_ID, Str(c.senderCompId));
    var m4 := PutMissing(m3, SENDING_TIME, Str(time));
    PutMissing(m4, TARGET_COMP_ID, Str(c.targetCompId))
  }

  /** The sending side of a session: its counter, its socket and what the socket
      has been given to write. */
  datatype Line = Line(config: SessionConfig, nextSeqNum: nat, writable: bool, log: seq<string>)

  datatype Outcome = Handed | NotWritable | Unprintable(tag: Tag)

  function OutcomeOf(l: Line, stamped: FieldMap): Outcome {
    if !l.writable then NotWritable
    else match FirstMissing(Reverse(stamped), REQUIRED)
         case Some(t) => Unprintable(t)
         case None => Handed
  }

  /** The line after a send of a stamped message. */
  function Advance(l: Line, stamped: FieldMap): Line {
    l.(nextSeqNum := l.nextSeqNum + 1,
    log := if OutcomeOf(l, stamped) == Handed then l.log + [Wire(Reverse(stamped))] else l.log)
  }

  /** The line after a send of the given message. */
  function SendLine(l: Line, m: FieldMap, time: string): Line {
    Advance(l, Stamp(l.config, l.nextSeqNum, time, m))
  }

  // ---------------------------------------------------------- stamping

  lemma PutMissingLaws(m: FieldMap, t: Tag, v: Value)
    requires Distinct(m)
    ensures var r := PutMissing(m, t, v);
            && Distinct(r) && (forall u :: Has(r, u) <==> Has(m, u) || u == t)
            && (forall u :: Get(r, u) == if u == t && !Has(m, t) then v else Get(m, u))
  {
    PutLaws(m, t, v);
  }

  function Default(c: SessionConfig, seqNum: nat, time: string, t: Tag): Value {
    if t == Number(8) then Str(c.beginString)
    else if t == Number(34) then Whole(seqNum)
    else if t == Number(49) then Str(c.senderCompId)
    else if t == Number(52) then Str(time)
    else if t == Number(56) then Str(c.targetCompId)
    else Undefined
  }

  predicate IsStamped(t: Tag) {
    t == Number(8) || t == Number(34) || t == Number(49) || t == Number(52) || t == Number(56)
  }

  /** Stamping fills in what is missing and touches nothing that is there. */
  lemma StampLaws(c: SessionConfig, seqNum: nat, time: string, m: FieldMap)
    requires Distinct(m)
    ensures var r := Stamp(c, seqNum, time, m);
            && Distinct(r)
            && (forall t :: Has(r, t) <==> Has(m, t) || IsStamped(t))
            && (forall t :: Get(r, t) == if Has(m, t) then Get(m, t) else Default(c, seqNum, time, t))
  {
    var m1 := PutMissing(m, BEGIN_STRING, Str(c.beginString));
    var m2 := PutMissing(m1, MSG_SEQ_NUM, Whole(seqNum));
    var m3 := PutMissing(m2, SENDER_COMP_ID, Str(c.senderCompId));
    var m4 := PutMissing(m3, SENDING_TIME, Str(time));
    PutMissingLaws(m, BEGIN_STRING, Str(c.beginString));
    PutMissingLaws(m1, MSG_SEQ_NUM, Whole(seqNum));
    PutMissingLaws(m2, SENDER_COMP_ID, Str(c.senderCompId));
    PutMissingLaws(m3, SENDING_TIME, Str(time));
    PutMissingLaws(m4, TARGET_COMP_ID, Str(c.targetCompId));
  }

  /** The one field that a default adds, if the tag is missing. */
  function IfMissing(m: FieldMap, t: Tag, v: Value): FieldMap {
    if Has(m, t) then [] else [Field(t, v)]
  }

  lemma PutMissingAppends(m: FieldMap, t: Tag, v: Value)
    ensures PutMissing(m, t, v) == m + IfMissing(m, t, v)
  {
    if !Has(m, t) {
      PutNew(m, t, v);
    }
  }

  /** What is missing is appended in ascending tag order. */
  lemma StampAppends(c: SessionConfig, seqNum: nat, time: string, m: FieldMap)
    requires Distinct(m)
    ensures Stamp(c, seqNum, time, m) ==
            m + IfMissing(m, Number(8), Str(c.beginString)) + IfMissing(m, Number(34), Whole(seqNum))
            + IfMissing(m, Number(49), Str(c.senderCompId)) + IfMissing(m, Number(52), Str(time))
            + IfMissing(m, Number(56), Str(c.targetCompId))
  {
    var m1 := PutMissing(m, BEGIN_STRING, Str(c.beginString));
    var m2 := PutMissing(m1, MSG_SEQ_NUM, Whole(seqNum));
    var m3 := PutMissing(m2, SENDER_COMP_ID, Str(c.senderCompId));
    var m4 := PutMissing(m3, SENDING_TIME, Str(time));
    PutMissingLaws(m, BEGIN_STRING, Str(c.beginString));
    PutMissingLaws(m1, MSG_SEQ_NUM, Whole(seqNum));
    PutMissingLaws(m2, SENDER_COMP_ID, Str(c.senderCompId));
    PutMissingLaws(m3, SENDING_TIME, Str(time));
    PutMissingAppends(m, BEGIN_STRING, Str(c.beginString));
    PutMissingAppends(m1, MSG_SEQ_NUM, Whole(seqNum));
    PutMissingAppends(m2, SENDER_COMP_ID, Str(c.senderCompId));
    PutMissingAppends(m3, SENDING_TIME, Str(time));
    PutMissingAppends(m4, TARGET_COMP_ID, Str(c.targetCompId));
  }

  /** A re-sent object keeps its first number and everything else: a later send,
      by this or any other session, does not change it. */
  lemma RestampIsIdentity(c: SessionConfig, n: nat, time: string, c': SessionConfig, n': nat, time': string, m: FieldMap)
    requires Distinct(m)
    ensures Stamp(c', n', time', Stamp(c, n, time, m)) == Stamp(c, n, time, m)
  {
    StampLaws(c, n, time, m);
  }

  /** What the peer gets: the stamped message, sender and target swapped. */
  lemma StampedReverse(c: SessionConfig, seqNum: nat, time: string, m: FieldMap)
    requires Distinct(m)
    ensures var s := Stamp(c, seqNum, time, m); var r := Reverse(s);
            && Distinct(s) && Distinct(r) && (HasRequired(r) <==> Has(m, Number(35)))
            && Get(r, Number(49)) == Get(s, Number(56)) && Get(r, Number(56)) == Get(s, Number(49))
            && Get(r, Number(34)) == Get(s, Number(34))
  {
    var s := Stamp(c, seqNum, time, m);
    StampLaws(c, seqNum, time, m);
    ReverseLookup(s);
    RequiredTags(Reverse(s));
  }

  // ---------------------------------------------------- sequence numbers

  /** Sends of message objects through one session; between them the owner may
      rewrite an object and the socket may open or close. */
  datatype Op = Send(obj: nat, time: string) | Rewrite(obj: nat, fields: FieldMap) | SetWritable(on: bool)

  /** One write: the fields of the reversed message, and the number the session
      allocated to it if the message brought none. */
  datatype Write = Write(fields: FieldMap, number: Option<nat>)

  datatype World = World(line: Line, objects: map<nat, FieldMap>, written: seq<Write>, sends: nat)

  function ObjectOf(w: World, obj: nat): FieldMap {
    if obj in w.objects then w.objects[obj] else []
  }

  function SendStamped(w: World, obj: nat, s: FieldMap, e: Write): World {
    World(Advance(w.line, s), w.objects[obj := s],
          if OutcomeOf(w.line, s) == Handed then w.written + [e] else w.written,
          w.sends + 1)
  }

  function Apply(w: World, op: Op): World {
    match op
    case SetWritable(on) => w.(line := w.line.(writable := on))
    case Rewrite(obj, fields) => w.(objects := w.objects[obj := fields])
    case Send(obj, time) =>
      var m := ObjectOf(w, obj);
      var s := Stamp(w.line.config, w.line.nextSeqNum, time, m);
      SendStamped(w, obj, s, Write(Reverse(s), if Has(m, MSG_SEQ_NUM) then None else Some(w.line.nextSeqNum)))
  }

  function Run(w: World, ops: seq<Op>): World
    decreases |ops|
  {
    if ops == [] then w else Run(Apply(w, ops[0]), ops[1..])
  }

  ghost predicate OpsDistinct(ops: seq<Op>) {
    forall i :: 0 <= i < |ops| && ops[i].Rewrite? ==> Distinct(ops[i].fields)
  }

  /** The log holds the printed forms of the writes, in their order. */
  ghost predicate Logged(log: seq<string>, written: seq<Write>) {
    |log| == |written|
    && forall i :: 0 <= i < |written| ==>
                     log[i] == Wire(written[i].fields) && Distinct(written[i].fields) && HasRequired(written[i].fields)
  }

  /** Allocated numbers are below the bound, are what was written, and increase. */
  ghost predicate Increasing(written: seq<Write>, bound: nat) {
    && (forall i :: 0 <= i < |written| && written[i].number.Some? ==>
                      && Get(written[i].fields, Number(34)) == Whole(written[i].number.value)
                      && written[i].number.value < bound)
    && (forall i, j :: 0 <= i < j < |written| && written[i].number.Some? && written[j].number.Some? ==>
                         written[i].number.value < written[j].number.value)
  }

  ghost predicate Numbered(w: World) {
    && (forall o :: o in w.objects ==> Distinct(w.objects[o]))
    && Logged(w.line.log, w.written) && Increasing(w.written, w.line.nextSeqNum)
  }

  lemma SendKeepsNumbers(w: World, obj: nat, time: string)
    requires Numbered(w)
    ensures Numbered(Apply(w, Send(obj, time)))
  {
    var m, n := ObjectOf(w, obj), w.line.nextSeqNum;
    var s := Stamp(w.line.config, n, time, m);
    StampLaws(w.line.config, n, time, m);
    StampedReverse(w.line.config, n, time, m);
    StampedKeepsNumbers(w, obj, s, Write(Reverse(s), if Has(m, MSG_SEQ_NUM) then None else Some(n)));
  }

  lemma StampedKeepsNumbers(w: World, obj: nat, s: FieldMap, e: Write)
    requires Numbered(w) && Distinct(s) && e.fields == Reverse(s) && Distinct(e.fields)
    requires e.number.Some? ==> e.number.value == w.line.nextSeqNum && Get(e.fields, Number(34)) == Whole(e.number.value)
    ensures Numbered(SendStamped(w, obj, s, e))
  {
    if OutcomeOf(w.line, s) == Handed {
      LoggedExtends(w.line.log, w.written, e);
    }
    IncreasingExtends(w.written, w.line.nextSeqNum, e);
  }

  lemma LoggedExtends(log: seq<string>, written: seq<Write>, e: Write)
    requires Logged(log, written) && Distinct(e.fields) && HasRequired(e.fields)
    ensures Logged(log + [Wire(e.fields)], written + [e])
  {
  }

  lemma IncreasingExtends(written: seq<Write>, bound: nat, e: Write)
    requires Increasing(written, bound)
    requires e.number.Some? ==> e.number.value == bound && Get(e.fields, Number(34)) == Whole(bound)
    ensures Increasing(written + [e], bound + 1) && Increasing(written, bound + 1)
  {
    var all := written + [e];
    assert forall i :: 0 <= i < |written| ==> all[i] == written[i];
  }

  /** OUTGOING SEQUENCE NUMBERS. On every run the session's counter advances by
      one per send, failed or not; messages that brought no number are written
      with the number allocated at their send, strictly increasing in the order
      of the writes; and the socket got the printed forms in that order. */
  lemma {:induction false} RunNumbers(w: World, ops: seq<Op>)
    requires Numbered(w) && OpsDistinct(ops)
    ensures Numbered(Run(w, ops))
    ensures Run(w, ops).line.nextSeqNum - w.line.nextSeqNum == Run(w, ops).sends - w.sends
    decreases |ops|
  {
    if ops != [] {
      assert ops[0].Rewrite? ==> Distinct(ops[0].fields);
      assert OpsDistinct(ops[1..]) by {
        assert forall i :: 0 <= i < |ops[1..]| ==> ops[1..][i] == ops[i + 1];
      }
      if ops[0].Send? {
        SendKeepsNumbers(w, ops[0].obj, ops[0].time);
      }
      RunNumbers(Apply(w, ops[0]), ops[1..]);
    }
  }

  lemma ReadsNumber(r: FieldMap, n: nat)
    requires Distinct(r) && HasRequired(r) && Printable(r) && Get(r, Number(34)) == Whole(n)
    ensures |Received(Wire(r))| == 1
    ensures Get(Received(Wire(r))[0], Number(34)).Str? && IsDecimal(Get(Received(Wire(r))[0], Number(34)).s, n)
  {
    assert MSG_SEQ_NUM in REQUIRED;
    ReceivedFields(r, Number(34));
    PrintedValues(n);
  }

  /** What the peer reads in tag 34 of any message of any run that brought no number is
      the shortest decimal of the number allocated to it. */
  lemma NumbersRead(w: World, ops: seq<Op>, i: nat)
    requires Numbered(w) && OpsDistinct(ops) && i < |Run(w, ops).written|
    requires Run(w, ops).written[i].number.Some? && Printable(Run(w, ops).written[i].fields)
    ensures i < |Run(w, ops).line.log|
    ensures var read, n := Received(Run(w, ops).line.log[i]), Run(w, ops).written[i].number.value;
            |read| == 1 && Get(read[0], Number(34)).Str? && IsDecimal(Get(read[0], Number(34)).s, n)
  {
    RunNumbers(w, ops);
    ReadsNumber(Run(w, ops).written[i].fields, Run(w, ops).written[i].number.value);
  }

  // -------------------------------------------------------------- routing

  /** The message's own CompIDs, where present, are the session's. */
  predicate NoConflict(c: SessionConfig, m: FieldMap) {
    && (Has(m, Number(49)) ==> PrintValue(Get(m, Number(49))) == c.senderCompId)
    && (Has(m, Number(56)) ==> PrintValue(Get(m, Number(56))) == c.targetCompId)
  }

  /** REPLY ROUTING. The peer that swaps sender and target of what it reads from
      the wire addresses exactly the session that sent it, if and only if the
      message brought no conflicting CompIDs; the acceptor then rebuilds that
      session's id. */
  lemma ReplyRoutes(l: Line, time: string, m: FieldMap)
    requires Distinct(m) && Has(m, MSG_TYPE) && l.writable
    requires Printable(Reverse(Stamp(l.config, l.nextSeqNum, time, m)))
    ensures var l' := SendLine(l, m, time);
            && |l'.log| == |l.log| + 1 && l'.log[..|l.log|] == l.log
            && var read := Received(l'.log[|l.log|]);
            && |read| == 1
            && var reply := Reverse(read[0]);
            && (NoConflict(l.config, m) <==>
                Get(reply, Number(49)) == Str(l.config.senderCompId)
                && Get(reply, Number(56)) == Str(l.config.targetCompId))
            && (NoConflict(l.config, m) ==>
                  BuildSessionId(reply) == SessionId(l.config) == l.config.senderCompId + "->" + l.config.targetCompId)
  {
    var s := Stamp(l.config, l.nextSeqNum, time, m);
    SendWrites(l, time, m);
    StampedReverse(l.config, l.nextSeqNum, time, m);
    ReadCompIds(Reverse(s));
    ReverseLookup(Received(Wire(Reverse(s)))[0]);
    StampedCompIds(l.config, l.nextSeqNum, time, m);
  }

  /** WHAT BECOMES OF A SEND. Nothing is printed for a socket that is not writable; for a
      writable one, MsgType is all that can be missing. */
  lemma OutcomeIs(l: Line, time: string, m: FieldMap)
    requires Distinct(m)
    ensures OutcomeOf(l, Stamp(l.config, l.nextSeqNum, time, m)) ==
            if !l.writable then NotWritable else if Has(m, Number(35)) then Handed else Unprintable(Number(35))
  {
    StampedReverse(l.config, l.nextSeqNum, time, m);
    if !Has(m, Number(35)) {
      TypeMissing(l.config, l.nextSeqNum, time, m);
    }
  }

  lemma TypeMissing(c: SessionConfig, seqNum: nat, time: string, m: FieldMap)
    requires Distinct(m) && !Has(m, Number(35))
    ensures FirstMissing(Reverse(Stamp(c, seqNum, time, m)), REQUIRED) == Some(Number(35))
  {
    var s := Stamp(c, seqNum, time, m);
    StampLaws(c, seqNum, time, m);
    ReverseLookup(s);
    assert IsStamped(Number(8)) && !IsStamped(Number(35));
    FirstMissingIs(Reverse(s), 1);
  }

  lemma SendWrites(l: Line, time: string, m: FieldMap)
    requires Distinct(m) && Has(m, MSG_TYPE) && l.writable
    ensures SendLine(l, m, time).log == l.log + [Wire(Reverse(Stamp(l.config, l.nextSeqNum, time, m)))]
  {
    StampedReverse(l.config, l.nextSeqNum, time, m);
  }

  lemma StampedCompIds(c: SessionConfig, seqNum: nat, time: string, m: FieldMap)
    requires Distinct(m)
    ensures var s := Stamp(c, seqNum, time, m);
            NoConflict(c, m) <==>
            PrintValue(Get(s, SENDER_COMP_ID)) == c.senderCompId && PrintValue(Get(s, TARGET_COMP_ID)) == c.targetCompId
  {
    StampLaws(c, seqNum, time, m);
  }

  lemma ReadCompIds(r: FieldMap)
    requires Distinct(r) && HasRequired(r) && Printable(r)
    ensures |Received(Wire(r))| == 1 && Distinct(Received(Wire(r))[0])
    ensures Get(Received(Wire(r))[0], SENDER_COMP_ID) == Str(PrintValue(Get(r, SENDER_COMP_ID)))
    ensures Get(Received(Wire(r))[0], TARGET_COMP_ID) == Str(PrintValue(Get(r, TARGET_COMP_ID)))
  {
    assert SENDER_COMP_ID in REQUIRED && TARGET_COMP_ID in REQUIRED;
    ReceivedFields(r, SENDER_COMP_ID);
    ReceivedFields(r, TARGET_COMP_ID);
  }

  predicate HoldsArrow(s: string) {
    exists j :: 0 <= j < |s| && OccursAt(s, "->", j)
  }

  lemma ArrowAt(s: string, j: int)
    ensures OccursAt(s, "->", j) <==> 0 <= j && j + 2 <= |s| && s[j] == '-' && s[j + 1] == '>'
  {
    assert OccursAt(s, "->", j) ==> s[j + 0] == "->"[0] && s[j + 1] == "->"[1];
  }

  lemma FirstArrow(sender: string, target: string)
    requires !HoldsArrow(sender)
    ensures IndexOf(IdOf(sender, target), "->") == |sender|
  {
    var s := IdOf(sender, target);
    ArrowAt(s, |sender|);
    forall j | 0 <= j < |sender| ensures !OccursAt(s, "->", j) {
      ArrowAt(s, j);
      ArrowAt(sender, j);
      assert !OccursAt(sender, "->", j);
      assert s[j] == sender[j] && (j + 1 < |sender| ==> s[j + 1] == sender[j + 1]);
      assert s[|sender|] == '-';
    }
  }

  /** Session ids tell sessions apart when no sender holds an arrow. */
  lemma SessionIdsDistinguish(s: string, t: string, s': string, t': string)
    requires !HoldsArrow(s) && !HoldsArrow(s')
    ensures IdOf(s, t) == IdOf(s', t') <==> s == s' && t == t'
  {
    FirstArrow(s, t);
    FirstArrow(s', t');
    if IdOf(s, t) == IdOf(s', t') {
      assert IdOf(s, t)[..|s|] == s && IdOf(s', t')[..|s|] == s';
      assert IdOf(s, t)[|s| + 2..] == t && IdOf(s', t')[|s| + 2..] == t';
    }
  }

  lemma SplitAtArrow(s: string, j: int)
    requires OccursAt(s, "->", j)
    ensures 0 <= j && j + 2 <= |s| && s == IdOf(s[..j], s[j + 2..])
  {
    ArrowAt(s, j);
    assert s == s[..j] + s[j..j + 2] + s[j + 2..];
    assert s[j..j + 2] == "->";
  }

  /** The arrows of an id are those of its parts and the one between them. */
  lemma ArrowsOf(s: string, t: string, j: int)
    requires OccursAt(IdOf(s, t), "->", j)
    ensures j == |s| || OccursAt(s, "->", j) || OccursAt(t, "->", j - |s| - 2)
  {
    var id := IdOf(s, t);
    ArrowAt(id, j);
    ArrowAt(s, j);
    ArrowAt(t, j - |s| - 2);
    assert id[|s|] == '-' && id[|s| + 1] == '>';
    assert j < |s| ==> id[j] == s[j];
    assert j + 1 < |s| ==> id[j + 1] == s[j + 1];
    assert j >= |s| + 2 ==> id[j] == t[j - |s| - 2] && id[j + 1] == t[j + 1 - |s| - 2];
  }

  lemma OtherPair(s: string, t: string, s': string, t': string)
    requires IdOf(s', t') == IdOf(s, t)
    ensures (s', t') == (s, t) || HoldsArrow(s) || HoldsArrow(t)
  {
    var id := IdOf(s, t);
    ArrowAt(IdOf(s', t'), |s'|);
    assert OccursAt(id, "->", |s'|);
    ArrowsOf(s, t, |s'|);
    ArrowAt(s, |s'|);
    ArrowAt(t, |s'| - |s| - 2);
    if |s'| == |s| {
      assert id[..|s|] == s && IdOf(s', t')[..|s|] == s';
      assert id[|s| + 2..] == t && IdOf(s', t')[|s| + 2..] == t';
      assert (s', t') == (s, t);
    }
  }

  lemma Reassociated(a: string, b: string, c: string)
    ensures IdOf(IdOf(a, b), c) == IdOf(a, IdOf(b, c))
  {
    Assoc(a + "->" + b, "->", c);
    Assoc(a + "->", b, "->" + c);
    Assoc(b, "->", c);
  }

  /** AMBIGUOUS IDS. Some other pair of CompIDs has the same session id if and only
      if one of the two holds an arrow. */
  lemma SessionIdAmbiguousIff(s: string, t: string)
    ensures (exists s', t' :: (s', t') != (s, t) && IdOf(s', t') == IdOf(s, t)) <==> HoldsArrow(s) || HoldsArrow(t)
  {
    if HoldsArrow(s) {
      var j :| 0 <= j < |s| && OccursAt(s, "->", j);
      SplitAtArrow(s, j);
      Reassociated(s[..j], s[j + 2..], t);
      assert (s[..j], IdOf(s[j + 2..], t)) != (s, t);
    }
    if HoldsArrow(t) {
      var j :| 0 <= j < |t| && OccursAt(t, "->", j);
      SplitAtArrow(t, j);
      Reassociated(s, t[..j], t[j + 2..]);
      assert (IdOf(s, t[..j]), t[j + 2..]) != (s, t) by {
        assert |IdOf(s, t[..j])| > |s|;
      }
    }
    if s', t' :| (s', t') != (s, t) && IdOf(s', t') == IdOf(s, t) {
      OtherPair(s, t, s', t');
    }
  }
}
