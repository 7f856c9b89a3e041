/** `Message`: the mutable field map and its printed form. */
module Messages {
  import opened Text
  import opened Fields

  /** Outcome of `toString`. */
  datatype PrintResult = Printed(text: string) | MissingField(tag: Tag)

  /** Printed right after MsgType, in this order. */
  const ORDERED: seq<Tag> := [SENDER_COMP_ID, TARGET_COMP_ID, MSG_SEQ_NUM, SENDING_TIME]

  /** Checked by `validateRequiredFields`, in this order. */
  const REQUIRED: seq<Tag> :=
    [BEGIN_STRING, MSG_TYPE, SENDER_COMP_ID, TARGET_COMP_ID, MSG_SEQ_NUM, SENDING_TIME]

  // ------------------------------------------------------ the wire format

  function FirstMissing(m: FieldMap, ts: seq<Tag>): (r: Option<Tag>)
    ensures r.None? <==> forall t :: t in ts ==> Has(m, t)
    ensures r.Some? ==> r.value in ts && !Has(m, r.value)
  {
    if ts == [] then None else if !Has(m, ts[0]) then Some(ts[0]) else FirstMissing(m, ts[1..])
  }

  predicate HasRequired(m: FieldMap) {
    forall t :: t in REQUIRED ==> Has(m, t)
  }

  predicate IsRest(t: Tag) {
    t != BEGIN_STRING && t != BODY_LENGTH && t != CHECK_SUM && t != MSG_TYPE && t !in ORDERED
  }

  /** The message's own fields for the given tags. */
  function Pick(m: FieldMap, ts: seq<Tag>): (r: FieldMap)
    ensures |r| == |ts| && forall i :: 0 <= i < |ts| ==> r[i] == Field(ts[i], Get(m, ts[i]))
  {
    if ts == [] then [] else [Field(ts[0], Get(m, ts[0]))] + Pick(m, ts[1..])
  }

  /** The fields without a fixed place, in map order. */
  function Rest(m: FieldMap): FieldMap {
    if m == [] then [] else (if IsRest(m[0].tag) then [m[0]] else []) + Rest(m[1..])
  }

  function BodyFields(m: FieldMap): FieldMap {
    Pick(m, [MSG_TYPE] + ORDERED) + Rest(m)
  }

  function LengthField(m: FieldMap): Field {
    Field(BODY_LENGTH, Whole(|Render(BodyFields(m))|))
  }

  function HeadFields(m: FieldMap): FieldMap {
    [Field(BEGIN_STRING, Get(m, BEGIN_STRING)), LengthField(m)] + BodyFields(m)
  }

  /** Sum of the character codes mod 256, as three digits. */
  function Trailer(text: string): string {
    Padded(CodeSum(text) % 256, 3)
  }

  /** The fields of the printed message, in wire order. */
  function WireFields(m: FieldMap): FieldMap {
    HeadFields(m) + [SumField(m)]
  }

  function SumField(m: FieldMap): Field {
    Field(CHECK_SUM, Str(Trailer(Render(HeadFields(m)))))
  }

  function Wire(m: FieldMap): string {
    Render(WireFields(m))
  }

  // ------------------------------------------------ facts about the wire

  lemma {:induction false} RestMembers(m: FieldMap)
    ensures forall f :: f in Rest(m) <==> f in m && IsRest(f.tag)
    ensures Distinct(m) ==> Distinct(Rest(m))
  {
    if m != [] {
      RestMembers(m[1..]);
      forall f ensures f in Rest(m) <==> f in m && IsRest(f.tag) {
        assert f in m <==> f == m[0] || f in m[1..];
      }
      if Distinct(m) {
        assert Distinct(m[1..]);
        forall i | 0 <= i < |Rest(m[1..])| ensures Rest(m[1..])[i].tag != m[0].tag {
          assert Rest(m[1..])[i] in m[1..];
        }
      }
    }
  }

  lemma GetIn(m: FieldMap, f: Field)
    requires Distinct(m) && f in m
    ensures Has(m, f.tag) && Get(m, f.tag) == f.value
  {
    var i :| 0 <= i < |m| && m[i] == f;
    GetAt(m, i);
  }

  lemma HasMember(m: FieldMap, f: Field)
    requires f in m
    ensures Has(m, f.tag)
  {
    var i :| 0 <= i < |m| && m[i] == f;
  }

  /** w is the field list 8, 9, 35, 49, 56, 34, 52, the rest fields, 10. */
  ghost predicate Shape(m: FieldMap, w: FieldMap, length: Field, rest: FieldMap, sum: Field) {
    && |w| == |rest| + 8
    && w[0] == Field(BEGIN_STRING, Get(m, BEGIN_STRING)) && w[1] == length
    && w[2] == Field(MSG_TYPE, Get(m, MSG_TYPE)) && w[3] == Field(SENDER_COMP_ID, Get(m, SENDER_COMP_ID))
    && w[4] == Field(TARGET_COMP_ID, Get(m, TARGET_COMP_ID)) && w[5] == Field(MSG_SEQ_NUM, Get(m, MSG_SEQ_NUM))
    && w[6] == Field(SENDING_TIME, Get(m, SENDING_TIME))
    && (forall i :: 7 <= i < |w| - 1 ==> w[i] == rest[i - 7])
    && w[|w| - 1] == sum
    && length.tag == BODY_LENGTH && sum.tag == CHECK_SUM
  }

  /** A printable message goes out in that shape. */
  lemma WireShape(m: FieldMap)
    ensures Shape(m, WireFields(m), LengthField(m), Rest(m), SumField(m))
  {
    var w, front := WireFields(m), [Field(BEGIN_STRING, Get(m, BEGIN_STRING)), LengthField(m)];
    var fixed, r := Pick(m, [MSG_TYPE] + ORDERED), Rest(m);
    assert w == front + (fixed + r) + [SumField(m)];
    Blocks(front, fixed, r, SumField(m));
    assert fixed[0] == w[2] && fixed[1] == w[3] && fixed[2] == w[4] && fixed[3] == w[5] && fixed[4] == w[6];
  }

  lemma Blocks(front: FieldMap, fixed: FieldMap, r: FieldMap, last: Field)
    requires |front| == 2 && |fixed| == 5
    ensures var w := front + (fixed + r) + [last];
            && |w| == |r| + 8 && w[0] == front[0] && w[1] == front[1] && w[|w| - 1] == last
            && (forall i :: 2 <= i < 7 ==> w[i] == fixed[i - 2])
            && (forall i :: 7 <= i < |w| - 1 ==> w[i] == r[i - 7])
  {
  }

  lemma RequiredTags(m: FieldMap)
    ensures HasRequired(m) <==>
            Has(m, BEGIN_STRING) && Has(m, MSG_TYPE) && Has(m, SENDER_COMP_ID)
            && Has(m, TARGET_COMP_ID) && Has(m, MSG_SEQ_NUM) && Has(m, SENDING_TIME)
  {
    assert REQUIRED[0] == BEGIN_STRING && REQUIRED[1] == MSG_TYPE && REQUIRED[2] == SENDER_COMP_ID;
    assert REQUIRED[3] == TARGET_COMP_ID && REQUIRED[4] == MSG_SEQ_NUM && REQUIRED[5] == SENDING_TIME;
  }

  /** A field of such a list is a required one, the length, the sum, or a rest
      field: all but two are the message's own. */
  lemma ShapeOrigin(m: FieldMap, w: FieldMap, length: Field, rest: FieldMap, sum: Field, f: Field)
    requires Shape(m, w, length, rest, sum) && HasRequired(m) && f in w
    requires forall g :: g in rest ==> g in m && IsRest(g.tag)
    ensures f == length || f == sum || (f.tag != BODY_LENGTH && f.tag != CHECK_SUM && f in m)
  {
    RequiredTags(m);
    var i :| 0 <= i < |w| && w[i] == f;
    if 7 <= i < |w| - 1 {
      assert rest[i - 7] in rest;
    }
  }

  lemma ShapeKeeps(m: FieldMap, w: FieldMap, length: Field, rest: FieldMap, sum: Field, f: Field)
    requires Shape(m, w, length, rest, sum) && f == Field(f.tag, Get(m, f.tag))
    requires f.tag != BODY_LENGTH && f.tag != CHECK_SUM && (IsRest(f.tag) ==> f in rest)
    ensures f in w
  {
    if IsRest(f.tag) {
      var i :| 0 <= i < |rest| && rest[i] == f;
      assert w[i + 7] == rest[i + 7 - 7];
    } else {
      NotRest(f.tag);
      assert f == w[0] || f == w[2] || f == w[3] || f == w[4] || f == w[5] || f == w[6];
    }
  }

  lemma NotRest(t: Tag)
    requires !IsRest(t) && t != BODY_LENGTH && t != CHECK_SUM
    ensures t in [BEGIN_STRING, MSG_TYPE, SENDER_COMP_ID, TARGET_COMP_ID, MSG_SEQ_NUM, SENDING_TIME]
  {
  }

  lemma ShapeDistinct(m: FieldMap, w: FieldMap, length: Field, rest: FieldMap, sum: Field)
    requires Shape(m, w, length, rest, sum) && Distinct(rest) && forall g :: g in rest ==> IsRest(g.tag)
    ensures Distinct(w)
  {
    forall i | 7 <= i < |w| - 1 ensures IsRest(w[i].tag) {
      assert w[i] == rest[i - 7] && rest[i - 7] in rest;
    }
    forall i, j | 0 <= i < j < |w| ensures w[i].tag != w[j].tag {
      assert 7 <= i && j < |w| - 1 ==> rest[i - 7].tag != rest[j - 7].tag;
    }
  }

  lemma WireDistinct(m: FieldMap)
    requires Distinct(m)
    ensures Distinct(WireFields(m))
  {
    WireShape(m);
    RestMembers(m);
    ShapeDistinct(m, WireFields(m), LengthField(m), Rest(m), SumField(m));
  }

  lemma WireOrigin(m: FieldMap, f: Field)
    requires HasRequired(m) && f in WireFields(m)
    ensures f == LengthField(m) || f == SumField(m) || (f.tag != BODY_LENGTH && f.tag != CHECK_SUM && f in m)
  {
    WireShape(m);
    RestMembers(m);
    ShapeOrigin(m, WireFields(m), LengthField(m), Rest(m), SumField(m), f);
  }

  lemma WireKeeps(m: FieldMap, f: Field)
    requires Distinct(m) && f in m && f.tag != BODY_LENGTH && f.tag != CHECK_SUM
    ensures f in WireFields(m)
  {
    WireShape(m);
    RestMembers(m);
    GetIn(m, f);
    ShapeKeeps(m, WireFields(m), LengthField(m), Rest(m), SumField(m), f);
  }

  /** The wire carries every field of the message but 9 and 10 exactly once and
      unchanged, plus one BodyLength and one CheckSum. */
  lemma WireMembers(m: FieldMap)
    requires Distinct(m) && HasRequired(m)
    ensures Distinct(WireFields(m))
    ensures forall f: Field :: f.tag != Number(9) && f.tag != Number(10) ==> (f in WireFields(m) <==> f in m)
    ensures forall f: Field :: f in WireFields(m) && f.tag == Number(9) ==> f == LengthField(m)
    ensures forall f: Field :: f in WireFields(m) && f.tag == Number(10) ==> f == SumField(m)
  {
    WireDistinct(m);
    forall f: Field | f in WireFields(m)
      ensures f == LengthField(m) || f == SumField(m) || (f.tag != BODY_LENGTH && f.tag != CHECK_SUM && f in m)
    {
      WireOrigin(m, f);
    }
    forall f: Field | f in m && f.tag != BODY_LENGTH && f.tag != CHECK_SUM ensures f in WireFields(m) {
      WireKeeps(m, f);
    }
  }

  /** Reading the wire's field list gives the message's own values, a fresh
      BodyLength and a fresh CheckSum. */
  lemma WireLookup(m: FieldMap, t: Tag)
    requires Distinct(m) && HasRequired(m)
    ensures t != BODY_LENGTH && t != CHECK_SUM ==>
              Has(WireFields(m), t) == Has(m, t) && Get(WireFields(m), t) == Get(m, t)
    ensures Get(WireFields(m), BODY_LENGTH) == LengthField(m).value
    ensures Get(WireFields(m), CHECK_SUM) == SumField(m).value
  {
    var w := WireFields(m);
    WireMembers(m);
    WireShape(m);
    GetAt(w, 1);
    GetAt(w, |w| - 1);
    if t != BODY_LENGTH && t != CHECK_SUM {
      var f, g := Field(t, Get(m, t)), Field(t, Get(w, t));
      if Has(m, t) {
        GetIn(w, f);
      }
      if Has(w, t) {
        HasMember(m, g);
      }
    }
  }

  lemma TrailerDigits(text: string)
    ensures |Trailer(text)| == 3 && AllDigits(Trailer(text))
    ensures Val(Trailer(text)) == CodeSum(text) % 256
    ensures Clean(Trailer(text))
  {
    var n := CodeSum(text) % 256;
    assert Pow10(3) == 1000;
    DigitsWidth(n, 3);
    PaddedIsExact(n, 3);
  }

  lemma RenderTwo(a: Field, b: Field, rest: FieldMap)
    ensures Render([a, b] + rest) == Pair(a) + [SOH] + Pair(b) + [SOH] + Render(rest)
  {
    assert [a, b] + rest == [a] + ([b] + rest);
    RenderCons(a, [b] + rest);
    RenderCons(b, rest);
    Assoc(Pair(a) + [SOH], Pair(b) + [SOH], Render(rest));
    Assoc(Pair(a) + [SOH], Pair(b), [SOH]);
  }

  lemma RenderCons(f: Field, rest: FieldMap)
    ensures Render([f] + rest) == Pair(f) + [SOH] + Render(rest)
  {
    assert ([f] + rest)[1..] == rest;
  }

  /** The text before the body. */
  function Opening(m: FieldMap): string {
    "8=" + PrintValue(Get(m, BEGIN_STRING)) + [SOH] + "9=" + Digits(|Render(BodyFields(m))|) + [SOH]
  }

  lemma HeadText(m: FieldMap)
    ensures Render(HeadFields(m)) == Opening(m) + Render(BodyFields(m))
  {
    var bs := Field(BEGIN_STRING, Get(m, BEGIN_STRING));
    RenderTwo(bs, LengthField(m), BodyFields(m));
    TagNames();
    OpeningText(PrintValue(bs.value), Digits(|Render(BodyFields(m))|));
  }

  lemma OpeningText(v: string, d: string)
    ensures "8" + "=" + v + [SOH] + ("9" + "=" + d) + [SOH] == "8=" + v + [SOH] + "9=" + d + [SOH]
  {
    assert "8" + "=" == "8=" && "9" + "=" == "9=";
    assert "8=" + v + [SOH] + ("9=" + d) == "8=" + v + [SOH] + "9=" + d;
  }

  lemma WireText(m: FieldMap)
    ensures Wire(m) == Render(HeadFields(m)) + ("10=" + Trailer(Render(HeadFields(m))) + [SOH])
  {
    RenderConcat(HeadFields(m), [SumField(m)]);
    RenderOne(SumField(m));
    TagNames();
    assert "10" + "=" == "10=";
  }

  /** BodyLength and CheckSum as FIX 4.4 Volume 2 defines them: tag 9 counts the
      characters after its own SOH up to `10=`; tag 10 is three digits, the sum
      mod 256 of every character before `10=`. */
  lemma LengthAndSumAreExact(m: FieldMap) returns (body: string, sum: string)
    ensures Wire(m) == "8=" + PrintValue(Get(m, BEGIN_STRING)) + [SOH] + "9=" + Digits(|body|) + [SOH]
                       + body + ("10=" + sum + [SOH])
    ensures Val(Digits(|body|)) == |body|
    ensures |sum| == 3 && AllDigits(sum)
    ensures Val(sum) == CodeSum(Wire(m)[..|Wire(m)| - 7]) % 256
    ensures body == Render(BodyFields(m))
  {
    var head := Render(HeadFields(m));
    body := Render(BodyFields(m));
    sum := Trailer(head);
    HeadText(m);
    WireText(m);
    ValDigits(|body|);
    TrailerDigits(head);
    DropTail(head, "10=" + sum + [SOH]);
  }

  lemma DropTail(a: string, b: string)
    ensures (a + b)[..|a + b| - |b|] == a
  {
  }

  /** The first of the six required tags that is missing. */
  lemma FirstMissingIs(m: FieldMap, i: nat)
    requires i < 6
    ensures var order := [Number(8), Number(35), Number(49), Number(56), Number(34), Number(52)];
            && (FirstMissing(m, REQUIRED) == Some(order[i]) <==>
                !Has(m, order[i]) && forall j :: 0 <= j < i ==> Has(m, order[j]))
            && (FirstMissing(m, REQUIRED) == None <==> forall j :: 0 <= j < 6 ==> Has(m, order[j]))
  {
    var order := [Number(8), Number(35), Number(49), Number(56), Number(34), Number(52)];
    assert REQUIRED == order;
    FirstMissingAt(m, order, i);
  }

  lemma {:induction false} FirstMissingAt(m: FieldMap, ts: seq<Tag>, i: nat)
    requires i < |ts| && forall j, k :: 0 <= j < k < |ts| ==> ts[j] != ts[k]
    ensures FirstMissing(m, ts) == Some(ts[i]) <==> !Has(m, ts[i]) && forall j :: 0 <= j < i ==> Has(m, ts[j])
  {
    if i > 0 {
      assert ts[0] != ts[i];
      if Has(m, ts[0]) {
        FirstMissingAt(m, ts[1..], i - 1);
        assert forall j :: 0 < j < i ==> ts[j] == ts[1..][j - 1];
        assert forall j :: 0 <= j < i - 1 ==> ts[1..][j] == ts[j + 1];
      }
    }
  }

  /** The tags that have a fixed place, or are not printed as they are. */
  const PLACED: seq<Tag> :=
    [Number(8), Number(9), Number(10), Number(34), Number(35), Number(49), Number(52), Number(56)]

  /** r holds the fields of m without a fixed place, at the positions `at`, in map order. */
  ghost predicate InMapOrder(m: FieldMap, r: FieldMap, at: seq<nat>) {
    && |at| == |r|
    && (forall k :: 0 <= k < |at| ==> at[k] < |m| && r[k] == m[at[k]])
    && (forall j, k :: 0 <= j < k < |at| ==> at[j] < at[k])
    && (forall i :: 0 <= i < |m| ==> (i in at <==> m[i].tag !in PLACED))
  }

  lemma RestCons(f: Field, m: FieldMap)
    ensures Rest([f] + m) == if IsRest(f.tag) then [f] + Rest(m) else Rest(m)
  {
    assert ([f] + m)[1..] == m;
  }

  lemma {:induction false} RestConcat(a: FieldMap, b: FieldMap)
    ensures Rest(a + b) == Rest(a) + Rest(b)
  {
    if a == [] {
      assert a + b == b;
    } else {
      var f, m := a[0], a[1..];
      assert a == [f] + m && a + b == [f] + (m + b);
      RestConcat(m, b);
      RestCons(f, m);
      RestCons(f, m + b);
      Assoc([f], Rest(m), Rest(b));
    }
  }

  lemma {:induction false} RestInOrder(m: FieldMap) returns (at: seq<nat>)
    ensures InMapOrder(m, Rest(m), at)
  {
    if m == [] {
      at := [];
    } else {
      var front, f := m[..|m| - 1], m[|m| - 1];
      at := RestInOrder(front);
      RestConcat(front, [f]);
      RestCons(f, []);
      assert m == front + [f] && [f] + [] == [f];
      OneMore(front, Rest(front), at, f);
      if f.tag !in PLACED {
        at := at + [|front|];
      }
    }
  }

  lemma OneMore(m: FieldMap, r: FieldMap, at: seq<nat>, f: Field)
    requires InMapOrder(m, r, at)
    ensures if f.tag in PLACED then InMapOrder(m + [f], r, at) else InMapOrder(m + [f], r + [f], at + [|m|])
    ensures IsRest(f.tag) <==> f.tag !in PLACED
  {
    var all := m + [f];
    assert forall i :: 0 <= i < |m| ==> all[i] == m[i];
    assert |m| !in at;
    assert forall i :: i in at + [|m|] <==> i in at || i == |m|;
  }

  /** `tag=value` and SOH, character code 1. */
  function Line(tag: string, v: Value): string {
    tag + "=" + PrintValue(v) + [SOH]
  }

  lemma {:induction false} PickLines(m: FieldMap, ts: seq<Tag>)
    requires ts != []
    ensures Render(Pick(m, ts)) == Line(PrintTag(ts[0]), Get(m, ts[0])) + Render(Pick(m, ts[1..]))
  {
    assert Pick(m, ts)[1..] == Pick(m, ts[1..]);
  }

  lemma OrderedLines(m: FieldMap)
    ensures Render(Pick(m, ORDERED)) ==
            Line("49", Get(m, Number(49))) + (Line("56", Get(m, Number(56)))
            + (Line("34", Get(m, Number(34))) + (Line("52", Get(m, Number(52))) + "")))
  {
    TagNames();
    PickLines(m, ORDERED);
    PickLines(m, ORDERED[1..]);
    PickLines(m, ORDERED[2..]);
    PickLines(m, ORDERED[3..]);
    assert ORDERED[1..][1..] == ORDERED[2..] && ORDERED[2..][1..] == ORDERED[3..] && ORDERED[3..][1..] == [];
  }

  /** THE WIRE, tag by tag: 8, 9, 35, 49, 56, 34, 52, then the message's other fields in
      map order, then 10. Length and sum are decimals of what they count. */
  lemma WireIsLiteral(m: FieldMap) returns (body: string, sum: string, rest: FieldMap, at: seq<nat>)
    ensures Wire(m) == Line("8", Get(m, Number(8))) + Line("9", Whole(|body|)) + body + Line("10", Str(sum))
    ensures body == Line("35", Get(m, Number(35))) + (Line("49", Get(m, Number(49))) + (Line("56", Get(m, Number(56)))
                    + (Line("34", Get(m, Number(34))) + (Line("52", Get(m, Number(52))) + ""))))
                    + Render(rest)
    ensures InMapOrder(m, rest, at)
    ensures |sum| == 3 && AllDigits(sum) && Val(sum) == CodeSum(Wire(m)[..|Wire(m)| - 7]) % 256
    ensures SOH as int == 1
  {
    body, sum := LengthAndSumAreExact(m);
    rest := Rest(m);
    at := RestInOrder(m);
    LiteralBody(m, body);
    LiteralEnds(Get(m, Number(8)), body, sum);
  }

  lemma LiteralEnds(v: Value, body: string, sum: string)
    ensures "8=" + PrintValue(v) + [SOH] + "9=" + Digits(|body|) + [SOH] + body + ("10=" + sum + [SOH]) ==
            Line("8", v) + Line("9", Whole(|body|)) + body + Line("10", Str(sum))
  {
    LiteralWire(PrintValue(v), Digits(|body|), [SOH], body, "10=" + sum + [SOH]);
    LineTen(sum);
    assert PrintValue(Whole(|body|)) == Digits(|body|);
  }

  lemma LineTen(sum: string)
    ensures "10=" + sum + [SOH] == Line("10", Str(sum))
  {
    assert "10" + "=" == "10=";
  }

  lemma LiteralBody(m: FieldMap, body: string)
    requires body == Render(BodyFields(m))
    ensures body == Line("35", Get(m, Number(35))) + (Line("49", Get(m, Number(49))) + (Line("56", Get(m, Number(56)))
                    + (Line("34", Get(m, Number(34))) + (Line("52", Get(m, Number(52))) + ""))))
                    + Render(Rest(m))
  {
    BodyText(m);
    OrderedLines(m);
    assert "35" + "=" == "35=";
  }

  lemma LiteralWire(v: string, d: string, soh: string, body: string, end: string)
    ensures "8=" + v + soh + "9=" + d + soh + body + end ==
            ("8" + "=" + v + soh) + ("9" + "=" + d + soh) + body + end
  {
    assert "8" + "=" == "8=" && "9" + "=" == "9=";
    assert "8=" + v + soh + "9=" + d + soh == ("8=" + v + soh) + ("9=" + d + soh);
  }

  // ------------------------------------------------- reversing a message

  /** `createReverse`: the same fields with sender and target swapped. */
  function Reverse(m: FieldMap): FieldMap {
    Put(Put(m, SENDER_COMP_ID, Get(m, TARGET_COMP_ID)), TARGET_COMP_ID, Get(m, SENDER_COMP_ID))
  }

  /** Sender and target, tags 49 and 56, are swapped; nothing else changes. */
  lemma ReverseLookup(m: FieldMap)
    requires Distinct(m)
    ensures Distinct(Reverse(m))
    ensures Get(Reverse(m), Number(49)) == Get(m, Number(56))
    ensures Get(Reverse(m), Number(56)) == Get(m, Number(49))
    ensures forall t :: Has(Reverse(m), t) <==> Has(m, t) || t == Number(49) || t == Number(56)
    ensures forall t :: t != Number(49) && t != Number(56) ==> Get(Reverse(m), t) == Get(m, t)
  {
    var once := Put(m, SENDER_COMP_ID, Get(m, TARGET_COMP_ID));
    PutLaws(m, SENDER_COMP_ID, Get(m, TARGET_COMP_ID));
    PutLaws(once, TARGET_COMP_ID, Get(m, SENDER_COMP_ID));
  }

  /** Reversing twice restores the message, order included, exactly when it
      carries both CompIDs. */
  lemma ReverseTwice(m: FieldMap)
    requires Distinct(m)
    ensures Reverse(Reverse(m)) == m <==> Has(m, Number(49)) && Has(m, Number(56))
  {
    if Has(m, SENDER_COMP_ID) && Has(m, TARGET_COMP_ID) {
      var i :| 0 <= i < |m| && m[i].tag == SENDER_COMP_ID;
      var j :| 0 <= j < |m| && m[j].tag == TARGET_COMP_ID;
      SwapTwice(m, i, j);
    } else {
      ReverseLookup(m);
      ReverseLookup(Reverse(m));
      assert Has(Reverse(Reverse(m)), SENDER_COMP_ID) && Has(Reverse(Reverse(m)), TARGET_COMP_ID);
    }
  }

  lemma SwapTwice(m: FieldMap, i: nat, j: nat)
    requires Distinct(m) && i < |m| && j < |m| && m[i].tag == SENDER_COMP_ID && m[j].tag == TARGET_COMP_ID
    ensures Reverse(Reverse(m)) == m
  {
    var r := Reverse(m);
    ReverseLookup(m);
    ReverseAt(m, i, j);
    ReverseAt(r, i, j);
    GetAt(m, i);
    GetAt(m, j);
  }

  lemma ReverseAt(m: FieldMap, i: nat, j: nat)
    requires Distinct(m) && i < |m| && j < |m| && m[i].tag == SENDER_COMP_ID && m[j].tag == TARGET_COMP_ID
    ensures Reverse(m) ==
            m[i := Field(SENDER_COMP_ID, Get(m, TARGET_COMP_ID))][j := Field(TARGET_COMP_ID, Get(m, SENDER_COMP_ID))]
  {
    var once := Put(m, SENDER_COMP_ID, Get(m, TARGET_COMP_ID));
    PutLaws(m, SENDER_COMP_ID, Get(m, TARGET_COMP_ID));
    PutAt(m, SENDER_COMP_ID, Get(m, TARGET_COMP_ID), i);
    PutAt(once, TARGET_COMP_ID, Get(m, SENDER_COMP_ID), j);
  }

  // ------------------------------------------------------------ the class

  /** `setField` over a list of fields. */
  function PutAll(m: FieldMap, fs: seq<Field>): FieldMap
    decreases |fs|
  {
    if fs == [] then m else PutAll(Put(m, fs[0].tag, fs[0].value), fs[1..])
  }

  /** Copying a map field by field rebuilds it, order included. */
  lemma {:induction false} PutAllCopies(m: FieldMap, fs: FieldMap)
    requires Distinct(m + fs)
    ensures PutAll(m, fs) == m + fs
    decreases |fs|
  {
    if fs != [] {
      var all := m + fs;
      forall i | 0 <= i < |m| ensures m[i].tag != fs[0].tag {
        assert all[i] == m[i] && all[|m|] == fs[0];
      }
      PutNew(m, fs[0].tag, fs[0].value);
      assert m + [fs[0]] + fs[1..] == all;
      PutAllCopies(m + [fs[0]], fs[1..]);
    }
  }

  /** `calculateChecksum`: the three-digit checksum of a text. */
  method CalculateChecksum(message: string) returns (r: string)
    ensures r == Trailer(message)
  {
    var sum := SumOfCodes(message);
    r := Padded(sum % 256, 3);
  }

  method SumOfCodes(message: string) returns (sum: nat)
    ensures sum == CodeSum(message)
  {
    sum := 0;
    for i := 0 to |message|
      invariant sum == CodeSum(message[..i])
    {
      assert message[..i + 1][..i] == message[..i];
      sum := sum + message[i] as int;
    }
    assert message[..|message|] == message;
  }

  class Message {
    var fields: FieldMap

    ghost predicate Valid()
      reads this
    {
      Distinct(fields)
    }

    constructor (init: seq<Field>)
      ensures Valid() && fields == PutAll([], init)
    {
      fields := [];
      new;
      for i := 0 to |init|
        invariant Valid() && PutAll(fields, init[i..]) == PutAll([], init)
      {
        SetField(init[i].tag, init[i].value);
      }
    }

    method SetField(tag: Tag, value: Value)
      requires Valid()
      modifies this
      ensures Valid() && fields == Put(old(fields), tag, value)
    {
      PutLaws(fields, tag, value);
      fields := Put(fields, tag, value);
    }

    /** Prints the message; its text is the rendered wire field list. */
    method ToString() returns (r: PrintResult)
      ensures r == match FirstMissing(fields, REQUIRED)
                   case Some(t) => MissingField(t)
                   case None => Printed(Wire(fields))
    {
      var missing := ValidateRequiredFields(REQUIRED);
      if missing.Some? {
        return MissingField(missing.value);
      }
      ghost var body := Render(BodyFields(fields));
      BodyText(fields);
      var bodyString := "35=" + PrintValue(Get(fields, MSG_TYPE)) + [SOH];
      bodyString := AppendPresent(bodyString, ORDERED);
      bodyString := AppendRest(bodyString);
      assert bodyString == body;
      var fixString := "8=" + PrintValue(Get(fields, BEGIN_STRING)) + [SOH];
      fixString := fixString + "9=" + Digits(|bodyString|) + [SOH];
      fixString := fixString + bodyString;
      HeadText(fields);
      WireText(fields);
      var checksum := CalculateChecksum(fixString);
      fixString := fixString + ("10=" + checksum + [SOH]);
      r := Printed(fixString);
    }

    /** The first required field the message lacks. */
    method ValidateRequiredFields(required: seq<Tag>) returns (missing: Option<Tag>)
      ensures missing == FirstMissing(fields, required)
    {
      for i := 0 to |required|
        invariant FirstMissing(fields, required) == FirstMissing(fields, required[i..])
      {
        assert required[i..][1..] == required[i + 1..];
        if !Has(fields, required[i]) {
          return Some(required[i]);
        }
      }
      missing := None;
    }

    /** Appends the fields of the listed tags that the message has. */
    method AppendPresent(text: string, tags: seq<Tag>) returns (r: string)
      requires forall t :: t in tags ==> Has(fields, t)
      ensures r == text + Render(Pick(fields, tags))
    {
      r := text;
      for i := 0 to |tags|
        invariant r + Render(Pick(fields, tags[i..])) == text + Render(Pick(fields, tags))
      {
        assert tags[i..][1..] == tags[i + 1..];
        if Has(fields, tags[i]) {
          var f := Field(tags[i], Get(fields, tags[i]));
          RenderStep(r, f, Pick(fields, tags[i + 1..]));
          r := r + (PrintTag(f.tag) + "=" + PrintValue(f.value) + [SOH]);
        }
      }
    }

    /** Appends the fields without a fixed place, in map order. */
    method AppendRest(text: string) returns (r: string)
      ensures r == text + Render(Rest(fields))
    {
      r := text;
      for i := 0 to |fields|
        invariant r + Render(Rest(fields[i..])) == text + Render(Rest(fields))
      {
        assert fields[i..][1..] == fields[i + 1..];
        if IsRest(fields[i].tag) {
          RenderStep(r, fields[i], Rest(fields[i + 1..]));
          assert Rest(fields[i..]) == [fields[i]] + Rest(fields[i + 1..]);
          r := r + (PrintTag(fields[i].tag) + "=" + PrintValue(fields[i].value) + [SOH]);
        } else {
          assert Rest(fields[i..]) == Rest(fields[i + 1..]);
        }
      }
    }

    /** A separate message with the same fields in the same order. */
    method Clone() returns (cloned: Message)
      requires Valid()
      ensures fresh(cloned) && cloned.Valid() && cloned.fields == fields
    {
      cloned := new Message([]);
      for i := 0 to |fields|
        invariant fresh(cloned) && cloned.Valid() && PutAll(cloned.fields, fields[i..]) == PutAll([], fields)
      {
        cloned.SetField(fields[i].tag, fields[i].value);
      }
      PutAllCopies([], fields);
      assert [] + fields == fields;
    }

    method CreateReverse() returns (reversed: Message)
      requires Valid()
      ensures fresh(reversed) && reversed.Valid() && reversed.fields == Reverse(fields)
    {
      reversed := Clone();
      reversed.SetField(SENDER_COMP_ID, Get(fields, TARGET_COMP_ID));
      reversed.SetField(TARGET_COMP_ID, Get(fields, SENDER_COMP_ID));
    }
  }

  lemma RenderStep(text: string, f: Field, rest: FieldMap)
    ensures text + Render([f] + rest) == text + (PrintTag(f.tag) + "=" + PrintValue(f.value) + [SOH]) + Render(rest)
  {
    assert ([f] + rest)[1..] == rest;
  }

  lemma BodyText(m: FieldMap)
    ensures Render(BodyFields(m)) ==
            ("35=" + PrintValue(Get(m, MSG_TYPE)) + [SOH]) + Render(Pick(m, ORDERED)) + Render(Rest(m))
  {
    var f := Field(MSG_TYPE, Get(m, MSG_TYPE));
    assert Pick(m, [MSG_TYPE] + ORDERED) == [f] + Pick(m, ORDERED);
    RenderConcat([f] + Pick(m, ORDERED), Rest(m));
    RenderConcat([f], Pick(m, ORDERED));
    RenderOne(f);
    TagNames();
    assert "35" + "=" == "35=";
  }
}
