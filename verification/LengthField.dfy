/** Which printed messages the second parser's `parse` accepts: what it makes of a
    length field inside BeginString, and a message that it accepts for one. */
module LengthField {
  import opened Text
  import opened Fields
  import opened Messages
  import opened Parser
  import opened Checksum
  import opened StreamParser

  // --------------------------------------------------- fields that are kept

  /** The fields of m that a field of r does not overwrite. */
  function Without(m: FieldMap, r: FieldMap): FieldMap {
    if m == [] then [] else (if Has(r, m[0].tag) then [] else [m[0]]) + Without(m[1..], r)
  }

  lemma WithoutCons(f: Field, m: FieldMap, r: FieldMap)
    ensures Without([f] + m, r) == (if Has(r, f.tag) then [] else [f]) + Without(m, r)
  {
    assert ([f] + m)[1..] == m;
  }

  lemma {:induction false} WithoutSame(m: FieldMap, r: FieldMap, q: FieldMap)
    requires forall i :: 0 <= i < |m| ==> (Has(r, m[i].tag) <==> Has(q, m[i].tag))
    ensures Without(m, r) == Without(m, q)
  {
    if m != [] {
      WithoutSame(m[1..], r, q);
    }
  }

  lemma {:induction false} WithoutNone(m: FieldMap)
    ensures Without(m, []) == m
  {
    if m != [] {
      WithoutNone(m[1..]);
    }
  }

  lemma TotalOne(f: Field)
    requires f.tag != CHECK_SUM
    ensures Total([f]) == FieldSum(f)
  {
    assert [f][1..] == [];
    assert Summed([f]) == [f];
    RenderSumOne(f);
  }

  lemma TotalMore(f: Field, m: FieldMap)
    requires f.tag != CHECK_SUM
    ensures Total([f] + m) == FieldSum(f) + Total(m)
  {
    TotalConcat([f], m);
    TotalOne(f);
  }

  lemma WithoutOver(m: FieldMap, f: Field, r: FieldMap)
    requires Distinct(m) && m != [] && m[0].tag == f.tag && f.tag != CHECK_SUM && !Has(r, f.tag)
    ensures Total(Without(Put(m, f.tag, f.value), r)) == Total(Without(m, [f] + r)) + FieldSum(f)
  {
    var rest := m[1..];
    TailLacks(m);
    forall i | 0 <= i < |rest| ensures Has([f] + r, rest[i].tag) <==> Has(r, rest[i].tag) {
      HasMore(f, r, rest[i].tag);
    }
    WithoutSame(rest, [f] + r, r);
    HasMore(f, r, m[0].tag);
    assert Without(m, [f] + r) == [] + Without(rest, [f] + r) == Without(rest, r);
    WithoutCons(f, rest, r);
    TotalMore(f, Without(rest, r));
  }

  /** A field that is set takes the place of the one with its tag. */
  lemma {:induction false} WithoutPut(m: FieldMap, f: Field, r: FieldMap)
    requires Distinct(m) && f.tag != CHECK_SUM && !Has(r, f.tag)
    ensures Total(Without(Put(m, f.tag, f.value), r)) == Total(Without(m, [f] + r)) + FieldSum(f)
  {
    if m == [] {
      WithoutCons(f, [], r);
      assert [f] + [] == [f];
      TotalOne(f);
    } else if m[0].tag == f.tag {
      WithoutOver(m, f, r);
    } else {
      var head, rest := if Has(r, m[0].tag) then [] else [m[0]], m[1..];
      WithoutPut(rest, f, r);
      HasMore(f, r, m[0].tag);
      WithoutCons(m[0], Put(rest, f.tag, f.value), r);
      TotalConcat(head, Without(Put(rest, f.tag, f.value), r));
      TotalConcat(head, Without(rest, [f] + r));
    }
  }

  lemma TailLacks(m: FieldMap)
    requires Distinct(m) && m != []
    ensures forall i :: 0 <= i < |m[1..]| ==> m[1..][i].tag != m[0].tag
  {
  }

  /** Setting several fields keeps the sums of what they do not overwrite. */
  lemma {:induction false} PutAllTotal(m: FieldMap, r: FieldMap)
    requires Distinct(m) && Distinct(r) && !Has(r, CHECK_SUM)
    ensures Total(PutAll(m, r)) == Total(Without(m, r)) + Total(r)
    decreases |r|
  {
    if r == [] {
      WithoutNone(m);
    } else {
      var f, rest := r[0], r[1..];
      assert r == [f] + rest;
      TailLacks(r);
      HasMore(f, rest, CHECK_SUM);
      PutLaws(m, f.tag, f.value);
      PutAllTotal(Put(m, f.tag, f.value), rest);
      WithoutPut(m, f, rest);
      TotalMore(f, rest);
    }
  }

  lemma {:induction false} SumIgnored(m: FieldMap, v: Value)
    ensures Summed(Put(m, CHECK_SUM, v)) == Summed(m) && Get(Put(m, CHECK_SUM, v), CHECK_SUM) == v
  {
    if m != [] && m[0].tag != CHECK_SUM {
      SumIgnored(m[1..], v);
      assert Put(m, CHECK_SUM, v)[1..] == Put(m[1..], CHECK_SUM, v);
    }
  }

  // ---------------------------------------------- a printed message as read

  lemma {:induction false} RawPutAll(w: FieldMap, acc: FieldMap)
    requires AllClean(w)
    ensures FoldRaw(Pairs(w), acc) == PutAll(acc, AsText(w))
    decreases |w|
  {
    if w != [] {
      PairSteps(acc, w[0]);
      RawPutAll(w[1..], RawStep(acc, Pair(w[0])));
      assert Pairs(w)[1..] == Pairs(w[1..]) && AsText(w)[1..] == AsText(w[1..]);
    }
  }

  lemma {:induction false} PutAllAppend(m: FieldMap, r: FieldMap, f: Field)
    ensures PutAll(m, r + [f]) == Put(PutAll(m, r), f.tag, f.value)
    decreases |r|
  {
    if r == [] {
      assert [f][1..] == [] && r + [f] == [f];
    } else {
      assert (r + [f])[1..] == r[1..] + [f];
      PutAllAppend(Put(m, r[0].tag, r[0].value), r[1..], f);
    }
  }

  /** The fields of the BeginString piece and of the lines that follow it. */
  lemma ParsedHead(v: string, w: FieldMap)
    requires AllClean(w)
    ensures Parsed(Head(v) + Render(w)) == PutAll(Parsed("8=" + v), AsText(w))
  {
    SplitBoth("8=" + v, SOH, Render(w));
    SplitRendered(w);
    FoldConcat(Split("8=" + v, [SOH]), Pairs(w) + [""], []);
    FoldTrailing(Pairs(w), Parsed("8=" + v));
    RawPutAll(w, Parsed("8=" + v));
  }

  lemma {:induction false} FoldRawDistinct(ps: seq<string>, acc: FieldMap)
    requires Distinct(acc)
    ensures Distinct(FoldRaw(ps, acc))
    decreases |ps|
  {
    if ps != [] {
      StepDistinct(acc, ps[0]);
      FoldRawDistinct(ps[1..], RawStep(acc, ps[0]));
    }
  }

  // --------------------------------------------------------- the condition

  /** What a printed message holds between BeginString and CheckSum. */
  function Between(m: FieldMap): FieldMap {
    [LengthField(m)] + BodyFields(m)
  }

  /** Every value that goes on the wire is clean, but perhaps that of BeginString. */
  ghost predicate RestPrintable(m: FieldMap) {
    forall f :: f in m && f.tag != BEGIN_STRING && f.tag != BODY_LENGTH && f.tag != CHECK_SUM ==>
                  Clean(PrintValue(f.value))
  }

  lemma WireInThree(m: FieldMap)
    ensures var f := Field(BEGIN_STRING, Get(m, BEGIN_STRING));
            WireFields(m) == [f] + (Between(m) + [SumField(m)]) && HeadFields(m) == [f] + Between(m)
  {
    InThree(Field(BEGIN_STRING, Get(m, BEGIN_STRING)), LengthField(m), BodyFields(m), SumField(m));
  }

  lemma InThree(f: Field, l: Field, body: FieldMap, sum: Field)
    ensures [f, l] + body == [f] + ([l] + body)
    ensures [f, l] + body + [sum] == [f] + (([l] + body) + [sum])
  {
  }

  lemma FieldClean(m: FieldMap, f: Field)
    requires Distinct(m) && HasRequired(m) && RestPrintable(m) && f in WireFields(m) && f.tag != BEGIN_STRING
    ensures Clean(PrintValue(f.value))
  {
    TrailerDigits(Render(HeadFields(m)));
    WireOrigin(m, f);
  }

  lemma LaterClean(m: FieldMap)
    requires Distinct(m) && HasRequired(m) && RestPrintable(m)
    ensures AllClean(Between(m) + [SumField(m)])
    ensures Distinct(Between(m)) && !Has(Between(m), CHECK_SUM) && !Has(Between(m), BEGIN_STRING)
  {
    var f, later := Field(BEGIN_STRING, Get(m, BEGIN_STRING)), Between(m) + [SumField(m)];
    WireInThree(m);
    WireDistinct(m);
    BetweenDistinct(f, Between(m), SumField(m));
    forall i | 0 <= i < |later| ensures Clean(PrintValue(later[i].value)) {
      LaterOther(f, later, i);
      FieldClean(m, later[i]);
    }
  }

  lemma LaterOther(f: Field, later: FieldMap, i: nat)
    requires Distinct([f] + later) && i < |later|
    ensures later[i].tag != f.tag && later[i] in [f] + later
  {
    assert ([f] + later)[0] == f && ([f] + later)[i + 1] == later[i];
  }

  lemma BetweenDistinct(f: Field, r: FieldMap, last: Field)
    requires Distinct([f] + (r + [last]))
    ensures Distinct(r) && !Has(r, f.tag) && !Has(r, last.tag)
  {
    var w := [f] + (r + [last]);
    assert w[0] == f && w[|r| + 1] == last && forall i :: 0 <= i < |r| ==> w[i + 1] == r[i];
  }

  /** What `parse` keeps of the BeginString piece, where r overwrites the rest, has the
      sum of the whole piece mod 256. */
  predicate KeepsSum(v: string, r: FieldMap) {
    Total(Without(Parsed("8=" + v), r)) % 256 == CodeSum(Head(v)) % 256
  }

  lemma BeginLine(f: Field)
    requires f.tag == BEGIN_STRING
    ensures Render([f]) == Head(PrintValue(f.value))
  {
    RenderOne(f);
    TagNames();
    assert "8" + "=" == "8=";
  }

  lemma HeadSum(m: FieldMap)
    ensures CodeSum(Render(HeadFields(m))) ==
            CodeSum(Head(PrintValue(Get(m, BEGIN_STRING)))) + CodeSum(Render(Between(m)))
  {
    var f := Field(BEGIN_STRING, Get(m, BEGIN_STRING));
    WireInThree(m);
    RenderSumConcat([f], Between(m));
    BeginLine(f);
  }

  lemma BetweenTotal(r: FieldMap)
    requires Distinct(r) && !Has(r, CHECK_SUM)
    ensures Total(AsText(r)) == CodeSum(Render(r))
    ensures Distinct(AsText(r)) && !Has(AsText(r), CHECK_SUM)
  {
    AsTextDistinct(r);
    AsTextGet(r, CHECK_SUM);
    var t := AsText(r);
    forall f | f in t ensures f.tag != CHECK_SUM {
      HasMember(t, f);
    }
    SummedAll(t);
    RenderAsText(r);
  }

  lemma WithoutText(m: FieldMap, r: FieldMap)
    requires Distinct(r)
    ensures Without(m, AsText(r)) == Without(m, r)
  {
    forall i | 0 <= i < |m| ensures Has(AsText(r), m[i].tag) <==> Has(r, m[i].tag) {
      AsTextGet(r, m[i].tag);
    }
    WithoutSame(m, AsText(r), r);
  }

  lemma WireFromBegin(m: FieldMap)
    ensures Wire(m) == Head(PrintValue(Get(m, BEGIN_STRING))) + Render(Between(m) + [SumField(m)])
  {
    var f := Field(BEGIN_STRING, Get(m, BEGIN_STRING));
    WireInThree(m);
    RenderConcat([f], Between(m) + [SumField(m)]);
    BeginLine(f);
  }

  lemma LastPut(acc: FieldMap, r: FieldMap, sum: Field)
    requires sum.value.Str?
    ensures PutAll(acc, AsText(r + [sum])) == Put(PutAll(acc, AsText(r)), sum.tag, sum.value)
  {
    AsTextConcat(r, [sum]);
    assert AsText([sum]) == [sum];
    PutAllAppend(acc, AsText(r), sum);
  }

  /** The text of a printed message as `parse` reads it. */
  lemma ParsedWire(m: FieldMap)
    requires Distinct(m) && HasRequired(m) && RestPrintable(m)
    ensures var acc := Parsed("8=" + PrintValue(Get(m, BEGIN_STRING)));
            Parsed(Wire(m)) == Put(PutAll(acc, AsText(Between(m))), CHECK_SUM, Str(Trailer(Render(HeadFields(m)))))
  {
    var v := PrintValue(Get(m, BEGIN_STRING));
    LaterClean(m);
    WireFromBegin(m);
    ParsedHead(v, Between(m) + [SumField(m)]);
    LastPut(Parsed("8=" + v), Between(m), SumField(m));
  }

  lemma HoldsIff(m: FieldMap)
    requires Distinct(m) && HasRequired(m) && RestPrintable(m)
    ensures Holds(Parsed(Wire(m))) <==> KeepsSum(PrintValue(Get(m, BEGIN_STRING)), Between(m))
  {
    var v, r := PrintValue(Get(m, BEGIN_STRING)), Between(m);
    var acc := Parsed("8=" + v);
    var read := PutAll(acc, AsText(r));
    LaterClean(m);
    ParsedWire(m);
    SumIgnored(read, Str(Trailer(Render(HeadFields(m)))));
    FoldRawDistinct(Split("8=" + v, [SOH]), []);
    BetweenTotal(r);
    PutAllTotal(acc, AsText(r));
    WithoutText(acc, r);
    HeadSum(m);
    TrailersDiffer(Render(HeadFields(m)), Render(Summed(read)));
    SameRemainder(Total(read), CodeSum(Render(HeadFields(m))), CodeSum(Head(v)), Total(Without(acc, r)));
  }

  /** THE SECOND PARSER. `parse` accepts a printed message, clean but for its
      BeginString, if and only if the BeginString starts with `FIX`, carries a length
      field that says the length `parse` will count, and what is read of it, as far
      as the message's own fields do not overwrite it, has its sum mod 256. */
  lemma AcceptedIff(m: FieldMap)
    requires Distinct(m) && HasRequired(m) && RestPrintable(m)
    ensures var v := PrintValue(Get(m, BEGIN_STRING));
            ParseStrict(Wire(m)).Some? <==> FakesLength(v, |Wire(m)|) && KeepsSum(v, Between(m))
  {
    PrintedAcceptedIff(m);
    HoldsIff(m);
  }

  // ------------------------------------------- a printed message it accepts

  /** A BeginString with a length field of its own; that field sums to 512. */
  const FAKE: string := "FIX" + [SOH] + "9=00000063"

  lemma FakeSum()
    ensures CodeSum("9=00000063" + [SOH]) == 512
  {
    var zeros := "000000";
    SumOf3("000");
    CodeSumConcat("000", "000");
    assert "000" + "000" == zeros;
    SumOf3("63" + [SOH]);
    CodeSumConcat("9=", zeros);
    CodeSumConcat("9=" + zeros, "63" + [SOH]);
    assert "9="[..1] == "9" && "9"[..0] == "";
    assert CodeSum("9=") == 57 + 61;
    assert "9=" + zeros + ("63" + [SOH]) == "9=00000063" + [SOH];
  }

  lemma SumOf3(s: string)
    requires |s| == 3
    ensures CodeSum(s) == s[0] as int + s[1] as int + s[2] as int
  {
    assert s[..2][..1] == s[..1] && s[..1][..0] == "";
    assert CodeSum(s[..1]) == s[0] as int;
    assert CodeSum(s[..2]) == CodeSum(s[..2][..1]) + s[1] as int;
  }

  lemma FakeVal()
    ensures AllDigits("00000063") && Val("00000063") == 63
  {
    var s := "00000063";
    assert s[..7] == "0000006" && s[..6] == "000000";
    ZeroVal("000000");
    assert Val("0000006") == 6 by {
      assert "0000006"[..6] == "000000";
    }
  }

  lemma {:induction false} ZeroVal(s: string)
    requires forall i :: 0 <= i < |s| ==> s[i] == '0'
    ensures AllDigits(s) && Val(s) == 0
  {
    if s != "" {
      ZeroVal(s[..|s| - 1]);
    }
  }

  lemma FakeMatches()
    ensures FakesLength(FAKE, 72)
  {
    var h := Head(FAKE);
    var p, d := Head("FIX"), "00000063";
    assert h == p + Tail(d, "");
    FakeVal();
    MatchAtTail(p, d, "");
    forall k | 0 <= k < 6 ensures !OccursAt(h, "9=", k) {
      NineEquals(h, k);
      assert h[k] == p[k];
    }
    NoMatchBefore(h, 0, 6);
    assert FAKE[..3] == "FIX";
  }

  lemma {:induction false} NoMatchBefore(s: string, i: nat, k: nat)
    requires i <= k <= |s| && forall j :: i <= j < k ==> !OccursAt(s, "9=", j)
    ensures FirstMatch(s, i) == FirstMatch(s, k)
    decreases k - i
  {
    if i < k {
      NoMatchBefore(s, i + 1, k);
    }
  }

  /** The fake length field in the text. */
  const FAKE_LINE: string := "9=00000063" + [SOH]

  function Faked(tail: FieldMap): FieldMap {
    [Field(BEGIN_STRING, Str(FAKE))] + tail
  }

  lemma FakePairs(f: Field, g: Field)
    requires f == Field(BEGIN_STRING, Str("FIX")) && g == Field(BODY_LENGTH, Str("00000063"))
    ensures Pair(f) == "8=FIX" && Pair(g) == "9=00000063"
  {
    TagNames();
  }

  /** The two fields that are read in it. */
  lemma FakeRead(f: Field, g: Field)
    requires f == Field(BEGIN_STRING, Str("FIX")) && g == Field(BODY_LENGTH, Str("00000063"))
    ensures Parsed("8=" + FAKE) == [f, g]
  {
    FakePairs(f, g);
    assert "8=" + FAKE == "8=FIX" + [SOH] + "9=00000063";
    SplitNone("9=00000063", SOH);
    SplitAtChar("8=FIX", SOH, "9=00000063");
    assert Clean("FIX") && Clean("00000063");
    TwoRead(f, g);
  }

  lemma TwoRead(f: Field, g: Field)
    requires f.tag != g.tag && f.value.Str? && g.value.Str? && Clean(f.value.s) && Clean(g.value.s)
    ensures FoldRaw([Pair(f), Pair(g)], []) == [f, g]
  {
    assert AsText([f, g]) == [f, g] && Pairs([f, g]) == [Pair(f), Pair(g)] by {
      assert [f, g][1..] == [g] && [g][1..] == [];
    }
    FoldPairs([f, g], []);
  }

  /** The genuine length field overwrites the fake one, and its sum does not matter. */
  lemma FakeKeepsSum(r: FieldMap)
    requires Has(r, BODY_LENGTH) && !Has(r, BEGIN_STRING)
    ensures KeepsSum(FAKE, r)
  {
    var f, g := Field(BEGIN_STRING, Str("FIX")), Field(BODY_LENGTH, Str("00000063"));
    FakeRead(f, g);
    KeptOfTwo(f, g, r);
    FakeSums(f);
    SameRemainder(Total([f]), CodeSum(Head(FAKE)), 512, 0);
  }

  lemma KeptOfTwo(f: Field, g: Field, r: FieldMap)
    requires !Has(r, f.tag) && Has(r, g.tag)
    ensures Without([f, g], r) == [f]
  {
    WithoutCons(f, [g], r);
    WithoutCons(g, [], r);
    assert [f, g] == [f] + [g] && [g] == [g] + [];
  }

  lemma FakeSums(f: Field)
    requires f == Field(BEGIN_STRING, Str("FIX"))
    ensures CodeSum(Head(FAKE)) == Total([f]) + 512
  {
    FakeSum();
    TotalOne(f);
    RenderSumOne(f);
    RenderOne(f);
    FakePairs(f, Field(BODY_LENGTH, Str("00000063")));
    assert Head(FAKE) == Render([f]) + FAKE_LINE;
    CodeSumConcat(Render([f]), FAKE_LINE);
  }

  /** WITNESS. A message with this BeginString that prints to 72 characters is accepted. */
  lemma FakeAccepted(tail: FieldMap)
    requires var m := Faked(tail); Distinct(m) && HasRequired(m) && RestPrintable(m) && |Wire(m)| == 72
    ensures ParseStrict(Wire(Faked(tail))).Some?
  {
    var m := Faked(tail);
    LaterClean(m);
    assert Between(m)[0].tag == BODY_LENGTH;
    FakeMatches();
    FakeKeepsSum(Between(m));
    AcceptedIff(m);
  }

  lemma LineLength(f: Field, rest: FieldMap)
    ensures |Render([f] + rest)| == |PrintTag(f.tag)| + |PrintValue(f.value)| + 2 + |Render(rest)|
  {
    assert ([f] + rest)[1..] == rest;
  }

  /** The other fields of such a message. */
  const SAMPLE: FieldMap :=
    [Field(MSG_TYPE, Str("0")), Field(SENDER_COMP_ID, Str("A")), Field(TARGET_COMP_ID, Str("B")),
     Field(MSG_SEQ_NUM, Str("1")), Field(SENDING_TIME, Str("T")), Field(Number(58), Str("fourteen chars"))]

  ghost predicate IsSample(m: FieldMap) {
    && |m| == 7 && m[0] == Field(BEGIN_STRING, Str(FAKE))
    && m[1] == Field(MSG_TYPE, Str("0")) && m[2] == Field(SENDER_COMP_ID, Str("A"))
    && m[3] == Field(TARGET_COMP_ID, Str("B")) && m[4] == Field(MSG_SEQ_NUM, Str("1"))
    && m[5] == Field(SENDING_TIME, Str("T")) && m[6] == Field(Number(58), Str("fourteen chars"))
  }

  lemma SampleDistinct(m: FieldMap)
    requires IsSample(m)
    ensures Distinct(m)
  {
  }

  lemma SampleGets(m: FieldMap)
    requires IsSample(m)
    ensures HasRequired(m) && Get(m, BEGIN_STRING) == m[0].value
    ensures Pick(m, [MSG_TYPE] + ORDERED) == m[1..6]
  {
    SampleDistinct(m);
    GetAt(m, 0);
    GetAt(m, 1);
    GetAt(m, 2);
    GetAt(m, 3);
    GetAt(m, 4);
    GetAt(m, 5);
    RequiredTags(m);
  }

  lemma SampleClean(m: FieldMap)
    requires IsSample(m)
    ensures RestPrintable(m)
  {
    assert Clean("0") && Clean("A") && Clean("B") && Clean("1") && Clean("T") && Clean("fourteen chars");
    forall i | 1 <= i < 7 ensures Clean(PrintValue(m[i].value)) {
      assert i == 1 || i == 2 || i == 3 || i == 4 || i == 5 || i == 6;
    }
    forall f | f in m && f.tag != BEGIN_STRING ensures Clean(PrintValue(f.value)) {
      var i :| 0 <= i < 7 && m[i] == f;
    }
  }

  lemma SampleRest(m: FieldMap)
    requires IsSample(m)
    ensures Rest(m) == [m[6]]
  {
    assert m == m[..6] + [m[6]];
    RestConcat(m[..6], [m[6]]);
    RestNone(m[..6]);
    RestAll([m[6]]);
  }

  lemma SampleLength(m: FieldMap)
    requires IsSample(m)
    ensures |Render(m[1..6] + [m[6]])| == 43
  {
    assert m[1..6] + [m[6]] == [m[1]] + ([m[2]] + ([m[3]] + ([m[4]] + ([m[5]] + ([m[6]] + [])))));
    SampleTags(m);
    LineLength(m[6], []);
    LineLength(m[5], [m[6]] + []);
    LineLength(m[4], [m[5]] + ([m[6]] + []));
    LineLength(m[3], [m[4]] + ([m[5]] + ([m[6]] + [])));
    LineLength(m[2], [m[3]] + ([m[4]] + ([m[5]] + ([m[6]] + []))));
    LineLength(m[1], [m[2]] + ([m[3]] + ([m[4]] + ([m[5]] + ([m[6]] + [])))));
  }

  lemma SampleTags(m: FieldMap)
    requires IsSample(m)
    ensures forall i :: 1 <= i < 7 ==> |PrintTag(m[i].tag)| == 2
  {
    TagNames();
    TwoDigitVal('5', '8');
    TwoDigitTag(58, '5', '8');
  }

  /** There is one, so `parse` does accept some printed message. */
  lemma SomePrintedAccepted()
    ensures ParseStrict(Wire(Faked(SAMPLE))).Some?
  {
    var m := Faked(SAMPLE);
    assert IsSample(m);
    SampleDistinct(m);
    SampleGets(m);
    SampleClean(m);
    SampleRest(m);
    SampleLength(m);
    SampleWire(m);
    FakeAccepted(SAMPLE);
  }

  lemma SampleWire(m: FieldMap)
    requires Get(m, BEGIN_STRING) == Str(FAKE) && |Render(BodyFields(m))| == 43
    ensures |Wire(m)| == 72
  {
    assert Digits(43) == Digits(4) + [Digit(3)];
    HeadText(m);
    WireText(m);
    TrailerDigits(Render(HeadFields(m)));
  }
}
