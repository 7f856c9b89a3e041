/** `ChecksumValidator`: recomputing the checksum of a received message from
    its field map. */
module Checksum {
  import opened Text
  import opened Fields
  import opened Messages
  import opened Parser

  // ------------------------------------------------------- specification

  /** All fields but CheckSum, in map order. */
  function Summed(m: FieldMap): FieldMap {
    if m == [] then [] else (if m[0].tag != CHECK_SUM then [m[0]] else []) + Summed(m[1..])
  }

  /** The message's CheckSum field is the text of its recomputed checksum. */
  predicate Holds(m: FieldMap) {
    Get(m, CHECK_SUM) == Str(Trailer(Render(Summed(m))))
  }

  // --------------------------------------------------------- the methods

  lemma SummedStep(m: FieldMap, i: nat)
    requires i < |m|
    ensures Summed(m[i..]) == (if m[i].tag != CHECK_SUM then [m[i]] else []) + Summed(m[i + 1..])
  {
    assert m[i..][1..] == m[i + 1..];
  }

  method SummedText(fields: FieldMap) returns (messageString: string)
    ensures messageString == Render(Summed(fields))
  {
    messageString := "";
    for i := 0 to |fields|
      invariant messageString + Render(Summed(fields[i..])) == Render(Summed(fields))
    {
      SummedStep(fields, i);
      var f := fields[i];
      if f.tag != CHECK_SUM {
        RenderStep(messageString, f, Summed(fields[i + 1..]));
        messageString := messageString + (PrintTag(f.tag) + "=" + PrintValue(f.value) + [SOH]);
      } else {
        assert Summed(fields[i..]) == Summed(fields[i + 1..]);
      }
    }
  }

  /** The validator's own `calculateChecksum`, over the field map. */
  method RecomputeChecksum(fields: FieldMap) returns (r: string)
    ensures r == Trailer(Render(Summed(fields)))
  {
    var messageString := SummedText(fields);
    var sum := SumOfCodes(messageString);
    sum := sum % 256;
    r := Padded(sum, 3);
  }

  /** `validate` */
  method Validate(message: Message) returns (ok: bool)
    ensures ok == Holds(message.fields)
  {
    var calculated := RecomputeChecksum(message.fields);
    ok := Get(message.fields, CHECK_SUM) == Str(calculated);
  }

  // ------------------------------------------------------------ agreement

  lemma {:induction false} SummedConcat(a: FieldMap, b: FieldMap)
    ensures Summed(a + b) == Summed(a) + Summed(b)
  {
    if a == [] {
      assert a + b == b;
    } else {
      var head := if a[0].tag != CHECK_SUM then [a[0]] else [];
      assert (a + b)[1..] == a[1..] + b;
      SummedConcat(a[1..], b);
      Assoc(head, Summed(a[1..]), Summed(b));
    }
  }

  lemma {:induction false} SummedAll(m: FieldMap)
    requires forall f :: f in m ==> f.tag != CHECK_SUM
    ensures Summed(m) == m
  {
    if m != [] {
      SummedAll(m[1..]);
    }
  }

  lemma {:induction false} AsTextConcat(a: FieldMap, b: FieldMap)
    ensures AsText(a + b) == AsText(a) + AsText(b)
  {
    if a == [] {
      assert a + b == b;
    } else {
      assert (a + b)[1..] == a[1..] + b;
      AsTextConcat(a[1..], b);
      Assoc([AsText(a)[0]], AsText(a[1..]), AsText(b));
    }
  }

  lemma HeadHasNoSum(m: FieldMap)
    ensures forall f :: f in AsText(HeadFields(m)) ==> f.tag != CHECK_SUM
  {
    var front, fixed := [Field(BEGIN_STRING, Get(m, BEGIN_STRING)), LengthField(m)], Pick(m, [MSG_TYPE] + ORDERED);
    RestMembers(m);
    NoSumConcat(fixed, Rest(m));
    NoSumConcat(front, BodyFields(m));
    var h := HeadFields(m);
    assert forall i :: 0 <= i < |h| ==> AsText(h)[i].tag == h[i].tag && h[i] in h;
  }

  lemma NoSumConcat(a: FieldMap, b: FieldMap)
    requires (forall f :: f in a ==> f.tag != CHECK_SUM) && forall f :: f in b ==> f.tag != CHECK_SUM
    ensures forall f :: f in a + b ==> f.tag != CHECK_SUM
  {
  }

  /** CHECKSUM AGREEMENT. The validator accepts every message read back from a
      printed one. */
  lemma AcceptsPrinted(m: FieldMap)
    requires Distinct(m) && HasRequired(m) && Printable(m)
    ensures |Received(Wire(m))| == 1 && Holds(Received(Wire(m))[0])
  {
    ReceivedOne(m);
    ReceivedFields(m, CHECK_SUM);
    WireHolds(m);
  }

  lemma WireHolds(m: FieldMap)
    requires Get(AsText(WireFields(m)), CHECK_SUM) == Str(Trailer(Render(HeadFields(m))))
    ensures Holds(AsText(WireFields(m)))
  {
    var h := HeadFields(m);
    SummedWire(h, SumField(m));
    HeadHasNoSum(m);
    SummedAll(AsText(h));
    RenderAsText(h);
  }

  lemma SummedWire(h: FieldMap, last: Field)
    requires last.tag == CHECK_SUM
    ensures Summed(AsText(h + [last])) == Summed(AsText(h))
  {
    AsTextConcat(h, [last]);
    SummedConcat(AsText(h), AsText([last]));
    assert Summed(AsText([last])) == Summed([]) by {
      assert AsText([last])[1..] == [];
    }
  }

  // ------------------------------------------------------------ detection

  /** Character sum of one rendered field. */
  function FieldSum(f: Field): nat {
    CodeSum(PrintTag(f.tag) + "=") + CodeSum(PrintValue(f.value)) + 1
  }

  lemma RenderSumOne(f: Field)
    ensures CodeSum(Render([f])) == FieldSum(f)
  {
    RenderOne(f);
    CodeSumConcat(Pair(f), [SOH]);
    CodeSumConcat(PrintTag(f.tag) + "=", PrintValue(f.value));
    assert [SOH][..0] == [];
  }

  lemma RenderSumConcat(a: FieldMap, b: FieldMap)
    ensures CodeSum(Render(a + b)) == CodeSum(Render(a)) + CodeSum(Render(b))
  {
    RenderConcat(a, b);
    CodeSumConcat(Render(a), Render(b));
  }

  /** The sum over all fields but CheckSum. */
  function Total(m: FieldMap): nat {
    CodeSum(Render(Summed(m)))
  }

  lemma TotalConcat(a: FieldMap, b: FieldMap)
    ensures Total(a + b) == Total(a) + Total(b)
  {
    SummedConcat(a, b);
    RenderSumConcat(Summed(a), Summed(b));
  }

  lemma TotalAround(a: FieldMap, fs: FieldMap, b: FieldMap)
    requires forall g :: g in fs ==> g.tag != CHECK_SUM
    ensures Total(a + fs + b) == Total(a) + CodeSum(Render(fs)) + Total(b)
  {
    TotalConcat(a + fs, b);
    TotalConcat(a, fs);
    SummedAll(fs);
  }

  lemma TrailersDiffer(a: string, b: string)
    ensures Trailer(a) == Trailer(b) <==> CodeSum(a) % 256 == CodeSum(b) % 256
  {
    TrailerDigits(a);
    TrailerDigits(b);
  }

  lemma SameRemainder(x: int, y: int, p: int, q: int)
    requires x + p == y + q
    ensures x % 256 == y % 256 <==> p % 256 == q % 256
  {
  }

  /** What stands for one field of an accepted message goes unnoticed exactly when
      it has the same sum mod 256 as that field. */
  lemma VerdictIff(a: FieldMap, f: Field, fs: FieldMap, b: FieldMap)
    requires Holds(a + [f] + b) && f.tag != CHECK_SUM
    requires forall g :: g in fs ==> g.tag != CHECK_SUM
    ensures Holds(a + fs + b) <==> CodeSum(Render(fs)) % 256 == FieldSum(f) % 256
  {
    AbsentBetween(a, [f], b);
    AbsentBetween(a, fs, b);
    TotalAround(a, [f], b);
    TotalAround(a, fs, b);
    RenderSumOne(f);
    TrailersDiffer(Render(Summed(a + fs + b)), Render(Summed(a + [f] + b)));
    SameRemainder(Total(a + fs + b), Total(a + [f] + b), FieldSum(f), CodeSum(Render(fs)));
  }

  lemma AbsentBetween(a: FieldMap, fs: FieldMap, b: FieldMap)
    requires forall g :: g in fs ==> g.tag != CHECK_SUM
    ensures Get(a + fs + b, CHECK_SUM) == if Has(a, CHECK_SUM) then Get(a, CHECK_SUM) else Get(b, CHECK_SUM)
  {
    GetConcat(a + fs, b, CHECK_SUM);
    GetConcat(a, fs, CHECK_SUM);
    HasConcat(a, fs, CHECK_SUM);
    assert forall i :: 0 <= i < |fs| ==> fs[i] in fs;
  }

  /** DETECTION. Replacing the value of one field other than CheckSum in an
      accepted message goes unnoticed exactly when the old and the new value
      have the same character sum mod 256. */
  lemma DetectsIffSumsDiffer(m: FieldMap, i: nat, v: Value)
    requires Holds(m) && i < |m| && m[i].tag != CHECK_SUM
    ensures Holds(m[i := Field(m[i].tag, v)]) <==>
            CodeSum(PrintValue(v)) % 256 == CodeSum(PrintValue(m[i].value)) % 256
  {
    FieldBetween(m, i, Field(m[i].tag, v));
    ValueVerdict(m[..i], m[i].tag, m[i].value, v, m[i + 1..]);
  }

  lemma FieldBetween(m: FieldMap, i: nat, g: Field)
    requires i < |m|
    ensures m == m[..i] + [Field(m[i].tag, m[i].value)] + m[i + 1..] && m[i := g] == m[..i] + [g] + m[i + 1..]
  {
  }

  lemma ValueVerdict(a: FieldMap, t: Tag, x: Value, y: Value, b: FieldMap)
    requires Holds(a + [Field(t, x)] + b) && t != CHECK_SUM
    ensures Holds(a + [Field(t, y)] + b) <==> CodeSum(PrintValue(y)) % 256 == CodeSum(PrintValue(x)) % 256
  {
    VerdictIff(a, Field(t, x), [Field(t, y)], b);
    ValueSums(t, x, y);
  }

  lemma ValueSums(t: Tag, x: Value, y: Value)
    ensures CodeSum(Render([Field(t, y)])) % 256 == FieldSum(Field(t, x)) % 256 <==>
            CodeSum(PrintValue(y)) % 256 == CodeSum(PrintValue(x)) % 256
  {
    var f, g := Field(t, x), Field(t, y);
    RenderSumOne(g);
    SameRemainder(FieldSum(g), FieldSum(f), CodeSum(PrintValue(x)), CodeSum(PrintValue(y)));
  }

  /** Every substitution of one single-byte character is detected. */
  lemma DetectsSubstitution(m: FieldMap, i: nat, j: nat, c: char)
    requires Holds(m) && i < |m| && m[i].tag != CHECK_SUM
    requires m[i].value.Str? && j < |m[i].value.s|
    requires c != m[i].value.s[j] && c as int < 256 && m[i].value.s[j] as int < 256
    ensures !Holds(m[i := Field(m[i].tag, Str(m[i].value.s[j := c]))])
  {
    var s := m[i].value.s;
    CodeSumUpdate(s, j, c);
    DetectsIffSumsDiffer(m, i, Str(s[j := c]));
    SmallDelta(CodeSum(s), c as int - s[j] as int);
  }

  lemma SmallDelta(x: int, d: int)
    requires -256 < d < 256 && d != 0
    ensures (x + d) % 256 != x % 256
  {
  }

  /** Exchanging two characters of a value is never detected. */
  lemma MissesExchange(m: FieldMap, i: nat, j: nat, k: nat)
    requires Holds(m) && i < |m| && m[i].tag != CHECK_SUM
    requires m[i].value.Str? && j < |m[i].value.s| && k < |m[i].value.s|
    ensures var s := m[i].value.s;
            Holds(m[i := Field(m[i].tag, Str(s[j := s[k]][k := s[j]]))])
  {
    var s := m[i].value.s;
    CodeSumUpdate(s, j, s[k]);
    assert CodeSum(s[j := s[k]][k := s[j]]) == CodeSum(s) by {
      CodeSumUpdate(s[j := s[k]], k, s[j]);
    }
    DetectsIffSumsDiffer(m, i, Str(s[j := s[k]][k := s[j]]));
  }
}
