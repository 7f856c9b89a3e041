/** The field map of a FIX message as JavaScript's insertion-ordered `Map`,
    and the text its tags and values print as. */
module Fields {
  import opened Text

  /** A map key: an integer tag, or the `NaN` that `parseInt` yields on junk. */
  datatype Tag = Number(n: int) | NotANumber

  /** A stored value: text, a whole number, or `undefined`. */
  datatype Value = Str(s: string) | Whole(n: int) | Undefined

  datatype Field = Field(tag: Tag, value: Value)

  type FieldMap = seq<Field>

  const BEGIN_STRING: Tag := Number(8)
  const BODY_LENGTH: Tag := Number(9)
  const CHECK_SUM: Tag := Number(10)
  const MSG_SEQ_NUM: Tag := Number(34)
  const MSG_TYPE: Tag := Number(35)
  const SENDER_COMP_ID: Tag := Number(49)
  const SENDING_TIME: Tag := Number(52)
  const TARGET_COMP_ID: Tag := Number(56)
  const HEART_BT_INT: Tag := Number(108)

  // ------------------------------------------------------------- the map

  ghost predicate Distinct(m: FieldMap) {
    forall i, j :: 0 <= i < j < |m| ==> m[i].tag != m[j].tag
  }

  /** `Map.has` */
  predicate Has(m: FieldMap, t: Tag) {
    exists i :: 0 <= i < |m| && m[i].tag == t
  }

  /** `Map.get`, with `undefined` for a missing key. */
  function Get(m: FieldMap, t: Tag): (v: Value)
    ensures !Has(m, t) ==> v == Undefined
    ensures Has(m, t) ==> Field(t, v) in m
  {
    if m == [] then Undefined
    else if m[0].tag == t then m[0].value
    else
      assert Has(m, t) ==> Has(m[1..], t);
      assert Has(m[1..], t) ==> Has(m, t) by {
        if Has(m[1..], t) {
          var i :| 0 <= i < |m[1..]| && m[1..][i].tag == t;
          assert m[i + 1].tag == t;
        }
      }
      Get(m[1..], t)
  }

  /** `Map.set`: overwrite in place, or append. */
  function Put(m: FieldMap, t: Tag, v: Value): (r: FieldMap) {
    if m == [] then [Field(t, v)]
    else if m[0].tag == t then [Field(t, v)] + m[1..]
    else [m[0]] + Put(m[1..], t, v)
  }

  lemma {:induction false} PutAt(m: FieldMap, t: Tag, v: Value, i: nat)
    requires Distinct(m) && i < |m| && m[i].tag == t
    ensures Put(m, t, v) == m[i := Field(t, v)]
  {
    if i > 0 {
      assert m[0].tag != m[i].tag;
      PutAt(m[1..], t, v, i - 1);
      assert m == [m[0]] + m[1..];
    }
  }

  lemma {:induction false} PutNew(m: FieldMap, t: Tag, v: Value)
    requires !Has(m, t)
    ensures Put(m, t, v) == m + [Field(t, v)]
  {
    if m != [] {
      assert m[0].tag != t;
      forall i | 0 <= i < |m[1..]| ensures m[1..][i].tag != t {
        assert m[i + 1].tag != t;
      }
      PutNew(m[1..], t, v);
      assert m == [m[0]] + m[1..];
    }
  }

  lemma {:induction false} GetAt(m: FieldMap, i: nat)
    requires Distinct(m) && i < |m|
    ensures Has(m, m[i].tag) && Get(m, m[i].tag) == m[i].value
  {
    if i > 0 {
      assert m[0].tag != m[i].tag;
      GetAt(m[1..], i - 1);
    }
  }

  lemma HasConcat(a: FieldMap, b: FieldMap, t: Tag)
    ensures Has(a + b, t) <==> Has(a, t) || Has(b, t)
  {
    if Has(a, t) {
      var i :| 0 <= i < |a| && a[i].tag == t;
      assert (a + b)[i].tag == t;
    }
    if Has(b, t) {
      var i :| 0 <= i < |b| && b[i].tag == t;
      assert (a + b)[|a| + i].tag == t;
    }
  }

  lemma HasMore(f: Field, r: FieldMap, t: Tag)
    ensures Has([f] + r, t) <==> f.tag == t || Has(r, t)
  {
    HasConcat([f], r, t);
    assert [f][0] == f;
  }

  lemma {:induction false} GetConcat(a: FieldMap, b: FieldMap, t: Tag)
    ensures Get(a + b, t) == if Has(a, t) then Get(a, t) else Get(b, t)
  {
    if a == [] {
      assert a + b == b;
    } else {
      assert (a + b)[1..] == a[1..] + b;
      GetConcat(a[1..], b, t);
      HasConcat([a[0]], a[1..], t);
      assert a == [a[0]] + a[1..];
      assert Has([a[0]], t) <==> a[0].tag == t by {
        assert [a[0]][0].tag == a[0].tag;
      }
    }
  }

  lemma {:induction false} PutReads(m: FieldMap, t: Tag, v: Value, u: Tag)
    ensures Has(Put(m, t, v), u) <==> u == t || Has(m, u)
    ensures Get(Put(m, t, v), u) == if u == t then v else Get(m, u)
  {
    if m == [] {
      assert Put(m, t, v)[0].tag == t;
    } else {
      var f, rest := m[0], m[1..];
      assert m == [f] + rest;
      HasMore(f, rest, u);
      if f.tag == t {
        HasMore(Field(t, v), rest, u);
      } else {
        PutReads(rest, t, v, u);
        HasMore(f, Put(rest, t, v), u);
      }
    }
  }

  lemma PutDistinct(m: FieldMap, t: Tag, v: Value)
    requires Distinct(m)
    ensures Distinct(Put(m, t, v))
  {
    if Has(m, t) {
      var i :| 0 <= i < |m| && m[i].tag == t;
      PutAt(m, t, v, i);
    } else {
      PutNew(m, t, v);
      assert forall i :: 0 <= i < |m| ==> m[i].tag != t;
    }
  }

  /** The laws of `Map.set`: distinct keys stay distinct, the written key reads
      back, and every other key is untouched. */
  lemma PutLaws(m: FieldMap, t: Tag, v: Value)
    requires Distinct(m)
    ensures Distinct(Put(m, t, v))
    ensures forall u :: Has(Put(m, t, v), u) <==> u == t || Has(m, u)
    ensures forall u :: Get(Put(m, t, v), u) == if u == t then v else Get(m, u)
  {
    PutDistinct(m, t, v);
    forall u
      ensures Has(Put(m, t, v), u) <==> u == t || Has(m, u)
      ensures Get(Put(m, t, v), u) == if u == t then v else Get(m, u)
    {
      PutReads(m, t, v, u);
    }
  }

  // ------------------------------------------------------------ printing

  /** A tag in a template literal. */
  function PrintTag(t: Tag): (s: string)
    ensures s != [] && SOH !in s && '=' !in s
  {
    match t
    case Number(n) => PrintInt(n)
    case NotANumber => "NaN"
  }

  function PrintInt(n: int): (s: string)
    ensures s != [] && SOH !in s && '=' !in s
  {
    if n < 0 then "-" + Digits(-n) else Digits(n)
  }

  /** A value in a template literal. */
  function PrintValue(v: Value): string {
    match v
    case Str(s) => s
    case Whole(n) => PrintInt(n)
    case Undefined => "undefined"
  }

  /** What values print as: a number as its shortest decimal, after a sign if it is
      negative, text as itself. */
  lemma PrintedValues(n: nat)
    ensures IsDecimal(PrintValue(Whole(n)), n)
    ensures n > 0 ==> var s := PrintValue(Whole(0 - n)); s[0] == '-' && IsDecimal(s[1..], n)
    ensures (forall s :: PrintValue(Str(s)) == s) && PrintValue(Undefined) == "undefined"
  {
    DigitsAreDecimal(n);
    assert n > 0 ==> PrintValue(Whole(0 - n))[1..] == Digits(n);
  }

  lemma TwoDigitTag(n: nat, a: char, b: char)
    requires 10 <= n < 100 && IsDigit(a) && IsDigit(b) && Val([a, b]) == n
    ensures PrintTag(Number(n)) == [a, b]
  {
    DigitsAreDecimal(n);
    Pow10AtLeast(1);
    assert Pow10(2) == 10 * Pow10(1) == 100;
    assert |Digits(n)| <= 2 && !(|Digits(n)| <= 1);
    SameDigits(Digits(n), [a, b]);
  }

  lemma TwoDigitVal(a: char, b: char)
    requires IsDigit(a) && IsDigit(b)
    ensures Val([a, b]) == 10 * (a as int - 48) + (b as int - 48)
  {
    assert [a, b][..1] == [a] && [a][..0] == [];
    assert Val([a]) == 10 * Val([a][..0]) + (a as int - 48);
    assert Val([a, b]) == 10 * Val([a, b][..1]) + (b as int - 48);
  }

  /** The tags by their printed names. */
  lemma TagNames()
    ensures PrintTag(BEGIN_STRING) == "8" && PrintTag(BODY_LENGTH) == "9" && PrintTag(CHECK_SUM) == "10"
    ensures PrintTag(MSG_TYPE) == "35" && PrintTag(SENDER_COMP_ID) == "49" && PrintTag(TARGET_COMP_ID) == "56"
    ensures PrintTag(MSG_SEQ_NUM) == "34" && PrintTag(SENDING_TIME) == "52" && PrintTag(HEART_BT_INT) == "108"
  {
    TwoDigitVal('1', '0');
    TwoDigitTag(10, '1', '0');
    TwoDigitVal('3', '5');
    TwoDigitTag(35, '3', '5');
    TwoDigitVal('4', '9');
    TwoDigitTag(49, '4', '9');
    TwoDigitVal('5', '6');
    TwoDigitTag(56, '5', '6');
    TwoDigitVal('3', '4');
    TwoDigitTag(34, '3', '4');
    TwoDigitVal('5', '2');
    TwoDigitTag(52, '5', '2');
    assert Digits(108) == Digits(10) + ['8'] && Digits(10) == ['1'] + ['0'];
  }

  /** `tag=value` */
  function Pair(f: Field): string {
    PrintTag(f.tag) + "=" + PrintValue(f.value)
  }

  function Pairs(m: FieldMap): (ps: seq<string>)
    ensures |ps| == |m|
  {
    if m == [] then [] else [Pair(m[0])] + Pairs(m[1..])
  }

  /** `tag=value<SOH>` for every field in order. */
  function Render(m: FieldMap): string {
    if m == [] then "" else Pair(m[0]) + [SOH] + Render(m[1..])
  }

  lemma {:induction false} RenderConcat(a: FieldMap, b: FieldMap)
    ensures Render(a + b) == Render(a) + Render(b)
  {
    if a == [] {
      assert a + b == b;
    } else {
      assert (a + b)[1..] == a[1..] + b;
      RenderConcat(a[1..], b);
      Assoc(Pair(a[0]) + [SOH], Render(a[1..]), Render(b));
    }
  }

  lemma RenderOne(f: Field)
    ensures Render([f]) == Pair(f) + [SOH]
  {
    assert [f][1..] == [];
  }

  // ------------------------------------------------------------- parsing

  /** White space that `parseInt` skips. */
  predicate IsSpace(c: char) {
    9 <= c as int <= 13 || c as int in {32, 160, 0x1680, 0x2028, 0x2029, 0x202F, 0x205F, 0x3000, 0xFEFF}
    || 0x2000 <= c as int <= 0x200A
  }

  predicate IsHexDigit(c: char) {
    IsDigit(c) || 'a' <= c <= 'f' || 'A' <= c <= 'F'
  }

  function HexDigitVal(c: char): nat
    requires IsHexDigit(c)
  {
    if IsDigit(c) then c as int - 48 else if 'a' <= c <= 'f' then c as int - 87 else c as int - 55
  }

  /** Value of the longest leading run of hexadecimal digits, after `acc`. */
  function HexPrefix(s: string, acc: nat): nat {
    if s == [] || !IsHexDigit(s[0]) then acc else HexPrefix(s[1..], 16 * acc + HexDigitVal(s[0]))
  }

  /** The longest leading run of decimal digits. */
  function DigitPrefix(s: string): (r: string)
    ensures AllDigits(r)
  {
    if s == [] || !IsDigit(s[0]) then [] else [s[0]] + DigitPrefix(s[1..])
  }

  function TrimStart(s: string): string {
    if s != [] && IsSpace(s[0]) then TrimStart(s[1..]) else s
  }

  function Signed(negative: bool, magnitude: nat): int {
    var k: int := magnitude;
    if negative then -k else k
  }

  /** `parseInt` after white space and sign. */
  function ParseUnsigned(u: string): Option<nat> {
    if |u| >= 2 && u[0] == '0' && (u[1] == 'x' || u[1] == 'X') then
      if |u| == 2 || !IsHexDigit(u[2]) then None else Some(HexPrefix(u[2..], 0))
    else
      var d := DigitPrefix(u);
      if d == [] then None else Some(Val(d))
  }

  /** `parseInt` without a radix. */
  function ParseInt(s: string): Tag {
    var t := TrimStart(s);
    var signed := t != [] && (t[0] == '-' || t[0] == '+');
    match ParseUnsigned(if signed then t[1..] else t)
    case None => NotANumber
    case Some(k) => Number(Signed(t != [] && t[0] == '-', k))
  }

  lemma {:induction false} DigitPrefixAll(s: string)
    requires AllDigits(s)
    ensures DigitPrefix(s) == s
  {
    if s != [] {
      DigitPrefixAll(s[1..]);
    }
  }

  lemma ParseDigits(n: nat)
    ensures ParseUnsigned(Digits(n)) == Some(n)
  {
    var d := Digits(n);
    ValDigits(n);
    DigitPrefixAll(d);
    assert IsDigit(d[0]) && (|d| > 1 ==> IsDigit(d[1]));
  }

  /** Every printed tag parses back to itself. */
  lemma ParsePrintedTag(t: Tag)
    ensures ParseInt(PrintTag(t)) == t
  {
    match t
    case Number(n) =>
      var k := if n < 0 then -n else n;
      ParseDigits(k);
      assert IsDigit(Digits(k)[0]);
      assert n < 0 ==> PrintTag(t)[1..] == Digits(k);
    case NotANumber =>
      assert DigitPrefix("NaN") == [];
  }

  lemma {:induction false} TrimSpaces(space: string, s: string)
    requires (forall i :: 0 <= i < |space| ==> IsSpace(space[i])) && (s == "" || !IsSpace(s[0]))
    ensures TrimStart(space + s) == s
  {
    if space == "" {
      assert space + s == s;
    } else {
      assert (space + s)[1..] == space[1..] + s;
      TrimSpaces(space[1..], s);
    }
  }

  lemma {:induction false} DigitPrefixIs(d: string, rest: string)
    requires AllDigits(d) && (rest == "" || !IsDigit(rest[0]))
    ensures DigitPrefix(d + rest) == d
  {
    if d == "" {
      assert d + rest == rest;
    } else {
      assert (d + rest)[1..] == d[1..] + rest;
      DigitPrefixIs(d[1..], rest);
    }
  }

  predicate AllHex(s: string) {
    forall i :: 0 <= i < |s| ==> IsHexDigit(s[i])
  }

  /** The number that hexadecimal digits denote. */
  function HexVal(s: string): nat
    requires AllHex(s)
  {
    if s == "" then 0 else 16 * HexVal(s[..|s| - 1]) + HexDigitVal(s[|s| - 1])
  }

  lemma {:induction false} HexPrefixIs(done: string, h: string, rest: string)
    requires AllHex(done) && AllHex(h) && (rest == "" || !IsHexDigit(rest[0]))
    ensures AllHex(done + h) && HexPrefix(h + rest, HexVal(done)) == HexVal(done + h)
    decreases |h|
  {
    if h == "" {
      assert h + rest == rest && done + h == done;
    } else {
      var next := done + [h[0]];
      assert next[..|next| - 1] == done;
      assert (h + rest)[1..] == h[1..] + rest && next + h[1..] == done + h;
      HexPrefixIs(next, h[1..], rest);
    }
  }

  /** After `0x` it reads hexadecimal digits. */
  lemma ParseIntReadsHex(h: string, x: char, rest: string)
    requires h != "" && AllHex(h) && (x == 'x' || x == 'X') && (rest == "" || !IsHexDigit(rest[0]))
    ensures ParseInt("0" + [x] + (h + rest)) == Number(HexVal(h))
  {
    UnsignedHex(h, x, rest);
    NothingToTrim("0" + [x] + (h + rest));
  }

  lemma NothingToTrim(s: string)
    requires s != "" && s[0] == '0'
    ensures ParseInt(s) == match ParseUnsigned(s) case None => NotANumber case Some(k) => Number(k)
  {
    assert TrimStart(s) == s;
  }

  lemma UnsignedHex(h: string, x: char, rest: string)
    requires h != "" && AllHex(h) && (x == 'x' || x == 'X') && (rest == "" || !IsHexDigit(rest[0]))
    ensures ParseUnsigned("0" + [x] + (h + rest)) == Some(HexVal(h))
  {
    HexText(x, h, rest);
    HexPrefixIs("", h, rest);
    assert "" + h == h && HexVal("") == 0;
  }

  lemma HexText(x: char, h: string, rest: string)
    requires h != ""
    ensures var s := "0" + [x] + (h + rest); |s| > 2 && s[0] == '0' && s[1] == x && s[2] == h[0] && s[2..] == h + rest
  {
  }

  /** `parseInt` skips white space, takes one sign and reads the leading digits;
      without digits it gives `NaN`. */
  lemma ParseIntReads(space: string, sign: string, d: string, rest: string)
    requires (forall i :: 0 <= i < |space| ==> IsSpace(space[i])) && sign in ["", "+", "-"]
    requires AllDigits(d) && (rest == "" || !IsDigit(rest[0]))
    requires d == "0" ==> rest == "" || (rest[0] != 'x' && rest[0] != 'X')
    requires d == "" && sign == "" ==> rest == "" || (!IsSpace(rest[0]) && rest[0] != '+' && rest[0] != '-')
    ensures ParseInt(space + (sign + (d + rest))) ==
            if d == "" then NotANumber else if sign == "-" then Number(0 - Val(d)) else Number(Val(d))
  {
    var s := sign + (d + rest);
    assert sign == "" ==> s == d + rest;
    assert s != "" ==> !IsSpace(s[0]) by {
      assert d != "" && sign == "" ==> s[0] == d[0];
    }
    TrimSpaces(space, s);
    SignedReads(space + s, sign, d, rest);
  }

  lemma SignedReads(s: string, sign: string, d: string, rest: string)
    requires TrimStart(s) == sign + (d + rest) && sign in ["", "+", "-"]
    requires AllDigits(d) && (rest == "" || !IsDigit(rest[0]))
    requires d == "0" ==> rest == "" || (rest[0] != 'x' && rest[0] != 'X')
    requires d == "" && sign == "" ==> rest == "" || (rest[0] != '+' && rest[0] != '-')
    ensures ParseInt(s) == if d == "" then NotANumber else if sign == "-" then Number(0 - Val(d)) else Number(Val(d))
  {
    var u, t := d + rest, TrimStart(s);
    UnsignedReads(d, rest);
    if sign == "" {
      assert t == u && (d != "" ==> t[0] == d[0]);
    } else {
      assert t[0] == sign[0] && t[1..] == u;
    }
  }

  lemma UnsignedReads(d: string, rest: string)
    requires AllDigits(d) && (rest == "" || !IsDigit(rest[0]))
    requires d == "0" ==> rest == "" || (rest[0] != 'x' && rest[0] != 'X')
    ensures ParseUnsigned(d + rest) == if d == "" then None else Some(Val(d))
  {
    DigitPrefixIs(d, rest);
    NotHex(d, rest);
  }

  lemma NotHex(d: string, rest: string)
    requires AllDigits(d) && (d == "0" ==> rest == "" || (rest[0] != 'x' && rest[0] != 'X'))
    requires rest == "" || !IsDigit(rest[0])
    ensures var u := d + rest; !(|u| >= 2 && u[0] == '0' && (u[1] == 'x' || u[1] == 'X'))
  {
    var u := d + rest;
    if |d| >= 2 {
      assert u[1] == d[1];
    } else if |d| == 1 {
      assert d == [d[0]] && u[0] == d[0] && (rest != "" ==> u[1] == rest[0]);
    } else {
      assert u == rest;
    }
  }

  // -------------------------------------------------- printable messages

  /** Text that survives `split` on SOH and `=` and the emptiness tests. */
  predicate Clean(s: string) {
    s != [] && SOH !in s && '=' !in s
  }

  ghost predicate AllClean(m: FieldMap) {
    forall i :: 0 <= i < |m| ==> Clean(PrintValue(m[i].value))
  }

  /** The same fields with every value as the string it prints as. */
  function AsText(m: FieldMap): (r: FieldMap)
    ensures |r| == |m|
    ensures forall i :: 0 <= i < |m| ==> r[i] == Field(m[i].tag, Str(PrintValue(m[i].value)))
  {
    if m == [] then [] else [Field(m[0].tag, Str(PrintValue(m[0].value)))] + AsText(m[1..])
  }

  lemma {:induction false} RenderAsText(m: FieldMap)
    ensures Render(AsText(m)) == Render(m)
  {
    if m != [] {
      RenderAsText(m[1..]);
      assert AsText(m)[1..] == AsText(m[1..]);
    }
  }
}
