/** One wrong character on the wire: what `processData` and `ChecksumValidator`
    together make of a printed message in whose text a character of a value has
    been replaced. A message is taken apart as a + [f] + b around the field hit. */
module Substitution {
  import opened Text
  import opened Fields
  import opened Messages
  import opened Parser
  import opened Checksum

  /** A text is read as exactly one message, which the validator accepts. */
  predicate PassesAsOne(text: string) {
    |Received(text)| == 1 && Holds(Received(text)[0])
  }

  lemma PassesIff(text: string, n: FieldMap)
    requires Received(text) == if Accepted(n) then [n] else []
    ensures PassesAsOne(text) <==> Accepted(n) && Holds(n)
  {
  }

  // ------------------------------------------------------------- the text

  /** The field f with the value v in the text. */
  function LineOf(f: Field, v: string): string {
    PrintTag(f.tag) + "=" + v + [SOH]
  }

  /** The rendered fields with the j-th character of f's value replaced. */
  function Replaced(a: FieldMap, f: Field, b: FieldMap, j: nat, c: char): string
    requires j < |PrintValue(f.value)|
  {
    Render(a) + LineOf(f, PrintValue(f.value)[j := c]) + Render(b)
  }

  /** Where that character stands. */
  function ValueOffset(a: FieldMap, f: Field, j: nat): nat {
    |Render(a)| + (|PrintTag(f.tag)| + 1 + j)
  }

  lemma ReplaceInMiddle(a: string, b: string, c: string, k: nat, x: char)
    requires k < |b|
    ensures |a| + k < |a + b + c| && (a + b + c)[|a| + k] == b[k]
    ensures (a + b + c)[|a| + k := x] == a + b[k := x] + c
  {
  }

  lemma RenderAround(a: FieldMap, f: Field, b: FieldMap)
    ensures Render(a + [f] + b) == Render(a) + LineOf(f, PrintValue(f.value)) + Render(b)
  {
    RenderConcat(a + [f], b);
    RenderConcat(a, [f]);
    RenderOne(f);
  }

  lemma ReplaceInLine(f: Field, v: string, j: nat, c: char)
    requires j < |v|
    ensures var k := |PrintTag(f.tag)| + 1 + j;
            && k < |LineOf(f, v)| && LineOf(f, v)[k] == v[j] && LineOf(f, v)[k := c] == LineOf(f, v[j := c])
  {
    ReplaceInMiddle(PrintTag(f.tag) + "=", v, [SOH], j, c);
  }

  lemma ReplaceInText(a: FieldMap, f: Field, b: FieldMap, j: nat, c: char)
    requires j < |PrintValue(f.value)|
    ensures var text, k := Render(a + [f] + b), ValueOffset(a, f, j);
            k < |text| && text[k] == PrintValue(f.value)[j] && text[k := c] == Replaced(a, f, b, j, c)
  {
    RenderAround(a, f, b);
    ReplaceInLine(f, PrintValue(f.value), j, c);
    ReplaceAround(Render(a), LineOf(f, PrintValue(f.value)), Render(b), |PrintTag(f.tag)| + 1 + j, c,
                  LineOf(f, PrintValue(f.value)[j := c]));
  }

  lemma ReplaceAround(a: string, b: string, c: string, k: nat, x: char, b': string)
    requires k < |b| && b[k := x] == b'
    ensures |a| + k < |a + b + c| && (a + b + c)[|a| + k] == b[k] && (a + b + c)[|a| + k := x] == a + b' + c
  {
    ReplaceInMiddle(a, b, c, k, x);
  }

  // ------------------------------------------------- distinct and clean parts

  lemma JoinAt<T>(a: seq<T>, x: seq<T>, b: seq<T>, k: nat)
    requires k < |a| + |x| + |b|
    ensures (a + x + b)[k] == if k < |a| then a[k] else if k < |a| + |x| then x[k - |a|] else b[k - |a| - |x|]
  {
  }

  /** The tags of the other fields are different from f's and among themselves. */
  ghost predicate Apart(a: FieldMap, t: Tag, b: FieldMap) {
    && Distinct(a) && Distinct(b) && !Has(a, t) && !Has(b, t)
    && forall i, j :: 0 <= i < |a| && 0 <= j < |b| ==> a[i].tag != b[j].tag
  }

  lemma ApartIff(a: FieldMap, f: Field, b: FieldMap)
    ensures Distinct(a + [f] + b) <==> Apart(a, f.tag, b)
  {
    var m := a + [f] + b;
    forall k | 0 <= k < |m| ensures m[k] == if k < |a| then a[k] else if k == |a| then f else b[k - |a| - 1] {
      JoinAt(a, [f], b, k);
    }
    if Distinct(m) {
      assert forall i :: 0 <= i < |a| ==> m[i] == a[i];
      assert forall j :: 0 <= j < |b| ==> m[j + |a| + 1] == b[j];
      assert m[|a|] == f;
    }
  }

  lemma ApartWithout(a: FieldMap, t: Tag, b: FieldMap)
    requires Apart(a, t, b)
    ensures Distinct(a + b)
  {
    var m := a + b;
    assert forall k :: 0 <= k < |m| ==> m[k] == if k < |a| then a[k] else b[k - |a|];
  }

  lemma ApartAsText(a: FieldMap, t: Tag, b: FieldMap)
    requires Apart(a, t, b)
    ensures Apart(AsText(a), t, AsText(b))
  {
    assert forall i :: 0 <= i < |a| ==> AsText(a)[i].tag == a[i].tag;
    assert forall i :: 0 <= i < |b| ==> AsText(b)[i].tag == b[i].tag;
  }

  lemma CleanParts(a: FieldMap, f: Field, b: FieldMap)
    ensures AllClean(a + [f] + b) <==> AllClean(a) && Clean(PrintValue(f.value)) && AllClean(b)
  {
    var m := a + [f] + b;
    assert forall k :: 0 <= k < |a| ==> m[k] == a[k];
    assert m[|a|] == f;
    assert forall k :: 0 <= k < |b| ==> m[k + |a| + 1] == b[k];
  }

  lemma HasParts(a: FieldMap, fs: FieldMap, b: FieldMap, t: Tag)
    ensures Has(a + fs + b, t) <==> Has(a, t) || Has(fs, t) || Has(b, t)
  {
    HasConcat(a + fs, b, t);
    HasConcat(a, fs, t);
  }

  lemma HasOne(f: Field, t: Tag)
    ensures Has([f], t) <==> f.tag == t
  {
    assert [f][0].tag == f.tag;
  }

  // ------------------------------------------- an ordinary character instead

  /** f with the character replaced. */
  function Altered(f: Field, j: nat, c: char): Field
    requires j < |PrintValue(f.value)|
  {
    Field(f.tag, Str(PrintValue(f.value)[j := c]))
  }

  lemma StillOnWire(a: FieldMap, f: Field, g: Field, b: FieldMap)
    requires OnWire(a + [f] + b) && g.tag == f.tag && Clean(PrintValue(g.value))
    ensures OnWire(a + [g] + b)
  {
    ApartIff(a, f, b);
    ApartIff(a, g, b);
    CleanParts(a, f, b);
    CleanParts(a, g, b);
    HasParts(a, [f], b, MSG_TYPE);
    HasParts(a, [g], b, MSG_TYPE);
    HasOne(f, MSG_TYPE);
    HasOne(g, MSG_TYPE);
    JoinAt(a, [f], b, 0);
    JoinAt(a, [g], b, 0);
  }

  lemma AsTextAround(a: FieldMap, f: Field, b: FieldMap)
    ensures AsText(a + [f] + b) == AsText(a) + [Field(f.tag, Str(PrintValue(f.value)))] + AsText(b)
  {
    AsTextConcat(a + [f], b);
    AsTextConcat(a, [f]);
    assert AsText([f]) == [Field(f.tag, Str(PrintValue(f.value)))];
  }

  lemma ReceivedRender(w: FieldMap)
    requires OnWire(w)
    ensures Received(Render(w)) == [AsText(w)]
  {
    ReceivesRendered([w]);
    assert Renders([w]) == Render(w) by {
      assert [w][1..] == [];
    }
  }

  lemma OrdinaryDetected(a: FieldMap, f: Field, b: FieldMap, j: nat, c: char)
    requires OnWire(a + [f] + b) && Holds(AsText(a + [f] + b)) && f.tag != CHECK_SUM
    requires j < |PrintValue(f.value)| && !IsDelimiter(c) && c as int < 256
    requires var was := PrintValue(f.value)[j]; c != was && was as int < 256
    ensures |Received(Replaced(a, f, b, j, c))| == 1 && !PassesAsOne(Replaced(a, f, b, j, c))
  {
    var g := Altered(f, j, c);
    CleanParts(a, f, b);
    AlteredClean(PrintValue(f.value), j, c);
    StillOnWire(a, f, g, b);
    RenderAround(a, g, b);
    ReceivedRender(a + [g] + b);
    AsTextAround(a, f, b);
    AsTextAround(a, g, b);
    AlteredRejected(AsText(a), f.tag, PrintValue(f.value), AsText(b), j, c);
  }

  lemma AlteredClean(v: string, j: nat, c: char)
    requires Clean(v) && j < |v| && !IsDelimiter(c)
    ensures Clean(v[j := c])
  {
  }

  lemma AlteredRejected(a: FieldMap, t: Tag, v: string, b: FieldMap, j: nat, c: char)
    requires Holds(a + [Field(t, Str(v))] + b) && t != CHECK_SUM
    requires j < |v| && c != v[j] && c as int < 256 && v[j] as int < 256
    ensures !Holds(a + [Field(t, Str(v[j := c]))] + b)
  {
    AlteredSum(t, v, j, c);
    VerdictIff(a, Field(t, Str(v)), [Field(t, Str(v[j := c]))], b);
  }

  lemma AlteredSum(t: Tag, v: string, j: nat, c: char)
    requires j < |v| && c != v[j] && c as int < 256 && v[j] as int < 256
    ensures CodeSum(Render([Field(t, Str(v[j := c]))])) % 256 != FieldSum(Field(t, Str(v))) % 256
  {
    RenderSumOne(Field(t, Str(v[j := c])));
    CodeSumUpdate(v, j, c);
    SmallDelta(FieldSum(Field(t, Str(v))), c as int - v[j] as int);
  }

  // ------------------------------------------------------ a delimiter instead

  predicate IsDelimiter(c: char) {
    c == SOH || c == '='
  }

  /** The pieces of the field hit. */
  function Damaged(f: Field, j: nat, c: char): seq<string>
    requires j < |PrintValue(f.value)|
  {
    var open, v := PrintTag(f.tag) + "=", PrintValue(f.value);
    if c == SOH then [open + v[..j], v[j + 1..]] else [open + (v[..j] + ("=" + v[j + 1..]))]
  }

  lemma LinesShort(p: string, q: string)
    ensures Lines([p]) == p + [SOH]
    ensures Lines([p, q]) == p + [SOH] + (q + [SOH])
  {
    assert [p][1..] == [] && [p, q][1..] == [q] && [q][1..] == [];
  }

  lemma AtIndex(v: string, j: nat, c: char)
    requires j < |v|
    ensures v[j := c] == v[..j] + ([c] + v[j + 1..])
  {
  }

  lemma Regrouped(o: string, x: string, soh: string, q: string)
    ensures o + x + soh + (q + soh) == o + (x + (soh + q)) + soh
  {
  }

  lemma DamagedText(f: Field, j: nat, c: char)
    requires j < |PrintValue(f.value)| && IsDelimiter(c)
    ensures Lines(Damaged(f, j, c)) == LineOf(f, PrintValue(f.value)[j := c])
  {
    var open, v := PrintTag(f.tag) + "=", PrintValue(f.value);
    AtIndex(v, j, c);
    if c == SOH {
      LinesShort(open + v[..j], v[j + 1..]);
      Regrouped(open, v[..j], [SOH], v[j + 1..]);
    } else {
      LinesShort(open + (v[..j] + ("=" + v[j + 1..])), "");
    }
  }

  lemma FoldShort(p: string, q: string, acc: FieldMap)
    ensures FoldFields([p], acc) == FieldStep(acc, p)
    ensures FoldFields([p, q], acc) == FieldStep(FieldStep(acc, p), q)
  {
    assert [p][1..] == [] && [p, q][1..] == [q];
    assert FoldFields([q], FieldStep(acc, p)) == FieldStep(FieldStep(acc, p), q) by {
      assert [q][1..] == [];
    }
  }

  lemma NoEqualsNoStep(acc: FieldMap, piece: string)
    requires '=' !in piece
    ensures FieldStep(acc, piece) == acc
  {
    SplitNone(piece, '=');
  }

  /** A value cut off by SOH. */
  lemma CutBySoh(acc: FieldMap, t: Tag, x: string)
    requires '=' !in x
    ensures FieldStep(acc, PrintTag(t) + "=" + x) == if x == "" then acc else Put(acc, t, Str(x))
  {
    SplitAtChar(PrintTag(t), '=', x);
    SplitNone(x, '=');
    assert [PrintTag(t)] + [x] == [PrintTag(t), x] + [];
    TaggedStep(acc, PrintTag(t) + "=" + x, t, x, []);
  }

  /** A value followed by a second `=`. */
  lemma CutByEquals(acc: FieldMap, t: Tag, x: string, y: string)
    requires '=' !in x && '=' !in y
    ensures FieldStep(acc, PrintTag(t) + "=" + (x + ("=" + y))) == if x == "" then acc else Put(acc, t, Str(x))
  {
    TwoEquals(PrintTag(t), x, y);
    TaggedStep(acc, PrintTag(t) + "=" + (x + ("=" + y)), t, x, [y]);
  }

  lemma TwoEquals(t: string, x: string, y: string)
    requires '=' !in t && '=' !in x && '=' !in y
    ensures Split(t + "=" + (x + ("=" + y)), "=") == [t, x] + [y]
  {
    SplitNone(y, '=');
    SplitAtChar(x, '=', y);
    Assoc(x, "=", y);
    SplitAtChar(t, '=', x + "=" + y);
    assert [t] + ([x] + [y]) == [t, x] + [y];
  }

  /** What is stored of the field hit: the value up to the delimiter, if any. */
  function Stored(f: Field, j: nat): FieldMap
    requires j < |PrintValue(f.value)|
  {
    if j == 0 then [] else [Field(f.tag, Str(PrintValue(f.value)[..j]))]
  }

  lemma DamagedSteps(acc: FieldMap, f: Field, j: nat, c: char)
    requires Clean(PrintValue(f.value)) && j < |PrintValue(f.value)| && IsDelimiter(c) && !Has(acc, f.tag)
    ensures FoldFields(Damaged(f, j, c), acc) == acc + Stored(f, j)
  {
    var x, y := PrintValue(f.value)[..j], PrintValue(f.value)[j + 1..];
    CutBySoh(acc, f.tag, x);
    CutByEquals(acc, f.tag, x, y);
    NoEqualsNoStep(FieldStep(acc, PrintTag(f.tag) + "=" + x), y);
    FoldShort(Damaged(f, j, c)[0], y, acc);
    PutNew(acc, f.tag, Str(x));
  }

  lemma NoEqualsNoBegin(p: string)
    requires '=' !in p
    ensures !StartsWithBegin(p)
  {
  }

  lemma DamagedBegins(f: Field, j: nat, c: char)
    requires Clean(PrintValue(f.value)) && j < |PrintValue(f.value)| && IsDelimiter(c)
    ensures SohFree(Damaged(f, j, c)) && Damaged(f, j, c) != []
    ensures StartsWithBegin(Damaged(f, j, c)[0]) <==> f.tag == BEGIN_STRING
    ensures NoneBegins(Damaged(f, j, c)[1..])
  {
    var v := PrintValue(f.value);
    var rest := if c == SOH then v[..j] else v[..j] + ("=" + v[j + 1..]);
    assert Damaged(f, j, c)[0] == PrintTag(f.tag) + "=" + rest;
    TagNames();
    if f.tag != BEGIN_STRING {
      NotEight(f.tag, rest);
    }
    NoEqualsNoBegin(v[j + 1..]);
  }

  /** The pieces of the whole text. */
  function Pieces(a: FieldMap, f: Field, b: FieldMap, j: nat, c: char): seq<string>
    requires j < |PrintValue(f.value)|
  {
    Pairs(a) + (Damaged(f, j, c) + Pairs(b))
  }

  lemma PiecesText(a: FieldMap, f: Field, b: FieldMap, j: nat, c: char)
    requires j < |PrintValue(f.value)| && IsDelimiter(c)
    ensures Lines(Pieces(a, f, b, j, c)) == Replaced(a, f, b, j, c)
  {
    var d := Damaged(f, j, c);
    DamagedText(f, j, c);
    RenderLines(a);
    RenderLines(b);
    LinesConcat(Pairs(a), d + Pairs(b));
    LinesConcat(d, Pairs(b));
    Assoc(Lines(Pairs(a)), Lines(d), Lines(Pairs(b)));
  }

  lemma NoneBeginsConcat(a: seq<string>, b: seq<string>)
    requires NoneBegins(a) && NoneBegins(b)
    ensures NoneBegins(a + b)
  {
  }

  lemma SohFreeConcat(a: seq<string>, b: seq<string>)
    requires SohFree(a) && SohFree(b)
    ensures SohFree(a + b)
  {
  }

  lemma NoneBeginsCons(d: seq<string>)
    requires d != [] && !StartsWithBegin(d[0]) && NoneBegins(d[1..])
    ensures NoneBegins(d)
  {
    assert forall k :: 0 < k < |d| ==> d[k] == d[1..][k - 1];
  }

  /** Only the first piece begins a message. */
  ghost predicate BeginsOnce(ps: seq<string>) {
    ps != [] && SohFree(ps) && StartsWithBegin(ps[0]) && NoneBegins(ps[1..])
  }

  lemma BeginsOnceAppend(a: seq<string>, b: seq<string>)
    requires BeginsOnce(a) && SohFree(b) && NoneBegins(b)
    ensures BeginsOnce(a + b)
  {
    SohFreeConcat(a, b);
    NoneBeginsConcat(a[1..], b);
    assert (a + b)[1..] == a[1..] + b;
  }

  lemma PairsBeginOnce(a: FieldMap)
    requires AllClean(a) && Distinct(a) && a != [] && a[0].tag == BEGIN_STRING
    ensures BeginsOnce(Pairs(a))
  {
    PairsSohFree(a);
    PairsAt(a, 0);
    TagNames();
    DropBegin(a);
    PairsBeginNone(a[1..]);
  }

  lemma PiecesBeginOnce(a: FieldMap, f: Field, b: FieldMap, j: nat, c: char)
    requires OnWire(a + [f] + b) && j < |PrintValue(f.value)| && IsDelimiter(c)
    ensures BeginsOnce(Pieces(a, f, b, j, c))
  {
    var d := Damaged(f, j, c);
    Parts(a, f, b);
    DamagedBegins(f, j, c);
    PairsSohFree(b);
    PairsBeginNone(b);
    if a == [] {
      BeginsOnceAppend(d, Pairs(b));
      assert Pairs(a) + (d + Pairs(b)) == d + Pairs(b);
    } else {
      PairsBeginOnce(a);
      NoneBeginsCons(d);
      SohFreeConcat(d, Pairs(b));
      NoneBeginsConcat(d, Pairs(b));
      BeginsOnceAppend(Pairs(a), d + Pairs(b));
    }
  }

  /** What a well-formed wire text says of the parts. */
  lemma Parts(a: FieldMap, f: Field, b: FieldMap)
    requires OnWire(a + [f] + b)
    ensures Apart(a, f.tag, b) && AllClean(a) && Clean(PrintValue(f.value)) && AllClean(b)
    ensures !Has(b, BEGIN_STRING)
    ensures if a == [] then f.tag == BEGIN_STRING else a[0].tag == BEGIN_STRING && f.tag != BEGIN_STRING
  {
    ApartIff(a, f, b);
    CleanParts(a, f, b);
    JoinAt(a, [f], b, 0);
    if a != [] {
      assert Has(a, a[0].tag);
    }
  }

  /** The fields a receiver gets. */
  function Left(a: FieldMap, f: Field, b: FieldMap, j: nat): FieldMap
    requires j < |PrintValue(f.value)|
  {
    AsText(a) + Stored(f, j) + AsText(b)
  }

  lemma LeftDistinct(a: FieldMap, f: Field, b: FieldMap, j: nat)
    requires Apart(a, f.tag, b) && j < |PrintValue(f.value)|
    ensures Distinct(Left(a, f, b, j)) && Distinct(AsText(a)) && !Has(AsText(a), f.tag)
  {
    ApartAsText(a, f.tag, b);
    if j == 0 {
      ApartWithout(AsText(a), f.tag, AsText(b));
      assert AsText(a) + [] == AsText(a);
    } else {
      ApartIff(AsText(a), Stored(f, j)[0], AsText(b));
    }
  }

  lemma PiecesRead(a: FieldMap, f: Field, b: FieldMap, j: nat, c: char)
    requires OnWire(a + [f] + b) && j < |PrintValue(f.value)| && IsDelimiter(c)
    ensures FoldFields(Pieces(a, f, b, j, c), []) == Left(a, f, b, j)
  {
    var d := Damaged(f, j, c);
    Parts(a, f, b);
    LeftDistinct(a, f, b, j);
    FoldConcat(Pairs(a), d + Pairs(b), []);
    FoldConcat(d, Pairs(b), AsText(a));
    assert [] + AsText(a) == AsText(a);
    FoldPairs(a, []);
    DamagedSteps(AsText(a), f, j, c);
    FoldPairs(b, AsText(a) + Stored(f, j));
  }

  lemma DamagedReceived(a: FieldMap, f: Field, b: FieldMap, j: nat, c: char)
    requires OnWire(a + [f] + b) && j < |PrintValue(f.value)| && IsDelimiter(c)
    ensures var n := Left(a, f, b, j); Received(Replaced(a, f, b, j, c)) == if Accepted(n) then [n] else []
  {
    PiecesText(a, f, b, j, c);
    PiecesBeginOnce(a, f, b, j, c);
    PiecesRead(a, f, b, j, c);
    ReadsLines(Pieces(a, f, b, j, c));
  }

  lemma LeftHas(a: FieldMap, f: Field, b: FieldMap, j: nat, t: Tag)
    requires Apart(a, f.tag, b) && j < |PrintValue(f.value)|
    ensures Has(Left(a, f, b, j), t) <==> Has(a + [f] + b, t) && (j > 0 || f.tag != t)
  {
    HasParts(a, [f], b, t);
    HasParts(AsText(a), Stored(f, j), AsText(b), t);
    HasOne(f, t);
    HasOne(Field(f.tag, Str(PrintValue(f.value)[..j])), t);
    HasAsText(a, t);
    HasAsText(b, t);
  }

  lemma HasAsText(m: FieldMap, t: Tag)
    ensures Has(AsText(m), t) <==> Has(m, t)
  {
    if Has(m, t) {
      var i :| 0 <= i < |m| && m[i].tag == t;
      assert AsText(m)[i].tag == t;
    }
  }

  lemma LeftAccepted(a: FieldMap, f: Field, b: FieldMap, j: nat)
    requires OnWire(a + [f] + b) && j < |PrintValue(f.value)|
    ensures Accepted(Left(a, f, b, j)) <==> j > 0 || (f.tag != BEGIN_STRING && f.tag != MSG_TYPE)
  {
    Parts(a, f, b);
    LeftHas(a, f, b, j, BEGIN_STRING);
    LeftHas(a, f, b, j, MSG_TYPE);
    assert (a + [f] + b)[0].tag == BEGIN_STRING;
  }

  /** f as it is read. */
  function Read(f: Field): Field {
    Field(f.tag, Str(PrintValue(f.value)))
  }

  lemma StoredSum(f: Field, j: nat)
    requires j < |PrintValue(f.value)|
    ensures CodeSum(Render(Stored(f, j))) % 256 == FieldSum(Read(f)) % 256 <==> LossBalances(f, j)
  {
    if j > 0 {
      CutValue(f.tag, PrintValue(f.value), j);
    }
  }

  lemma CutValue(t: Tag, v: string, j: nat)
    requires j <= |v|
    ensures CodeSum(Render([Field(t, Str(v[..j]))])) % 256 == FieldSum(Field(t, Str(v))) % 256 <==>
            CodeSum(v[j..]) % 256 == 0
  {
    CutSum(t, v[..j], v[j..]);
    assert v == v[..j] + v[j..];
  }

  lemma CutSum(t: Tag, x: string, y: string)
    ensures CodeSum(Render([Field(t, Str(x))])) % 256 == FieldSum(Field(t, Str(x + y))) % 256 <==> CodeSum(y) % 256 == 0
  {
    var f, g := Field(t, Str(x + y)), Field(t, Str(x));
    RenderSumOne(g);
    CodeSumConcat(x, y);
    SameRemainder(FieldSum(g), FieldSum(f), CodeSum(y), 0);
  }

  lemma LeftHolds(a: FieldMap, f: Field, b: FieldMap, j: nat)
    requires Holds(a + [Read(f)] + b) && f.tag != CHECK_SUM && j < |PrintValue(f.value)|
    ensures Holds(a + Stored(f, j) + b) <==> CodeSum(Render(Stored(f, j))) % 256 == FieldSum(Read(f)) % 256
  {
    VerdictIff(a, Read(f), Stored(f, j), b);
  }

  /** What the delimiter takes away has the sum 0 mod 256. */
  predicate LossBalances(f: Field, j: nat)
    requires j < |PrintValue(f.value)|
  {
    if j == 0 then FieldSum(f) % 256 == 0 else CodeSum(PrintValue(f.value)[j..]) % 256 == 0
  }

  lemma LeftVerdict(a: FieldMap, f: Field, b: FieldMap, j: nat)
    requires Holds(AsText(a + [f] + b)) && f.tag != CHECK_SUM && j < |PrintValue(f.value)|
    ensures Holds(Left(a, f, b, j)) <==> LossBalances(f, j)
  {
    AsTextAround(a, f, b);
    LeftHolds(AsText(a), f, AsText(b), j);
    StoredSum(f, j);
  }

  /** When a delimiter in the value of an accepted message goes unnoticed. */
  predicate DelimiterPasses(f: Field, j: nat)
    requires j < |PrintValue(f.value)|
  {
    LossBalances(f, j) && (j == 0 ==> f.tag != BEGIN_STRING && f.tag != MSG_TYPE)
  }

  lemma DelimiterUnnoticedIff(a: FieldMap, f: Field, b: FieldMap, j: nat, c: char)
    requires OnWire(a + [f] + b) && Holds(AsText(a + [f] + b)) && f.tag != CHECK_SUM
    requires j < |PrintValue(f.value)| && IsDelimiter(c)
    ensures PassesAsOne(Replaced(a, f, b, j, c)) <==> DelimiterPasses(f, j)
  {
    DamagedReceived(a, f, b, j, c);
    LeftAccepted(a, f, b, j);
    LeftVerdict(a, f, b, j);
    PassesIff(Replaced(a, f, b, j, c), Left(a, f, b, j));
  }

  // ------------------------------------------------------ printed messages

  lemma WireParts(m: FieldMap, a: FieldMap, f: Field, b: FieldMap)
    requires Distinct(m) && HasRequired(m) && Printable(m) && WireFields(m) == a + [f] + b
    ensures OnWire(a + [f] + b) && Holds(AsText(a + [f] + b))
    ensures f.tag == CHECK_SUM <==> b == []
  {
    WireClean(m);
    AcceptsPrinted(m);
    ReceivedOne(m);
    SumIsLast(m, a, f, b);
  }

  lemma SumIsLast(m: FieldMap, a: FieldMap, f: Field, b: FieldMap)
    requires Distinct(m) && WireFields(m) == a + [f] + b
    ensures f.tag == CHECK_SUM <==> b == []
  {
    var w := WireFields(m);
    WireDistinct(m);
    WireShape(m);
    assert w[|a|] == f;
  }

  /** DETECTION ON THE WIRE. Substitute any single-byte character inside the value
      of any field f before CheckSum in the text of a printed message. The receiver
      reads one message and the validator accepts it if and only if a delimiter was
      put in, and either what it cuts off the value sums to 0 mod 256, or it stands
      first, so that the field is lost, the field sums to 0 mod 256 and is neither
      BeginString nor MsgType. */
  lemma SubstitutionUnnoticedIff(m: FieldMap, a: FieldMap, f: Field, b: FieldMap, j: nat, c: char)
    requires Distinct(m) && HasRequired(m) && Printable(m)
    requires WireFields(m) == a + [f] + b && b != [] && j < |PrintValue(f.value)|
    requires var was := PrintValue(f.value)[j]; c != was && was as int < 256 && c as int < 256
    ensures var k := ValueOffset(a, f, j);
            && k < |Wire(m)| && Wire(m)[k] == PrintValue(f.value)[j]
            && (PassesAsOne(Wire(m)[k := c]) <==> IsDelimiter(c) && DelimiterPasses(f, j))
  {
    WireParts(m, a, f, b);
    ReplaceInText(a, f, b, j, c);
    if IsDelimiter(c) {
      DelimiterUnnoticedIff(a, f, b, j, c);
    } else {
      OrdinaryDetected(a, f, b, j, c);
    }
  }

  /** Anything but a delimiter leaves one message, which is rejected. */
  lemma SubstitutionDetected(m: FieldMap, a: FieldMap, f: Field, b: FieldMap, j: nat, c: char)
    requires Distinct(m) && HasRequired(m) && Printable(m)
    requires WireFields(m) == a + [f] + b && b != [] && j < |PrintValue(f.value)|
    requires var was := PrintValue(f.value)[j]; c != was && was as int < 256 && c as int < 256
    requires !IsDelimiter(c)
    ensures var k := ValueOffset(a, f, j);
            && k < |Wire(m)| && |Received(Wire(m)[k := c])| == 1 && !Holds(Received(Wire(m)[k := c])[0])
  {
    WireParts(m, a, f, b);
    ReplaceInText(a, f, b, j, c);
    OrdinaryDetected(a, f, b, j, c);
  }

  /** A substitution that goes unnoticed: in `x@@@@` the first `@` becomes a
      delimiter, and the receiver reads `x`. */
  lemma FourAtSignsPass(m: FieldMap, a: FieldMap, f: Field, b: FieldMap, c: char)
    requires Distinct(m) && HasRequired(m) && Printable(m) && IsDelimiter(c)
    requires WireFields(m) == a + [f] + b && b != [] && PrintValue(f.value) == "x@@@@"
    ensures var k := ValueOffset(a, f, 1); k < |Wire(m)| && PassesAsOne(Wire(m)[k := c])
  {
    FourAtSigns(f);
    SubstitutionUnnoticedIff(m, a, f, b, 1, c);
  }

  lemma FourAtSigns(f: Field)
    requires PrintValue(f.value) == "x@@@@"
    ensures DelimiterPasses(f, 1)
  {
    assert "x@@@@"[1..] == "@@@@";
    CodeSumConcat("@@", "@@");
    CodeSumConcat("@", "@");
    assert "@@" + "@@" == "@@@@" && "@" + "@" == "@@" && "@"[..0] == "";
  }
}
