/** What the acceptor reads when the bytes of a stream arrive in two chunks: it hands
    each chunk to `processData` by itself and keeps nothing in between. */
module Cuts {
  import opened Text
  import opened Fields
  import opened Messages
  import opened Parser

  // ------------------------------------------------------ one piece of a chunk

  /** The message, if any, that one piece of a chunk is read as. */
  function Piece(p: string): seq<FieldMap> {
    if p != "" && Accepted(PieceFields(p)) then [PieceFields(p)] else []
  }

  lemma FirstPiece(p: string, ps: seq<string>)
    ensures MessagesOf([p] + ps) == Piece(p) + MessagesOf(ps)
  {
    assert ([p] + ps)[0] == p && ([p] + ps)[1..] == ps;
  }

  /** A chunk in which no further message begins is one piece. */
  lemma ReceivedFree(s: string)
    requires Free(s)
    ensures Received(s) == Piece(s)
  {
    SplitLast(s);
    FirstPiece(s, []);
    assert [s] + [] == [s];
  }

  lemma FreeSlice(s: string, i: nat, j: nat)
    requires Free(s) && i <= j <= |s|
    ensures Free(s[i..j])
  {
    forall k | 0 <= k < j - i ensures !BeginAt(s[i..j], k) {
      assert !BeginAt(s, i + k);
    }
  }

  lemma {:induction false} PutSize(m: FieldMap, t: Tag, v: Value)
    ensures |Put(m, t, v)| == if Has(m, t) then |m| else |m| + 1
  {
    if m != [] {
      PutSize(m[1..], t, v);
      HasMore(m[0], m[1..], t);
      assert m == [m[0]] + m[1..];
    }
  }

  lemma StepSize(acc: FieldMap, piece: string)
    ensures |FieldStep(acc, piece)| <= |acc| + 1
  {
    var parts := Split(piece, "=");
    if |parts| >= 2 {
      PutSize(acc, BEGIN_STRING, Str(parts[1]));
      PutSize(acc, ParseInt(parts[0]), Str(parts[1]));
    }
  }

  /** Each piece adds at most one field. */
  lemma {:induction false} FoldSize(ps: seq<string>, acc: FieldMap)
    ensures |FoldFields(ps, acc)| <= |acc| + |ps|
    decreases |ps|
  {
    if ps != [] {
      StepSize(acc, ps[0]);
      FoldSize(ps[1..], FieldStep(acc, ps[0]));
    }
  }

  // ------------------------------------------- the leading `8=` of a chunk

  lemma OccursAfterBegin(p: string, j: int)
    ensures OccursAt("8=" + p, MARK, j) <==> j >= 2 && OccursAt(p, MARK, j - 2)
  {
    var s := "8=" + p;
    MarkAt(s, j);
    MarkAt(p, j - 2);
    assert s[0] == '8' && s[1] == '=';
    assert forall i :: 0 <= i < |p| ==> s[i + 2] == p[i];
  }

  lemma SplitAfterBegin(p: string) returns (q: string, ps: seq<string>)
    ensures Split(p, MARK) == [q] + ps && Split("8=" + p, MARK) == ["8=" + q] + ps
    ensures q <= p
  {
    forall j ensures OccursAt("8=" + p, MARK, j) <==> j >= 2 && OccursAt(p, MARK, j - 2) {
      OccursAfterBegin(p, j);
    }
    var k := IndexOf(p, MARK);
    if k < 0 {
      q, ps := p, [];
    } else {
      q, ps := p[..k], Split(p[k + 3..], MARK);
      MarkBehind(p, k);
    }
  }

  lemma MarkBehind(p: string, k: nat)
    requires IndexOf(p, MARK) == k
    requires forall j :: OccursAt("8=" + p, MARK, j) <==> j >= 2 && OccursAt(p, MARK, j - 2)
    ensures k + 3 <= |p| && IndexOf("8=" + p, MARK) == k + 2
    ensures ("8=" + p)[..k + 2] == "8=" + p[..k] && ("8=" + p)[k + 5..] == p[k + 3..]
  {
    assert OccursAt("8=" + p, MARK, k + 2);
  }

  lemma OnlyBegin()
    ensures Piece("8=") == [] && Piece([SOH]) == []
  {
    SplitAtChar("8", '=', "");
    SplitNone("", '=');
    SplitNone("8=", SOH);
    SplitAtChar("8=", SOH, "");
    SplitNone("", SOH);
    assert FieldStep([], "8=") == [] by {
      assert "8" + ['='] + "" == "8=";
    }
    assert Restore([SOH]) == "8=" + [SOH] + "";
    assert FoldFields(["8="], []) == [];
    FoldTrailing(["8="], []);
  }

  lemma PieceAfterBegin(q: string)
    requires !StartsWithBegin(q)
    ensures Piece("8=" + q) == Piece(q)
  {
    if q == "" {
      OnlyBegin();
      assert "8=" + q == "8=";
    }
  }

  /** A chunk is read the same without its leading `8=`. */
  lemma BeginIsRestored(p: string)
    requires !StartsWithBegin(p)
    ensures Received("8=" + p) == Received(p)
  {
    var q, ps := SplitAfterBegin(p);
    assert !StartsWithBegin(q);
    PieceAfterBegin(q);
    FirstPiece(q, ps);
    FirstPiece("8=" + q, ps);
  }

  // ---------------------------------------------- a cut inside a list of lines

  /** The text is cut at j inside line i, which is q before the cut and z behind it. */
  predicate CutAt(ps: seq<string>, j: nat, i: nat, q: string, z: string) {
    && j < |Lines(ps)| && i < |ps| && ps[i] == q + z
    && Lines(ps)[..j] == Lines(ps[..i]) + q
    && Lines(ps)[j..] == z + ([SOH] + Lines(ps[i + 1..]))
  }

  lemma CutInLine(ps: seq<string>, j: nat)
    requires ps != [] && j <= |ps[0]|
    ensures CutAt(ps, j, 0, ps[0][..j], ps[0][j..])
  {
    assert Lines(ps[..0]) + ps[0][..j] == ps[0][..j];
    assert ps[0][j..] + ([SOH] + Lines(ps[1..])) == (ps[0] + [SOH] + Lines(ps[1..]))[j..];
  }

  lemma CutInLater(ps: seq<string>, j: nat, i: nat, q: string, z: string)
    requires ps != [] && CutAt(ps[1..], j, i, q, z)
    ensures CutAt(ps, |ps[0]| + 1 + j, i + 1, q, z)
  {
    var line := ps[0] + [SOH];
    assert ps[..i + 1][0] == ps[0] && ps[..i + 1][1..] == ps[1..][..i] && ps[1..][i + 1..] == ps[i + 2..];
    CutAfter(line, Lines(ps[1..]), j);
    Assoc(line, Lines(ps[1..][..i]), q);
  }

  /** A cut falls into one line, or right before the SOH that ends it. */
  lemma {:induction false} CutLines(ps: seq<string>, j: nat) returns (i: nat, q: string, z: string)
    requires j < |Lines(ps)|
    ensures CutAt(ps, j, i, q, z) && (i == 0 ==> |q| == j)
  {
    if j <= |ps[0]| {
      i, q, z := 0, ps[0][..j], ps[0][j..];
      CutInLine(ps, j);
    } else {
      i, q, z := CutLines(ps[1..], j - |ps[0]| - 1);
      CutInLater(ps, j - |ps[0]| - 1, i, q, z);
      i := i + 1;
    }
  }

  lemma CutAfter(a: string, b: string, h: nat)
    requires h <= |b|
    ensures (a + b)[..|a| + h] == a + b[..h] && (a + b)[|a| + h..] == b[h..]
  {
  }

  lemma {:induction false} SplitLinesThen(ps: seq<string>, q: string)
    requires SohFree(ps) && SOH !in q
    ensures Split(Lines(ps) + q, [SOH]) == ps + [q]
  {
    if ps == [] {
      SplitNone(q, SOH);
      assert Lines(ps) + q == q;
    } else {
      SplitLinesThen(ps[1..], q);
      Assoc(ps[0] + [SOH], Lines(ps[1..]), q);
      SplitAtChar(ps[0], SOH, Lines(ps[1..]) + q);
      Assoc([ps[0]], ps[1..], [q]);
      assert [ps[0]] + ps[1..] == ps;
    }
  }

  lemma SplitTrailing(u: string)
    ensures Split(u + [SOH], [SOH]) == Split(u, [SOH]) + [""]
  {
    SplitBoth(u, SOH, "");
    SplitNone("", SOH);
    assert u + [SOH] + "" == u + [SOH];
  }

  /** A piece is read the same without the SOH at its end. */
  lemma PieceChop(z: string)
    ensures Piece(z + [SOH]) == Piece(z)
  {
    if z == "" {
      OnlyBegin();
      assert z + [SOH] == [SOH];
    } else {
      assert StartsWithBegin(z + [SOH]) == StartsWithBegin(z);
      assert Restore(z + [SOH]) == Restore(z) + [SOH];
      SplitTrailing(Restore(z));
      FoldTrailing(Split(Restore(z), [SOH]), []);
    }
  }

  // ------------------------------------------------- the part before the cut

  lemma PairParts(tag: string, v: string, q: string, z: string)
    requires tag + "=" + v == q + z && z != ""
    ensures |q| <= |tag| ==> q == tag[..|q|]
    ensures |q| > |tag| ==> |q| - |tag| - 1 < |v| && q == tag + "=" + v[..|q| - |tag| - 1]
  {
    var s := tag + "=" + v;
    assert |s| == |q| + |z| && q == s[..|q|];
  }

  /** Part of a `tag=value` text does not store the value. */
  lemma PartialPair(acc: FieldMap, f: Field, q: string, z: string)
    requires Pair(f) == q + z && z != "" && Clean(PrintValue(f.value))
    ensures FieldStep(acc, q) != acc + [Field(f.tag, Str(PrintValue(f.value)))]
  {
    var tag, v := PrintTag(f.tag), PrintValue(f.value);
    assert '=' !in tag by {
      ParsePrintedTag(f.tag);
    }
    PairParts(tag, v, q, z);
    if |q| <= |tag| {
      SplitNone(q, '=');
    } else {
      PartialValue(acc, f, q, v[..|q| - |tag| - 1]);
    }
  }

  lemma PartialValue(acc: FieldMap, f: Field, q: string, part: string)
    requires q == PrintTag(f.tag) + "=" + part && '=' !in part && '=' !in PrintTag(f.tag)
    requires part != PrintValue(f.value)
    ensures FieldStep(acc, q) != acc + [Field(f.tag, Str(PrintValue(f.value)))]
  {
    SplitAtChar(PrintTag(f.tag), '=', part);
    SplitNone(part, '=');
    TaggedStep(acc, q, f.tag, part, []);
    PutSize(acc, f.tag, Str(part));
    var last := Field(f.tag, Str(PrintValue(f.value)));
    assert |acc + [last]| == |acc| + 1 && (acc + [last])[|acc|] == last;
    if !Has(acc, f.tag) {
      PutNew(acc, f.tag, Str(part));
    }
  }

  lemma {:induction false} PairsConcat(a: FieldMap, b: FieldMap)
    ensures Pairs(a + b) == Pairs(a) + Pairs(b) && |Pairs(a)| == |a|
  {
    if a == [] {
      assert a + b == b;
    } else {
      assert (a + b)[1..] == a[1..] + b;
      PairsConcat(a[1..], b);
      Assoc([Pair(a[0])], Pairs(a[1..]), Pairs(b));
    }
  }

  lemma PairsHalves(a: FieldMap, b: FieldMap)
    ensures |Pairs(a + b)| == |a| + |b| && Pairs(a + b)[..|a|] == Pairs(a) && Pairs(a + b)[|a|..] == Pairs(b)
  {
    PairsConcat(a, b);
    PairsConcat(b, []);
  }

  lemma PairsTake(m: FieldMap, i: nat)
    requires i <= |m|
    ensures |Pairs(m)| == |m| && Pairs(m)[..i] == Pairs(m[..i]) && Pairs(m)[i..] == Pairs(m[i..])
  {
    PairsHalves(m[..i], m[i..]);
    assert m[..i] + m[i..] == m;
  }

  lemma HeadFieldsOf(m: FieldMap, i: nat)
    requires OnWire(m) && i <= |m|
    ensures FoldFields(Pairs(m[..i]), []) == AsText(m[..i]) && |AsText(m[..i])| == i
  {
    AsTextDistinct(m[..i]);
    assert [] + AsText(m[..i]) == AsText(m[..i]);
    FoldPairs(m[..i], []);
  }

  lemma HeadPieces(m: FieldMap, i: nat, q: string)
    requires OnWire(m) && i <= |m| && SOH !in q
    requires StartsWithBegin(Lines(Pairs(m)[..i]) + q)
    ensures PieceFields(Lines(Pairs(m)[..i]) + q) == FieldStep(AsText(m[..i]), q)
  {
    PairsSohFree(m);
    PairsTake(m, i);
    SplitLinesThen(Pairs(m)[..i], q);
    FoldConcat(Pairs(m)[..i], [q], []);
    HeadFieldsOf(m, i);
  }

  lemma {:induction false} AsTextLast(m: FieldMap)
    requires m != []
    ensures var f := m[|m| - 1]; AsText(m) == AsText(m[..|m| - 1]) + [Field(f.tag, Str(PrintValue(f.value)))]
  {
  }

  lemma HeadStores(m: FieldMap, i: nat, q: string, z: string)
    requires OnWire(m) && i < |m| && Pair(m[i]) == q + z && (i + 1 == |m| ==> z != "")
    ensures FieldStep(AsText(m[..i]), q) != AsText(m)
  {
    StepSize(AsText(m[..i]), q);
    if i + 1 == |m| {
      PartialPair(AsText(m[..i]), m[i], q, z);
      AsTextLast(m);
      assert m[..i] == m[..|m| - 1];
    }
  }

  /** What is read of a message cut before its last character, if the chunk begins
      with its `8=`, is not the message. */
  lemma HeadIsNot(m: FieldMap, j: nat)
    requires OnWire(m) && 2 <= j && j + 1 < |Render(m)|
    ensures StartsWithBegin(Render(m)[..j]) && PieceFields(Render(m)[..j]) != AsText(m)
  {
    OneMessage(m, false);
    RenderLines(m);
    PairsTake(m, 0);
    var i, q, z := CutLines(Pairs(m), j);
    PairsAt(m, i);
    PairSplits(m[i]);
    HeadPieces(m, i, q);
    if i + 1 == |m| {
      assert Lines(Pairs(m)[i + 1..]) == "";
      assert |Render(m)[j..]| == |Render(m)| - j > 1;
    }
    HeadStores(m, i, q, z);
  }

  // -------------------------------------------------- the part after the cut

  lemma RestDistinct(m: FieldMap, acc: FieldMap)
    requires Distinct(m) && m != [] && |acc| <= 1 && (acc != [] ==> acc[0].tag == m[0].tag)
    ensures Distinct(acc + AsText(m[1..]))
  {
    var rest := AsText(m[1..]);
    forall i | 0 <= i < |rest| ensures rest[i].tag == m[i + 1].tag {
      assert rest[i].tag == m[1..][i].tag;
    }
    assert |acc| == 1 ==> (acc + rest)[0] == acc[0] && forall i :: 1 <= i <= |rest| ==> (acc + rest)[i] == rest[i - 1];
    assert |acc| == 0 ==> acc + rest == rest;
  }

  lemma RestFields(m: FieldMap, acc: FieldMap)
    requires OnWire(m) && |acc| <= 1 && (acc != [] ==> acc[0].tag == BEGIN_STRING)
    ensures FoldFields(Pairs(m[1..]), acc) == acc + AsText(m[1..])
  {
    RestDistinct(m, acc);
    FoldPairs(m[1..], acc);
  }

  lemma RestoreThen(z: string, rest: string)
    requires SOH !in z
    ensures Restore(z + ([SOH] + rest)) == Restore(z) + ([SOH] + rest)
  {
    BeginsInPiece(z, rest);
    if StartsWithBegin(z) {
      assert (z + ([SOH] + rest))[0] == z[0] && (z + ([SOH] + rest))[1] == z[1];
    } else {
      Assoc("8=", z, [SOH] + rest);
    }
  }

  /** A line without its beginning, and the lines that follow. */
  lemma TailPieces(z: string, rest: seq<string>)
    requires SOH !in z && SohFree(rest)
    ensures PieceFields(z + ([SOH] + Lines(rest))) == FoldFields(rest, FieldStep([], Restore(z)))
  {
    var p := Restore(z);
    RestoreThen(z, Lines(rest));
    Assoc(p, [SOH], Lines(rest));
    SplitAtChar(p, SOH, Lines(rest));
    SplitLines(rest);
    Assoc([p], rest, [""]);
    FoldTrailing([p] + rest, []);
    FoldConcat([p], rest, []);
    assert [p][1..] == [];
  }

  predicate Misreads(acc: FieldMap, v: string) {
    |acc| <= 1 && (acc != [] ==> acc[0].tag == BEGIN_STRING && acc[0].value != Str(v))
  }

  /** The first line of a message without its `8` does not give the value. */
  lemma WithoutEight(v: string)
    requires Clean(v)
    ensures Misreads(FieldStep([], Restore("=" + v)), v)
  {
    TwoEquals(v);
    assert Restore("=" + v) == "8=" + ("=" + v);
  }

  lemma TwoEquals(v: string)
    ensures var ps := Split("8=" + ("=" + v), "="); |ps| >= 2 && ps[0] == "8" && ps[1] == ""
  {
    assert "8=" + ("=" + v) == "8" + ['='] + ("=" + v);
    SplitAtChar("8", '=', "=" + v);
    assert "=" + v == "" + ['='] + v;
    SplitAtChar("", '=', v);
  }

  /** Nor does a line with only the end of the value. */
  lemma EndOfValue(v: string, z: string)
    requires Clean(v) && '=' !in z && z != v
    ensures Misreads(FieldStep([], Restore(z)), v)
  {
    TagNames();
    assert Restore(z) == "8" + ['='] + z;
    SplitAtChar("8", '=', z);
    SplitNone(z, '=');
    TaggedStep([], Restore(z), BEGIN_STRING, z, []);
  }

  lemma CutBegin(v: string, q: string, z: string)
    requires Clean(v) && "8=" + v == q + z && |q| != 0 && |q| != 2
    ensures Misreads(FieldStep([], Restore(z)), v)
  {
    var s := "8=" + v;
    assert z == s[|q|..];
    if |q| == 1 {
      assert z == "=" + v;
      WithoutEight(v);
    } else {
      assert z == v[|q| - 2..];
      EndOfValue(v, z);
    }
  }

  lemma LaterCut(m: FieldMap, i: nat, z: string)
    requires OnWire(m) && 0 < i < |m|
    ensures |Pairs(m)| == |m| && FoldFields(Pairs(m)[i + 1..], FieldStep([], Restore(z))) != AsText(m)
  {
    PairsTake(m, 0);
    StepSize([], Restore(z));
    FoldSize(Pairs(m)[i + 1..], FieldStep([], Restore(z)));
  }

  lemma FirstCut(m: FieldMap, q: string, z: string)
    requires OnWire(m) && Pair(m[0]) == q + z && |q| != 0 && |q| != 2
    ensures |Pairs(m)| == |m| && FoldFields(Pairs(m)[1..], FieldStep([], Restore(z))) != AsText(m)
  {
    TagNames();
    var v, acc := PrintValue(m[0].value), FieldStep([], Restore(z));
    assert Pair(m[0]) == "8=" + v;
    CutBegin(v, q, z);
    PairsTake(m, 1);
    RestFields(m, acc);
    assert AsText(m)[0].value == Str(v);
  }

  /** What is read of a message without its beginning is not the message, unless
      exactly its `8=` is missing. */
  lemma TailIsNot(m: FieldMap, j: nat)
    requires OnWire(m) && 0 < j < |Render(m)| && j != 2
    ensures PieceFields(Render(m)[j..]) != AsText(m)
  {
    RenderLines(m);
    PairsSohFree(m);
    PairsTake(m, 0);
    var i, q, z := CutLines(Pairs(m), j);
    PairsAt(m, i);
    PairSplits(m[i]);
    TailPieces(z, Pairs(m)[i + 1..]);
    if i > 0 {
      LaterCut(m, i, z);
    } else {
      FirstCut(m, q, z);
    }
  }

  // ------------------------------------------------------------- one message

  /** The three places, apart from its end, at which a cut does a text no harm: its
      beginning, right after its `8=`, and right before its last SOH. */
  predicate Between(j: nat, n: nat) {
    j == 0 || j == 2 || j + 1 == n
  }

  lemma HeadIsFree(m: FieldMap, j: nat)
    requires OnWire(m) && j <= |Render(m)|
    ensures Received(Render(m)[..j]) == Piece(Render(m)[..j])
  {
    OneMessage(m, false);
    FreeSlice(Render(m), 0, j);
    assert Render(m)[0..j] == Render(m)[..j];
    ReceivedFree(Render(m)[..j]);
  }

  lemma HeadLost(m: FieldMap, j: nat)
    requires OnWire(m) && 0 < j && j + 1 < |Render(m)|
    ensures Piece(Render(m)[..j]) != [AsText(m)] && (j == 2 ==> Piece(Render(m)[..j]) == [])
  {
    OneMessage(m, false);
    if j == 1 {
      assert Render(m)[..1] == "8";
      LoneEight();
    } else {
      HeadIsNot(m, j);
    }
    if j == 2 {
      assert Render(m)[..2] == "8=";
      OnlyBegin();
    }
  }

  lemma HeadKept(m: FieldMap, j: nat)
    requires OnWire(m) && j + 1 == |Render(m)|
    ensures Piece(Render(m)[..j]) == [AsText(m)]
  {
    OneMessage(m, false);
    assert Render(m)[..j] == Chop(Render(m));
    OneReads(m, false);
  }

  lemma HeadReceived(m: FieldMap, j: nat, x: string)
    requires OnWire(m) && 0 < j < |Render(m)| && x == Render(m)[..j]
    ensures Received(x) == Piece(x)
    ensures j + 1 < |Render(m)| ==> Received(x) != [AsText(m)] && (j == 2 ==> Received(x) == [])
    ensures j + 1 == |Render(m)| ==> Received(x) == [AsText(m)]
  {
    HeadIsFree(m, j);
    if j + 1 < |Render(m)| {
      HeadLost(m, j);
    } else {
      HeadKept(m, j);
    }
  }

  lemma LoneEight()
    ensures Piece("8") == [] && forall acc: FieldMap :: FieldStep(acc, "8") == acc
  {
    TagNames();
    assert Restore("8") == "8=8" && "8=8" == "8" + ['='] + "8";
    SplitNone("8=8", SOH);
    SplitAtChar("8", '=', "8");
    SplitNone("8", '=');
    TaggedStep([], "8=8", BEGIN_STRING, "8", []);
    var m := FieldStep([], "8=8");
    assert m == [Field(BEGIN_STRING, Str("8"))];
    assert FoldFields(["8=8"], []) == m;
    assert !Has(m, MSG_TYPE);
  }

  lemma TailIsFree(m: FieldMap, j: nat)
    requires OnWire(m) && j <= |Render(m)|
    ensures Free(Render(m)[j..]) && Received(Render(m)[j..]) == Piece(Render(m)[j..])
  {
    OneMessage(m, false);
    FreeSlice(Render(m), j, |Render(m)|);
    assert Render(m)[j..|Render(m)|] == Render(m)[j..];
    ReceivedFree(Render(m)[j..]);
  }

  lemma TailKept(m: FieldMap)
    requires OnWire(m) && |Render(m)| > 3
    ensures Piece(Render(m)[2..]) == [AsText(m)]
  {
    OneMessage(m, true);
    OneReads(m, true);
    assert Render(m)[2..] == Cut(Render(m), true);
  }

  lemma TailReceived(m: FieldMap, j: nat, y: string)
    requires OnWire(m) && 0 < j < |Render(m)| && y == Render(m)[j..]
    ensures Free(y) && Received(y) == Piece(y)
    ensures j != 2 ==> Received(y) != [AsText(m)]
    ensures j == 2 ==> Received(y) == [AsText(m)]
    ensures j + 1 == |Render(m)| ==> Received(y) == []
  {
    OneMessage(m, false);
    TailIsFree(m, j);
    if j == 2 {
      TailKept(m);
    } else {
      TailIsNot(m, j);
    }
    if j + 1 == |Render(m)| {
      EndsWithSoh(m);
      assert y == [SOH];
      OnlyBegin();
    }
  }

  lemma WholeReceived(m: FieldMap)
    requires OnWire(m)
    ensures Received(Render(m)) == [AsText(m)] && Received("") == []
  {
    OneMessage(m, false);
    OneReads(m, false);
    ReceivedFree(Render(m));
    ReceivedFree("");
  }

  /** One message in two chunks. */
  lemma OneCut(m: FieldMap, j: nat)
    requires OnWire(m) && j < |Render(m)|
    ensures InTwo(Render(m), j) == [AsText(m)] <==> Between(j, |Render(m)|)
  {
    WholeReceived(m);
    var x, y := Render(m)[..j], Render(m)[j..];
    if j == 0 {
      assert x == "" && y == Render(m);
    } else {
      HeadReceived(m, j, x);
      TailReceived(m, j, y);
      OneOfTwo(Received(x), Received(y), AsText(m));
      OneMessage(m, false);
    }
  }

  lemma OneOfTwo<T>(a: seq<T>, b: seq<T>, t: T)
    requires |a| <= 1 && |b| <= 1
    ensures a + b == [t] <==> (a == [t] && b == []) || (a == [] && b == [t])
  {
    if a + b == [t] {
      assert |a + b| == 1 && (a + b)[0] == t;
    }
  }

  // -------------------------------------------------------------- the stream

  /** How a chunk may begin: not at all, with half a message start, or with one. */
  predicate Fresh(p: string) {
    p == "" || p == "8" || (StartsWithBegin(p) && !StartsWithBegin(p[2..]))
  }

  lemma TextThen(r: string, t: FieldMap, p: string, q: string)
    requires r != "" && r[|r| - 1] == SOH && Chop(r) != "" && Free(r) && Accepted(t)
    requires PieceFields(r) == t && PieceFields(Chop(r)) == t && !StartsWithBegin(q)
    requires p == "8=" + q
    ensures Received(r + p) == [t] + Received(p)
  {
    FirstRead(r, t, p);
    BeginIsRestored(q);
    assert p[2..] == q;
  }

  lemma ThenBegin(m: FieldMap, p: string, q: string)
    requires OnWire(m) && !StartsWithBegin(q) && p == "8=" + q
    ensures Received(Render(m) + p) == [AsText(m)] + Received(p)
  {
    OneMessage(m, false);
    OneReads(m, false);
    TextThen(Render(m), AsText(m), p, q);
  }

  lemma ThenNothing(m: FieldMap)
    requires OnWire(m)
    ensures Received(Render(m) + "") == [AsText(m)] + Received("")
  {
    WholeReceived(m);
    assert Render(m) + "" == Render(m);
  }

  /** A message and the beginning of what follows it. */
  lemma MessageThen(m: FieldMap, p: string)
    requires OnWire(m) && Fresh(p)
    ensures Received(Render(m) + p) == [AsText(m)] + Received(p)
  {
    if p == "" {
      ThenNothing(m);
    } else if p == "8" {
      ThenEight(m);
    } else {
      assert p == "8=" + p[2..];
      ThenBegin(m, p, p[2..]);
    }
  }

  lemma FreeEight(r: string)
    requires Free(r) && r != "" && r[|r| - 1] == SOH
    ensures Free(r + "8") && Received(r + "8") == Piece(r + "8")
  {
    forall i | 0 <= i < |r| + 1 ensures !BeginAt(r + "8", i) {
      assert !BeginAt(r, i);
    }
    ReceivedFree(r + "8");
  }

  lemma ReadsEight(m: FieldMap)
    requires OnWire(m)
    ensures PieceFields(Render(m) + "8") == AsText(m)
  {
    OneMessage(m, false);
    RenderLines(m);
    PairsSohFree(m);
    SplitLinesThen(Pairs(m), "8");
    FoldConcat(Pairs(m), ["8"], []);
    assert m[..|m|] == m;
    HeadFieldsOf(m, |m|);
    LoneEight();
    assert Restore(Render(m) + "8") == Render(m) + "8";
    assert FoldFields(["8"], AsText(m)) == AsText(m);
  }

  lemma ThenEight(m: FieldMap)
    requires OnWire(m)
    ensures Received(Render(m) + "8") == [AsText(m)] + Received("8")
  {
    OneMessage(m, false);
    FreeEight(Render(m));
    ReadsEight(m);
    ReadIsAccepted(m);
    LoneEight();
    ReceivedFree("8");
  }

  lemma EndThen(y: string, rest: string)
    requires y != "" && y[|y| - 1] == SOH && Free(y) && StartsWithBegin(rest)
    ensures Received(y + rest) == Piece(y) + Received(rest[2..])
  {
    SplitNext(y, rest);
    FirstPiece(Chop(y), Split(rest[2..], MARK));
    assert y == Chop(y) + [SOH];
    PieceChop(Chop(y));
  }

  /** What follows a message is nothing, or begins with a message that reads back. */
  predicate ReadsOn(rest: string, ts: seq<FieldMap>) {
    if StartsWithBegin(rest) then Received(rest[2..]) == ts else rest == "" && ts == []
  }

  lemma RendersRead(ms: seq<FieldMap>)
    requires forall x :: x in ms ==> OnWire(x)
    ensures ReadsOn(Renders(ms), AsTexts(ms))
  {
    if ms != [] {
      OneMessage(ms[0], true);
      RestBegins(ms);
      BatchFrom(ms[0], true, ms[1..]);
    }
  }

  lemma EndReads(y: string, rest: string, ts: seq<FieldMap>)
    requires y != "" && y[|y| - 1] == SOH && Free(y) && Received(y) == Piece(y) && ReadsOn(rest, ts)
    ensures Received(y + rest) == Received(y) + ts
  {
    if StartsWithBegin(rest) {
      EndThen(y, rest);
    } else {
      assert y + rest == y;
    }
  }

  /** The end of a message and all that follows it. */
  lemma {:induction false} TailThen(m: FieldMap, j: nat, y: string, ms: seq<FieldMap>)
    requires OnWire(m) && 0 < j < |Render(m)| && y == Render(m)[j..] && forall x :: x in ms ==> OnWire(x)
    ensures Received(y + Renders(ms)) == Received(y) + AsTexts(ms)
  {
    TailReceived(m, j, y);
    EndsWithSoh(m);
    RendersRead(ms);
    EndReads(y, Renders(ms), AsTexts(ms));
  }

  lemma PrefixFresh(v: string, tail: string, k: nat)
    requires Clean(v) && tail != "" && tail[0] == SOH && k <= |v| + |tail| + 2
    ensures Fresh(("8=" + (v + tail))[..k])
  {
    var s := "8=" + (v + tail);
    assert s[0] == '8' && s[1] == '=' && s[|v| + 2] == SOH;
    assert forall i :: 0 <= i < |v| ==> s[i + 2] == v[i];
    if k >= 4 {
      assert s[..k][2..][1] == s[3];
    }
    assert k == 1 ==> s[..k] == "8";
  }

  lemma BeginsFresh(m: FieldMap, rest: string, k: nat)
    requires OnWire(m) && k <= |Render(m) + rest|
    ensures Fresh((Render(m) + rest)[..k])
  {
    BeginPair(m);
    var v, tail := PrintValue(m[0].value), [SOH] + Render(m[1..]);
    Assoc(v, tail, rest);
    Assoc("8=", v + tail, rest);
    PrefixFresh(v, tail + rest, k);
  }

  /** The cut falls on a message boundary, right after a message's `8=` or right
      before its last SOH. */
  predicate Harmless(ms: seq<FieldMap>, k: nat) {
    if ms == [] then k == 0
    else
      var n := |Wire(ms[0])|;
      if k < n then Between(k, n) else Harmless(ms[1..], k - n)
  }

  ghost predicate AllPrintable(ms: seq<FieldMap>) {
    forall m :: m in ms ==> Distinct(m) && HasRequired(m) && Printable(m)
  }

  lemma {:induction false} WiresOnWire(ms: seq<FieldMap>)
    requires AllPrintable(ms)
    ensures forall x :: x in WireAll(ms) ==> OnWire(x)
  {
    var ws := WireAll(ms);
    forall x | x in ws ensures OnWire(x) {
      var i :| 0 <= i < |ws| && ws[i] == x;
      assert ms[i] in ms;
      WireClean(ms[i]);
    }
  }

  lemma {:induction false} StreamFresh(ms: seq<FieldMap>, k: nat)
    requires AllPrintable(ms) && k <= |Stream(ms)|
    ensures Fresh(Stream(ms)[..k])
  {
    if ms != [] {
      WireClean(ms[0]);
      BeginsFresh(WireFields(ms[0]), Stream(ms[1..]), k);
    }
  }

  /** What a text cut at k is read as. */
  function InTwo(s: string, k: nat): seq<FieldMap>
    requires k <= |s|
  {
    Received(s[..k]) + Received(s[k..])
  }

  lemma SameEnd<T>(a: seq<T>, b: seq<T>, c: seq<T>)
    ensures a + c == b + c <==> a == b
  {
    if a + c == b + c {
      assert |a| == |b|;
      assert a == (a + c)[..|a|] && b == (b + c)[..|b|];
    }
  }

  lemma SameStart<T>(a: seq<T>, b: seq<T>, c: seq<T>)
    ensures a + b == a + c <==> b == c
  {
    if a + b == a + c {
      assert b == (a + b)[|a|..] && c == (a + c)[|a|..];
    }
  }

  lemma CutFront(r: string, rest: string, k: nat)
    requires k <= |r|
    ensures (r + rest)[..k] == r[..k] && (r + rest)[k..] == r[k..] + rest
  {
  }

  lemma InTwoIs(s: string, k: nat, x: string, y: string)
    requires k <= |s| && s[..k] == x && s[k..] == y
    ensures InTwo(s, k) == Received(x) + Received(y)
  {
  }

  /** A cut inside the first message leaves what follows. */
  lemma CutWithin(s: string, r: string, rest: string, k: nat, ts: seq<FieldMap>)
    requires s == r + rest && k <= |r| && Received(r[k..] + rest) == Received(r[k..]) + ts
    ensures InTwo(s, k) == InTwo(r, k) + ts
  {
    var x, y := r[..k], r[k..];
    CutFront(r, rest, k);
    InTwoIs(s, k, x, y + rest);
    InTwoIs(r, k, x, y);
    Assoc(Received(x), Received(y), ts);
  }

  /** A cut behind a message leaves that message. */
  lemma CutBehind(s: string, r: string, t: FieldMap, rest: string, h: nat, k: nat)
    requires s == r + rest && h <= |rest| && k == |r| + h
    requires Received(r + rest[..h]) == [t] + Received(rest[..h])
    ensures InTwo(s, k) == [t] + InTwo(rest, h)
  {
    var x, y := rest[..h], rest[h..];
    CutAfter(r, rest, h);
    InTwoIs(s, k, r + x, y);
    InTwoIs(rest, h, x, y);
    Assoc([t], Received(x), Received(y));
  }

  lemma {:induction false} StreamStep(ms: seq<FieldMap>)
    requires ms != []
    ensures Stream(ms) == Wire(ms[0]) + Stream(ms[1..])
    ensures AsTexts(WireAll(ms)) == [AsText(WireFields(ms[0]))] + AsTexts(WireAll(ms[1..]))
  {
    assert WireAll(ms)[0] == WireFields(ms[0]) && WireAll(ms)[1..] == WireAll(ms[1..]);
  }

  lemma {:induction false} CutInFirst(ms: seq<FieldMap>, s: string, r: string, k: nat, ts: seq<FieldMap>)
    requires AllPrintable(ms) && ms != [] && s == Stream(ms) && r == Wire(ms[0]) && 0 < k < |r|
    requires ts == AsTexts(WireAll(ms[1..]))
    ensures k <= |s| && InTwo(s, k) == InTwo(r, k) + ts
  {
    WireClean(ms[0]);
    WiresOnWire(ms[1..]);
    StreamRenders(ms[1..]);
    StreamStep(ms);
    TailThen(WireFields(ms[0]), k, r[k..], WireAll(ms[1..]));
    CutWithin(s, r, Stream(ms[1..]), k, ts);
  }

  lemma {:induction false} FirstThen(ms: seq<FieldMap>, h: nat)
    requires AllPrintable(ms) && ms != [] && h <= |Stream(ms[1..])|
    ensures var p := Stream(ms[1..])[..h];
            Received(Wire(ms[0]) + p) == [AsText(WireFields(ms[0]))] + Received(p)
  {
    WireClean(ms[0]);
    StreamFresh(ms[1..], h);
    MessageThen(WireFields(ms[0]), Stream(ms[1..])[..h]);
  }

  lemma {:induction false} CutLater(ms: seq<FieldMap>, s: string, t: FieldMap, rest: string, h: nat, k: nat)
    requires AllPrintable(ms) && ms != [] && s == Stream(ms) && rest == Stream(ms[1..])
    requires t == AsText(WireFields(ms[0])) && h <= |rest| && k == |Wire(ms[0])| + h
    ensures k <= |s| && InTwo(s, k) == [t] + InTwo(rest, h)
  {
    StreamStep(ms);
    FirstThen(ms, h);
    CutBehind(s, Wire(ms[0]), t, rest, h, k);
  }

  lemma {:induction false} StartHarmless(ms: seq<FieldMap>)
    requires AllPrintable(ms)
    ensures Harmless(ms, 0) && InTwo(Stream(ms), 0) == AsTexts(WireAll(ms))
  {
    PrintableComesBack(ms);
    CutAtStart(Stream(ms));
    if ms != [] {
      WireClean(ms[0]);
      OneMessage(WireFields(ms[0]), false);
    }
  }

  lemma CutAtStart(s: string)
    ensures InTwo(s, 0) == Received(s)
  {
    ReceivedFree("");
    assert s[..0] == "" && s[0..] == s && [] + Received(s) == Received(s);
  }

  lemma HarmlessStep(ms: seq<FieldMap>, k: nat)
    requires ms != []
    ensures Harmless(ms, k) <==>
            if k < |Wire(ms[0])| then Between(k, |Wire(ms[0])|) else Harmless(ms[1..], k - |Wire(ms[0])|)
  {
  }

  lemma {:induction false} FirstIff(ms: seq<FieldMap>, s: string, k: nat, all: seq<FieldMap>)
    requires AllPrintable(ms) && ms != [] && s == Stream(ms) && 0 < k < |Wire(ms[0])| && all == AsTexts(WireAll(ms))
    ensures k <= |s| && (InTwo(s, k) == all <==> Between(k, |Wire(ms[0])|))
  {
    var r, t, ts := Wire(ms[0]), AsText(WireFields(ms[0])), AsTexts(WireAll(ms[1..]));
    StreamStep(ms);
    CutInFirst(ms, s, r, k, ts);
    WireClean(ms[0]);
    OneCut(WireFields(ms[0]), k);
    SameEnd(InTwo(r, k), [t], ts);
  }

  lemma {:induction false} LaterIff(ms: seq<FieldMap>, s: string, k: nat, all: seq<FieldMap>,
                                    rest: string, ts: seq<FieldMap>)
    requires AllPrintable(ms) && ms != [] && s == Stream(ms) && rest == Stream(ms[1..])
    requires all == AsTexts(WireAll(ms)) && ts == AsTexts(WireAll(ms[1..])) && |Wire(ms[0])| <= k <= |s|
    ensures k - |Wire(ms[0])| <= |rest| && (InTwo(s, k) == all <==> InTwo(rest, k - |Wire(ms[0])|) == ts)
  {
    var t, h := AsText(WireFields(ms[0])), k - |Wire(ms[0])|;
    StreamStep(ms);
    CutLater(ms, s, t, rest, h, k);
    SameStart([t], InTwo(rest, h), ts);
  }

  lemma {:induction false} CutRead(ms: seq<FieldMap>, k: nat, s: string, all: seq<FieldMap>)
    requires AllPrintable(ms) && s == Stream(ms) && all == AsTexts(WireAll(ms)) && k <= |s|
    ensures InTwo(s, k) == all <==> Harmless(ms, k)
    decreases |ms|
  {
    if k == 0 {
      StartHarmless(ms);
    } else {
      assert ms != [];
      HarmlessStep(ms, k);
      if k < |Wire(ms[0])| {
        FirstIff(ms, s, k, all);
      } else {
        var rest, ts := Stream(ms[1..]), AsTexts(WireAll(ms[1..]));
        LaterIff(ms, s, k, all, rest, ts);
        CutRead(ms[1..], k - |Wire(ms[0])|, rest, ts);
      }
    }
  }

  /** TWO CHUNKS. A printed stream that arrives in two chunks is read as if it came in
      one if and only if the cut falls on a message boundary, right after a message's
      `8=` or right before its last SOH. */
  lemma TwoChunksIff(ms: seq<FieldMap>, k: nat)
    requires AllPrintable(ms) && k <= |Stream(ms)|
    ensures InTwo(Stream(ms), k) == Received(Stream(ms)) <==> Harmless(ms, k)
  {
    CutRead(ms, k, Stream(ms), AsTexts(WireAll(ms)));
    PrintableComesBack(ms);
  }
}
