/** `FIXMessageParser` of src/message: splitting received text into messages,
    and its round trip with the printer. */
module Parser {
  import opened Text
  import opened Fields
  import opened Messages

  /** Where a new message begins: SOH, then `8=`. */
  const MARK: string := [SOH] + "8="

  // ------------------------------------------------------- specification

  /** One `tag=value` piece in `processData`; incomplete pieces are dropped. */
  function FieldStep(acc: FieldMap, piece: string): FieldMap {
    if piece == "" then acc
    else
      var parts := Split(piece, "=");
      if |parts| < 2 || parts[0] == "" || parts[1] == "" then acc
      else if parts[0] == "8" then Put(acc, BEGIN_STRING, Str(parts[1]))
      else Put(acc, ParseInt(parts[0]), Str(parts[1]))
  }

  function FoldFields(pieces: seq<string>, acc: FieldMap): FieldMap
    decreases |pieces|
  {
    if pieces == [] then acc else FoldFields(pieces[1..], FieldStep(acc, pieces[0]))
  }

  predicate StartsWithBegin(s: string) {
    |s| >= 2 && s[0] == '8' && s[1] == '='
  }

  /** Puts back the `8=` that the split removed. */
  function Restore(piece: string): string {
    if StartsWithBegin(piece) then piece else "8=" + piece
  }

  function PieceFields(piece: string): FieldMap {
    FoldFields(Split(Restore(piece), [SOH]), [])
  }

  predicate Accepted(m: FieldMap) {
    Has(m, BEGIN_STRING) && Has(m, MSG_TYPE)
  }

  function MessagesOf(pieces: seq<string>): seq<FieldMap> {
    if pieces == [] then []
    else if pieces[0] != "" && Accepted(PieceFields(pieces[0])) then
      [PieceFields(pieces[0])] + MessagesOf(pieces[1..])
    else MessagesOf(pieces[1..])
  }

  /** What `processData` makes of a chunk of text. */
  function Received(raw: string): seq<FieldMap> {
    MessagesOf(Split(raw, MARK))
  }

  /** One piece in `parseFields`: nothing but the empty piece is dropped, and a
      missing value is stored as `undefined`. */
  function RawStep(acc: FieldMap, piece: string): FieldMap {
    if piece == "" then acc
    else
      var parts := Split(piece, "=");
      Put(acc, ParseInt(parts[0]), if |parts| < 2 then Undefined else Str(parts[1]))
  }

  function FoldRaw(pieces: seq<string>, acc: FieldMap): FieldMap
    decreases |pieces|
  {
    if pieces == [] then acc else FoldRaw(pieces[1..], RawStep(acc, pieces[0]))
  }

  /** What `parse` makes of a single message. */
  function Parsed(raw: string): FieldMap {
    FoldRaw(Split(raw, [SOH]), [])
  }

  // ------------------------------------------------- the parser's methods

  lemma StepDistinct(acc: FieldMap, piece: string)
    requires Distinct(acc)
    ensures Distinct(FieldStep(acc, piece)) && Distinct(RawStep(acc, piece))
  {
    var parts := Split(piece, "=");
    PutLaws(acc, ParseInt(parts[0]), Undefined);
    if |parts| >= 2 {
      PutLaws(acc, BEGIN_STRING, Str(parts[1]));
      PutLaws(acc, ParseInt(parts[0]), Str(parts[1]));
    }
  }

  /** Fills one message from its pieces. */
  method ReadFields(fields: seq<string>, message: Message)
    requires message.Valid()
    modifies message
    ensures message.Valid() && message.fields == FoldFields(fields, old(message.fields))
  {
    for i := 0 to |fields|
      invariant message.Valid()
      invariant FoldFields(fields[i..], message.fields) == FoldFields(fields, old(message.fields))
    {
      StepDistinct(message.fields, fields[i]);
      if fields[i] != "" {
        var parts := Split(fields[i], "=");
        if |parts| >= 2 && parts[0] != "" && parts[1] != "" {
          if parts[0] == "8" {
            message.SetField(BEGIN_STRING, Str(parts[1]));
          } else {
            message.SetField(ParseInt(parts[0]), Str(parts[1]));
          }
        }
      }
    }
  }

  method ReadPiece(piece: string) returns (message: Message, accepted: bool)
    ensures fresh(message) && message.Valid() && message.fields == PieceFields(piece)
    ensures accepted == Accepted(PieceFields(piece))
  {
    var rawMsg := piece;
    if !StartsWithBegin(rawMsg) {
      rawMsg := "8=" + rawMsg;
    }
    message := new Message([]);
    ReadFields(Split(rawMsg, [SOH]), message);
    accepted := Has(message.fields, BEGIN_STRING) && Has(message.fields, MSG_TYPE);
  }

  lemma MessagesStep(pieces: seq<string>, k: nat)
    requires k < |pieces|
    ensures MessagesOf(pieces[k..]) ==
            (if pieces[k] != "" && Accepted(PieceFields(pieces[k])) then [PieceFields(pieces[k])] else [])
            + MessagesOf(pieces[k + 1..])
  {
    assert pieces[k..][1..] == pieces[k + 1..];
  }

  /** What has been read so far, and what the pieces from k on will add. */
  ghost predicate Pending(pieces: seq<string>, k: nat, done: seq<FieldMap>)
    requires k <= |pieces|
  {
    done + MessagesOf(pieces[k..]) == MessagesOf(pieces)
  }

  lemma PendingStep(pieces: seq<string>, k: nat, done: seq<FieldMap>)
    requires k < |pieces| && Pending(pieces, k, done)
    ensures var p := pieces[k];
            if p != "" && Accepted(PieceFields(p)) then Pending(pieces, k + 1, done + [PieceFields(p)])
            else Pending(pieces, k + 1, done)
  {
    MessagesStep(pieces, k);
    var rest := MessagesOf(pieces[k + 1..]);
    Shift(done, PieceFields(pieces[k]), rest);
    assert [] + rest == rest;
  }

  lemma Shift<T>(done: seq<T>, x: T, rest: seq<T>)
    ensures done + ([x] + rest) == (done + [x]) + rest
  {
  }

  lemma PendingEnd(pieces: seq<string>, done: seq<FieldMap>)
    requires Pending(pieces, |pieces|, done)
    ensures done == MessagesOf(pieces)
  {
  }

  /** `processData`: returns new message objects, one for each accepted piece. */
  method ProcessData(rawData: string) returns (messages: seq<Message>)
    ensures |messages| == |Received(rawData)|
    ensures forall i :: 0 <= i < |messages| ==>
                          fresh(messages[i]) && messages[i].Valid() && messages[i].fields == Received(rawData)[i]
  {
    var rawMessages := Split(rawData, MARK);
    messages := [];
    ghost var done: seq<FieldMap> := [];
    for k := 0 to |rawMessages|
      invariant Pending(rawMessages, k, done)
      invariant |messages| == |done|
      invariant forall i :: 0 <= i < |messages| ==>
                              fresh(messages[i]) && messages[i].Valid() && messages[i].fields == done[i]
    {
      PendingStep(rawMessages, k, done);
      var piece := rawMessages[k];
      if piece != "" {
        var message, accepted := ReadPiece(piece);
        if accepted {
          messages, done := messages + [message], done + [message.fields];
        }
      }
    }
    PendingEnd(rawMessages, done);
  }

  /** `parse`: one message from one raw text. */
  method Parse(rawMessage: string) returns (message: Message)
    ensures fresh(message) && message.Valid() && message.fields == Parsed(rawMessage)
  {
    var pairs := Split(rawMessage, [SOH]);
    var fields: FieldMap := [];
    for i := 0 to |pairs|
      invariant Distinct(fields) && FoldRaw(pairs[i..], fields) == FoldRaw(pairs, [])
    {
      StepDistinct(fields, pairs[i]);
      fields := RawStep(fields, pairs[i]);
    }
    message := new Message([]);
    for i := 0 to |fields|
      invariant fresh(message) && message.Valid() && PutAll(message.fields, fields[i..]) == PutAll([], fields)
    {
      message.SetField(fields[i].tag, fields[i].value);
    }
    PutAllCopies([], fields);
    assert [] + fields == fields;
  }

  // ----------------------------------------------------- any piece of text

  /** A piece up to its first `=`, up to the second, and what is left. */
  lemma PieceParts(t: string, v: string, more: string)
    requires '=' !in t && '=' !in v && (more == "" || more[0] == '=')
    ensures var ps := Split(t + ("=" + (v + more)), "="); |ps| >= 2 && ps[0] == t && ps[1] == v
  {
    Assoc(t, "=", v + more);
    SplitAtChar(t, '=', v + more);
    ValuePart(v, more);
  }

  lemma ValuePart(v: string, more: string)
    requires '=' !in v && (more == "" || more[0] == '=')
    ensures Split(v + more, "=")[0] == v
  {
    if more == "" {
      assert v + more == v;
      SplitNone(v, '=');
    } else {
      assert v + more == v + ['='] + more[1..];
      SplitAtChar(v, '=', more[1..]);
    }
  }

  /** ANY PIECE. `processData` stores the text between the first and the second `=`
      under the number before the first, if neither is empty; `parse` stores it in
      any case. */
  lemma PieceStored(acc: FieldMap, t: string, v: string, more: string)
    requires '=' !in t && '=' !in v && (more == "" || more[0] == '=')
    ensures var p := t + ("=" + (v + more));
            && FieldStep(acc, p) == (if t == "" || v == "" then acc else Put(acc, ParseInt(t), Str(v)))
            && RawStep(acc, p) == Put(acc, ParseInt(t), Str(v))
  {
    PieceParts(t, v, more);
    TagNames();
    ParsePrintedTag(BEGIN_STRING);
  }

  /** A piece without `=` is dropped by `processData` and stored as `undefined` by
      `parse`; both drop an empty piece. */
  lemma PieceUnstored(acc: FieldMap, t: string)
    requires '=' !in t
    ensures FieldStep(acc, t) == acc
    ensures RawStep(acc, t) == if t == "" then acc else Put(acc, ParseInt(t), Undefined)
  {
    SplitNone(t, '=');
  }

  // ------------------------------------------ parsing one rendered message

  lemma PairSplits(f: Field)
    requires Clean(PrintValue(f.value))
    ensures Split(Pair(f), "=") == [PrintTag(f.tag), PrintValue(f.value)]
    ensures SOH !in Pair(f) && Pair(f) != ""
  {
    SplitAtChar(PrintTag(f.tag), '=', PrintValue(f.value));
    SplitNone(PrintValue(f.value), '=');
  }

  /** A piece that splits into a printed tag, a value and perhaps more stores the
      value, unless it is empty. */
  lemma TaggedStep(acc: FieldMap, piece: string, t: Tag, value: string, more: seq<string>)
    requires piece != "" && Split(piece, "=") == [PrintTag(t), value] + more
    ensures FieldStep(acc, piece) == if value == "" then acc else Put(acc, t, Str(value))
    ensures RawStep(acc, piece) == Put(acc, t, Str(value))
  {
    ParsePrintedTag(t);
    ParsePrintedTag(BEGIN_STRING);
    TagNames();
  }

  lemma PairSteps(acc: FieldMap, f: Field)
    requires Clean(PrintValue(f.value))
    ensures FieldStep(acc, Pair(f)) == Put(acc, f.tag, Str(PrintValue(f.value)))
    ensures RawStep(acc, Pair(f)) == Put(acc, f.tag, Str(PrintValue(f.value)))
  {
    PairSplits(f);
    TaggedStep(acc, Pair(f), f.tag, PrintValue(f.value), []);
  }

  lemma StepAppends(acc: FieldMap, f: Field, rest: FieldMap)
    requires Clean(PrintValue(f.value)) && Distinct(acc + [Field(f.tag, Str(PrintValue(f.value)))] + rest)
    ensures FieldStep(acc, Pair(f)) == acc + [Field(f.tag, Str(PrintValue(f.value)))]
    ensures RawStep(acc, Pair(f)) == acc + [Field(f.tag, Str(PrintValue(f.value)))]
  {
    var g := Field(f.tag, Str(PrintValue(f.value)));
    var all := acc + [g] + rest;
    forall i | 0 <= i < |acc| ensures acc[i].tag != f.tag {
      assert all[i] == acc[i] && all[|acc|] == g;
    }
    PairSteps(acc, f);
    PutNew(acc, g.tag, g.value);
  }

  /** Reading the pairs of clean, distinct fields appends exactly those fields. */
  lemma {:induction false} FoldPairs(m: FieldMap, acc: FieldMap)
    requires AllClean(m) && Distinct(acc + AsText(m))
    ensures FoldFields(Pairs(m), acc) == acc + AsText(m)
    ensures FoldRaw(Pairs(m), acc) == acc + AsText(m)
    decreases |m|
  {
    if m != [] {
      var f := AsText(m)[0];
      var next := acc + [f];
      assert acc + AsText(m) == next + AsText(m[1..]);
      StepAppends(acc, m[0], AsText(m[1..]));
      FoldPairs(m[1..], next);
      assert Pairs(m)[0] == Pair(m[0]) && Pairs(m)[1..] == Pairs(m[1..]);
      assert FoldFields(Pairs(m), acc) == FoldFields(Pairs(m[1..]), next);
      assert FoldRaw(Pairs(m), acc) == FoldRaw(Pairs(m[1..]), next);
    }
  }

  // ---------------------------------------------------- text made of pieces

  /** Every piece followed by SOH. */
  function Lines(ps: seq<string>): string {
    if ps == [] then "" else ps[0] + [SOH] + Lines(ps[1..])
  }

  predicate SohFree(ps: seq<string>) {
    forall i :: 0 <= i < |ps| ==> SOH !in ps[i]
  }

  lemma {:induction false} LinesConcat(a: seq<string>, b: seq<string>)
    ensures Lines(a + b) == Lines(a) + Lines(b)
  {
    if a == [] {
      assert a + b == b;
    } else {
      assert (a + b)[1..] == a[1..] + b;
      LinesConcat(a[1..], b);
      Assoc(a[0] + [SOH], Lines(a[1..]), Lines(b));
    }
  }

  lemma {:induction false} RenderLines(m: FieldMap)
    ensures Render(m) == Lines(Pairs(m))
  {
    if m != [] {
      RenderLines(m[1..]);
      assert Pairs(m)[1..] == Pairs(m[1..]);
    }
  }

  lemma {:induction false} PairsAt(m: FieldMap, i: nat)
    requires i < |m|
    ensures Pairs(m)[i] == Pair(m[i])
  {
    if i > 0 {
      PairsAt(m[1..], i - 1);
    }
  }

  lemma PairsSohFree(m: FieldMap)
    requires AllClean(m)
    ensures SohFree(Pairs(m))
  {
    forall i | 0 <= i < |m| ensures SOH !in Pairs(m)[i] {
      PairsAt(m, i);
      PairSplits(m[i]);
    }
  }

  lemma {:induction false} SplitLines(ps: seq<string>)
    requires SohFree(ps)
    ensures Split(Lines(ps), [SOH]) == ps + [""]
  {
    if ps == [] {
      SplitNone("", SOH);
    } else {
      SplitLines(ps[1..]);
      SplitAtChar(ps[0], SOH, Lines(ps[1..]));
      Assoc([ps[0]], ps[1..], [""]);
      assert [ps[0]] + ps[1..] == ps;
    }
  }

  function Chop(s: string): string {
    if s == "" then "" else s[..|s| - 1]
  }

  lemma ChopTail(a: string, b: string)
    requires b != ""
    ensures Chop(a + b) == a + Chop(b)
  {
  }

  lemma {:induction false} SplitChoppedLines(ps: seq<string>)
    requires SohFree(ps) && ps != []
    ensures Split(Chop(Lines(ps)), [SOH]) == ps
  {
    var rest := Lines(ps[1..]);
    if |ps| == 1 {
      assert Chop(Lines(ps)) == ps[0];
      SplitNone(ps[0], SOH);
    } else {
      SplitChoppedLines(ps[1..]);
      ChopTail(ps[0] + [SOH], rest);
      SplitAtChar(ps[0], SOH, Chop(rest));
    }
  }

  lemma SplitRendered(m: FieldMap)
    requires AllClean(m)
    ensures Split(Render(m), [SOH]) == Pairs(m) + [""]
    ensures m != [] ==> Split(Chop(Render(m)), [SOH]) == Pairs(m)
  {
    PairsSohFree(m);
    RenderLines(m);
    SplitLines(Pairs(m));
    if m != [] {
      SplitChoppedLines(Pairs(m));
    }
  }

  lemma {:induction false} FoldConcat(a: seq<string>, b: seq<string>, acc: FieldMap)
    ensures FoldFields(a + b, acc) == FoldFields(b, FoldFields(a, acc))
    ensures FoldRaw(a + b, acc) == FoldRaw(b, FoldRaw(a, acc))
    decreases |a|
  {
    if a == [] {
      assert a + b == b;
    } else {
      assert (a + b)[1..] == a[1..] + b;
      FoldConcat(a[1..], b, FieldStep(acc, a[0]));
      FoldConcat(a[1..], b, RawStep(acc, a[0]));
    }
  }

  lemma FoldTrailing(ps: seq<string>, acc: FieldMap)
    ensures FoldFields(ps + [""], acc) == FoldFields(ps, acc)
    ensures FoldRaw(ps + [""], acc) == FoldRaw(ps, acc)
  {
    FoldConcat(ps, [""], acc);
  }

  lemma AsTextDistinct(m: FieldMap)
    requires Distinct(m)
    ensures Distinct(AsText(m))
  {
  }

  /** A list of fields as a message on the wire: it starts with tag 8, has tag
      35, and all its values are clean. */
  ghost predicate OnWire(m: FieldMap) {
    && Distinct(m) && AllClean(m)
    && m != [] && m[0].tag == BEGIN_STRING && Has(m, MSG_TYPE)
  }

  lemma ReadsBack(m: FieldMap, text: string)
    requires Distinct(m) && AllClean(m) && m != []
    requires text == Render(m) || text == Chop(Render(m))
    ensures FoldFields(Split(text, [SOH]), []) == AsText(m)
    ensures FoldRaw(Split(text, [SOH]), []) == AsText(m)
  {
    AsTextDistinct(m);
    assert [] + AsText(m) == AsText(m);
    FoldPairs(m, []);
    FoldTrailing(Pairs(m), []);
    SplitRendered(m);
  }

  lemma BeginPair(m: FieldMap)
    requires OnWire(m)
    ensures var v := PrintValue(m[0].value);
            Clean(v) && Render(m) == "8=" + (v + ([SOH] + Render(m[1..])))
  {
    TagNames();
    BeginText(PrintValue(m[0].value), [SOH], Render(m[1..]));
  }

  lemma BeginText(v: string, soh: string, tail: string)
    ensures "8" + "=" + v + soh + tail == "8=" + (v + (soh + tail))
  {
  }

  /** The text after the leading `8=` gets the `8=` back. */
  lemma RestoresBegin(v: string, tail: string)
    requires Clean(v)
    ensures Restore("8=" + (v + tail)) == "8=" + (v + tail)
    ensures tail == "" || tail[0] == SOH ==> Restore(v + tail) == "8=" + (v + tail)
  {
    assert |v| >= 2 ==> (v + tail)[1] == v[1];
  }

  lemma ChopBegin(v: string, tail: string)
    requires tail != ""
    ensures Chop("8=" + (v + tail)) == "8=" + (v + Chop(tail))
    ensures ("8=" + (v + tail))[2..] == v + tail
  {
  }

  lemma PieceReadsBack(m: FieldMap, text: string)
    requires OnWire(m)
    requires text == Render(m) || text == Chop(Render(m))
    ensures |text| > 2 && PieceFields(text) == AsText(m) && PieceFields(text[2..]) == AsText(m)
  {
    var v := PrintValue(m[0].value);
    BeginPair(m);
    var all := [SOH] + Render(m[1..]);
    var tail := if text == Render(m) then all else Chop(all);
    ChopBegin(v, all);
    RestoresBegin(v, tail);
    assert text[2..] == v + tail;
    ReadsBack(m, text);
  }

  lemma ReadIsAccepted(m: FieldMap)
    requires OnWire(m)
    ensures Accepted(AsText(m))
  {
    var t := AsText(m);
    assert t[0].tag == BEGIN_STRING;
    var i :| 0 <= i < |m| && m[i].tag == MSG_TYPE;
    assert t[i].tag == MSG_TYPE;
  }

  // --------------------------------------------------- splitting a batch

  predicate BeginAt(s: string, i: int) {
    0 <= i && i + 3 <= |s| && s[i] == SOH && s[i + 1] == '8' && s[i + 2] == '='
  }

  /** No message begins inside the text. */
  predicate Free(s: string) {
    forall i :: 0 <= i < |s| ==> !BeginAt(s, i)
  }

  lemma MarkAt(s: string, i: int)
    ensures OccursAt(s, MARK, i) <==> BeginAt(s, i)
  {
    assert |MARK| == 3 && MARK[0] == SOH && MARK[1] == '8' && MARK[2] == '=';
    assert OccursAt(s, MARK, i) ==> s[i + 0] == MARK[0] && s[i + 1] == MARK[1] && s[i + 2] == MARK[2];
  }

  lemma FreePrefix(p: string, rest: string)
    requires SOH !in p && Free(rest)
    ensures Free(p + rest)
  {
    var s := p + rest;
    forall i | 0 <= i < |s| ensures !BeginAt(s, i) {
      if i < |p| {
        assert s[i] == p[i];
      } else {
        assert !BeginAt(rest, i - |p|);
      }
    }
  }

  lemma FreeCons(s: string)
    requires Free(s) && !StartsWithBegin(s)
    ensures Free([SOH] + s)
  {
    forall i | 0 <= i < |s| + 1 ensures !BeginAt([SOH] + s, i) {
      assert i > 0 ==> !BeginAt(s, i - 1);
    }
  }

  lemma NotEight(t: Tag, rest: string)
    requires t != BEGIN_STRING
    ensures !StartsWithBegin(PrintTag(t) + "=" + rest)
  {
    var p := PrintTag(t);
    ParsePrintedTag(t);
    ParsePrintedTag(BEGIN_STRING);
    TagNames();
    assert p != "8";
    assert |p| >= 2 ==> (p + "=" + rest)[1] == p[1];
    assert |p| == 1 ==> p == [p[0]];
    assert (p + "=" + rest)[0] == p[0];
  }

  predicate NoneBegins(ps: seq<string>) {
    forall i :: 0 <= i < |ps| ==> !StartsWithBegin(ps[i])
  }

  lemma DropBegin(m: FieldMap)
    requires Distinct(m) && m != [] && m[0].tag == BEGIN_STRING
    ensures !Has(m[1..], BEGIN_STRING)
  {
    forall i | 0 <= i < |m[1..]| ensures m[1..][i].tag != BEGIN_STRING {
      assert m[1..][i] == m[i + 1];
    }
  }

  lemma BeginsInPiece(p: string, rest: string)
    requires SOH !in p
    ensures StartsWithBegin(p + ([SOH] + rest)) ==> StartsWithBegin(p)
  {
    var s := p + ([SOH] + rest);
    assert s[|p|] == SOH;
    assert |p| >= 2 ==> s[0] == p[0] && s[1] == p[1];
  }

  /** No message begins among pieces none of which begins one. */
  lemma {:induction false} LinesFree(ps: seq<string>)
    requires SohFree(ps) && NoneBegins(ps)
    ensures Free([SOH] + Lines(ps))
  {
    if ps != [] {
      var p, rest := ps[0], [SOH] + Lines(ps[1..]);
      LinesFree(ps[1..]);
      FreePrefix(p, rest);
      BeginsInPiece(p, Lines(ps[1..]));
      FreeCons(p + rest);
      Assoc(p, [SOH], Lines(ps[1..]));
    }
  }

  lemma PairsBeginNone(m: FieldMap)
    requires !Has(m, BEGIN_STRING)
    ensures NoneBegins(Pairs(m))
  {
    forall i | 0 <= i < |m| ensures !StartsWithBegin(Pairs(m)[i]) {
      PairsAt(m, i);
      assert m[i].tag != BEGIN_STRING;
      NotEight(m[i].tag, PrintValue(m[i].value));
    }
  }

  /** No message begins among fields other than tag 8. */
  lemma TailFree(m: FieldMap)
    requires AllClean(m) && !Has(m, BEGIN_STRING)
    ensures Free([SOH] + Render(m))
  {
    PairsSohFree(m);
    PairsBeginNone(m);
    RenderLines(m);
    LinesFree(Pairs(m));
  }

  /** Pieces of which only the first begins a message are read as one. */
  lemma ReadsLines(ps: seq<string>)
    requires ps != [] && SohFree(ps) && StartsWithBegin(ps[0]) && NoneBegins(ps[1..])
    ensures var r := FoldFields(ps, []); Received(Lines(ps)) == if Accepted(r) then [r] else []
  {
    var text, rest := Lines(ps), [SOH] + Lines(ps[1..]);
    LinesFree(ps[1..]);
    FreePrefix(ps[0], rest);
    Assoc(ps[0], [SOH], Lines(ps[1..]));
    SplitLast(text);
    assert text[0] == ps[0][0] && text[1] == ps[0][1];
    SplitLines(ps);
    FoldTrailing(ps, []);
    MessagesStep([text], 0);
    assert [text][0..] == [text] && [text][1..] == [];
  }

  function Cut(s: string, cut: bool): string {
    if cut && |s| >= 2 then s[2..] else s
  }

  /** A rendered message, with or without its `8=`, ends with SOH and holds no
      further message start. */
  lemma OneMessage(m: FieldMap, cut: bool)
    requires OnWire(m)
    ensures StartsWithBegin(Render(m)) && |Render(m)| > 3
    ensures var r := Cut(Render(m), cut); |r| > 1 && r[|r| - 1] == SOH && Free(r)
  {
    var v, rest := PrintValue(m[0].value), [SOH] + Render(m[1..]);
    BeginPair(m);
    DropBegin(m);
    TailFree(m[1..]);
    FreePrefix(v, rest);
    FreePrefix("8=", v + rest);
    assert Render(m)[2..] == v + rest;
    EndsWithSoh(m);
  }

  /** It reads back with or without that SOH. */
  lemma OneReads(m: FieldMap, cut: bool)
    requires OnWire(m) && |Render(m)| > 3
    ensures var r := Cut(Render(m), cut);
            PieceFields(r) == AsText(m) && PieceFields(Chop(r)) == AsText(m) && Accepted(AsText(m))
  {
    PieceReadsBack(m, Render(m));
    PieceReadsBack(m, Chop(Render(m)));
    ReadIsAccepted(m);
    ChopCut(Render(m), cut);
  }

  lemma ChopCut(s: string, cut: bool)
    requires |s| > 3
    ensures Chop(Cut(s, cut)) == Cut(Chop(s), cut)
  {
  }

  lemma {:induction false} EndsWithSoh(m: FieldMap)
    requires m != []
    ensures Render(m) != "" && Render(m)[|Render(m)| - 1] == SOH
  {
    if |m| > 1 {
      EndsWithSoh(m[1..]);
    } else {
      RenderOne(m[0]);
      assert m == [m[0]];
    }
  }

  /** A message followed by another is cut right before the latter's `8=`. */
  lemma SplitNext(r: string, rest: string)
    requires r != "" && r[|r| - 1] == SOH && Free(r) && StartsWithBegin(rest)
    ensures Split(r + rest, MARK) == [Chop(r)] + Split(rest[2..], MARK)
  {
    var s, p := r + rest, Chop(r);
    assert rest == "8=" + rest[2..];
    assert r == p + [SOH];
    assert s == p + MARK + rest[2..];
    forall j | 0 <= j < |p| ensures !OccursAt(s, MARK, j) {
      MarkAt(s, j);
      assert !BeginAt(r, j);
      assert j + 1 == |p| ==> s[j + 1] == SOH;
    }
    SplitAt(p, MARK, rest[2..]);
  }

  lemma SplitLast(r: string)
    requires Free(r)
    ensures Split(r, MARK) == [r]
  {
    forall j ensures !OccursAt(r, MARK, j) {
      MarkAt(r, j);
    }
  }

  function Renders(ms: seq<FieldMap>): string {
    if ms == [] then "" else Render(ms[0]) + Renders(ms[1..])
  }

  function AsTexts(ms: seq<FieldMap>): (r: seq<FieldMap>)
    ensures |r| == |ms| && forall i :: 0 <= i < |ms| ==> r[i] == AsText(ms[i])
  {
    if ms == [] then [] else [AsText(ms[0])] + AsTexts(ms[1..])
  }

  lemma FirstRead(r: string, t: FieldMap, rest: string)
    requires r != "" && r[|r| - 1] == SOH && Chop(r) != "" && Free(r) && Accepted(t)
    requires PieceFields(r) == t && PieceFields(Chop(r)) == t
    ensures Received(r) == [t]
    ensures StartsWithBegin(rest) ==> Received(r + rest) == [t] + Received(rest[2..])
  {
    SplitLast(r);
    MessagesStep([r], 0);
    assert [r][0..] == [r] && [r][1..] == [];
    if StartsWithBegin(rest) {
      SplitNext(r, rest);
      var ps := Split(r + rest, MARK);
      MessagesStep(ps, 0);
      assert ps[0..] == ps && ps[1..] == Split(rest[2..], MARK);
    }
  }

  /** Reading a message whose leading `8=` may be cut off, and all after it. */
  lemma {:induction false} BatchFrom(m: FieldMap, cut: bool, ms: seq<FieldMap>)
    requires OnWire(m) && forall x :: x in ms ==> OnWire(x)
    ensures Received(Cut(Render(m), cut) + Renders(ms)) == [AsText(m)] + AsTexts(ms)
    decreases |ms|
  {
    OneMessage(m, cut);
    OneReads(m, cut);
    var r, rest := Cut(Render(m), cut), Renders(ms);
    FirstRead(r, AsText(m), rest);
    if ms == [] {
      assert r + rest == r;
    } else {
      OneMessage(ms[0], true);
      BatchFrom(ms[0], true, ms[1..]);
      RestBegins(ms);
    }
  }

  lemma RestBegins(ms: seq<FieldMap>)
    requires ms != [] && StartsWithBegin(Render(ms[0]))
    ensures StartsWithBegin(Renders(ms)) && Renders(ms)[2..] == Cut(Render(ms[0]), true) + Renders(ms[1..])
  {
  }

  /** Any batch of rendered field lists is read back field for field. */
  lemma ReceivesRendered(ms: seq<FieldMap>)
    requires forall x :: x in ms ==> OnWire(x)
    ensures Received(Renders(ms)) == AsTexts(ms)
  {
    if ms == [] {
      SplitLast("");
      assert MessagesOf([""]) == MessagesOf([""][1..]);
    } else {
      BatchFrom(ms[0], false, ms[1..]);
    }
  }

  // ------------------------------------------------------- the round trip

  function WireAll(ms: seq<FieldMap>): (r: seq<FieldMap>)
    ensures |r| == |ms| && forall i :: 0 <= i < |ms| ==> r[i] == WireFields(ms[i])
  {
    if ms == [] then [] else [WireFields(ms[0])] + WireAll(ms[1..])
  }

  /** The concatenated `toString` outputs. */
  function Stream(ms: seq<FieldMap>): string {
    if ms == [] then "" else Wire(ms[0]) + Stream(ms[1..])
  }

  lemma {:induction false} StreamRenders(ms: seq<FieldMap>)
    ensures Stream(ms) == Renders(WireAll(ms))
  {
    if ms != [] {
      StreamRenders(ms[1..]);
      assert WireAll(ms)[1..] == WireAll(ms[1..]);
    }
  }

  /** Every field that goes on the wire has a clean value. */
  ghost predicate Printable(m: FieldMap) {
    forall f :: f in m && f.tag != BODY_LENGTH && f.tag != CHECK_SUM ==> Clean(PrintValue(f.value))
  }

  lemma PrintableWire(m: FieldMap)
    requires HasRequired(m) && Printable(m)
    ensures AllClean(WireFields(m))
  {
    var w := WireFields(m);
    TrailerDigits(Render(HeadFields(m)));
    forall i | 0 <= i < |w| ensures Clean(PrintValue(w[i].value)) {
      WireOrigin(m, w[i]);
    }
  }

  lemma WirePrintable(m: FieldMap)
    requires Distinct(m) && AllClean(WireFields(m))
    ensures Printable(m)
  {
    forall f: Field | f in m && f.tag != BODY_LENGTH && f.tag != CHECK_SUM ensures Clean(PrintValue(f.value)) {
      WireKeeps(m, f);
    }
  }

  lemma WireStarts(m: FieldMap)
    ensures WireFields(m) != [] && WireFields(m)[0].tag == BEGIN_STRING && Has(WireFields(m), MSG_TYPE)
  {
    WireShape(m);
    assert WireFields(m)[2].tag == MSG_TYPE;
  }

  lemma WireClean(m: FieldMap)
    requires Distinct(m) && HasRequired(m)
    ensures AllClean(WireFields(m)) <==> Printable(m)
    ensures Printable(m) ==> OnWire(WireFields(m))
  {
    WireDistinct(m);
    WireStarts(m);
    if Printable(m) {
      PrintableWire(m);
    }
    if AllClean(WireFields(m)) {
      WirePrintable(m);
    }
  }

  /** Every value the parser stores is clean text. */
  ghost predicate CleanText(m: FieldMap) {
    forall i :: 0 <= i < |m| ==> m[i].value.Str? && Clean(m[i].value.s)
  }

  lemma {:induction false} FoldStoresClean(pieces: seq<string>, acc: FieldMap)
    requires CleanText(acc) && forall p :: p in pieces ==> SOH !in p
    ensures CleanText(FoldFields(pieces, acc))
    decreases |pieces|
  {
    if pieces != [] {
      StepStoresClean(acc, pieces[0]);
      FoldStoresClean(pieces[1..], FieldStep(acc, pieces[0]));
    }
  }

  lemma StepStoresClean(acc: FieldMap, piece: string)
    requires CleanText(acc) && SOH !in piece
    ensures CleanText(FieldStep(acc, piece))
  {
    var parts := Split(piece, "=");
    if |parts| >= 2 && parts[0] != "" && parts[1] != "" {
      SplitClean(piece, '=');
      SplitParts(piece, "=", SOH);
      assert Clean(parts[1]);
      PutClean(acc, BEGIN_STRING, parts[1]);
      PutClean(acc, ParseInt(parts[0]), parts[1]);
    }
  }

  lemma {:induction false} PutClean(m: FieldMap, t: Tag, v: string)
    requires CleanText(m) && Clean(v)
    ensures CleanText(Put(m, t, Str(v)))
  {
    if m != [] {
      assert CleanText(m[1..]);
      PutClean(m[1..], t, v);
    }
  }

  lemma {:induction false} SplitParts(s: string, sep: string, c: char)
    requires sep != [] && c !in s
    ensures forall p :: p in Split(s, sep) ==> c !in p
    decreases |s|
  {
    var k := IndexOf(s, sep);
    if k >= 0 {
      SplitParts(s[k + |sep|..], sep, c);
    }
  }

  lemma {:induction false} ReceivedClean(pieces: seq<string>)
    ensures forall m :: m in MessagesOf(pieces) ==> CleanText(m)
  {
    if pieces != [] {
      ReceivedClean(pieces[1..]);
      SplitClean(Restore(pieces[0]), SOH);
      FoldStoresClean(Split(Restore(pieces[0]), [SOH]), []);
    }
  }

  lemma PrintableComesBack(ms: seq<FieldMap>)
    requires forall m :: m in ms ==> Distinct(m) && HasRequired(m) && Printable(m)
    ensures Received(Stream(ms)) == AsTexts(WireAll(ms))
  {
    var ws := WireAll(ms);
    StreamRenders(ms);
    forall x | x in ws ensures OnWire(x) {
      var i :| 0 <= i < |ws| && ws[i] == x;
      assert ms[i] in ms;
      WireClean(ms[i]);
    }
    ReceivesRendered(ws);
  }

  lemma ComesBackPrintable(ms: seq<FieldMap>, m: FieldMap)
    requires m in ms && Distinct(m) && HasRequired(m)
    requires Received(Stream(ms)) == AsTexts(WireAll(ms))
    ensures Printable(m)
  {
    var i :| 0 <= i < |ms| && ms[i] == m;
    var w := WireFields(m);
    var t := AsText(w);
    ReceivedClean(Split(Stream(ms), MARK));
    assert t == AsTexts(WireAll(ms))[i];
    assert CleanText(t);
    forall k | 0 <= k < |w| ensures Clean(PrintValue(w[k].value)) {
      assert t[k].value.s == PrintValue(w[k].value);
    }
    WireClean(m);
  }

  /** BATCH ROUND TRIP. `processData` on the concatenated printed messages gives
      back exactly those messages, in order, each with the fields of its wire
      form, if and only if no printed value is empty or holds SOH or `=`. */
  lemma BatchRoundTrip(ms: seq<FieldMap>)
    requires forall m :: m in ms ==> Distinct(m) && HasRequired(m)
    ensures Received(Stream(ms)) == AsTexts(WireAll(ms)) <==> forall m :: m in ms ==> Printable(m)
  {
    if forall m :: m in ms ==> Printable(m) {
      PrintableComesBack(ms);
    }
    if Received(Stream(ms)) == AsTexts(WireAll(ms)) {
      forall m | m in ms ensures Printable(m) {
        ComesBackPrintable(ms, m);
      }
    }
  }

  lemma ReceivedOne(m: FieldMap)
    requires Distinct(m) && HasRequired(m) && Printable(m)
    ensures Received(Wire(m)) == [AsText(WireFields(m))]
  {
    BatchRoundTrip([m]);
    assert Stream([m]) == Wire(m);
    assert WireAll([m]) == [WireFields(m)];
  }

  /** What a receiver reads from a printed message, field by field: the sender's
      values as text, the exact length of the body and the exact checksum. */
  lemma ReceivedFields(m: FieldMap, t: Tag)
    requires Distinct(m) && HasRequired(m) && Printable(m)
    ensures |Received(Wire(m))| == 1
    ensures var r := Received(Wire(m))[0];
            && Distinct(r)
            && (t != Number(9) && t != Number(10) ==>
                  Has(r, t) == Has(m, t) && (Has(m, t) ==> Get(r, t) == Str(PrintValue(Get(m, t)))))
            && Get(r, Number(9)) == Str(Digits(|Render(BodyFields(m))|))
            && Get(r, Number(10)) == Str(Trailer(Render(HeadFields(m))))
  {
    var w := WireFields(m);
    ReceivedOne(m);
    WireMembers(m);
    AsTextDistinct(w);
    WireShape(m);
    AsTextGet(w, BODY_LENGTH);
    AsTextGet(w, CHECK_SUM);
    AsTextGet(w, t);
    WireLookup(m, t);
    GetAt(w, 1);
    GetAt(w, |w| - 1);
  }

  lemma AsTextGet(m: FieldMap, t: Tag)
    requires Distinct(m)
    ensures Has(AsText(m), t) == Has(m, t)
    ensures Has(m, t) ==> Get(AsText(m), t) == Str(PrintValue(Get(m, t)))
  {
    AsTextDistinct(m);
    var r := AsText(m);
    if Has(m, t) {
      var i :| 0 <= i < |m| && m[i].tag == t;
      assert r[i].tag == t;
      GetAt(m, i);
      GetAt(r, i);
    }
    if Has(r, t) {
      var i :| 0 <= i < |r| && r[i].tag == t;
      assert m[i].tag == t;
    }
  }

  // --------------------------------------------------------- printing again

  lemma {:induction false} RestAsText(m: FieldMap)
    ensures Rest(AsText(m)) == AsText(Rest(m))
  {
    if m != [] {
      RestAsText(m[1..]);
      assert AsText(m) == [AsText(m)[0]] + AsText(m[1..]);
      if IsRest(m[0].tag) {
        assert Rest(m) == [m[0]] + Rest(m[1..]);
        assert Rest(m)[1..] == Rest(m[1..]);
      }
    }
  }

  lemma {:induction false} RestAll(m: FieldMap)
    requires forall f :: f in m ==> IsRest(f.tag)
    ensures Rest(m) == m
  {
    if m != [] {
      RestAll(m[1..]);
    }
  }

  lemma {:induction false} RestNone(m: FieldMap)
    requires forall f :: f in m ==> !IsRest(f.tag)
    ensures Rest(m) == []
  {
    if m != [] {
      RestNone(m[1..]);
    }
  }

  /** The rest fields of a wire form are those of the message, in its order. */
  lemma RestOfWire(m: FieldMap)
    ensures Rest(WireFields(m)) == Rest(m)
  {
    var front, r := [Field(BEGIN_STRING, Get(m, BEGIN_STRING)), LengthField(m)], Rest(m);
    var fixed := Pick(m, [MSG_TYPE] + ORDERED);
    RestMembers(m);
    RestOfParts(front, fixed, r, SumField(m));
  }

  lemma RestOfParts(front: FieldMap, fixed: FieldMap, r: FieldMap, last: Field)
    requires (forall f :: f in front + fixed ==> !IsRest(f.tag)) && !IsRest(last.tag) && forall f :: f in r ==> IsRest(f.tag)
    ensures Rest(front + (fixed + r) + [last]) == r
  {
    RestConcat(front + (fixed + r), [last]);
    RestConcat(front, fixed + r);
    RestConcat(fixed, r);
    RestNone(front);
    RestNone(fixed);
    RestNone([last]);
    RestAll(r);
  }

  lemma {:induction false} PickRender(a: FieldMap, b: FieldMap, ts: seq<Tag>)
    requires forall t :: t in ts ==> PrintValue(Get(a, t)) == PrintValue(Get(b, t))
    ensures Render(Pick(a, ts)) == Render(Pick(b, ts))
  {
    if ts != [] {
      PickRender(a, b, ts[1..]);
      assert Pick(a, ts)[1..] == Pick(a, ts[1..]) && Pick(b, ts)[1..] == Pick(b, ts[1..]);
    }
  }

  lemma AsTextPrints(m: FieldMap, t: Tag)
    requires Distinct(m) && HasRequired(m) && Has(m, t) && t != BODY_LENGTH && t != CHECK_SUM
    ensures var r := AsText(WireFields(m)); Has(r, t) && PrintValue(Get(r, t)) == PrintValue(Get(m, t))
  {
    var w := WireFields(m);
    WireLookup(m, t);
    WireDistinct(m);
    AsTextGet(w, t);
  }

  /** RE-PRINT STABILITY. The message read back from a printed one prints
      byte-identically: order is kept, 9 and 10 are recomputed to the same. */
  lemma ReprintIsIdentical(m: FieldMap)
    requires Distinct(m) && HasRequired(m) && Printable(m)
    ensures |Received(Wire(m))| == 1 && HasRequired(Received(Wire(m))[0])
    ensures Wire(Received(Wire(m))[0]) == Wire(m)
  {
    var r := AsText(WireFields(m));
    ReceivedOne(m);
    forall t | t in REQUIRED ensures Has(r, t) && PrintValue(Get(r, t)) == PrintValue(Get(m, t)) {
      AsTextPrints(m, t);
    }
    RestAsText(WireFields(m));
    RestOfWire(m);
    RenderAsText(Rest(m));
    SamePrint(r, m);
  }

  lemma SamePrint(a: FieldMap, b: FieldMap)
    requires forall t :: t in REQUIRED ==> PrintValue(Get(a, t)) == PrintValue(Get(b, t))
    requires Render(Rest(a)) == Render(Rest(b))
    ensures Wire(a) == Wire(b)
  {
    var ts := [MSG_TYPE] + ORDERED;
    forall t | t in ts ensures PrintValue(Get(a, t)) == PrintValue(Get(b, t)) {
      assert t in REQUIRED;
    }
    PickRender(a, b, ts);
    RenderConcat(Pick(a, ts), Rest(a));
    RenderConcat(Pick(b, ts), Rest(b));
    assert BEGIN_STRING in REQUIRED;
    HeadText(a);
    HeadText(b);
    WireText(a);
    WireText(b);
  }

  /** `parse` and `processData` agree on a single printed message. */
  lemma ParseAgrees(m: FieldMap)
    requires Distinct(m) && HasRequired(m) && Printable(m)
    ensures Received(Wire(m)) == [Parsed(Wire(m))]
  {
    WireClean(m);
    ReceivedOne(m);
    ReadsBack(WireFields(m), Wire(m));
  }
}
