/** `FIXMessageParser` of src/protocol/parser: a parser that buffers text across
    chunks, cuts a frame at every SOH and validates each frame on its own. */
module StreamParser {
  import opened Text
  import opened Fields
  import opened Messages
  import opened Parser
  import opened Checksum

  // ------------------------------------------------------- specification

  /** The first SOH at or after position i, or the length of the text. */
  function SohFrom(s: string, i: nat): (k: nat)
    requires i <= |s|
    ensures i <= k <= |s| && (k < |s| ==> s[k] == SOH)
    decreases |s| - i
  {
    if i == |s| || s[i] == SOH then i else SohFrom(s, i + 1)
  }

  /** The frames cut from a buffer. */
  function Frames(s: string): seq<string>
    decreases |s|
  {
    var k := SohFrom(s, 0);
    if k == |s| then [] else [s[..k + 1]] + Frames(s[k + 1..])
  }

  /** What stays in the buffer. */
  function Leftover(s: string): string
    decreases |s|
  {
    var k := SohFrom(s, 0);
    if k == |s| then s else Leftover(s[k + 1..])
  }

  lemma {:induction false} NoSohBefore(s: string, i: nat)
    requires i <= |s|
    ensures SOH !in s[i..SohFrom(s, i)]
    decreases |s| - i
  {
    if i < |s| && s[i] != SOH {
      NoSohBefore(s, i + 1);
      assert s[i..SohFrom(s, i)] == [s[i]] + s[i + 1..SohFrom(s, i)];
    }
  }

  /** `indexOf` finds it. */
  lemma IndexOfSoh(s: string)
    ensures IndexOf(s, [SOH]) == if SohFrom(s, 0) == |s| then -1 else SohFrom(s, 0)
  {
    var k := SohFrom(s, 0);
    NoSohBefore(s, 0);
    forall j | 0 <= j < k ensures !OccursAt(s, [SOH], j) {
      OccursChar(s, SOH, j);
      assert s[j] == s[0..k][j];
    }
    OccursChar(s, SOH, k);
    var n := IndexOf(s, [SOH]);
    OccursChar(s, SOH, n);
  }

  /** The digits of a match of `9=(\d+)\x01` at position i. */
  function MatchAt(s: string, i: nat): Option<string> {
    if !OccursAt(s, "9=", i) then None
    else
      var d := DigitPrefix(s[i + 2..]);
      if d != "" && i + 2 + |d| < |s| && s[i + 2 + |d|] == SOH then Some(d) else None
  }

  /** The leftmost match from position i on. */
  function FirstMatch(s: string, i: nat): Option<string>
    decreases |s| - i
  {
    if i >= |s| then None else if MatchAt(s, i).Some? then MatchAt(s, i) else FirstMatch(s, i + 1)
  }

  function LastIndexOf(s: string, c: char): int {
    if s == "" then -1 else if s[|s| - 1] == c then |s| - 1 else LastIndexOf(s[..|s| - 1], c)
  }

  predicate ValidFormat(raw: string) {
    && |raw| >= 5 && raw[..5] == "8=FIX"
    && match FirstMatch(raw, 0)
       case None => false
       case Some(d) => AllDigits(d) && Val(d) == LastIndexOf(raw, SOH) - (IndexOf(raw, "9=") + 2)
  }

  /** `parse`: the message, or nothing where the code throws. */
  function ParseStrict(raw: string): Option<FieldMap> {
    if ValidFormat(raw) && Holds(Parsed(raw)) then Some(Parsed(raw)) else None
  }

  function AcceptedOne(frame: string): seq<FieldMap> {
    match ParseStrict(frame)
    case Some(m) => [m]
    case None => []
  }

  function AcceptedOf(frames: seq<string>): seq<FieldMap> {
    FlatMap(AcceptedOne, frames)
  }

  // ------------------------------------------------------------ the class

  /** Adds the frame's message, unless `parse` throws. */
  method ParseInto(rawMessage: string, messages: seq<FieldMap>) returns (r: seq<FieldMap>)
    ensures r == messages + AcceptedOne(rawMessage)
  {
    match ParseStrict(rawMessage) {
      case Some(m) => r := messages + [m];
      case None => r := messages;
    }
  }

  class BufferedParser {
    var buffer: string
    /** Every text handed to `parse` so far. */
    ghost var handed: seq<string>

    constructor ()
      ensures buffer == "" && handed == []
    {
      buffer := "";
      handed := [];
    }

    method ProcessData(data: string) returns (messages: seq<FieldMap>)
      modifies this
      ensures buffer == Leftover(old(buffer) + data)
      ensures handed == old(handed) + Frames(old(buffer) + data)
      ensures messages == AcceptedOf(Frames(old(buffer) + data))
    {
      buffer := buffer + data;
      messages := DrainBuffer();
    }

    /** The loop over the complete frames. */
    method DrainBuffer() returns (messages: seq<FieldMap>)
      modifies this
      ensures buffer == Leftover(old(buffer))
      ensures handed == old(handed) + Frames(old(buffer))
      ensures messages == AcceptedOf(Frames(old(buffer)))
    {
      messages := [];
      ghost var cut: seq<string> := [];
      var endIndex := FindSoh();
      while endIndex != -1
        invariant endIndex == if SohFrom(buffer, 0) == |buffer| then -1 else SohFrom(buffer, 0)
        invariant CutSoFar(old(buffer), cut, buffer, messages)
        invariant handed == old(handed) + cut
        decreases |buffer|
      {
        FramesNext(old(buffer), cut, buffer, messages);
        var rawMessage := CutFrame(endIndex);
        cut := cut + [rawMessage];
        messages := ParseInto(rawMessage, messages);
        endIndex := FindSoh();
      }
      FramesEnd(old(buffer), cut, buffer, messages);
    }

    method FindSoh() returns (endIndex: int)
      ensures endIndex == if SohFrom(buffer, 0) == |buffer| then -1 else SohFrom(buffer, 0)
    {
      IndexOfSoh(buffer);
      endIndex := IndexOf(buffer, [SOH]);
    }

    /** Takes the text up to endIndex out of the buffer. */
    method CutFrame(endIndex: nat) returns (rawMessage: string)
      requires endIndex < |buffer|
      modifies this
      ensures rawMessage == old(buffer)[..endIndex + 1] && buffer == old(buffer)[endIndex + 1..]
      ensures |buffer| < |old(buffer)| && handed == old(handed) + [rawMessage]
    {
      rawMessage := buffer[..endIndex + 1];
      buffer := buffer[endIndex + 1..];
      handed := handed + [rawMessage];
    }
  }

  /** The frames cut so far, the text still buffered, and the messages accepted. */
  ghost predicate CutSoFar(all: string, cut: seq<string>, buffer: string, messages: seq<FieldMap>) {
    Frames(all) == cut + Frames(buffer) && Leftover(all) == Leftover(buffer) && messages == AcceptedOf(cut)
  }

  lemma FramesNext(all: string, cut: seq<string>, buffer: string, messages: seq<FieldMap>)
    requires CutSoFar(all, cut, buffer, messages) && SohFrom(buffer, 0) < |buffer|
    ensures var k := SohFrom(buffer, 0);
            CutSoFar(all, cut + [buffer[..k + 1]], buffer[k + 1..], messages + AcceptedOne(buffer[..k + 1]))
  {
    var f, rest := buffer[..SohFrom(buffer, 0) + 1], buffer[SohFrom(buffer, 0) + 1..];
    assert Frames(buffer) == [f] + Frames(rest);
    Assoc(cut, [f], Frames(rest));
    FlatMapAppend(AcceptedOne, cut, f);
  }

  lemma FramesEnd(all: string, cut: seq<string>, buffer: string, messages: seq<FieldMap>)
    requires CutSoFar(all, cut, buffer, messages) && SohFrom(buffer, 0) == |buffer|
    ensures Frames(all) == cut && Leftover(all) == buffer && messages == AcceptedOf(Frames(all))
  {
  }

  // ----------------------------------------------------------- framing

  /** A frame: one SOH, at the end. */
  predicate IsFrame(s: string) {
    s != "" && s[|s| - 1] == SOH && SOH !in s[..|s| - 1]
  }

  lemma {:induction false} SohFromIs(s: string, i: nat, k: nat)
    requires i <= k <= |s| && (k < |s| ==> s[k] == SOH) && forall j :: i <= j < k ==> s[j] != SOH
    ensures SohFrom(s, i) == k
    decreases k - i
  {
    if i < k {
      SohFromIs(s, i + 1, k);
    }
  }

  lemma FirstSoh(p: string, rest: string)
    requires IsFrame(p)
    ensures SohFrom(p + rest, 0) == |p| - 1
  {
    forall j | 0 <= j < |p| - 1 ensures (p + rest)[j] != SOH {
      assert (p + rest)[j] == p[..|p| - 1][j];
    }
    SohFromIs(p + rest, 0, |p| - 1);
  }

  lemma NoSoh(s: string)
    ensures SohFrom(s, 0) == |s| <==> SOH !in s
  {
    NoSohBefore(s, 0);
    assert s[0..|s|] == s;
  }

  lemma CutIsFrame(s: string)
    requires SohFrom(s, 0) < |s|
    ensures IsFrame(s[..SohFrom(s, 0) + 1])
  {
    var k := SohFrom(s, 0);
    NoSohBefore(s, 0);
    assert s[..k + 1][..k] == s[0..k];
  }

  lemma Prepend(f: string, fs: seq<string>, l: string)
    ensures Concat([f] + fs) + l == f + (Concat(fs) + l)
  {
    assert ([f] + fs)[1..] == fs;
  }

  /** Frames and leftover concatenate back to the input; every frame has its one
      SOH at the end and the leftover has none. */
  lemma {:induction false} FramesCover(s: string)
    ensures Concat(Frames(s)) + Leftover(s) == s
    ensures forall f :: f in Frames(s) ==> IsFrame(f)
    ensures SOH !in Leftover(s)
    decreases |s|
  {
    NoSoh(s);
    if SohFrom(s, 0) < |s| {
      var f, rest := s[..SohFrom(s, 0) + 1], s[SohFrom(s, 0) + 1..];
      FramesStep(s, f, rest);
      CutAt(s, SohFrom(s, 0));
      CutIsFrame(s);
      FramesCover(rest);
      Prepend(f, Frames(rest), Leftover(rest));
    }
  }

  lemma FramesStep(s: string, f: string, rest: string)
    requires SohFrom(s, 0) < |s| && f == s[..SohFrom(s, 0) + 1] && rest == s[SohFrom(s, 0) + 1..]
    ensures Frames(s) == [f] + Frames(rest) && Leftover(s) == Leftover(rest)
  {
  }

  lemma CutAt(s: string, k: nat)
    requires k < |s|
    ensures s[..k + 1] + s[k + 1..] == s && |s[k + 1..]| < |s|
  {
  }

  /** That decomposition is the only one. */
  lemma {:induction false} FramesUnique(fs: seq<string>, rest: string)
    requires forall f :: f in fs ==> IsFrame(f)
    requires SOH !in rest
    ensures Frames(Concat(fs) + rest) == fs && Leftover(Concat(fs) + rest) == rest
  {
    if fs == [] {
      NoSoh(rest);
      assert Concat(fs) + rest == rest;
    } else {
      var tail := Concat(fs[1..]) + rest;
      assert Concat(fs) + rest == fs[0] + tail;
      FirstSoh(fs[0], tail);
      FramesUnique(fs[1..], rest);
    }
  }

  lemma Regroup(a: string, b: string, f: string, l: string, g: string, r: string)
    requires f + l == a && g + r == l + b
    ensures a + b == (f + g) + r
  {
    assert a + b == f + (l + b);
    assert f + (g + r) == (f + g) + r;
  }

  /** Text that arrives later only extends what the buffer still holds. */
  lemma FramesExtend(a: string, b: string)
    ensures Frames(a + b) == Frames(a) + Frames(Leftover(a) + b)
    ensures Leftover(a + b) == Leftover(Leftover(a) + b)
  {
    FramesCover(a);
    FramesCover(Leftover(a) + b);
    var fs, gs, r := Frames(a), Frames(Leftover(a) + b), Leftover(Leftover(a) + b);
    ConcatAppend(fs, gs);
    assert a + b == Concat(fs + gs) + r by {
      Regroup(a, b, Concat(fs), Leftover(a), Concat(gs), r);
    }
    FramesUnique(fs + gs, r);
  }

  /** Frames and leftover after feeding the chunks one by one. */
  function FeedAll(buffer: string, chunks: seq<string>): (seq<string>, string)
    decreases |chunks|
  {
    if chunks == [] then ([], buffer)
    else
      var (fs, rest) := FeedAll(Leftover(buffer + chunks[0]), chunks[1..]);
      (Frames(buffer + chunks[0]) + fs, rest)
  }

  /** CHUNK INDEPENDENCE. However a stream is cut into chunks, the frames handed
      to `parse` and the final buffer are those of the uncut stream. */
  lemma {:induction false} ChunkIndependence(buffer: string, chunks: seq<string>)
    requires SOH !in buffer
    ensures FeedAll(buffer, chunks) == (Frames(buffer + Concat(chunks)), Leftover(buffer + Concat(chunks)))
    decreases |chunks|
  {
    if chunks == [] {
      NoSoh(buffer);
      assert buffer + Concat(chunks) == buffer;
    } else {
      var a := buffer + chunks[0];
      FramesCover(a);
      ChunkIndependence(Leftover(a), chunks[1..]);
      FramesExtend(a, Concat(chunks[1..]));
      assert buffer + Concat(chunks) == a + Concat(chunks[1..]);
    }
  }

  // ------------------------------------------------- what `parse` accepts

  /** No single frame is ever accepted: it holds one field, tag 8, so the
      checksum it would be compared with is missing. */
  lemma FrameRejected(f: string)
    requires IsFrame(f)
    ensures ParseStrict(f) == None
  {
    if |f| >= 5 && f[..5] == "8=FIX" {
      var p := f[..|f| - 1];
      assert f[0] == f[..5][0] == '8' && f[1] == f[..5][1] == '=';
      assert f == p + [SOH] + "";
      SplitAtChar(p, SOH, "");
      SplitNone("", SOH);
      assert p == "8" + ['='] + p[2..];
      SplitAtChar("8", '=', p[2..]);
      OneField(p);
      assert Split(f, [SOH]) == [p, ""];
      FoldTwo(p);
    }
  }

  lemma OneField(p: string)
    requires p != "" && Split(p, "=") != [] && Split(p, "=")[0] == "8"
    ensures |RawStep([], p)| == 1 && RawStep([], p)[0].tag == BEGIN_STRING
  {
    ParsePrintedTag(BEGIN_STRING);
    TagNames();
  }

  lemma FoldTwo(p: string)
    requires |RawStep([], p)| == 1 && RawStep([], p)[0].tag == BEGIN_STRING
    ensures !Holds(FoldRaw([p, ""], []))
  {
    var m := RawStep([], p);
    assert [p, ""][1..] == [""] && [""][1..] == [];
    assert FoldRaw([p, ""], []) == FoldRaw([""], m) == FoldRaw([], m) == m;
    assert Get(m, CHECK_SUM) == Undefined;
  }

  /** Hence this parser's `processData` returns no message, whatever the stream
      and however it is cut into chunks. */
  lemma {:induction false} NeverYieldsAMessage(frames: seq<string>)
    requires forall f :: f in frames ==> IsFrame(f)
    ensures AcceptedOf(frames) == []
  {
    if frames != [] {
      FrameRejected(frames[0]);
      NeverYieldsAMessage(frames[1..]);
    }
  }

  lemma StreamNeverYields(buffer: string, chunks: seq<string>)
    requires SOH !in buffer
    ensures AcceptedOf(FeedAll(buffer, chunks).0) == []
  {
    ChunkIndependence(buffer, chunks);
    FramesCover(buffer + Concat(chunks));
    NeverYieldsAMessage(Frames(buffer + Concat(chunks)));
  }

  // ------------------------------------------ printed messages through `parse`

  /** The text before the printed length field. */
  function Head(v: string): string {
    "8=" + v + [SOH]
  }

  /** What follows: the length field, the body and the trailer. */
  function Tail(d: string, rest: string): string {
    "9=" + (d + ([SOH] + rest))
  }

  lemma NineEquals(w: string, j: int)
    ensures OccursAt(w, "9=", j) <==> 0 <= j && j + 2 <= |w| && w[j] == '9' && w[j + 1] == '='
  {
    assert OccursAt(w, "9=", j) ==> w[j + 0] == "9="[0] && w[j + 1] == "9="[1];
  }

  lemma {:induction false} DigitPrefixStops(s: string, rest: string)
    requires s != "" && !IsDigit(s[|s| - 1])
    ensures DigitPrefix(s + rest) == DigitPrefix(s) && |DigitPrefix(s)| < |s|
  {
    if IsDigit(s[0]) {
      assert (s + rest)[1..] == s[1..] + rest;
      DigitPrefixStops(s[1..], rest);
    }
  }

  /** The first part of a text decides about the matches that begin in it. */
  lemma MatchInHead(h: string, t: string, i: nat)
    requires h != "" && h[|h| - 1] == SOH && i < |h|
    ensures OccursAt(h + t, "9=", i) <==> OccursAt(h, "9=", i)
    ensures MatchAt(h + t, i) == MatchAt(h, i)
  {
    NineEquals(h + t, i);
    NineEquals(h, i);
    if OccursAt(h, "9=", i) {
      var s := h[i + 2..];
      assert s[|s| - 1] == SOH;
      assert (h + t)[i + 2..] == s + t;
      DigitPrefixStops(s, t);
      var k := |DigitPrefix(s)|;
      assert (h + t)[i + 2 + k] == h[i + 2 + k];
    }
  }

  lemma {:induction false} FirstMatchSplits(h: string, t: string, i: nat)
    requires h != "" && h[|h| - 1] == SOH && i <= |h|
    ensures FirstMatch(h + t, i) == if FirstMatch(h, i).Some? then FirstMatch(h, i) else FirstMatch(h + t, |h|)
    decreases |h| - i
  {
    if i < |h| {
      MatchInHead(h, t, i);
      FirstMatchSplits(h, t, i + 1);
    }
  }

  lemma {:induction false} FirstMatchLaws(s: string, i: nat)
    ensures FirstMatch(s, i).Some? ==> AllDigits(FirstMatch(s, i).value)
    ensures FirstMatch(s, i).Some? ==> exists k :: i <= k < |s| && OccursAt(s, "9=", k)
    decreases |s| - i
  {
    if i < |s| {
      if MatchAt(s, i).Some? {
        assert OccursAt(s, "9=", i);
      } else {
        FirstMatchLaws(s, i + 1);
      }
    }
  }

  lemma DigitsBeforeSoh(d: string, rest: string)
    requires AllDigits(d)
    ensures DigitPrefix(d + ([SOH] + rest)) == d
  {
    Assoc(d, [SOH], rest);
    DigitPrefixStops(d + [SOH], rest);
    PrefixIsAll(d);
  }

  lemma {:induction false} PrefixIsAll(d: string)
    requires AllDigits(d)
    ensures DigitPrefix(d + [SOH]) == d
  {
    if d != "" {
      assert (d + [SOH])[1..] == d[1..] + [SOH];
      PrefixIsAll(d[1..]);
    }
  }

  lemma MatchAtTail(h: string, d: string, rest: string)
    requires AllDigits(d) && d != ""
    ensures OccursAt(h + Tail(d, rest), "9=", |h|)
    ensures FirstMatch(h + Tail(d, rest), |h|) == Some(d)
  {
    var w, u := h + Tail(d, rest), d + ([SOH] + rest);
    NineEquals(w, |h|);
    assert w[|h|] == '9' && w[|h| + 1] == '=';
    assert w[|h| + 2..] == u;
    DigitsBeforeSoh(d, rest);
    assert w[|h| + 2 + |d|] == u[|d|] == SOH;
  }

  /** v carries a length field of its own, and that field says the length which
      `calculateBodyLength` finds in a text of n characters. */
  predicate FakesLength(v: string, n: nat) {
    && |v| >= 3 && v[..3] == "FIX"
    && match FirstMatch(Head(v), 0)
       case None => false
       case Some(e) => AllDigits(e) && Val(e) == n - 3 - IndexOf(Head(v), "9=")
  }

  lemma StartsWithFix(v: string, t: string)
    ensures var w := Head(v) + t; |w| >= 5 && w[..5] == "8=FIX" <==> |v| >= 3 && v[..3] == "FIX"
  {
    var w := Head(v) + t;
    assert w[0] == '8' && w[1] == '=' && w[|v| + 2] == SOH;
    assert |v| >= 3 ==> w[..5] == "8=" + v[..3];
    assert "8=FIX"[2] == 'F' && "8=FIX"[3] == 'I' && "8=FIX"[4] == 'X';
    assert |v| == 0 && |w| >= 5 ==> w[..5][2] == SOH;
    assert |v| == 1 && |w| >= 5 ==> w[..5][3] == SOH;
    assert |v| == 2 && |w| >= 5 ==> w[..5][4] == SOH;
  }

  lemma SameFirst(h: string, t: string)
    requires h != "" && h[|h| - 1] == SOH && IndexOf(h, "9=") >= 0
    ensures IndexOf(h + t, "9=") == IndexOf(h, "9=")
  {
    forall i | 0 <= i < |h| ensures OccursAt(h + t, "9=", i) <==> OccursAt(h, "9=", i) {
      MatchInHead(h, t, i);
    }
  }

  lemma LastSoh(h: string, t: string)
    requires t != "" && t[|t| - 1] == SOH
    ensures LastIndexOf(h + t, SOH) == |h| + |t| - 1
  {
    assert (h + t)[|h + t| - 1] == SOH;
  }

  /** The lengths agree only through a length field inside v. */
  lemma FormatIff(v: string, d: string, rest: string)
    requires AllDigits(d) && d != "" && rest != "" && rest[|rest| - 1] == SOH && Val(d) <= |rest|
    ensures var w := Head(v) + Tail(d, rest); ValidFormat(w) <==> FakesLength(v, |w|)
  {
    var h, t := Head(v), Tail(d, rest);
    StartsWithFix(v, t);
    FirstMatchSplits(h, t, 0);
    FirstMatchLaws(h, 0);
    MatchAtTail(h, d, rest);
    LastSoh(h, t);
    if FirstMatch(h, 0).Some? {
      SameFirst(h, t);
    }
  }

  lemma WireParts(m: FieldMap) returns (d: string, rest: string)
    ensures Wire(m) == Head(PrintValue(Get(m, BEGIN_STRING))) + Tail(d, rest)
    ensures AllDigits(d) && d != "" && rest != "" && rest[|rest| - 1] == SOH && Val(d) <= |rest|
  {
    var body, sum := LengthAndSumAreExact(m);
    d, rest := Digits(|body|), body + ("10=" + sum + [SOH]);
    HeadAndTail(PrintValue(Get(m, BEGIN_STRING)), d, body, "10=" + sum + [SOH]);
  }

  lemma HeadAndTail(v: string, d: string, body: string, end: string)
    ensures "8=" + v + [SOH] + "9=" + d + [SOH] + body + end == Head(v) + Tail(d, body + end)
  {
    Regroup6(Head(v), "9=", d, [SOH], body, end);
  }

  lemma Regroup6(h: string, n: string, d: string, soh: string, body: string, end: string)
    ensures h + n + d + soh + body + end == h + (n + (d + (soh + (body + end))))
  {
    Assoc(h + n + d + soh, body, end);
    Assoc(h + n + d, soh, body + end);
    Assoc(h + n, d, soh + (body + end));
    Assoc(h, n, d + (soh + (body + end)));
  }

  /** `parse` accepts a printed message if and only if its BeginString starts with
      `FIX` and carries a length field that says the length `parse` will count, and
      the checksum of the fields as `parse` reads them is right. */
  lemma PrintedAcceptedIff(m: FieldMap)
    ensures ParseStrict(Wire(m)).Some? <==>
            FakesLength(PrintValue(Get(m, BEGIN_STRING)), |Wire(m)|) && Holds(Parsed(Wire(m)))
  {
    var d, rest := WireParts(m);
    FormatIff(PrintValue(Get(m, BEGIN_STRING)), d, rest);
  }

  /** Hence it rejects every printed message whose BeginString holds no `=`. */
  lemma PrintedRejected(m: FieldMap)
    requires '=' !in PrintValue(Get(m, BEGIN_STRING))
    ensures ParseStrict(Wire(m)) == None
  {
    PrintedAcceptedIff(m);
    NoFake(PrintValue(Get(m, BEGIN_STRING)));
  }

  lemma NoFake(v: string)
    requires '=' !in v
    ensures FirstMatch(Head(v), 0) == None
  {
    FirstMatchLaws(Head(v), 0);
    forall k | 0 <= k < |Head(v)| ensures !OccursAt(Head(v), "9=", k) {
      NineEquals(Head(v), k);
      assert 2 <= k + 1 < |v| + 2 ==> Head(v)[k + 1] == v[k - 1];
    }
  }
}
