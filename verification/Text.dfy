/** String primitives the code takes from JavaScript: decimal printing, `padStart`,
    `indexOf`, `split` and sums of character codes. Characters are ASCII codes. */
module Text {

  /** The FIX field delimiter, character code 1. */
  const SOH: char := '\U{0001}'

  datatype Option<+T> = None | Some(value: T)

  // --------------------------------------------------------------- sequences

  lemma Assoc<T>(a: seq<T>, b: seq<T>, c: seq<T>)
    ensures (a + b) + c == a + (b + c)
  {
  }

  // ---------------------------------------------------------------- decimals

  predicate IsDigit(c: char) {
    '0' <= c <= '9'
  }

  predicate AllDigits(s: string) {
    forall i :: 0 <= i < |s| ==> IsDigit(s[i])
  }

  function Digit(d: nat): char
    requires d < 10
  {
    (48 + d) as char
  }

  /** Decimal form of a natural number, without leading zeros. */
  function Digits(n: nat): (s: string)
    ensures s != [] && AllDigits(s)
  {
    if n < 10 then [Digit(n)] else Digits(n / 10) + [Digit(n % 10)]
  }

  /** The number a digit string denotes. */
  function Val(s: string): nat
    requires AllDigits(s)
  {
    if s == [] then 0 else 10 * Val(s[..|s| - 1]) + (s[|s| - 1] as int - 48)
  }

  lemma {:induction false} ValDigits(n: nat)
    ensures Val(Digits(n)) == n
  {
    if n < 10 {
      assert Digits(n)[..0] == [];
    } else {
      ValDigits(n / 10);
      assert Digits(n)[..|Digits(n)| - 1] == Digits(n / 10);
    }
  }

  /** `String.prototype.padStart`. */
  function PadStart(s: string, width: nat, c: char): (r: string)
    ensures |r| == if |s| < width then width else |s|
    ensures r[|r| - |s|..] == s
    ensures forall i :: 0 <= i < |r| - |s| ==> r[i] == c
  {
    if |s| < width then seq(width - |s|, _ => c) + s else s
  }

  lemma {:induction false} ValPad(s: string, width: nat)
    requires AllDigits(s)
    ensures AllDigits(PadStart(s, width, '0'))
    ensures Val(PadStart(s, width, '0')) == Val(s)
    decreases width - |s|
  {
    if |s| < width {
      ValZero(s);
      ValPad(['0'] + s, width);
      assert PadStart(s, width, '0') == PadStart(['0'] + s, width, '0');
    }
  }

  lemma {:induction false} ValZero(s: string)
    requires AllDigits(s)
    ensures AllDigits(['0'] + s) && Val(['0'] + s) == Val(s)
  {
    var z := ['0'] + s;
    if s == [] {
      assert z[..0] == [];
    } else {
      ValZero(s[..|s| - 1]);
      assert z[..|z| - 1] == ['0'] + s[..|s| - 1];
    }
  }

  /** A zero-padded decimal of at least `width` characters. */
  function Padded(n: nat, width: nat): string {
    PadStart(Digits(n), width, '0')
  }

  /** The padded form is an exact decimal of the number, hence injective. */
  lemma PaddedIsExact(n: nat, width: nat)
    ensures AllDigits(Padded(n, width)) && Val(Padded(n, width)) == n
    ensures width <= |Padded(n, width)|
  {
    ValDigits(n);
    ValPad(Digits(n), width);
  }

  function Pow10(k: nat): nat {
    if k == 0 then 1 else 10 * Pow10(k - 1)
  }

  lemma {:induction false} DigitsWidth(n: nat, width: nat)
    requires 0 < width
    ensures |Digits(n)| <= width <==> n < Pow10(width)
  {
    if 10 <= n && 1 < width {
      DigitsWidth(n / 10, width - 1);
      assert n < Pow10(width) <==> n / 10 < Pow10(width - 1);
    } else if n < 10 {
      Pow10AtLeast(width);
    }
  }

  lemma {:induction false} Pow10AtLeast(width: nat)
    requires 0 < width
    ensures 10 <= Pow10(width)
  {
    if width > 1 {
      Pow10AtLeast(width - 1);
    }
  }

  /** s is the decimal form of n, without leading zeros. */
  ghost predicate IsDecimal(s: string, n: nat) {
    && s != "" && AllDigits(s) && Val(s) == n
    && forall k: nat :: 0 < k ==> (|s| <= k <==> n < Pow10(k))
  }

  lemma DigitsAreDecimal(n: nat)
    ensures IsDecimal(Digits(n), n)
  {
    ValDigits(n);
    forall k: nat | 0 < k ensures |Digits(n)| <= k <==> n < Pow10(k) {
      DigitsWidth(n, k);
    }
  }

  lemma {:induction false} SameDigits(a: string, b: string)
    requires AllDigits(a) && AllDigits(b) && |a| == |b| && Val(a) == Val(b)
    ensures a == b
  {
    if a != "" {
      SameDigits(a[..|a| - 1], b[..|b| - 1]);
      assert a == a[..|a| - 1] + [a[|a| - 1]] && b == b[..|b| - 1] + [b[|b| - 1]];
    }
  }

  /** There is only one such form. */
  lemma OneDecimal(a: string, b: string, n: nat)
    requires IsDecimal(a, n) && IsDecimal(b, n)
    ensures a == b
  {
    assert n < Pow10(|a|) && n < Pow10(|b|);
    SameDigits(a, b);
  }

  // ------------------------------------------------------- search and split

  predicate OccursAt(s: string, sub: string, i: int) {
    0 <= i && i + |sub| <= |s| && forall k :: 0 <= k < |sub| ==> s[i + k] == sub[k]
  }

  /** The first occurrence from position i on, or -1. */
  function FirstFrom(s: string, sub: string, i: nat): (k: int)
    ensures k == -1 || (i <= k && OccursAt(s, sub, k))
    ensures forall j :: i <= j && (k < 0 || j < k) ==> !OccursAt(s, sub, j)
    decreases |s| - i
  {
    if i + |sub| > |s| then -1
    else if OccursAt(s, sub, i) then i
    else if i == |s| then -1
    else FirstFrom(s, sub, i + 1)
  }

  /** `String.prototype.indexOf`: the first occurrence, or -1. */
  function IndexOf(s: string, sub: string): (k: int)
    ensures -1 <= k
    ensures k >= 0 ==> OccursAt(s, sub, k)
    ensures forall j :: 0 <= j && (k < 0 || j < k) ==> !OccursAt(s, sub, j)
  {
    FirstFrom(s, sub, 0)
  }

  /** `String.prototype.split` for a non-empty separator. */
  function Split(s: string, sep: string): (ps: seq<string>)
    requires sep != []
    ensures ps != []
    decreases |s|
  {
    var k := IndexOf(s, sep);
    if k < 0 then [s] else [s[..k]] + Split(s[k + |sep|..], sep)
  }

  /** No piece holds the separator. */
  lemma {:induction false} SplitFree(s: string, sep: string, p: string, j: int)
    requires sep != [] && p in Split(s, sep)
    ensures !OccursAt(p, sep, j)
    decreases |s|
  {
    var k := IndexOf(s, sep);
    if k >= 0 {
      if p == s[..k] {
        assert 0 <= j < k ==> !OccursAt(s, sep, j);
      } else {
        SplitFree(s[k + |sep|..], sep, p, j);
      }
    }
  }

  function Join(ps: seq<string>, sep: string): string {
    if ps == [] then "" else if |ps| == 1 then ps[0] else ps[0] + sep + Join(ps[1..], sep)
  }

  lemma JoinFirst(p: string, ps: seq<string>, sep: string)
    requires ps != []
    ensures Join([p] + ps, sep) == p + sep + Join(ps, sep)
  {
    assert ([p] + ps)[1..] == ps;
  }

  lemma CutInThree(s: string, i: nat, j: nat)
    requires i <= j <= |s|
    ensures s[..i] + s[i..j] + s[j..] == s
  {
  }

  /** Splitting loses nothing: joining the pieces rebuilds the text. */
  lemma {:induction false} JoinSplit(s: string, sep: string)
    requires sep != []
    ensures Join(Split(s, sep), sep) == s
    decreases |s|
  {
    var k := IndexOf(s, sep);
    if k >= 0 {
      var rest := s[k + |sep|..];
      JoinSplit(rest, sep);
      JoinFirst(s[..k], Split(rest, sep), sep);
      assert s[k..k + |sep|] == sep;
      CutInThree(s, k, k + |sep|);
    }
  }

  /** The first piece ends at the first separator. */
  lemma SplitAt(p: string, sep: string, rest: string)
    requires sep != []
    requires forall j :: 0 <= j < |p| ==> !OccursAt(p + sep + rest, sep, j)
    ensures Split(p + sep + rest, sep) == [p] + Split(rest, sep)
  {
    var s := p + sep + rest;
    assert s[|p|..|p| + |sep|] == sep;
    assert OccursAt(s, sep, |p|);
    assert s[..|p|] == p && s[|p| + |sep|..] == rest;
  }

  /** One character occurs where it stands. */
  lemma OccursChar(s: string, c: char, j: int)
    ensures OccursAt(s, [c], j) <==> 0 <= j < |s| && s[j] == c
  {
    assert OccursAt(s, [c], j) ==> s[j + 0] == [c][0];
  }

  lemma SplitAtChar(p: string, c: char, rest: string)
    requires c !in p
    ensures Split(p + [c] + rest, [c]) == [p] + Split(rest, [c])
  {
    forall j ensures OccursAt(p + [c] + rest, [c], j) <==> 0 <= j < |p + [c] + rest| && (p + [c] + rest)[j] == c {
      OccursChar(p + [c] + rest, c, j);
    }
    SplitAt(p, [c], rest);
  }

  lemma SplitNone(p: string, c: char)
    requires c !in p
    ensures Split(p, [c]) == [p]
  {
    forall j ensures OccursAt(p, [c], j) <==> 0 <= j < |p| && p[j] == c {
      OccursChar(p, c, j);
    }
  }

  lemma FirstChar(s: string, c: char, k: int)
    requires c in s && k == IndexOf(s, [c])
    ensures 0 <= k < |s| && s[k] == c && c !in s[..k]
  {
    var i :| 0 <= i < |s| && s[i] == c;
    OccursChar(s, c, i);
    OccursChar(s, c, k);
    forall j | 0 <= j < k ensures s[j] != c {
      OccursChar(s, c, j);
    }
  }

  /** Two texts with the separator between them are split one after the other. */
  lemma {:induction false} SplitBoth(a: string, c: char, b: string)
    ensures Split(a + [c] + b, [c]) == Split(a, [c]) + Split(b, [c])
    decreases |a|
  {
    if c !in a {
      SplitNone(a, c);
      SplitAtChar(a, c, b);
    } else {
      var k := IndexOf(a, [c]);
      FirstChar(a, c, k);
      var p, rest := a[..k], a[k + 1..];
      assert a == p + [c] + rest;
      SplitBoth(rest, c, b);
      SplitAtChar(p, c, rest);
      SplitAtChar(p, c, rest + [c] + b);
      SplitShift(p, [c], rest, b);
      Assoc([p], Split(rest, [c]), Split(b, [c]));
    }
  }

  lemma SplitShift(p: string, sep: string, rest: string, b: string)
    ensures (p + sep + rest) + sep + b == p + sep + (rest + sep + b)
  {
    Assoc(p + sep, rest, sep);
    Assoc(p + sep, rest + sep, b);
  }

  /** Pieces of a split at a single character do not hold that character. */
  lemma SplitClean(s: string, c: char)
    ensures forall p :: p in Split(s, [c]) ==> c !in p
  {
    forall p, j | p in Split(s, [c]) && 0 <= j < |p| ensures p[j] != c {
      SplitFree(s, [c], p, j);
      OccursChar(p, c, j);
    }
  }

  // --------------------------------------------------------- character sums

  /** Sum of the character codes. */
  function CodeSum(s: string): nat {
    if s == [] then 0 else CodeSum(s[..|s| - 1]) + s[|s| - 1] as int
  }

  lemma {:induction false} CodeSumConcat(a: string, b: string)
    ensures CodeSum(a + b) == CodeSum(a) + CodeSum(b)
  {
    if b == [] {
      assert a + b == a;
    } else {
      assert (a + b)[..|a + b| - 1] == a + b[..|b| - 1];
      CodeSumConcat(a, b[..|b| - 1]);
    }
  }

  /** Replacing one character moves the sum by the difference of the two codes. */
  lemma CodeSumUpdate(s: string, i: nat, c: char)
    requires i < |s|
    ensures CodeSum(s[i := c]) == CodeSum(s) - s[i] as int + c as int
  {
    var a, b := s[..i], s[i + 1..];
    assert s == a + [s[i]] + b && s[i := c] == a + [c] + b;
    CodeSumConcat(a + [s[i]], b);
    CodeSumConcat(a, [s[i]]);
    CodeSumConcat(a + [c], b);
    CodeSumConcat(a, [c]);
    assert [s[i]][..0] == [] && [c][..0] == [];
  }

  function Concat(ss: seq<string>): string {
    if ss == [] then "" else ss[0] + Concat(ss[1..])
  }

  lemma {:induction false} ConcatAppend(a: seq<string>, b: seq<string>)
    ensures Concat(a + b) == Concat(a) + Concat(b)
  {
    if a == [] {
      assert a + b == b;
    } else {
      assert (a + b)[1..] == a[1..] + b;
      ConcatAppend(a[1..], b);
      Assoc(a[0], Concat(a[1..]), Concat(b));
    }
  }

  /** `map` and `flat` in one: the results of f, one after the other. */
  function FlatMap<A, B>(f: A -> seq<B>, xs: seq<A>): seq<B> {
    if xs == [] then [] else f(xs[0]) + FlatMap(f, xs[1..])
  }

  lemma {:induction false} FlatMapAppend<A, B>(f: A -> seq<B>, xs: seq<A>, x: A)
    ensures FlatMap(f, xs + [x]) == FlatMap(f, xs) + f(x)
  {
    if xs == [] {
      assert (xs + [x])[1..] == [];
    } else {
      assert (xs + [x])[1..] == xs[1..] + [x];
      FlatMapAppend(f, xs[1..], x);
      Assoc(f(xs[0]), FlatMap(f, xs[1..]), f(x));
    }
  }
}
