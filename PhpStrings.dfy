/**
 * The few PHP string built-ins that the helper relies on, over byte strings
 * (each `char` stands for one byte, so `strlen(s)` is `|s|`).
 */
module PhpStrings {

  /** The characters PHP's `trim` strips by default: " \t\n\r\0\x0B". */
  predicate IsTrimChar(c: char) {
    c == ' ' || c == '\t' || c == '\n' || c == '\r' || c == '\0' || c == '\U{000B}'
  }

  /** `ltrim` with the default character list. */
  function TrimLeft(s: string): (r: string)
    ensures |r| <= |s| && r == s[|s| - |r|..]
    ensures forall k :: 0 <= k < |s| - |r| ==> IsTrimChar(s[k])
    ensures r == [] || !IsTrimChar(r[0])
  {
    if s != [] && IsTrimChar(s[0]) then
      var r := TrimLeft(s[1..]);
      assert s[|s| - |r|..] == s[1..][|s| - 1 - |r|..];
      assert forall k :: 1 <= k < |s| ==> s[k] == s[1..][k - 1];
      r
    else s
  }

  /** `rtrim` with the default character list. */
  function TrimRight(s: string): (r: string)
    ensures |r| <= |s| && r == s[..|r|]
    ensures forall k :: |r| <= k < |s| ==> IsTrimChar(s[k])
    ensures r == [] || !IsTrimChar(r[|r| - 1])
  {
    if s != [] && IsTrimChar(s[|s| - 1]) then TrimRight(s[..|s| - 1]) else s
  }

  /** `r` is the slice of `s` starting at `i`, and everything of `s` before
      and after that slice is a trim character. */
  predicate TrimmedAt(s: string, r: string, i: int) {
    0 <= i <= |s| - |r| && r == s[i..][..|r|]
    && (forall k :: 0 <= k < i ==> IsTrimChar(s[k]))
    && (forall k :: i + |r| <= k < |s| ==> IsTrimChar(s[k]))
  }

  /** `trim`: what is left is a slice of `s` that neither starts nor ends
      with a trim character, and what is cut off at either end consists of
      trim characters only; a string without such padding is kept as it is. */
  function Trim(s: string): (r: string)
    ensures r == [] || (!IsTrimChar(r[0]) && !IsTrimChar(r[|r| - 1]))
    ensures exists i :: TrimmedAt(s, r, i)
    ensures s == [] || (!IsTrimChar(s[0]) && !IsTrimChar(s[|s| - 1])) ==> r == s
  {
    TrimBothEnds(s);
    TrimRight(TrimLeft(s))
  }

  /** Right-trimming the left-trimmed string cuts off trim characters only. */
  lemma TrimBothEnds(s: string)
    ensures TrimmedAt(s, TrimRight(TrimLeft(s)), |s| - |TrimLeft(s)|)
  {
    var l := TrimLeft(s);
    var r := TrimRight(l);
    var i := |s| - |l|;
    assert l == s[i..];
    forall k | i + |r| <= k < |s|
      ensures IsTrimChar(s[k])
    {
      assert s[k] == l[k - i];
    }
  }

  /** Sum of the lengths of a list of strings. */
  function TotalLength(xs: seq<string>): nat {
    if xs == [] then 0 else TotalLength(xs[..|xs| - 1]) + |xs[|xs| - 1]|
  }

  /** The concatenation of a list of strings, in order. */
  function Concat(xs: seq<string>): (r: string)
    ensures |r| == TotalLength(xs)
  {
    if xs == [] then [] else Concat(xs[..|xs| - 1]) + xs[|xs| - 1]
  }

  /** `implode(sep, xs)`: the elements in order with `sep` between
      neighbours; `ImplodeContents` and `ImplodeLength` say what comes out. */
  function Implode(sep: string, xs: seq<string>): (r: string)
    ensures xs == [] ==> r == []
    ensures |xs| == 1 ==> r == xs[0]
  {
    if xs == [] then []
    else if |xs| == 1 then xs[0]
    else Implode(sep, xs[..|xs| - 1]) + sep + xs[|xs| - 1]
  }

  /** The joined string is as long as all elements plus one separator
      between each pair of neighbours. */
  lemma {:induction false} ImplodeLength(sep: string, xs: seq<string>)
    requires xs != []
    ensures |Implode(sep, xs)| == TotalLength(xs) + (|xs| - 1) * |sep|
    decreases |xs|
  {
    if |xs| > 1 {
      var init := xs[..|xs| - 1];
      ImplodeLength(sep, init);
      assert (|xs| - 1) * |sep| == (|init| - 1) * |sep| + |sep|;
    }
  }

  /** Joining two non-empty lists is joining each and putting `sep` between. */
  lemma {:induction false} ImplodeSplit(sep: string, xs: seq<string>, ys: seq<string>)
    requires xs != [] && ys != []
    ensures Implode(sep, xs + ys) == Implode(sep, xs) + sep + Implode(sep, ys)
    decreases |ys|
  {
    var n := |ys| - 1;
    assert (xs + ys)[..|xs + ys| - 1] == xs + ys[..n];
    if n == 0 {
      assert xs + ys[..n] == xs;
    } else {
      ImplodeSplit(sep, xs, ys[..n]);
    }
  }

  /** Each element prefixed by the separator. */
  function Prefixed(sep: string, xs: seq<string>): (r: seq<string>)
    ensures |r| == |xs|
    ensures forall k :: 0 <= k < |xs| ==> r[k] == sep + xs[k]
  {
    seq(|xs|, k requires 0 <= k < |xs| => sep + xs[k])
  }

  lemma PrefixedSnoc(sep: string, xs: seq<string>, x: string)
    ensures Concat(Prefixed(sep, xs + [x])) == Concat(Prefixed(sep, xs)) + (sep + x)
  {
    var p, q := Prefixed(sep, xs), Prefixed(sep, xs + [x]);
    assert q[..|q| - 1] == p;
  }

  /** The contents of `implode(sep, xs)`: the first element, then every
      further element preceded by `sep`. */
  lemma {:induction false} ImplodeContents(sep: string, xs: seq<string>)
    requires xs != []
    ensures Implode(sep, xs) == xs[0] + Concat(Prefixed(sep, xs[1..]))
    decreases |xs|
  {
    if |xs| == 1 {
      assert Prefixed(sep, xs[1..]) == [];
    } else {
      var n := |xs| - 1;
      var init := xs[..n];
      ImplodeContents(sep, init);
      assert xs[1..] == init[1..] + [xs[n]];
      PrefixedSnoc(sep, init[1..], xs[n]);
      calc {
        Implode(sep, xs);
        Implode(sep, init) + sep + xs[n];
        (init[0] + Concat(Prefixed(sep, init[1..]))) + sep + xs[n];
        xs[0] + (Concat(Prefixed(sep, init[1..])) + (sep + xs[n]));
      }
    }
  }

  lemma {:induction false} ConcatAppend(xs: seq<string>, ys: seq<string>)
    ensures Concat(xs + ys) == Concat(xs) + Concat(ys)
    decreases |ys|
  {
    if ys == [] {
      assert xs + ys == xs;
    } else {
      var ys' := ys[..|ys| - 1];
      assert (xs + ys)[..|xs + ys| - 1] == xs + ys';
      ConcatAppend(xs, ys');
    }
  }

  /** The decimal digit for `d`. */
  function DigitChar(d: nat): (c: char)
    requires d < 10
    ensures '0' <= c <= '9'
  {
    "0123456789"[d]
  }

  predicate IsDigit(c: char) {
    '0' <= c <= '9'
  }

  /** The value of a string of decimal digits. */
  function DecimalValue(s: string): nat
    requires forall k :: 0 <= k < |s| ==> IsDigit(s[k])
  {
    if s == [] then 0
    else
      assert IsDigit(s[|s| - 1]);
      DecimalValue(s[..|s| - 1]) * 10 + (s[|s| - 1] as int - '0' as int)
  }

  /** PHP's conversion of a non-negative integer to a string, as done by
      string interpolation: decimal digits without leading zeros. */
  function NatToString(n: nat): (r: string)
    ensures r != []
    ensures forall k :: 0 <= k < |r| ==> IsDigit(r[k])
    ensures |r| > 1 ==> r[0] != '0'
  {
    if n < 10 then [DigitChar(n)] else NatToString(n / 10) + [DigitChar(n % 10)]
  }

  lemma DigitCharValue(d: nat)
    requires d < 10
    ensures DigitChar(d) as int - '0' as int == d
  {
  }

  /** Reading the digits back gives the number: the conversion loses nothing. */
  lemma {:induction false} NatToStringRoundTrip(n: nat)
    ensures DecimalValue(NatToString(n)) == n
  {
    DigitCharValue(n % 10);
    if n >= 10 {
      var s := NatToString(n / 10);
      var r := NatToString(n);
      assert r[..|r| - 1] == s;
      NatToStringRoundTrip(n / 10);
    }
  }

  /** Different numbers are written differently. */
  lemma NatToStringInjective(m: nat, n: nat)
    requires NatToString(m) == NatToString(n)
    ensures m == n
  {
    NatToStringRoundTrip(m);
    NatToStringRoundTrip(n);
  }
}
