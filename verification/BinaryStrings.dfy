/** Binary strings (bindings/python/rad_util.py, int2bin, bin2int and binary_range). */
module BinaryStrings {
  import opened Wrappers

  type Bit = c: char | c == '0' || c == '1' witness '0'

  datatype Error = ValueError | KeyError | IndexError

  // ----- Python's slices -----

  /** The position a slice bound stands for: counted from the end when negative, and clipped. */
  function Bound(n: nat, k: int): nat {
    if k >= n then n else if k >= 0 then k else if n + k >= 0 then n + k else 0
  }

  function UpTo<T>(s: seq<T>, k: int): seq<T> {
    s[..Bound(|s|, k)]
  }

  function From<T>(s: seq<T>, k: int): seq<T> {
    s[Bound(|s|, k)..]
  }

  function Zeros(n: int): seq<Bit> {
    seq(if n > 0 then n else 0, _ => '0')
  }

  // ----- int2bin and bin2int -----

  function HexDigits(i: nat): seq<nat> {
    if i < 16 then [i] else HexDigits(i / 16) + [i % 16]
  }

  /** The hex2bin table. */
  function Nibble(d: nat): seq<Bit> {
    match d
    case 0 => "0000"
    case 1 => "0001"
    case 2 => "0010"
    case 3 => "0011"
    case 4 => "0100"
    case 5 => "0101"
    case 6 => "0110"
    case 7 => "0111"
    case 8 => "1000"
    case 9 => "1001"
    case 10 => "1010"
    case 11 => "1011"
    case 12 => "1100"
    case 13 => "1101"
    case 14 => "1110"
    case _ => "1111"
  }

  function Expand(digits: seq<nat>): seq<Bit> {
    if digits == [] then [] else Expand(digits[..|digits| - 1]) + Nibble(digits[|digits| - 1])
  }

  /** hex of a negative number starts with a sign, so that an 'x' is looked up in the table. */
  function Int2Bin(i: int, n: int): Result<seq<Bit>, Error> {
    if i < 0 then Failure(KeyError) else
      var full := Expand(HexDigits(i));
      if '1' in UpTo(full, -n) then Failure(ValueError) else
        var kept := From(full, -n);
        Success(Zeros(n - |kept|) + kept)
  }

  function BitValue(b: Bit): nat {
    if b == '1' then 1 else 0
  }

  function Value(s: seq<Bit>): nat {
    if s == [] then 0 else 2 * Value(s[..|s| - 1]) + BitValue(s[|s| - 1])
  }

  /** int(s, 2) on strings of binary digits; the empty string is refused. */
  function Bin2Int(s: seq<Bit>): Result<nat, Error> {
    if s == [] then Failure(ValueError) else Success(Value(s))
  }

  /** x doubled n times. */
  ghost function Shift(x: nat, n: nat): nat {
    if n == 0 then x else 2 * Shift(x, n - 1)
  }

  ghost function Pow2(n: nat): nat {
    Shift(1, n)
  }

  // ----- values -----

  lemma {:induction false} ValueOfConcat(s: seq<Bit>, t: seq<Bit>)
    ensures Value(s + t) == Shift(Value(s), |t|) + Value(t)
    decreases |t|
  {
    if t == [] {
      assert s + t == s;
    } else {
      var last := |t| - 1;
      ValueOfConcat(s, t[..last]);
      assert (s + t)[..|s| + last] == s + t[..last];
    }
  }

  lemma {:induction false} ValueIsSmall(s: seq<Bit>)
    ensures Value(s) < Pow2(|s|)
    ensures Value(s) == 0 <==> '1' !in s
    decreases |s|
  {
    if s == [] {
    } else {
      ValueIsSmall(s[..|s| - 1]);
      assert s == s[..|s| - 1] + [s[|s| - 1]];
    }
  }

  /** Equal widths and equal values make equal strings. */
  lemma {:induction false} ValueIsInjective(s: seq<Bit>, t: seq<Bit>)
    requires |s| == |t| && Value(s) == Value(t)
    ensures s == t
    decreases |s|
  {
    if s == [] {
    } else {
      var last := |s| - 1;
      ValueIsInjective(s[..last], t[..last]);
      assert s == s[..last] + [s[last]] && t == t[..last] + [t[last]];
    }
  }

  lemma NibbleValue(d: nat)
    requires d < 16
    ensures Value(Nibble(d)) == d && |Nibble(d)| == 4
  {
    var s := Nibble(d);
    assert s[..3][..2] == s[..2] && s[..2][..1] == s[..1] && s[..1][..0] == [];
    assert Value(s[..1]) == BitValue(s[0]);
    assert Value(s[..2]) == 2 * BitValue(s[0]) + BitValue(s[1]);
    assert Value(s[..3]) == 4 * BitValue(s[0]) + 2 * BitValue(s[1]) + BitValue(s[2]);
  }

  lemma FourShifts(x: nat)
    ensures Shift(x, 4) == 16 * x
  {
    assert Shift(x, 4) == 2 * Shift(x, 3);
    assert Shift(x, 2) == 2 * Shift(x, 1) == 4 * x;
  }

  lemma {:induction false} ExpandedValue(i: nat)
    ensures Value(Expand(HexDigits(i))) == i && Expand(HexDigits(i)) != []
    decreases i
  {
    var digits := HexDigits(i);
    var last := |digits| - 1;
    NibbleValue(i % 16);
    ValueOfConcat(Expand(digits[..last]), Nibble(i % 16));
    assert Shift(Value(Expand(digits[..last])), 4) == 16 * Value(Expand(digits[..last])) by {
      FourShifts(Value(Expand(digits[..last])));
    }
    if i < 16 {
      assert digits[..last] == [];
    } else {
      ExpandedValue(i / 16);
      assert digits[..last] == HexDigits(i / 16);
    }
  }

  lemma ZerosKeepValue(n: int, s: seq<Bit>)
    ensures Value(Zeros(n) + s) == Value(s)
  {
    ValueOfConcat(Zeros(n), s);
    ValueIsSmall(Zeros(n));
    ShiftGrows(0, 0, |s|);
  }

  /** Whatever the width, a string that int2bin returns stands for its argument. */
  lemma TruncationKeepsValue(i: int, n: int)
    requires Int2Bin(i, n).Success?
    ensures Value(Int2Bin(i, n).value) == i
  {
    var full := Expand(HexDigits(i));
    var cut := UpTo(full, -n);
    assert full == cut + From(full, -n);
    ExpandedValue(i);
    ValueOfConcat(cut, From(full, -n));
    ValueIsSmall(cut);
    ShiftGrows(0, Value(cut), |From(full, -n)|);
    ZerosKeepValue(n - |From(full, -n)|, From(full, -n));
  }

  /** For a positive width the conversion fails exactly when the value does not fit, and bin2int
      undoes it otherwise. */
  lemma RoundTrip(i: nat, n: int)
    requires n >= 1
    ensures Int2Bin(i, n).Success? <==> i < Pow2(n)
    ensures i < Pow2(n) ==> |Int2Bin(i, n).value| == n && Bin2Int(Int2Bin(i, n).value) == Success(i)
    ensures i >= Pow2(n) ==> Int2Bin(i, n) == Failure(ValueError)
  {
    hide Value, Expand, HexDigits, Shift;
    CutOffOnes(i, n);
    if Int2Bin(i, n).Success? {
      TruncationKeepsValue(i, n);
    }
  }

  /** Something is cut off exactly when the value is too large. */
  lemma CutOffOnes(i: nat, n: int)
    requires n >= 1
    ensures '1' in UpTo(Expand(HexDigits(i)), -n) <==> i >= Pow2(n)
    ensures |From(Expand(HexDigits(i)), -n)| <= n
  {
    hide Value, Expand, HexDigits, Shift;
    var full := Expand(HexDigits(i));
    var cut := UpTo(full, -n);
    var kept := From(full, -n);
    assert full == cut + kept;
    ExpandedValue(i);
    ValueOfConcat(cut, kept);
    ValueIsSmall(cut);
    ValueIsSmall(kept);
    if |full| > n {
      assert |kept| == n;
      ShiftGrows(if Value(cut) > 0 then 1 else 0, Value(cut), n);
    } else {
      assert cut == [];
      WiderHoldsMore(|kept|, n);
      ShiftGrows(0, 0, |kept|);
    }
  }

  lemma {:induction false} ShiftGrows(x: nat, y: nat, n: nat)
    requires x <= y
    ensures Shift(x, n) <= Shift(y, n)
    ensures y == 0 ==> Shift(y, n) == 0
    decreases n
  {
    if n == 0 {
    } else {
      ShiftGrows(x, y, n - 1);
    }
  }

  lemma {:induction false} WiderHoldsMore(m: nat, n: nat)
    requires m <= n
    ensures Pow2(m) <= Pow2(n)
    decreases n
  {
    if m < n {
      WiderHoldsMore(m, n - 1);
    }
  }

  /** And int2bin undoes bin2int at the string's own width. */
  lemma BackRoundTrip(s: seq<Bit>)
    requires s != []
    ensures Int2Bin(Bin2Int(s).value, |s|) == Success(s)
  {
    ValueIsSmall(s);
    RoundTrip(Value(s), |s|);
    ValueIsInjective(s, Int2Bin(Value(s), |s|).value);
  }

  /** Width zero is no width at all: nothing is cut off and nothing refused. */
  lemma WidthZeroNeverFails(i: nat)
    ensures Int2Bin(i, 0) == Success(Expand(HexDigits(i)))
    ensures Bin2Int(Int2Bin(i, 0).value) == Success(i)
  {
    var full := Expand(HexDigits(i));
    ExpandedValue(i);
    assert Zeros(0 - |full|) + full == full;
  }

  // ----- binary_range -----

  function Reversed(v: seq<Bit>): seq<Bit> {
    if v == [] then [] else Reversed(v[1..]) + [v[0]]
  }

  /** v, least significant digit first, plus one; and whether the carry runs out at the end. */
  function Increment(v: seq<Bit>): (seq<Bit>, bool) {
    if v == [] then ([], true)
    else if v[0] == '0' then (['1'] + v[1..], false)
    else (['0'] + Increment(v[1..]).0, Increment(v[1..]).1)
  }

  lemma {:induction false} IncrementAddsOne(v: seq<Bit>)
    ensures |Increment(v).0| == |v| == |Reversed(v)|
    ensures Value(Reversed(Increment(v).0)) + (if Increment(v).1 then Pow2(|v|) else 0) == Value(Reversed(v)) + 1
    decreases |v|
  {
    if v == [] {
    } else {
      IncrementAddsOne(v[1..]);
      var r := Reversed(v);
      assert r[..|r| - 1] == Reversed(v[1..]);
      var w := Increment(v).0;
      var t := Reversed(w);
      assert w[1..] == if v[0] == '0' then v[1..] else Increment(v[1..]).0;
      assert t[..|t| - 1] == Reversed(w[1..]);
    }
  }

  /** After i places of the ripple the carry is still on, or the sum is complete. */
  ghost predicate Rippled(was: seq<Bit>, now: seq<Bit>, i: nat, carry: bool) {
    && i <= |was| == |now|
    && if carry
       then now[i..] == was[i..] && Increment(was) == (now[..i] + Increment(was[i..]).0, Increment(was[i..]).1)
       else Increment(was) == (now, false)
  }

  lemma RippleStart(was: seq<Bit>)
    ensures Rippled(was, was, 0, true)
  {
    assert was[0..] == was && was[..0] + Increment(was).0 == Increment(was).0;
  }

  lemma RippleStep(was: seq<Bit>, now: seq<Bit>, i: nat)
    requires i < |was| && Rippled(was, now, i, true)
    ensures now[i] == '0' ==> Rippled(was, now[i := '1'], i + 1, false)
    ensures now[i] == '1' ==> Rippled(was, now[i := '0'], i + 1, true)
  {
    assert was[i..][1..] == was[i + 1..] && now[i] == now[i..][0];
    if now[i] == '0' {
      assert now[i := '1'] == now[..i] + (['1'] + was[i + 1..]);
    } else {
      assert now[i := '0'][..i + 1] == now[..i] + ['0'];
      assert now[..i] + (['0'] + Increment(was[i + 1..]).0) == now[i := '0'][..i + 1] + Increment(was[i + 1..]).0;
    }
  }

  lemma RippleEnd(was: seq<Bit>, now: seq<Bit>, i: nat, carry: bool)
    requires Rippled(was, now, i, carry) && (i < |was| ==> !carry)
    ensures Increment(was) == (now, carry)
  {
    if carry {
      assert was[i..] == [] && now[..i] + [] == now;
    }
  }

  method RippleCarry(v: array<Bit>, toggle: array<int>)
    requires v != toggle as object && toggle.Length == v.Length + 1
    requires toggle[0] == 1 && forall j :: 1 <= j < toggle.Length ==> toggle[j] == 0
    modifies v, toggle
    ensures v[..] == Increment(old(v[..])).0
    ensures toggle[v.Length] == 1 <==> Increment(old(v[..])).1
  {
    hide *;
    ghost var was: seq<Bit>, now: seq<Bit>, carry := v[..], v[..], true;
    RippleStart(was);
    var i := 0;
    while i < v.Length && toggle[i] == 1
      invariant 0 <= i <= v.Length
      invariant forall j :: i < j < toggle.Length ==> toggle[j] == 0
      invariant toggle[i] == if carry then 1 else 0
      invariant now == v[..] && Rippled(was, now, i, carry)
    {
      RippleStep(was, now, i);
      if v[i] == '0' {
        v[i] := '1';
        toggle[i + 1] := 0;
        now, carry := now[i := '1'], false;
      } else {
        v[i] := '0';
        toggle[i + 1] := 1;
        now := now[i := '0'];
      }
      i := i + 1;
    }
    RippleEnd(was, now, i, carry);
  }

  /** The strings for 0 to |l| - 1 are listed; v holds the next one, unless the marker says all are. */
  ghost predicate Listed(width: nat, l: seq<seq<Bit>>, v: seq<Bit>, done: bool) {
    && |v| == width
    && (forall k :: 0 <= k < |l| ==> Int2Bin(k, width) == Success(l[k]))
    && (if done then |l| == Pow2(width) else |l| == Value(Reversed(v)) < Pow2(width))
  }

  lemma ListNext(width: nat, l: seq<seq<Bit>>, v: seq<Bit>)
    requires width > 0 && Listed(width, l, v, false)
    ensures Listed(width, l + [Reversed(v)], Increment(v).0, Increment(v).1)
    ensures |l| < Pow2(width)
  {
    hide Int2Bin;
    IncrementAddsOne(v);
    BackRoundTrip(Reversed(v));
    ValueIsSmall(Reversed(v));
    IncrementAddsOne(Increment(v).0);
    ValueIsSmall(Reversed(Increment(v).0));
  }

  /** All binary strings of the given width in order. A width of zero or minus one gives nothing, a
      smaller one fails when the end marker is looked up. */
  method BinaryRange(bits: int) returns (r: Result<seq<seq<Bit>>, Error>)
    ensures bits >= 1 ==> r.Success? && |r.value| == Pow2(bits)
    ensures bits >= 1 ==> forall k :: 0 <= k < |r.value| ==> Int2Bin(k, bits) == Success(r.value[k])
    ensures -1 <= bits <= 0 ==> r == Success([])
    ensures bits < -1 ==> r == Failure(IndexError)
  {
    hide Listed, Int2Bin, Value, Pow2, Increment;
    if bits < -1 {
      return Failure(IndexError);
    }
    var width: nat := if bits > 0 then bits else 0;
    var l: seq<seq<Bit>> := [];
    var v := new Bit[width](_ => '0');
    var toggle := new int[width + 1](j => if j == 0 then 1 else 0);
    FirstListed(v[..]);
    while toggle[width] != 1
      invariant fresh(v) && fresh(toggle) && v.Length == width && toggle.Length == width + 1
      invariant width == 0 ==> l == [] && toggle[0] == 1
      invariant width > 0 ==> Listed(width, l, v[..], toggle[width] == 1)
      decreases Pow2(width) - |l|
    {
      ListNext(width, l, v[..]);
      l := l + [Reversed(v[..])];
      toggle := new int[width + 1](j => if j == 0 then 1 else 0);
      RippleCarry(v, toggle);
    }
    if width > 0 {
      AllListed(width, l, v[..]);
    }
    return Success(l);
  }

  lemma AllListed(width: nat, l: seq<seq<Bit>>, v: seq<Bit>)
    requires Listed(width, l, v, true)
    ensures |l| == Pow2(width) && forall k :: 0 <= k < |l| ==> Int2Bin(k, width) == Success(l[k])
  {
  }

  lemma {:induction false} SomeFit(width: nat)
    ensures Pow2(width) > 0
  {
    if width == 0 {
    } else {
      SomeFit(width - 1);
    }
  }

  lemma FirstListed(v: seq<Bit>)
    requires forall i :: 0 <= i < |v| ==> v[i] == '0'
    ensures Listed(|v|, [], v, false)
  {
    ZeroStart(v);
    SomeFit(|v|);
  }

  lemma {:induction false} ZeroStart(v: seq<Bit>)
    requires forall i :: 0 <= i < |v| ==> v[i] == '0'
    ensures Value(Reversed(v)) == 0
    decreases |v|
  {
    if v == [] {
    } else {
      ZeroStart(v[1..]);
      var r := Reversed(v);
      assert r[..|r| - 1] == Reversed(v[1..]);
    }
  }
}
