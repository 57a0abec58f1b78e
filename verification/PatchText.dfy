/** The lines of a unified diff as utils/check-style.py reads and writes them. */
module PatchText {
  import opened Texts
  import opened Wrappers

  // ----- decimal numbers -----

  predicate IsDigit(c: char) {
    '0' <= c <= '9'
  }

  function Digit(d: nat): char
    requires d < 10
  {
    '0' + d as char
  }

  function DigitValue(c: char): nat
    requires IsDigit(c)
  {
    c as int - '0' as int
  }

  function Decimal(n: nat): (s: string)
    ensures s != "" && forall i :: 0 <= i < |s| ==> IsDigit(s[i])
  {
    if n < 10 then [Digit(n)] else Decimal(n / 10) + [Digit(n % 10)]
  }

  function ValueOf(s: string): nat
    requires forall i :: 0 <= i < |s| ==> IsDigit(s[i])
  {
    if s == "" then 0 else 10 * ValueOf(s[..|s| - 1]) + DigitValue(s[|s| - 1])
  }

  lemma {:induction false} ValueOfDecimal(n: nat)
    ensures ValueOf(Decimal(n)) == n
  {
    if n < 10 {
      assert Decimal(n)[..0] == "";
    } else {
      ValueOfDecimal(n / 10);
      assert Decimal(n)[..|Decimal(n)| - 1] == Decimal(n / 10);
    }
  }

  function TenTo(k: nat): (n: nat)
    ensures n > 0
  {
    if k == 0 then 1 else 10 * TenTo(k - 1)
  }

  lemma MultiplesGrow(a: nat, b: nat, m: nat)
    ensures a < b ==> (a + 1) * m <= b * m
  {
    if a < b {
      assert b * m == (a + 1) * m + (b - a - 1) * m;
    }
  }

  lemma Quotient(n: nat, q: nat, m: nat, r: nat)
    requires n == q * m + r && r < m
    ensures n / m == q
  {
    MultiplesGrow(n / m, q, m);
    MultiplesGrow(q, n / m, m);
  }

  lemma DivideTwice(n: nat, m: nat)
    requires m > 0
    ensures n / 10 / m == n / (10 * m)
  {
    var q, r := n / 10 / m, n / 10 % m;
    assert n / 10 == q * m + r;
    assert n == q * (10 * m) + (10 * r + n % 10);
    Quotient(n, q, 10 * m, 10 * r + n % 10);
  }

  /** The k-th digit from the right. */
  function DigitAt(n: nat, k: nat): (d: nat)
    ensures d < 10
  {
    n / TenTo(k) % 10
  }

  lemma DigitAtNext(n: nat, k: nat)
    ensures DigitAt(n, k + 1) == DigitAt(n / 10, k)
  {
    DivideTwice(n, TenTo(k));
  }

  /** The decimal digits, the highest first and none too many. */
  lemma {:induction false} DecimalIsDigits(n: nat)
    ensures n < TenTo(|Decimal(n)|) && (|Decimal(n)| > 1 ==> n >= TenTo(|Decimal(n)| - 1))
    ensures forall i :: 0 <= i < |Decimal(n)| ==> Decimal(n)[i] == "0123456789"[DigitAt(n, |Decimal(n)| - 1 - i)]
  {
    if n < 10 {
      assert TenTo(1) == 10 * TenTo(0);
    } else {
      hide DigitAt;
      DecimalIsDigits(n / 10);
      var k := |Decimal(n / 10)|;
      assert TenTo(k + 1) == 10 * TenTo(k) && TenTo(k) == 10 * TenTo(k - 1);
      forall i | 0 <= i < |Decimal(n)| ensures Decimal(n)[i] == "0123456789"[DigitAt(n, |Decimal(n)| - 1 - i)] {
        if i < k {
          DigitAtNext(n, k - 1 - i);
        } else {
          LastDigit(n);
        }
      }
    }
  }

  lemma LastDigit(n: nat)
    ensures DigitAt(n, 0) == n % 10
  {
  }

  function DigitsLength(s: string): (n: nat)
    ensures n <= |s| && (forall i :: 0 <= i < n ==> IsDigit(s[i])) && (n < |s| ==> !IsDigit(s[n]))
  {
    if s == "" || !IsDigit(s[0]) then 0 else 1 + DigitsLength(s[1..])
  }

  lemma {:induction false} DigitsLengthOf(digits: string, rest: string)
    requires forall i :: 0 <= i < |digits| ==> IsDigit(digits[i])
    requires rest == "" || !IsDigit(rest[0])
    ensures DigitsLength(digits + rest) == |digits|
  {
    if digits == "" {
      assert digits + rest == rest;
    } else {
      DigitsLengthOf(digits[1..], rest);
      assert (digits + rest)[1..] == digits[1..] + rest;
    }
  }

  // ----- matching a line -----

  predicate OneLine(s: string) {
    forall i :: 0 <= i < |s| ==> s[i] != '\n'
  }

  /** The group of a pattern that is a literal prefix and then the rest of the line. */
  function MatchPrefix(prefix: string, line: string): Option<string> {
    var s := DropFinalNewline(line);
    if prefix <= s && OneLine(s[|prefix|..]) then Some(s[|prefix|..]) else None
  }

  /** A number and the literal text after it; what remains, if both are there. */
  function MatchNumber(s: string, after: string): Option<(nat, string)> {
    var n := DigitsLength(s);
    if n > 0 && after <= s[n..] then Some((ValueOf(s[..n]), s[n + |after|..])) else None
  }

  /** The two positions of a chunk header; its two lengths are matched and dropped. */
  function MatchChunkStart(line: string): Option<(nat, nat)> {
    var open := "@@ -";
    if !(open <= line) then None else
      match MatchNumber(line[|open|..], ",")
      case None => None
      case Some((srcPos, s1)) =>
        match MatchNumber(s1, " +")
        case None => None
        case Some((_, s2)) =>
          match MatchNumber(s2, ",")
          case None => None
          case Some((dstPos, s3)) =>
            match MatchNumber(s3, " @@")
            case None => None
            case Some(_) => Some((srcPos, dstPos))
  }

  lemma NumberMatches(n: nat, after: string, rest: string)
    requires after != "" && !IsDigit(after[0])
    ensures MatchNumber(Decimal(n) + after + rest, after) == Some((n, rest))
  {
    var s := Decimal(n) + after + rest;
    assert s == Decimal(n) + (after + rest);
    DigitsLengthOf(Decimal(n), after + rest);
    ValueOfDecimal(n);
    assert s[..|Decimal(n)|] == Decimal(n);
    assert s[|Decimal(n)|..] == after + rest;
    assert s[|Decimal(n)| + |after|..] == rest;
  }

  function ChunkStart(srcPos: nat, srcLen: nat, dstPos: nat, dstLen: nat): string {
    "@@ -" + (Decimal(srcPos) + "," + (Decimal(srcLen) + " +" +
    (Decimal(dstPos) + "," + (Decimal(dstLen) + " @@" + "\n"))))
  }

  lemma ChunkStartMatches(srcPos: nat, srcLen: nat, dstPos: nat, dstLen: nat)
    ensures MatchChunkStart(ChunkStart(srcPos, srcLen, dstPos, dstLen)) == Some((srcPos, dstPos))
    ensures ChunkStart(srcPos, srcLen, dstPos, dstLen) != "" && ChunkStart(srcPos, srcLen, dstPos, dstLen)[0] == '@'
  {
    hide Decimal, MatchNumber;
    var t3 := Decimal(dstLen) + " @@" + "\n";
    var t2 := Decimal(dstPos) + "," + t3;
    var t1 := Decimal(srcLen) + " +" + t2;
    var t0 := Decimal(srcPos) + "," + t1;
    var line := ChunkStart(srcPos, srcLen, dstPos, dstLen);
    assert line[4..] == t0;
    NumberMatches(srcPos, ",", t1);
    NumberMatches(srcLen, " +", t2);
    NumberMatches(dstPos, ",", t3);
    NumberMatches(dstLen, " @@", "\n");
  }

  lemma PrefixMatches(prefix: string, text: string)
    requires OneLine(text)
    ensures MatchPrefix(prefix, prefix + text + "\n") == Some(text)
  {
    var line := prefix + text + "\n";
    assert DropFinalNewline(line) == prefix + text;
  }

  lemma OtherPrefix(prefix: string, line: string)
    requires prefix != "" && line != "" && line[0] != prefix[0] && prefix[0] != '\n'
    ensures MatchPrefix(prefix, line) == None
  {
    var s := DropFinalNewline(line);
    assert s != "" ==> s[0] == line[0];
  }
}
