/** Which lines the patterns of utils/check-style.py match, written out. */
module PatchLines {
  import opened Texts
  import opened Wrappers
  import opened PatchText

  // ----- a prefix and the rest of the line -----

  /** A pattern of a literal prefix and the rest of the line matches exactly the prefix followed by a text
      without a newline and perhaps a final newline, and yields the text. */
  lemma PrefixMatchIff(prefix: string, line: string, text: string)
    requires OneLine(prefix)
    ensures MatchPrefix(prefix, line) == Some(text) <==>
            OneLine(text) && (line == prefix + text || line == prefix + text + "\n")
  {
    if MatchPrefix(prefix, line) == Some(text) {
      var s := DropFinalNewline(line);
      assert s == prefix + s[|prefix|..];
      assert line == s || line == s + "\n";
    }
    if OneLine(text) && line == prefix + text + "\n" {
      PrefixMatches(prefix, text);
    }
    if OneLine(text) && line == prefix + text {
      assert line != "" ==> line[|line| - 1] != '\n';
      assert line[|prefix|..] == text;
    }
  }

  // ----- a chunk header -----

  ghost predicate IsNumber(digits: string) {
    digits != "" && forall i :: 0 <= i < |digits| ==> digits[i] in "0123456789"
  }

  lemma DigitsAreDigits(c: char)
    ensures c in "0123456789" <==> IsDigit(c)
  {
  }

  lemma NumberIsDigits(digits: string)
    ensures IsNumber(digits) <==> digits != "" && forall i :: 0 <= i < |digits| ==> IsDigit(digits[i])
  {
    hide IsDigit;
    forall i | 0 <= i < |digits| ensures digits[i] in "0123456789" <==> IsDigit(digits[i]) {
      DigitsAreDigits(digits[i]);
    }
  }

  lemma NumberIsMatched(digits: string, after: string, rest: string)
    requires (forall i :: 0 <= i < |digits| ==> IsDigit(digits[i])) && digits != ""
    requires after != "" && !IsDigit(after[0])
    ensures MatchNumber(digits + (after + rest), after) == Some((ValueOf(digits), rest))
  {
    hide IsDigit, ValueOf, DigitsLength;
    var s := digits + (after + rest);
    DigitsLengthOf(digits, after + rest);
    Parts(digits, after, rest);
    assert s[..|digits|] == digits;
  }

  lemma Parts(digits: string, after: string, rest: string)
    ensures var s := digits + (after + rest);
      && s[..|digits|] == digits && after <= s[|digits|..] && |digits| + |after| <= |s|
      && s[|digits| + |after|..] == rest
  {
    assert (digits + (after + rest))[|digits|..] == after + rest;
  }

  lemma MatchedIsNumber(s: string, after: string) returns (digits: string)
    requires MatchNumber(s, after).Some?
    ensures (forall i :: 0 <= i < |digits| ==> IsDigit(digits[i])) && digits != ""
    ensures s == digits + (after + MatchNumber(s, after).value.1) && ValueOf(digits) == MatchNumber(s, after).value.0
  {
    digits := s[..DigitsLength(s)];
    var tail := s[DigitsLength(s)..];
    assert s == digits + tail;
    assert tail == after + tail[|after|..];
    assert tail[|after|..] == s[DigitsLength(s) + |after|..];
  }

  /** The header of a chunk: four numbers in their frame and anything behind it. */
  ghost predicate IsHeader(line: string, srcPos: string, srcLen: string, dstPos: string, dstLen: string, rest: string) {
    && IsNumber(srcPos) && IsNumber(srcLen) && IsNumber(dstPos) && IsNumber(dstLen)
    && line == "@@ -" + (srcPos + ("," + (srcLen + (" +" + (dstPos + ("," + (dstLen + (" @@" + rest))))))))
  }

  lemma HeaderIsMatched(line: string, srcPos: string, srcLen: string, dstPos: string, dstLen: string, rest: string)
    requires IsHeader(line, srcPos, srcLen, dstPos, dstLen, rest)
    ensures IsNumber(srcPos) && IsNumber(dstPos) && MatchChunkStart(line).Some?
    ensures forall i :: 0 <= i < |srcPos| ==> IsDigit(srcPos[i])
    ensures forall i :: 0 <= i < |dstPos| ==> IsDigit(dstPos[i])
    ensures MatchChunkStart(line) == Some((ValueOf(srcPos), ValueOf(dstPos)))
  {
    hide MatchNumber, IsNumber;
    var t3 := dstLen + (" @@" + rest);
    var t2 := dstPos + ("," + t3);
    var t1 := srcLen + (" +" + t2);
    var t0 := srcPos + ("," + t1);
    NumberIsDigits(srcPos);
    NumberIsDigits(srcLen);
    NumberIsDigits(dstPos);
    NumberIsDigits(dstLen);
    assert line == "@@ -" + t0;
    assert line[4..] == t0;
    NumberIsMatched(srcPos, ",", t1);
    NumberIsMatched(srcLen, " +", t2);
    NumberIsMatched(dstPos, ",", t3);
    NumberIsMatched(dstLen, " @@", rest);
  }

  /** A line is taken as the header of a chunk exactly if it is one, with the values of its two positions. */
  lemma HeaderMatchIff(line: string)
    ensures MatchChunkStart(line).Some? <==>
            exists srcPos, srcLen, dstPos, dstLen, rest :: IsHeader(line, srcPos, srcLen, dstPos, dstLen, rest)
    ensures forall srcPos, srcLen, dstPos, dstLen, rest :: IsHeader(line, srcPos, srcLen, dstPos, dstLen, rest) ==>
              && (forall i :: 0 <= i < |srcPos| ==> IsDigit(srcPos[i]))
              && (forall i :: 0 <= i < |dstPos| ==> IsDigit(dstPos[i]))
              && MatchChunkStart(line) == Some((ValueOf(srcPos), ValueOf(dstPos)))
  {
    hide MatchChunkStart, IsHeader, ValueOf;
    if MatchChunkStart(line).Some? {
      var srcPos, srcLen, dstPos, dstLen, rest := MatchedIsHeader(line);
    }
    forall srcPos, srcLen, dstPos, dstLen, rest | IsHeader(line, srcPos, srcLen, dstPos, dstLen, rest)
      ensures forall i :: 0 <= i < |srcPos| ==> IsDigit(srcPos[i])
      ensures forall i :: 0 <= i < |dstPos| ==> IsDigit(dstPos[i])
      ensures MatchChunkStart(line) == Some((ValueOf(srcPos), ValueOf(dstPos)))
    {
      HeaderIsMatched(line, srcPos, srcLen, dstPos, dstLen, rest);
    }
  }

  lemma MatchedIsHeader(line: string)
    returns (srcPos: string, srcLen: string, dstPos: string, dstLen: string, rest: string)
    requires MatchChunkStart(line).Some?
    ensures IsHeader(line, srcPos, srcLen, dstPos, dstLen, rest)
  {
    hide MatchNumber, IsNumber, ValueOf;
    var s0 := line[4..];
    assert line == "@@ -" + s0;
    var s1 := MatchNumber(s0, ",").value.1;
    var s2 := MatchNumber(s1, " +").value.1;
    var s3 := MatchNumber(s2, ",").value.1;
    rest := MatchNumber(s3, " @@").value.1;
    srcPos := MatchedIsNumber(s0, ",");
    srcLen := MatchedIsNumber(s1, " +");
    dstPos := MatchedIsNumber(s2, ",");
    dstLen := MatchedIsNumber(s3, " @@");
    NumberIsDigits(srcPos);
    NumberIsDigits(srcLen);
    NumberIsDigits(dstPos);
    NumberIsDigits(dstLen);
  }

  /** The value of a number, digit by digit: leading zeros do not count. */
  lemma {:induction false} ValueByDigits(digits: string)
    requires (forall i :: 0 <= i < |digits| ==> IsDigit(digits[i])) && digits != ""
    ensures ValueOf(digits) == TenTo(|digits| - 1) * DigitValue(digits[0]) + ValueOf(digits[1..])
    ensures "0123456789"[DigitValue(digits[0])] == digits[0]
    decreases |digits|
  {
    var last := |digits| - 1;
    if last == 0 {
      assert digits[..0] == "" && digits[1..] == "";
    } else {
      ValueByDigits(digits[..last]);
      assert digits[1..][..last - 1] == digits[..last][1..];
      assert digits[1..][|digits[1..]| - 1] == digits[last];
      TenTimes(TenTo(last - 1), DigitValue(digits[0]));
    }
  }

  lemma TenTimes(x: nat, y: nat)
    ensures 10 * (x * y) == (10 * x) * y
  {
  }
}
