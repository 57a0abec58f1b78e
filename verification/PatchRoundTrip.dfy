/** Parsing a written patch set gives it back exactly when no removed or added line reads as a file
    header; and whatever was parsed can be written and parsed again unchanged. */
module PatchRoundTrip {
  import opened Texts
  import opened Wrappers
  import opened PatchText
  import opened PatchSpec

  // ----- reading back -----

  /** A last patch p with chunks cs and then the current chunk c. */
  ghost function Within(before: seq<PatchValue>, p: PatchValue, cs: seq<ChunkValue>, c: ChunkValue): (st: State)
    ensures Valid(st) && st.current.Some?
  {
    State(before + [p.(chunks := cs + [c])], Some((|before|, |cs|)))
  }

  lemma FeedContent(before: seq<PatchValue>, p: PatchValue, cs: seq<ChunkValue>, c: ChunkValue, l: ChunkLine)
    requires OneLine(l.text) && !Ambiguous(l)
    ensures Feed(Within(before, p, cs, c), WriteLine(l)) == Success(Within(before, p, cs, c.(lines := c.lines + [l])))
  {
    hide Classify, Ambiguous, WriteLine;
    ClassifyContent(l);
    var st := Within(before, p, cs, c);
    var d := c.(lines := c.lines + [l]);
    assert st.patches[|before|] == p.(chunks := cs + [c]) && (cs + [c])[|cs|] == c;
    assert (cs + [c])[|cs| := d] == cs + [d];
    assert st.patches[|before| := p.(chunks := cs + [d])] == before + [p.(chunks := cs + [d])];
  }

  lemma {:induction false} FeedLines(before: seq<PatchValue>, p: PatchValue, cs: seq<ChunkValue>, c: ChunkValue,
                                     lines: seq<ChunkLine>)
    requires LinesLineWise(lines) && NoAmbiguous(lines)
    ensures FeedAll(Within(before, p, cs, c), WriteLines(lines)) ==
            Success(Within(before, p, cs, c.(lines := c.lines + lines)))
    decreases |lines|
  {
    hide FeedAll, Feed, WriteLine, Within, Ambiguous;
    var st := Within(before, p, cs, c);
    if lines == [] {
      assert c.lines + lines == c.lines;
      FeedNone(st);
    } else {
      var n := |lines| - 1;
      var mid := c.(lines := c.lines + lines[..n]);
      FeedLines(before, p, cs, c, lines[..n]);
      FeedContent(before, p, cs, mid, lines[n]);
      FeedOne(Within(before, p, cs, mid), WriteLine(lines[n]));
      FeedAllConcat(st, WriteLines(lines[..n]), [WriteLine(lines[n])]);
      assert mid.lines + [lines[n]] == c.lines + lines;
    }
  }

  lemma FeedNone(st: State)
    requires Valid(st)
    ensures FeedAll(st, []) == Success(st)
  {
  }

  lemma ClassifyHeaders(name: string, srcPos: nat, srcLen: nat, dstPos: nat, dstLen: nat)
    requires OneLine(name)
    ensures Classify("--- " + name + "\n") == SrcFile(name)
    ensures Classify("+++ " + name + "\n") == DstFile(name)
    ensures Classify(ChunkStart(srcPos, srcLen, dstPos, dstLen)) == Start(srcPos, dstPos)
  {
    hide ChunkStart, MatchPrefix, MatchChunkStart;
    PrefixMatches("--- ", name);
    PrefixMatches("+++ ", name);
    OtherPrefix("--- ", "+++ " + name + "\n");
    ChunkStartMatches(srcPos, srcLen, dstPos, dstLen);
    OtherPrefix("--- ", ChunkStart(srcPos, srcLen, dstPos, dstLen));
    OtherPrefix("+++ ", ChunkStart(srcPos, srcLen, dstPos, dstLen));
  }

  lemma FeedChunk(before: seq<PatchValue>, p: PatchValue, cs: seq<ChunkValue>, c: ChunkValue,
                  current: Option<(nat, nat)>)
    requires Valid(State(before + [p.(chunks := cs)], current))
    requires LinesLineWise(c.lines) && NoAmbiguous(c.lines)
    ensures FeedAll(State(before + [p.(chunks := cs)], current), WriteChunk(c)) == Success(Within(before, p, cs, c))
  {
    hide FeedAll, Classify, ChunkStart, WriteLines, SrcLen, DstLen, LinesLineWise, NoAmbiguous;
    var st := State(before + [p.(chunks := cs)], current);
    var start := ChunkStart(c.srcPos, SrcLen(c.lines), c.dstPos, DstLen(c.lines));
    var empty := c.(lines := []);
    ClassifyHeaders("", c.srcPos, SrcLen(c.lines), c.dstPos, DstLen(c.lines));
    assert st.patches[|before|].chunks == cs;
    assert Feed(st, start).value.patches == before + [p.(chunks := cs + [empty])];
    assert Feed(st, start) == Success(Within(before, p, cs, empty));
    FeedOne(st, start);
    FeedLines(before, p, cs, empty, c.lines);
    FeedAllConcat(st, [start], WriteLines(c.lines));
    assert [] + c.lines == c.lines;
  }

  lemma {:induction false} FeedChunks(before: seq<PatchValue>, p: PatchValue, current: Option<(nat, nat)>,
                                      cs: seq<ChunkValue>)
    returns (st: State)
    requires Valid(State(before + [p.(chunks := [])], current)) && ChunksLineWise(cs)
    requires forall j :: 0 <= j < |cs| ==> NoAmbiguous(cs[j].lines)
    ensures Valid(st) && st.patches == before + [p.(chunks := cs)]
    ensures FeedAll(State(before + [p.(chunks := [])], current), WriteChunks(cs)) == Success(st)
    decreases |cs|
  {
    hide FeedAll, WriteChunk, LinesLineWise, NoAmbiguous;
    var begin := State(before + [p.(chunks := [])], current);
    if cs == [] {
      FeedNone(begin);
      st := begin;
    } else {
      var n := |cs| - 1;
      var mid := FeedChunks(before, p, current, cs[..n]);
      FeedChunk(before, p, cs[..n], cs[n], mid.current);
      FeedAllConcat(begin, WriteChunks(cs[..n]), WriteChunk(cs[n]));
      st := Within(before, p, cs[..n], cs[n]);
      assert cs[..n] + [cs[n]] == cs;
    }
  }

  lemma FeedPatch(before: seq<PatchValue>, current: Option<(nat, nat)>, p: PatchValue) returns (st: State)
    requires Valid(State(before, current)) && OneLine(p.src) && OneLine(p.dst) && ChunksLineWise(p.chunks)
    requires forall j :: 0 <= j < |p.chunks| ==> NoAmbiguous(p.chunks[j].lines)
    ensures Valid(st) && st.patches == before + [p]
    ensures FeedAll(State(before, current), WritePatch(p)) == Success(st)
  {
    hide FeedAll, Classify, WriteChunks, ChunksLineWise, NoAmbiguous;
    var s0 := State(before, current);
    var h1, h2 := "--- " + p.src + "\n", "+++ " + p.dst + "\n";
    var s1 := State(before + [PatchValue(p.src, "", [])], current);
    var s2 := State(before + [p.(chunks := [])], current);
    ClassifyHeaders(p.src, 0, 0, 0, 0);
    ClassifyHeaders(p.dst, 0, 0, 0, 0);
    assert Feed(s0, h1) == Success(s1);
    assert s1.patches[|before| := p.(chunks := [])] == s2.patches;
    assert Feed(s1, h2) == Success(s2);
    FeedOne(s0, h1);
    FeedOne(s1, h2);
    st := FeedChunks(before, p, current, p.chunks);
    FeedAllConcat(s0, [h1], [h2]);
    FeedAllConcat(s0, [h1] + [h2], WriteChunks(p.chunks));
    assert WritePatch(p) == [h1] + [h2] + WriteChunks(p.chunks);
  }

  lemma {:induction false} FeedSet(ps: seq<PatchValue>) returns (st: State)
    requires LineWise(ps) && Unambiguous(ps)
    ensures Valid(st) && st.patches == ps && FeedAll(Begin, WriteSet(ps)) == Success(st)
    decreases |ps|
  {
    hide FeedAll, WritePatch, ChunksLineWise, NoAmbiguous;
    if ps == [] {
      FeedNone(Begin);
      st := Begin;
    } else {
      var n := |ps| - 1;
      var mid := FeedSet(ps[..n]);
      st := FeedPatch(mid.patches, mid.current, ps[n]);
      FeedAllConcat(Begin, WriteSet(ps[..n]), WritePatch(ps[n]));
      assert ps[..n] + [ps[n]] == ps;
    }
  }

  // ----- counting the lines that are content -----

  ghost function LinesIn(cs: seq<ChunkValue>): nat {
    if cs == [] then 0 else LinesIn(cs[..|cs| - 1]) + |cs[|cs| - 1].lines|
  }

  ghost function LinesInAll(ps: seq<PatchValue>): nat {
    if ps == [] then 0 else LinesInAll(ps[..|ps| - 1]) + LinesIn(ps[|ps| - 1].chunks)
  }

  ghost function ContentIn(lines: seq<string>): nat {
    if lines == [] then 0 else ContentIn(lines[..|lines| - 1]) + if Classify(lines[|lines| - 1]).Content? then 1 else 0
  }

  lemma {:induction false} LinesInUpdate(cs: seq<ChunkValue>, c: nat, x: ChunkValue)
    requires c < |cs|
    ensures LinesIn(cs[c := x]) == LinesIn(cs) - |cs[c].lines| + |x.lines|
    decreases |cs|
  {
    var last := |cs| - 1;
    if c == last {
      assert cs[c := x][..last] == cs[..last];
    } else {
      assert cs[c := x][..last] == cs[..last][c := x];
      LinesInUpdate(cs[..last], c, x);
    }
  }

  lemma {:induction false} LinesInAllUpdate(ps: seq<PatchValue>, p: nat, x: PatchValue)
    requires p < |ps|
    ensures LinesInAll(ps[p := x]) == LinesInAll(ps) - LinesIn(ps[p].chunks) + LinesIn(x.chunks)
    decreases |ps|
  {
    hide LinesIn;
    var last := |ps| - 1;
    if p == last {
      assert ps[p := x][..last] == ps[..last];
    } else {
      assert ps[p := x][..last] == ps[..last][p := x];
      LinesInAllUpdate(ps[..last], p, x);
    }
  }

  lemma FeedCounts(st: State, line: string)
    requires Valid(st) && Feed(st, line).Success?
    ensures LinesInAll(Feed(st, line).value.patches) == LinesInAll(st.patches) +
            if Classify(line).Content? then 1 else 0
  {
    hide Classify;
    var t := Feed(st, line).value;
    var last := |st.patches| - 1;
    match Classify(line)
    case SrcFile(name) =>
      assert t.patches[..|st.patches|] == st.patches;
    case DstFile(name) => LinesInAllUpdate(st.patches, last, t.patches[last]);
    case Start(srcPos, dstPos) =>
      LinesInAllUpdate(st.patches, last, t.patches[last]);
      assert t.patches[last].chunks[..|st.patches[last].chunks|] == st.patches[last].chunks;
    case Content(l) =>
      var (p, c) := st.current.value;
      LinesInAllUpdate(st.patches, p, t.patches[p]);
      LinesInUpdate(st.patches[p].chunks, c, t.patches[p].chunks[c]);
    case Unknown =>
  }

  lemma {:induction false} FeedAllCounts(st: State, lines: seq<string>)
    requires Valid(st) && FeedAll(st, lines).Success?
    ensures LinesInAll(FeedAll(st, lines).value.patches) == LinesInAll(st.patches) + ContentIn(lines)
    decreases |lines|
  {
    hide Feed, Classify, LinesInAll;
    if lines == [] {
    } else {
      var n := |lines| - 1;
      FeedAllConcat(st, lines[..n], [lines[n]]);
      assert lines == lines[..n] + [lines[n]];
      FeedAllCounts(st, lines[..n]);
      var mid := FeedAll(st, lines[..n]).value;
      FeedOne(mid, lines[n]);
      FeedCounts(mid, lines[n]);
    }
  }

  lemma {:induction false} ContentConcat(a: seq<string>, b: seq<string>)
    ensures ContentIn(a + b) == ContentIn(a) + ContentIn(b)
    decreases |b|
  {
    hide Classify;
    if b == [] {
      assert a + b == a;
    } else {
      assert (a + b)[..|a + b| - 1] == a + b[..|b| - 1];
      ContentConcat(a, b[..|b| - 1]);
    }
  }

  lemma ContentOfOne(line: string)
    ensures ContentIn([line]) == if Classify(line).Content? then 1 else 0
  {
    hide Classify;
    assert [line][..0] == [];
  }

  ghost function AmbiguousIn(lines: seq<ChunkLine>): nat {
    if lines == [] then 0 else AmbiguousIn(lines[..|lines| - 1]) + if Ambiguous(lines[|lines| - 1]) then 1 else 0
  }

  ghost function AmbiguousInChunks(cs: seq<ChunkValue>): nat {
    if cs == [] then 0 else AmbiguousInChunks(cs[..|cs| - 1]) + AmbiguousIn(cs[|cs| - 1].lines)
  }

  ghost function AmbiguousInAll(ps: seq<PatchValue>): nat {
    if ps == [] then 0 else AmbiguousInAll(ps[..|ps| - 1]) + AmbiguousInChunks(ps[|ps| - 1].chunks)
  }

  /** Every line of a written patch set is read as content but the headers and the ambiguous ones. */
  lemma {:induction false} WrittenContent(lines: seq<ChunkLine>)
    requires LinesLineWise(lines)
    ensures ContentIn(WriteLines(lines)) + AmbiguousIn(lines) == |lines|
    decreases |lines|
  {
    hide Classify, WriteLine, Ambiguous, OneLine, ContentIn;
    if lines == [] {
      NoContent();
    } else {
      var n := |lines| - 1;
      WrittenContent(lines[..n]);
      ClassifyContent(lines[n]);
      ContentConcat(WriteLines(lines[..n]), [WriteLine(lines[n])]);
      ContentOfOne(WriteLine(lines[n]));
    }
  }

  lemma NoContent()
    ensures ContentIn([]) == 0
  {
  }

  lemma {:induction false} WrittenChunks(cs: seq<ChunkValue>)
    requires ChunksLineWise(cs)
    ensures ContentIn(WriteChunks(cs)) + AmbiguousInChunks(cs) == LinesIn(cs)
    decreases |cs|
  {
    hide Classify, LinesLineWise, WriteLines, ChunkStart, SrcLen, DstLen, AmbiguousIn, ContentIn;
    if cs == [] {
      NoContent();
    } else {
      var n := |cs| - 1;
      var c := cs[n];
      var start := ChunkStart(c.srcPos, SrcLen(c.lines), c.dstPos, DstLen(c.lines));
      WrittenChunks(cs[..n]);
      WrittenContent(c.lines);
      ClassifyHeaders("", c.srcPos, SrcLen(c.lines), c.dstPos, DstLen(c.lines));
      ContentOfOne(start);
      ContentConcat([start], WriteLines(c.lines));
      ContentConcat(WriteChunks(cs[..n]), WriteChunk(c));
    }
  }

  lemma WrittenPatch(p: PatchValue)
    requires OneLine(p.src) && OneLine(p.dst) && ChunksLineWise(p.chunks)
    ensures ContentIn(WritePatch(p)) + AmbiguousInChunks(p.chunks) == LinesIn(p.chunks)
  {
    hide Classify, ChunksLineWise, WriteChunks, LinesIn, ContentIn, OneLine;
    var h1, h2 := "--- " + p.src + "\n", "+++ " + p.dst + "\n";
    WrittenChunks(p.chunks);
    ClassifyHeaders(p.src, 0, 0, 0, 0);
    ClassifyHeaders(p.dst, 0, 0, 0, 0);
    ContentOfOne(h1);
    ContentOfOne(h2);
    ContentConcat([h1], [h2]);
    ContentConcat([h1] + [h2], WriteChunks(p.chunks));
    assert WritePatch(p) == [h1] + [h2] + WriteChunks(p.chunks);
  }

  lemma {:induction false} WrittenSet(ps: seq<PatchValue>)
    requires LineWise(ps)
    ensures ContentIn(WriteSet(ps)) + AmbiguousInAll(ps) == LinesInAll(ps)
    decreases |ps|
  {
    hide ChunksLineWise, WritePatch, LinesIn, ContentIn, OneLine, AmbiguousInChunks;
    if ps == [] {
      NoContent();
    } else {
      var n := |ps| - 1;
      WrittenSet(ps[..n]);
      WrittenPatch(ps[n]);
      ContentConcat(WriteSet(ps[..n]), WritePatch(ps[n]));
    }
  }

  lemma {:induction false} NoneAmbiguousIn(lines: seq<ChunkLine>)
    requires AmbiguousIn(lines) == 0
    ensures NoAmbiguous(lines)
    decreases |lines|
  {
    hide Ambiguous;
    if lines == [] {
    } else {
      NoneAmbiguousIn(lines[..|lines| - 1]);
    }
  }

  lemma {:induction false} NoneAmbiguousInChunks(cs: seq<ChunkValue>)
    requires AmbiguousInChunks(cs) == 0
    ensures forall j :: 0 <= j < |cs| ==> NoAmbiguous(cs[j].lines)
    decreases |cs|
  {
    hide NoAmbiguous, AmbiguousIn;
    if cs == [] {
    } else {
      NoneAmbiguousIn(cs[|cs| - 1].lines);
      NoneAmbiguousInChunks(cs[..|cs| - 1]);
    }
  }

  lemma {:induction false} NoneAmbiguousInAll(ps: seq<PatchValue>)
    requires AmbiguousInAll(ps) == 0
    ensures Unambiguous(ps)
    decreases |ps|
  {
    hide NoAmbiguous, AmbiguousInChunks;
    if ps == [] {
    } else {
      NoneAmbiguousInChunks(ps[|ps| - 1].chunks);
      NoneAmbiguousInAll(ps[..|ps| - 1]);
    }
  }

  // ----- the round trip -----

  /** Parsing what was written gives the same patch set back, with the lengths in the chunk headers
      recomputed from the lines, exactly when no line is ambiguous. */
  lemma ParseUndoesWrite(ps: seq<PatchValue>)
    requires LineWise(ps)
    ensures ParseLines(WriteSet(ps)) == Success(ps) <==> Unambiguous(ps)
  {
    hide FeedAll, WriteSet, LineWise, Unambiguous, LinesInAll, ContentIn, AmbiguousInAll;
    if Unambiguous(ps) {
      var st := FeedSet(ps);
    }
    if ParseLines(WriteSet(ps)) == Success(ps) {
      FeedAllCounts(Begin, WriteSet(ps));
      WrittenSet(ps);
      NoLinesYet();
      NoneAmbiguousInAll(ps);
    }
  }

  lemma NoLinesYet()
    ensures LinesInAll([]) == 0
  {
  }

  ghost predicate Readable(cs: seq<ChunkValue>) {
    forall j :: 0 <= j < |cs| ==> LinesLineWise(cs[j].lines) && NoAmbiguous(cs[j].lines)
  }

  ghost predicate AllReadable(ps: seq<PatchValue>) {
    forall i :: 0 <= i < |ps| ==> OneLine(ps[i].src) && OneLine(ps[i].dst) && Readable(ps[i].chunks)
  }

  lemma AllReadableMeans(ps: seq<PatchValue>)
    ensures AllReadable(ps) <==> LineWise(ps) && Unambiguous(ps)
  {
    hide OneLine, LinesLineWise, NoAmbiguous;
  }

  lemma FeedKeepsReadable(st: State, line: string)
    requires Valid(st) && AllReadable(st.patches) && Feed(st, line).Success?
    ensures AllReadable(Feed(st, line).value.patches)
  {
    hide Classify, OneLine, Ambiguous;
    ClassifiedIsReadable(line);
    if Classify(line).Content? {
      var l := Classify(line).line;
      var (p, c) := st.current.value;
      var chunk := st.patches[p].chunks[c];
      assert LinesLineWise(chunk.lines + [l]) && NoAmbiguous(chunk.lines + [l]);
      assert Readable(st.patches[p].chunks[c := chunk.(lines := chunk.lines + [l])]);
    } else {
      OneLineOfEmpty();
    }
  }

  lemma OneLineOfEmpty()
    ensures OneLine("")
  {
  }

  /** Content never reads as a header: the header patterns were tried first. */
  lemma ClassifiedIsReadable(line: string)
    ensures match Classify(line)
            case SrcFile(name) => OneLine(name)
            case DstFile(name) => OneLine(name)
            case Content(l) => OneLine(l.text) && !Ambiguous(l)
            case _ => true
  {
    var s := DropFinalNewline(line);
    if MatchPrefix("-", line).Some? && "-- " <= MatchPrefix("-", line).value {
      assert s == "-" + s[1..];
      assert "--- " <= s;
      assert s[4..] == s[1..][3..];
    }
    if MatchPrefix("+", line).Some? && "++ " <= MatchPrefix("+", line).value {
      assert s == "+" + s[1..];
      assert "+++ " <= s;
      assert s[4..] == s[1..][3..];
    }
  }

  lemma {:induction false} FeedAllKeepsReadable(st: State, lines: seq<string>)
    requires Valid(st) && AllReadable(st.patches) && FeedAll(st, lines).Success?
    ensures AllReadable(FeedAll(st, lines).value.patches)
    decreases |lines|
  {
    hide AllReadable, Feed;
    if lines == [] {
    } else {
      FeedKeepsReadable(st, lines[0]);
      FeedAllKeepsReadable(Feed(st, lines[0]).value, lines[1..]);
    }
  }

  /** Whatever parsing accepts can be written and parsed again without loss. */
  lemma ParsedSurvivesWriting(lines: seq<string>)
    requires ParseLines(lines).Success?
    ensures ParseLines(WriteSet(ParseLines(lines).value)) == ParseLines(lines)
  {
    FeedAllKeepsReadable(Begin, lines);
    AllReadableMeans(ParseLines(lines).value);
    ParseUndoesWrite(ParseLines(lines).value);
  }

  lemma NumberMisses(n: nat, rest: string)
    ensures MatchNumber(Decimal(n) + (" " + rest), ",") == None
  {
    hide Decimal, ValueOf;
    var s := Decimal(n) + (" " + rest);
    DigitsLengthOf(Decimal(n), " " + rest);
    assert s[|Decimal(n)|..] == " " + rest;
    assert (" " + rest)[0] != ","[0];
  }

  lemma OnlyAHeaderMayMatch(line: string)
    requires line != "" && line[0] == '@' && MatchChunkStart(line) == None
    ensures Classify(line) == Unknown
  {
    OtherPrefix("--- ", line);
    OtherPrefix("+++ ", line);
    OtherPrefix("-", line);
    OtherPrefix("+", line);
    OtherPrefix(" ", line);
  }

  /** A chunk header that leaves out the length of a one-line source or target, as difflib writes it,
      is not recognised, whatever follows: the parser raises on it. */
  lemma OmittedLengthIsRejected(srcPos: nat, srcLen: nat, dstPos: nat, rest: string)
    ensures Classify("@@ -" + (Decimal(srcPos) + (" " + rest))) == Unknown
    ensures Classify("@@ -" + (Decimal(srcPos) + "," + (Decimal(srcLen) + " +" + (Decimal(dstPos) + (" " + rest))))) ==
            Unknown
  {
    hide Classify, Decimal, MatchNumber;
    var s := Decimal(srcPos) + (" " + rest);
    assert ("@@ -" + s)[4..] == s;
    NumberMisses(srcPos, rest);
    OnlyAHeaderMayMatch("@@ -" + s);
    var t2 := Decimal(dstPos) + (" " + rest);
    var t1 := Decimal(srcLen) + " +" + t2;
    var t0 := Decimal(srcPos) + "," + t1;
    assert ("@@ -" + t0)[4..] == t0;
    NumberMatches(srcPos, ",", t1);
    NumberMatches(srcLen, " +", t2);
    NumberMisses(dstPos, rest);
    OnlyAHeaderMayMatch("@@ -" + t0);
  }
}
