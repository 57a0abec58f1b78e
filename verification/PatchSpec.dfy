/** Patch sets as values, how they are written and what parsing a list of lines makes of them
    (utils/check-style.py). */
module PatchSpec {
  import opened Texts
  import opened Wrappers
  import opened PatchText

  datatype Side = Src | Dst | Both

  datatype ChunkLine = ChunkLine(side: Side, text: string)

  datatype ChunkValue = ChunkValue(srcPos: nat, dstPos: nat, lines: seq<ChunkLine>)

  datatype PatchValue = PatchValue(src: string, dst: string, chunks: seq<ChunkValue>)

  // ----- writing -----

  predicate IsSrc(l: ChunkLine) {
    l.side == Src || l.side == Both
  }

  predicate IsDst(l: ChunkLine) {
    l.side == Dst || l.side == Both
  }

  function SrcLen(lines: seq<ChunkLine>): nat {
    if lines == [] then 0 else SrcLen(lines[..|lines| - 1]) + if IsSrc(lines[|lines| - 1]) then 1 else 0
  }

  function DstLen(lines: seq<ChunkLine>): nat {
    if lines == [] then 0 else DstLen(lines[..|lines| - 1]) + if IsDst(lines[|lines| - 1]) then 1 else 0
  }

  ghost function On(lines: seq<ChunkLine>, side: Side): set<nat> {
    set i: nat | i < |lines| && lines[i].side == side
  }

  lemma OneMoreOn(lines: seq<ChunkLine>, side: Side)
    requires lines != []
    ensures var last := |lines| - 1;
      |On(lines, side)| == |On(lines[..last], side)| + if lines[last].side == side then 1 else 0
  {
    var last := |lines| - 1;
    assert On(lines, side) ==
           if lines[last].side == side then On(lines[..last], side) + {last} else On(lines[..last], side);
  }

  lemma {:induction false} LengthsByCounting(lines: seq<ChunkLine>)
    ensures SrcLen(lines) == |On(lines, Src)| + |On(lines, Both)|
    ensures DstLen(lines) == |On(lines, Dst)| + |On(lines, Both)|
    ensures |On(lines, Src)| + |On(lines, Dst)| + |On(lines, Both)| == |lines|
    decreases |lines|
  {
    if lines == [] {
      assert On(lines, Src) == On(lines, Dst) == On(lines, Both) == {};
    } else {
      hide On;
      LengthsByCounting(lines[..|lines| - 1]);
      OneMoreOn(lines, Src);
      OneMoreOn(lines, Dst);
      OneMoreOn(lines, Both);
    }
  }

  /** The length on one side is the number of lines that are not on the other side alone; together the lengths
      count every line once and the kept lines twice. */
  lemma LengthsCount(lines: seq<ChunkLine>)
    ensures SrcLen(lines) == |set i: nat | i < |lines| && lines[i].side != Dst|
    ensures DstLen(lines) == |set i: nat | i < |lines| && lines[i].side != Src|
    ensures |set i: nat | i < |lines| && lines[i].side != Dst| + |set i: nat | i < |lines| && lines[i].side != Src| ==
            |lines| + |set i: nat | i < |lines| && lines[i].side == Both|
  {
    LengthsByCounting(lines);
    NotOn(lines, Src, Dst);
    NotOn(lines, Dst, Src);
    assert On(lines, Both) == set i: nat | i < |lines| && lines[i].side == Both;
  }

  lemma NotOn(lines: seq<ChunkLine>, side: Side, other: Side)
    requires (side == Src && other == Dst) || (side == Dst && other == Src)
    ensures |set i: nat | i < |lines| && lines[i].side != other| == |On(lines, side)| + |On(lines, Both)|
  {
    assert (set i: nat | i < |lines| && lines[i].side != other) == On(lines, side) + On(lines, Both);
  }

  function WriteLine(l: ChunkLine): string {
    match l.side
    case Src => "-" + l.text + "\n"
    case Dst => "+" + l.text + "\n"
    case Both => " " + l.text + "\n"
  }

  function WriteLines(lines: seq<ChunkLine>): seq<string> {
    if lines == [] then [] else WriteLines(lines[..|lines| - 1]) + [WriteLine(lines[|lines| - 1])]
  }

  lemma {:induction false} LinesWritten(lines: seq<ChunkLine>)
    ensures |WriteLines(lines)| == |lines|
    ensures forall i :: 0 <= i < |lines| ==> WriteLines(lines)[i] == WriteLine(lines[i])
    decreases |lines|
  {
    if lines == [] {
    } else {
      LinesWritten(lines[..|lines| - 1]);
    }
  }

  function WriteChunk(c: ChunkValue): seq<string> {
    [ChunkStart(c.srcPos, SrcLen(c.lines), c.dstPos, DstLen(c.lines))] + WriteLines(c.lines)
  }

  /** A chunk as written: the header with both positions and lengths, and the marked lines. */
  lemma ChunkWritten(c: ChunkValue)
    ensures var lines := c.lines;
      && |WriteChunk(c)| == 1 + |lines|
      && WriteChunk(c)[0] ==
         "@@ -" + (Decimal(c.srcPos) + "," + (Decimal(|set i: nat | i < |lines| && lines[i].side != Dst|) + " +" +
         (Decimal(c.dstPos) + "," + (Decimal(|set i: nat | i < |lines| && lines[i].side != Src|) + " @@" + "\n"))))
      && forall i :: 0 <= i < |lines| ==>
                       var mark := match lines[i].side case Src => "-" case Dst => "+" case Both => " ";
                       WriteChunk(c)[1 + i] == mark + lines[i].text + "\n"
  {
    hide SrcLen, DstLen, Decimal, WriteLines;
    LengthsCount(c.lines);
    LinesWritten(c.lines);
  }

  function WriteChunks(cs: seq<ChunkValue>): seq<string> {
    if cs == [] then [] else WriteChunks(cs[..|cs| - 1]) + WriteChunk(cs[|cs| - 1])
  }

  function WritePatch(p: PatchValue): seq<string> {
    ["--- " + p.src + "\n", "+++ " + p.dst + "\n"] + WriteChunks(p.chunks)
  }

  function WriteSet(ps: seq<PatchValue>): seq<string> {
    if ps == [] then [] else WriteSet(ps[..|ps| - 1]) + WritePatch(ps[|ps| - 1])
  }

  // ----- reading -----

  /** A line that is no part of a patch; a header or line before the patch or chunk it needs. */
  datatype Error = UnknownLine | NoCurrentPatch | NoCurrentChunk

  datatype Line =
    | SrcFile(name: string)
    | DstFile(name: string)
    | Start(srcPos: nat, dstPos: nat)
    | Content(line: ChunkLine)
    | Unknown

  /** The first pattern that matches decides. */
  function Classify(line: string): Line {
    if MatchPrefix("--- ", line).Some? then SrcFile(MatchPrefix("--- ", line).value)
    else if MatchPrefix("+++ ", line).Some? then DstFile(MatchPrefix("+++ ", line).value)
    else if MatchChunkStart(line).Some? then Start(MatchChunkStart(line).value.0, MatchChunkStart(line).value.1)
    else if MatchPrefix("-", line).Some? then Content(ChunkLine(Src, MatchPrefix("-", line).value))
    else if MatchPrefix("+", line).Some? then Content(ChunkLine(Dst, MatchPrefix("+", line).value))
    else if MatchPrefix(" ", line).Some? then Content(ChunkLine(Both, MatchPrefix(" ", line).value))
    else Unknown
  }

  /** The patches so far and where the current chunk is among them. The current patch is the last
      one; the current chunk stays current when a new patch begins, until that patch has one. */
  datatype State = State(patches: seq<PatchValue>, current: Option<(nat, nat)>)

  predicate Valid(st: State) {
    st.current.Some? ==>
      st.current.value.0 < |st.patches| && st.current.value.1 < |st.patches[st.current.value.0].chunks|
  }

  const Begin := State([], None)

  function AddContent(st: State, l: ChunkLine): State
    requires Valid(st) && st.current.Some?
  {
    var (p, c) := st.current.value;
    var patch := st.patches[p];
    var chunk := patch.chunks[c];
    st.(patches := st.patches[p := patch.(chunks := patch.chunks[c := chunk.(lines := chunk.lines + [l])])])
  }

  function Feed(st: State, line: string): (r: Result<State, Error>)
    requires Valid(st)
    ensures r.Success? ==> Valid(r.value)
  {
    var last := |st.patches| - 1;
    match Classify(line)
    case SrcFile(name) => Success(st.(patches := st.patches + [PatchValue(name, "", [])]))
    case DstFile(name) =>
      if st.patches == [] then Failure(NoCurrentPatch)
      else Success(st.(patches := st.patches[last := st.patches[last].(dst := name)]))
    case Start(srcPos, dstPos) =>
      if st.patches == [] then Failure(NoCurrentPatch)
      else
        var chunks := st.patches[last].chunks;
        Success(State(st.patches[last := st.patches[last].(chunks := chunks + [ChunkValue(srcPos, dstPos, [])])],
                      Some((last, |chunks|))))
    case Content(l) => if st.current == None then Failure(NoCurrentChunk) else Success(AddContent(st, l))
    case Unknown => Failure(UnknownLine)
  }

  function FeedAll(st: State, lines: seq<string>): (r: Result<State, Error>)
    requires Valid(st)
    ensures r.Success? ==> Valid(r.value)
    decreases |lines|
  {
    if lines == [] then Success(st) else
      match Feed(st, lines[0])
      case Failure(e) => Failure(e)
      case Success(next) => FeedAll(next, lines[1..])
  }

  function ParseLines(lines: seq<string>): Result<seq<PatchValue>, Error> {
    match FeedAll(Begin, lines)
    case Failure(e) => Failure(e)
    case Success(st) => Success(st.patches)
  }

  lemma {:induction false} FeedAllConcat(st: State, first: seq<string>, rest: seq<string>)
    requires Valid(st)
    ensures FeedAll(st, first + rest) ==
            match FeedAll(st, first) { case Failure(e) => Failure(e) case Success(mid) => FeedAll(mid, rest) }
    decreases |first|
  {
    hide Feed;
    if first == [] {
      assert first + rest == rest;
    } else {
      assert (first + rest)[1..] == first[1..] + rest;
      match Feed(st, first[0])
      case Failure(e) =>
      case Success(next) => FeedAllConcat(next, first[1..], rest);
    }
  }

  lemma FeedOne(st: State, line: string)
    requires Valid(st)
    ensures FeedAll(st, [line]) == Feed(st, line)
  {
    assert [line][1..] == [];
  }

  // ----- which patch sets can be read back -----

  /** The texts are single lines. */
  ghost predicate LineWise(ps: seq<PatchValue>) {
    forall i :: 0 <= i < |ps| ==> OneLine(ps[i].src) && OneLine(ps[i].dst) && ChunksLineWise(ps[i].chunks)
  }

  ghost predicate ChunksLineWise(cs: seq<ChunkValue>) {
    forall i :: 0 <= i < |cs| ==> LinesLineWise(cs[i].lines)
  }

  ghost predicate LinesLineWise(lines: seq<ChunkLine>) {
    forall i :: 0 <= i < |lines| ==> OneLine(lines[i].text)
  }

  /** A removed line that reads as the header of a new patch, or an added one that reads as the
      name of the new file. */
  predicate Ambiguous(l: ChunkLine) {
    (l.side == Src && "-- " <= l.text) || (l.side == Dst && "++ " <= l.text)
  }

  ghost predicate NoAmbiguous(lines: seq<ChunkLine>) {
    forall i :: 0 <= i < |lines| ==> !Ambiguous(lines[i])
  }

  ghost predicate Unambiguous(ps: seq<PatchValue>) {
    forall i :: 0 <= i < |ps| ==> forall j :: 0 <= j < |ps[i].chunks| ==> NoAmbiguous(ps[i].chunks[j].lines)
  }

  lemma ClassifyContent(l: ChunkLine)
    requires OneLine(l.text)
    ensures Classify(WriteLine(l)) == Content(l) <==> !Ambiguous(l)
    ensures Ambiguous(l) ==> Classify(WriteLine(l)).SrcFile? || Classify(WriteLine(l)).DstFile?
  {
    hide Classify, OneLine;
    if l.side == Src {
      ClassifyRemoved(l);
    } else if l.side == Dst {
      ClassifyAdded(l);
    } else {
      ClassifyKept(l);
    }
  }

  lemma ClassifyRemoved(l: ChunkLine)
    requires OneLine(l.text) && l.side == Src
    ensures if "-- " <= l.text then Classify(WriteLine(l)).SrcFile? else Classify(WriteLine(l)) == Content(l)
  {
    hide OneLine;
    PrefixMatches("-", l.text);
    OtherPrefix("+++ ", WriteLine(l));
    HeaderOf("---", " ", "-", l.text);
  }

  lemma ClassifyAdded(l: ChunkLine)
    requires OneLine(l.text) && l.side == Dst
    ensures if "++ " <= l.text then Classify(WriteLine(l)).DstFile? else Classify(WriteLine(l)) == Content(l)
  {
    hide OneLine;
    PrefixMatches("+", l.text);
    OtherPrefix("--- ", WriteLine(l));
    OtherPrefix("-", WriteLine(l));
    HeaderOf("+++", " ", "+", l.text);
  }

  lemma ClassifyKept(l: ChunkLine)
    requires OneLine(l.text) && l.side == Both
    ensures Classify(WriteLine(l)) == Content(l)
  {
    hide OneLine;
    PrefixMatches(" ", l.text);
    OtherPrefix("--- ", WriteLine(l));
    OtherPrefix("+++ ", WriteLine(l));
    OtherPrefix("-", WriteLine(l));
    OtherPrefix("+", WriteLine(l));
  }

  /** A marked line reads as a header exactly when its text has the rest of the header's prefix. */
  lemma HeaderOf(head: string, space: string, mark: string, text: string)
    requires OneLine(text) && mark != "" && mark <= head + space
    ensures MatchPrefix(head + space, mark + text + "\n").Some? <==> (head + space)[|mark|..] <= text
  {
    var prefix := head + space;
    var line := mark + text + "\n";
    assert DropFinalNewline(line) == mark + text;
    assert prefix == mark + prefix[|mark|..];
    if prefix <= mark + text {
      assert (mark + text)[|mark|..] == text;
      assert prefix[|mark|..] <= text;
      assert forall i :: 0 <= i < |(mark + text)[|prefix|..]| ==>
             (mark + text)[|prefix|..][i] == text[|prefix| - |mark| + i];
    }
  }
}
