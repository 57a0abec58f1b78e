/** What parsing makes of any list of lines, told from the positions of its headers (utils/check-style.py). */
module PatchStructure {
  import opened Wrappers
  import opened PatchSpec

  /** What kind of line each line is. */
  function Kinds(lines: seq<string>): seq<Line> {
    if lines == [] then [] else Kinds(lines[..|lines| - 1]) + [Classify(lines[|lines| - 1])]
  }

  function SrcFiles(ks: seq<Line>): seq<nat> {
    if ks == [] then [] else SrcFiles(ks[..|ks| - 1]) + if ks[|ks| - 1].SrcFile? then [|ks| - 1] else []
  }

  function Starts(ks: seq<Line>): seq<nat> {
    if ks == [] then [] else Starts(ks[..|ks| - 1]) + if ks[|ks| - 1].Start? then [|ks| - 1] else []
  }

  /** The last name of a new file, if there is one. */
  function DstName(ks: seq<Line>): string {
    if ks == [] then "" else if ks[|ks| - 1].DstFile? then ks[|ks| - 1].name else DstName(ks[..|ks| - 1])
  }

  function Contents(ks: seq<Line>): seq<ChunkLine> {
    if ks == [] then [] else Contents(ks[..|ks| - 1]) + if ks[|ks| - 1].Content? then [ks[|ks| - 1].line] else []
  }

  lemma {:induction false} Positions(ks: seq<Line>)
    ensures forall p :: 0 <= p < |SrcFiles(ks)| ==> SrcFiles(ks)[p] < |ks| && ks[SrcFiles(ks)[p]].SrcFile?
    ensures forall k :: 0 <= k < |Starts(ks)| ==> Starts(ks)[k] < |ks| && ks[Starts(ks)[k]].Start?
    ensures forall p, q :: 0 <= p < q < |SrcFiles(ks)| ==> SrcFiles(ks)[p] < SrcFiles(ks)[q]
    ensures forall j, k :: 0 <= j < k < |Starts(ks)| ==> Starts(ks)[j] < Starts(ks)[k]
    decreases |ks|
  {
    if ks == [] {
    } else {
      Positions(ks[..|ks| - 1]);
    }
  }

  /** Where the section from position `at` ends: at the next of the given positions, or at the end. */
  function EndOf(at: seq<nat>, i: nat, n: nat): nat
    requires i < |at|
  {
    if i + 1 < |at| then at[i + 1] else n
  }

  function Slice(ks: seq<Line>, from: nat, upto: nat): seq<Line> {
    if from <= upto <= |ks| then ks[from..upto] else []
  }

  /** From the p-th header of a patch up to the next one. */
  function Section(ks: seq<Line>, p: nat): seq<Line>
    requires p < |SrcFiles(ks)|
  {
    Slice(ks, SrcFiles(ks)[p], EndOf(SrcFiles(ks), p, |ks|))
  }

  /** From the k-th header of a chunk up to the next one, past headers of patches. */
  function Body(ks: seq<Line>, k: nat): seq<Line>
    requires k < |Starts(ks)|
  {
    Slice(ks, Starts(ks)[k], EndOf(Starts(ks), k, |ks|))
  }

  /** How many chunks begin before the p-th patch. */
  function ChunksBefore(ks: seq<Line>, p: nat): nat
    requires p < |SrcFiles(ks)|
  {
    |Starts(Slice(ks, 0, SrcFiles(ks)[p]))|
  }

  /** The k-th chunk of all has the positions of its header and the content lines of its body. */
  ghost predicate IsChunk(ks: seq<Line>, k: nat, c: ChunkValue) {
    && k < |Starts(ks)| && Starts(ks)[k] < |ks| && ks[Starts(ks)[k]] == Start(c.srcPos, c.dstPos)
    && c.lines == Contents(Body(ks, k))
  }

  ghost predicate AreChunks(ks: seq<Line>, first: nat, cs: seq<ChunkValue>) {
    forall c :: 0 <= c < |cs| ==> IsChunk(ks, first + c, cs[c])
  }

  /** The p-th patch has the name in its header, the last name of a new file in its section, and the chunks
      that begin in its section. */
  ghost predicate IsPatch(ks: seq<Line>, p: nat, v: PatchValue) {
    && p < |SrcFiles(ks)| && SrcFiles(ks)[p] < |ks| && ks[SrcFiles(ks)[p]] == SrcFile(v.src)
    && v.dst == DstName(Section(ks, p)) && |v.chunks| == |Starts(Section(ks, p))|
    && AreChunks(ks, ChunksBefore(ks, p), v.chunks)
  }

  ghost predicate ArePatches(ks: seq<Line>, ps: seq<PatchValue>) {
    |ps| == |SrcFiles(ks)| && forall p :: 0 <= p < |ps| ==> IsPatch(ks, p, ps[p])
  }

  /** Line i can be read after the lines before it: a header of a chunk or the name of a new file in a patch,
      content in a chunk. */
  ghost predicate IsLegal(ks: seq<Line>, i: nat)
    requires i < |ks|
  {
    match ks[i]
    case SrcFile(_) => true
    case DstFile(_) => exists j :: 0 <= j < i && ks[j].SrcFile?
    case Start(_, _) => exists j :: 0 <= j < i && ks[j].SrcFile?
    case Content(_) => exists j :: 0 <= j < i && ks[j].Start?
    case Unknown => false
  }

  function Complaint(k: Line): Error {
    match k
    case Unknown => UnknownLine
    case Content(_) => NoCurrentChunk
    case _ => NoCurrentPatch
  }

  // ----- one more line -----

  lemma {:induction false} HasOne(ks: seq<Line>, j: nat)
    requires j < |ks|
    ensures ks[j].SrcFile? ==> SrcFiles(ks) != []
    ensures ks[j].Start? ==> Starts(ks) != []
    decreases |ks|
  {
    if j < |ks| - 1 {
      HasOne(ks[..|ks| - 1], j);
    }
  }

  lemma HasPositions(ks: seq<Line>)
    ensures SrcFiles(ks) != [] <==> exists j :: 0 <= j < |ks| && ks[j].SrcFile?
    ensures Starts(ks) != [] <==> exists j :: 0 <= j < |ks| && ks[j].Start?
  {
    hide SrcFiles, Starts;
    Positions(ks);
    assert SrcFiles(ks) != [] ==> ks[SrcFiles(ks)[0]].SrcFile?;
    assert Starts(ks) != [] ==> ks[Starts(ks)[0]].Start?;
    forall j | 0 <= j < |ks|
      ensures ks[j].SrcFile? ==> SrcFiles(ks) != []
      ensures ks[j].Start? ==> Starts(ks) != []
    {
      HasOne(ks, j);
    }
  }

  lemma OneMore(ks: seq<Line>, x: Line)
    ensures SrcFiles(ks + [x]) == SrcFiles(ks) + if x.SrcFile? then [|ks|] else []
    ensures Starts(ks + [x]) == Starts(ks) + if x.Start? then [|ks|] else []
    ensures DstName(ks + [x]) == if x.DstFile? then x.name else DstName(ks)
    ensures Contents(ks + [x]) == Contents(ks) + if x.Content? then [x.line] else []
  {
    assert (ks + [x])[..|ks|] == ks;
  }

  /** What a new line adds to the slice that begins at the i-th of the positions. */
  lemma SliceMore(ks: seq<Line>, x: Line, at: seq<nat>, at': seq<nat>, i: nat)
    requires i < |at| && at <= at' && (forall h :: 0 <= h < |at| ==> at[h] < |ks|)
    requires forall h, j :: 0 <= h < j < |at| ==> at[h] < at[j]
    requires at' == at || at' == at + [|ks|]
    ensures Slice(ks + [x], at'[i], EndOf(at', i, |ks| + 1)) ==
            Slice(ks, at[i], EndOf(at, i, |ks|)) + if i == |at| - 1 && at' == at then [x] else []
    ensures Slice(ks + [x], 0, at'[i]) == Slice(ks, 0, at[i])
  {
    var ks' := ks + [x];
    var from, upto := at[i], EndOf(at, i, |ks|);
    assert ks'[from..upto] == ks[from..upto];
    assert ks'[..from] == ks[..from];
    if i == |at| - 1 && at' == at {
      assert ks'[from..|ks| + 1] == ks[from..] + [x];
    }
  }

  lemma BodyMore(ks: seq<Line>, x: Line, k: nat)
    requires k < |Starts(ks)|
    ensures k < |Starts(ks + [x])| && Starts(ks + [x])[k] == Starts(ks)[k] < |ks|
    ensures Contents(Body(ks + [x], k)) ==
            Contents(Body(ks, k)) + if k == |Starts(ks)| - 1 && x.Content? then [x.line] else []
  {
    hide Slice, EndOf, Starts, Contents;
    OneMore(ks, x);
    Positions(ks);
    SliceMore(ks, x, Starts(ks), Starts(ks + [x]), k);
    OneMore(Body(ks, k), x);
    assert Body(ks, k) + [] == Body(ks, k);
  }

  lemma SectionMore(ks: seq<Line>, x: Line, p: nat)
    requires p < |SrcFiles(ks)|
    ensures p < |SrcFiles(ks + [x])| && SrcFiles(ks + [x])[p] == SrcFiles(ks)[p] < |ks|
    ensures Section(ks + [x], p) == Section(ks, p) + if p == |SrcFiles(ks)| - 1 && !x.SrcFile? then [x] else []
    ensures ChunksBefore(ks + [x], p) == ChunksBefore(ks, p)
  {
    hide Slice, EndOf, Starts, SrcFiles;
    OneMore(ks, x);
    Positions(ks);
    SliceMore(ks, x, SrcFiles(ks), SrcFiles(ks + [x]), p);
  }

  /** Sections before the last and the chunks in them are not touched, nor are chunks before the last. */
  lemma ChunkStays(ks: seq<Line>, x: Line, k: nat, c: ChunkValue)
    requires IsChunk(ks, k, c)
    ensures IsChunk(ks + [x], k, if k == |Starts(ks)| - 1 && x.Content? then c.(lines := c.lines + [x.line]) else c)
  {
    hide Body, Starts, Contents;
    BodyMore(ks, x, k);
  }

  lemma {:induction false} StartsSplit(ks: seq<Line>, i: nat)
    requires i <= |ks|
    ensures |Starts(ks)| == |Starts(ks[..i])| + |Starts(ks[i..])|
    decreases |ks|
  {
    if i == |ks| {
      assert ks[..i] == ks && ks[i..] == [];
    } else {
      var last := |ks| - 1;
      StartsSplit(ks[..last], i);
      assert ks[..last][..i] == ks[..i];
      assert ks[..last][i..] == ks[i..][..|ks[i..]| - 1];
    }
  }

  /** The chunks of the last patch are the last chunks. */
  lemma LastSection(ks: seq<Line>)
    requires SrcFiles(ks) != []
    ensures var p := |SrcFiles(ks)| - 1; ChunksBefore(ks, p) + |Starts(Section(ks, p))| == |Starts(ks)|
  {
    hide Starts;
    Positions(ks);
    var at := SrcFiles(ks)[|SrcFiles(ks)| - 1];
    StartsSplit(ks, at);
    assert ks[0..at] == ks[..at] && ks[at..|ks|] == ks[at..];
  }

  // ----- the parser's state -----

  /** The state after lines of these kinds; the current chunk is the last that was begun. */
  ghost predicate Holds(ks: seq<Line>, st: State) {
    && Valid(st) && ArePatches(ks, st.patches)
    && (st.current == None <==> Starts(ks) == [])
    && (forall p, c :: 0 <= p < |st.patches| && 0 <= c < |st.patches[p].chunks| ==>
                         (st.current == Some((p, c)) <==> ChunksBefore(ks, p) + c + 1 == |Starts(ks)|))
  }

  /** No chunk changes unless the line is content. */
  lemma ChunksStay(ks: seq<Line>, x: Line, first: nat, cs: seq<ChunkValue>)
    requires AreChunks(ks, first, cs) && !x.Content?
    ensures AreChunks(ks + [x], first, cs)
  {
    hide IsChunk;
    forall c | 0 <= c < |cs| ensures IsChunk(ks + [x], first + c, cs[c]) {
      ChunkStays(ks, x, first + c, cs[c]);
    }
  }

  lemma PatchStays(ks: seq<Line>, x: Line, p: nat, v: PatchValue)
    requires IsPatch(ks, p, v) && (x.SrcFile? || p < |SrcFiles(ks)| - 1) && !x.Content?
    ensures IsPatch(ks + [x], p, v)
  {
    hide AreChunks, Section, ChunksBefore, SrcFiles, Starts, DstName;
    SectionMore(ks, x, p);
    assert Section(ks, p) + [] == Section(ks, p);
    ChunksStay(ks, x, ChunksBefore(ks, p), v.chunks);
  }

  lemma PatchIsNamed(ks: seq<Line>, x: Line, v: PatchValue)
    requires SrcFiles(ks) != [] && IsPatch(ks, |SrcFiles(ks)| - 1, v) && x.DstFile?
    ensures IsPatch(ks + [x], |SrcFiles(ks)| - 1, v.(dst := x.name))
  {
    hide AreChunks, Section, ChunksBefore, SrcFiles, Starts, DstName;
    var p := |SrcFiles(ks)| - 1;
    SectionMore(ks, x, p);
    OneMore(Section(ks, p), x);
    assert Starts(Section(ks, p)) + [] == Starts(Section(ks, p));
    ChunksStay(ks, x, ChunksBefore(ks, p), v.chunks);
  }

  lemma NewChunk(ks: seq<Line>, x: Line)
    requires x.Start?
    ensures IsChunk(ks + [x], |Starts(ks)|, ChunkValue(x.srcPos, x.dstPos, []))
  {
    OneMore(ks, x);
    Positions(ks);
    assert (ks + [x])[|ks|..] == [x];
    assert [x] == [] + [x];
    OneMore([], x);
  }

  lemma ChunksAndNew(ks: seq<Line>, x: Line, first: nat, cs: seq<ChunkValue>)
    requires AreChunks(ks, first, cs) && first + |cs| == |Starts(ks)| && x.Start?
    ensures AreChunks(ks + [x], first, cs + [ChunkValue(x.srcPos, x.dstPos, [])])
  {
    hide IsChunk, Starts;
    ChunksStay(ks, x, first, cs);
    NewChunk(ks, x);
  }

  lemma PatchGetsChunk(ks: seq<Line>, x: Line, v: PatchValue)
    requires SrcFiles(ks) != [] && IsPatch(ks, |SrcFiles(ks)| - 1, v) && x.Start?
    ensures IsPatch(ks + [x], |SrcFiles(ks)| - 1, v.(chunks := v.chunks + [ChunkValue(x.srcPos, x.dstPos, [])]))
  {
    hide AreChunks, Section, ChunksBefore, SrcFiles, Starts, DstName;
    var p := |SrcFiles(ks)| - 1;
    SectionMore(ks, x, p);
    OneMore(Section(ks, p), x);
    LastSection(ks);
    ChunksAndNew(ks, x, ChunksBefore(ks, p), v.chunks);
  }

  lemma NewPatch(ks: seq<Line>, x: Line)
    requires x.SrcFile?
    ensures IsPatch(ks + [x], |SrcFiles(ks)|, PatchValue(x.name, "", []))
  {
    OneMore(ks, x);
    Positions(ks);
    assert (ks + [x])[|ks|..] == [x];
    assert [x] == [] + [x];
    OneMore([], x);
  }

  /** One more line in chunk `at`, if there is such a chunk among these. */
  function WithLine(cs: seq<ChunkValue>, at: Option<nat>, l: ChunkLine): seq<ChunkValue>
    requires at.Some? ==> at.value < |cs|
  {
    if at == None then cs else cs[at.value := cs[at.value].(lines := cs[at.value].lines + [l])]
  }

  lemma ChunksGetLine(ks: seq<Line>, x: Line, first: nat, cs: seq<ChunkValue>, at: Option<nat>)
    requires AreChunks(ks, first, cs) && x.Content? && (at.Some? ==> at.value < |cs|)
    requires forall c :: 0 <= c < |cs| ==> (at == Some(c) <==> first + c + 1 == |Starts(ks)|)
    ensures AreChunks(ks + [x], first, WithLine(cs, at, x.line))
  {
    hide IsChunk, Starts;
    forall c | 0 <= c < |cs| ensures IsChunk(ks + [x], first + c, WithLine(cs, at, x.line)[c]) {
      assert at == Some(c) <==> first + c + 1 == |Starts(ks)|;
      ChunkStays(ks, x, first + c, cs[c]);
    }
  }

  lemma PatchGetsLine(ks: seq<Line>, x: Line, p: nat, v: PatchValue, at: Option<nat>)
    requires IsPatch(ks, p, v) && x.Content? && (at.Some? ==> at.value < |v.chunks|)
    requires forall c :: 0 <= c < |v.chunks| ==> (at == Some(c) <==> ChunksBefore(ks, p) + c + 1 == |Starts(ks)|)
    ensures IsPatch(ks + [x], p, v.(chunks := WithLine(v.chunks, at, x.line)))
  {
    hide AreChunks, Section, ChunksBefore, SrcFiles, Starts, DstName;
    SectionMore(ks, x, p);
    OneMore(Section(ks, p), x);
    assert Section(ks, p) + [] == Section(ks, p) && Starts(Section(ks, p)) + [] == Starts(Section(ks, p));
    ChunksGetLine(ks, x, ChunksBefore(ks, p), v.chunks, at);
  }

  lemma HoldsPatch(ks: seq<Line>, st: State, p: nat)
    requires Holds(ks, st) && p < |st.patches|
    ensures p < |SrcFiles(ks)| == |st.patches| && IsPatch(ks, p, st.patches[p])
    ensures |st.patches[p].chunks| == |Starts(Section(ks, p))|
  {
  }

  /** One line read, when it can be. */
  lemma LineIsRead(ks: seq<Line>, st: State, line: string)
    requires Holds(ks, st)
    ensures var x, r := Classify(line), Feed(st, line);
      && (r.Success? <==> IsLegal(ks + [x], |ks|))
      && (r.Success? ==> Holds(ks + [x], r.value))
      && (r.Failure? ==> r.error == Complaint(x))
  {
    hide Classify, IsPatch, Section, ChunksBefore, SrcFiles, Starts;
    var x := Classify(line);
    HasPositions(ks);
    LegalNext(ks, x);
    OneMore(ks, x);
    if Feed(st, line).Success? {
      if x.SrcFile? {
        ReadSrcFile(ks, st, line);
      } else if x.DstFile? {
        ReadDstFile(ks, st, line);
      } else if x.Start? {
        ReadStart(ks, st, line);
      } else {
        ReadContent(ks, st, line);
      }
    }
  }

  lemma LegalNext(ks: seq<Line>, x: Line)
    ensures IsLegal(ks + [x], |ks|) <==>
            match x
            case SrcFile(_) => true
            case DstFile(_) => exists j :: 0 <= j < |ks| && ks[j].SrcFile?
            case Start(_, _) => exists j :: 0 <= j < |ks| && ks[j].SrcFile?
            case Content(_) => exists j :: 0 <= j < |ks| && ks[j].Start?
            case Unknown => false
  {
    var ks' := ks + [x];
    if j :| 0 <= j < |ks| && ks[j].SrcFile? {
      assert ks'[j].SrcFile?;
    }
    if j :| 0 <= j < |ks| && ks[j].Start? {
      assert ks'[j].Start?;
    }
  }

  lemma ReadSrcFile(ks: seq<Line>, st: State, line: string)
    requires Holds(ks, st) && Classify(line).SrcFile?
    ensures Feed(st, line).Success? && Holds(ks + [Classify(line)], Feed(st, line).value)
  {
    hide Classify, IsPatch, Section, ChunksBefore, SrcFiles, Starts;
    var x, t := Classify(line), Feed(st, line).value;
    OneMore(ks, x);
    NewPatch(ks, x);
    forall p | 0 <= p < |st.patches| ensures IsPatch(ks + [x], p, t.patches[p]) {
      PatchStays(ks, x, p, st.patches[p]);
    }
    forall p | 0 <= p < |st.patches| ensures p < |SrcFiles(ks)| && ChunksBefore(ks + [x], p) == ChunksBefore(ks, p) {
      SectionMore(ks, x, p);
    }
  }

  lemma ReadDstFile(ks: seq<Line>, st: State, line: string)
    requires Holds(ks, st) && Classify(line).DstFile? && Feed(st, line).Success?
    ensures Holds(ks + [Classify(line)], Feed(st, line).value)
  {
    hide Classify, IsPatch, Section, ChunksBefore, SrcFiles, Starts;
    var x, t := Classify(line), Feed(st, line).value;
    OneMore(ks, x);
    var last := |st.patches| - 1;
    PatchIsNamed(ks, x, st.patches[last]);
    forall p | 0 <= p < last ensures IsPatch(ks + [x], p, t.patches[p]) {
      PatchStays(ks, x, p, st.patches[p]);
    }
    forall p | 0 <= p < |st.patches| ensures p < |SrcFiles(ks)| && ChunksBefore(ks + [x], p) == ChunksBefore(ks, p) {
      SectionMore(ks, x, p);
    }
  }

  /** Chunks begun before a new one are not the last any more. */
  lemma BeforeTheLast(ks: seq<Line>, st: State, p: nat, c: nat)
    requires Holds(ks, st) && p < |st.patches| && c < |st.patches[p].chunks|
    ensures p < |SrcFiles(ks)| && ChunksBefore(ks, p) + c < |Starts(ks)|
  {
    hide Section, ChunksBefore, SrcFiles, Starts;
    assert IsPatch(ks, p, st.patches[p]) && AreChunks(ks, ChunksBefore(ks, p), st.patches[p].chunks);
    assert IsChunk(ks, ChunksBefore(ks, p) + c, st.patches[p].chunks[c]);
  }

  lemma ReadStart(ks: seq<Line>, st: State, line: string)
    requires Holds(ks, st) && Classify(line).Start? && Feed(st, line).Success?
    ensures Holds(ks + [Classify(line)], Feed(st, line).value)
  {
    hide Classify, IsPatch, Section, ChunksBefore, SrcFiles, Starts;
    var x, t := Classify(line), Feed(st, line).value;
    var last := |st.patches| - 1;
    OneMore(ks, x);
    PatchGetsChunk(ks, x, st.patches[last]);
    LastSection(ks);
    HoldsPatch(ks, st, last);
    forall p | 0 <= p < last ensures IsPatch(ks + [x], p, t.patches[p]) {
      PatchStays(ks, x, p, st.patches[p]);
    }
    forall p | 0 <= p < |st.patches| ensures p < |SrcFiles(ks)| && ChunksBefore(ks + [x], p) == ChunksBefore(ks, p) {
      SectionMore(ks, x, p);
    }
    forall p, c | 0 <= p < |t.patches| && 0 <= c < |t.patches[p].chunks|
      ensures t.current == Some((p, c)) <==> ChunksBefore(ks + [x], p) + c + 1 == |Starts(ks + [x])|
    {
      if p != last || c < |st.patches[last].chunks| {
        BeforeTheLast(ks, st, p, c);
      }
    }
  }

  lemma ReadContent(ks: seq<Line>, st: State, line: string)
    requires Holds(ks, st) && Classify(line).Content? && Feed(st, line).Success?
    ensures Holds(ks + [Classify(line)], Feed(st, line).value)
  {
    hide Classify, IsPatch, Section, ChunksBefore, SrcFiles, Starts;
    var x, t := Classify(line), Feed(st, line).value;
    var (pc, cc) := st.current.value;
    OneMore(ks, x);
    forall p | 0 <= p < |st.patches| ensures IsPatch(ks + [x], p, t.patches[p]) {
      var at := if p == pc then Some(cc) else None;
      forall c | 0 <= c < |st.patches[p].chunks|
        ensures at == Some(c) <==> ChunksBefore(ks, p) + c + 1 == |Starts(ks)|
      {
        assert st.current == Some((p, c)) <==> at == Some(c);
      }
      PatchGetsLine(ks, x, p, st.patches[p], at);
    }
    forall p | 0 <= p < |st.patches| ensures p < |SrcFiles(ks)| && ChunksBefore(ks + [x], p) == ChunksBefore(ks, p) {
      SectionMore(ks, x, p);
    }
  }

  lemma NothingRead()
    ensures Holds([], Begin)
  {
  }

  // ----- all lines -----

  ghost predicate AllLegal(ks: seq<Line>) {
    forall i :: 0 <= i < |ks| ==> IsLegal(ks, i)
  }

  lemma {:induction false} KindsOf(lines: seq<string>, i: nat)
    requires i <= |lines|
    ensures |Kinds(lines)| == |lines| && Kinds(lines[..i]) == Kinds(lines)[..i]
    decreases |lines|
  {
    hide Classify;
    if i == |lines| {
      assert lines[..i] == lines;
      if i > 0 {
        KindsOf(lines[..i - 1], i - 1);
      }
      assert Kinds(lines)[..|Kinds(lines)|] == Kinds(lines);
    } else {
      KindsOf(lines[..|lines| - 1], i);
      assert lines[..|lines| - 1][..i] == lines[..i];
    }
  }

  lemma LegalBefore(ks: seq<Line>, i: nat, j: nat)
    requires i < j <= |ks|
    ensures IsLegal(ks[..j], i) <==> IsLegal(ks, i)
  {
    var before := ks[..j];
    assert forall h :: 0 <= h < i ==> before[h] == ks[h];
  }

  lemma {:induction false} LinesAreRead(lines: seq<string>)
    ensures var ks, r := Kinds(lines), FeedAll(Begin, lines);
      && (r.Success? <==> AllLegal(ks))
      && (r.Success? ==> Holds(ks, r.value))
      && (r.Failure? ==>
            exists i :: 0 <= i < |ks| && AllLegal(ks[..i]) && !IsLegal(ks, i) && r.error == Complaint(ks[i]))
    decreases |lines|
  {
    hide Classify, Holds, Feed, IsLegal, Complaint;
    if lines == [] {
      NothingRead();
    } else {
      var last := |lines| - 1;
      var ks, before, x := Kinds(lines), Kinds(lines[..last]), Classify(lines[last]);
      LinesAreRead(lines[..last]);
      KindsOf(lines, last);
      assert lines == lines[..last] + [lines[last]];
      FeedAllConcat(Begin, lines[..last], [lines[last]]);
      assert ks == before + [x] && before == ks[..last];
      forall i | 0 <= i < last ensures IsLegal(before, i) == IsLegal(ks, i) {
        LegalBefore(ks, i, last);
      }
      if FeedAll(Begin, lines[..last]).Success? {
        var st := FeedAll(Begin, lines[..last]).value;
        FeedOne(st, lines[last]);
        LineIsRead(before, st, lines[last]);
      } else {
        var i :| 0 <= i < |before| && AllLegal(before[..i]) && !IsLegal(before, i) &&
                 FeedAll(Begin, lines[..last]).error == Complaint(before[i]);
        assert before[..i] == ks[..i];
      }
    }
  }

  /** Parsing succeeds exactly if every line can be read where it stands, and fails with the complaint about
      the first that cannot. Its patches are the sections between headers of patches, its chunks the bodies
      between headers of chunks: a chunk goes on past the header of a patch. */
  lemma ParsedByPosition(lines: seq<string>)
    ensures var ks, r := Kinds(lines), ParseLines(lines);
      && |ks| == |lines|
      && (r.Success? <==> forall i :: 0 <= i < |ks| ==> IsLegal(ks, i))
      && (r.Success? ==> ArePatches(ks, r.value))
      && (r.Failure? ==>
            exists i :: 0 <= i < |ks| && AllLegal(ks[..i]) && !IsLegal(ks, i) && r.error == Complaint(ks[i]))
  {
    hide Classify, FeedAll, IsLegal, Complaint, ArePatches;
    LinesAreRead(lines);
    KindsOf(lines, |lines|);
  }
}
