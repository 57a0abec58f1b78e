/** The patch objects of utils/check-style.py and the parser that builds them. A chunk line is set
    once, before it is added, so it is a value here; chunks and patches are updated in place. */
module PatchSet {
  import opened Wrappers
  import opened PatchText
  import opened PatchSpec

  /** A file being written, line by line. */
  class Output {
    var written: seq<string>

    constructor ()
      ensures written == []
    {
      written := [];
    }

    method Write(line: string)
      modifies this
      ensures written == old(written) + [line]
    {
      written := written + [line];
    }
  }

  class PatchChunk {
    const srcPos: nat
    const dstPos: nat
    var lines: seq<ChunkLine>

    constructor (srcPos: nat, dstPos: nat)
      ensures Value() == ChunkValue(srcPos, dstPos, [])
    {
      this.srcPos, this.dstPos, lines := srcPos, dstPos, [];
    }

    ghost function Value(): ChunkValue
      reads this
    {
      ChunkValue(srcPos, dstPos, lines)
    }

    method AddLine(line: ChunkLine)
      modifies this
      ensures Value() == old(Value()).(lines := old(lines) + [line])
    {
      lines := lines + [line];
    }

    method SrcLength() returns (n: nat)
      ensures n == SrcLen(lines)
      ensures n == |set i: nat | i < |lines| && lines[i].side != Dst|
    {
      var src: seq<ChunkLine> := [];
      for i := 0 to |lines|
        invariant |src| == SrcLen(lines[..i])
      {
        assert lines[..i + 1][..i] == lines[..i];
        if IsSrc(lines[i]) {
          src := src + [lines[i]];
        }
      }
      assert lines[..|lines|] == lines;
      LengthsCount(lines);
      n := |src|;
    }

    method DstLength() returns (n: nat)
      ensures n == DstLen(lines)
      ensures n == |set i: nat | i < |lines| && lines[i].side != Src|
    {
      var dst: seq<ChunkLine> := [];
      for i := 0 to |lines|
        invariant |dst| == DstLen(lines[..i])
      {
        assert lines[..i + 1][..i] == lines[..i];
        if IsDst(lines[i]) {
          dst := dst + [lines[i]];
        }
      }
      assert lines[..|lines|] == lines;
      LengthsCount(lines);
      n := |dst|;
    }

    method Write(f: Output)
      modifies f
      ensures f.written == old(f.written) + WriteChunk(Value())
      ensures |f.written| == |old(f.written)| + 1 + |lines|
      ensures f.written[|old(f.written)|] ==
              "@@ -" + (Decimal(srcPos) + "," + (Decimal(|set i: nat | i < |lines| && lines[i].side != Dst|) + " +" +
              (Decimal(dstPos) + "," + (Decimal(|set i: nat | i < |lines| && lines[i].side != Src|) + " @@" + "\n"))))
      ensures forall i :: 0 <= i < |lines| ==>
                            var mark := match lines[i].side case Src => "-" case Dst => "+" case Both => " ";
                            f.written[|old(f.written)| + 1 + i] == mark + lines[i].text + "\n"
    {
      hide Decimal, WriteLines, SrcLen, DstLen, WriteLine;
      var srcLen := SrcLength();
      var dstLen := DstLength();
      f.Write(ChunkStart(srcPos, srcLen, dstPos, dstLen));
      ghost var header := f.written;
      NoLines();
      for i := 0 to |lines|
        invariant f.written == header + WriteLines(lines[..i])
      {
        OneMoreLine(lines, i);
        f.Write(WriteLine(lines[i]));
      }
      assert lines[..|lines|] == lines;
      assert f.written == old(f.written) + WriteChunk(Value());
      ChunkWritten(Value());
    }
  }

  lemma NoLines()
    ensures WriteLines([]) == []
  {
  }

  lemma OneMoreLine(lines: seq<ChunkLine>, i: nat)
    requires i < |lines|
    ensures WriteLines(lines[..i + 1]) == WriteLines(lines[..i]) + [WriteLine(lines[i])]
  {
    assert lines[..i + 1][..i] == lines[..i];
  }

  class Patch {
    var src: string
    var dst: string
    var chunks: seq<PatchChunk>

    constructor ()
      ensures src == "" && dst == "" && chunks == []
    {
      src, dst, chunks := "", "", [];
    }

    method AddChunk(chunk: PatchChunk)
      modifies this
      ensures chunks == old(chunks) + [chunk] && src == old(src) && dst == old(dst)
    {
      chunks := chunks + [chunk];
    }

    method SetSrc(src: string)
      modifies this
      ensures this.src == src && dst == old(dst) && chunks == old(chunks)
    {
      this.src := src;
    }

    method SetDst(dst: string)
      modifies this
      ensures this.dst == dst && src == old(src) && chunks == old(chunks)
    {
      this.dst := dst;
    }

    ghost predicate Holds(v: PatchValue)
      reads this, chunks
    {
      && src == v.src && dst == v.dst && |chunks| == |v.chunks|
      && forall c :: 0 <= c < |chunks| ==> chunks[c].Value() == v.chunks[c]
    }

    method Write(f: Output, ghost v: PatchValue)
      requires Holds(v)
      modifies f
      ensures f.written == old(f.written) + WritePatch(v)
    {
      hide WriteChunk;
      f.Write("--- " + src + "\n");
      f.Write("+++ " + dst + "\n");
      ghost var header := f.written;
      for c := 0 to |chunks|
        invariant Holds(v)
        invariant f.written == header + WriteChunks(v.chunks[..c])
      {
        OneMoreChunk(v.chunks, c);
        chunks[c].Write(f);
      }
      assert v.chunks[..|chunks|] == v.chunks;
    }
  }

  lemma OneMoreChunk(cs: seq<ChunkValue>, c: nat)
    requires c < |cs|
    ensures WriteChunks(cs[..c + 1]) == WriteChunks(cs[..c]) + WriteChunk(cs[c])
  {
    assert cs[..c + 1][..c] == cs[..c];
  }

  ghost function ChunksOf(ps: seq<Patch>): (all: set<PatchChunk>)
    reads ps
    ensures forall i, c :: 0 <= i < |ps| && c in ps[i].chunks ==> c in all
  {
    set i, c | 0 <= i < |ps| && c in ps[i].chunks :: c
  }

  ghost predicate EachHolds(ps: seq<Patch>, vs: seq<PatchValue>)
    reads ps, ChunksOf(ps)
  {
    && |ps| == |vs|
    && (forall i :: 0 <= i < |ps| ==> ps[i].src == vs[i].src && ps[i].dst == vs[i].dst)
    && (forall i :: 0 <= i < |ps| ==> |ps[i].chunks| == |vs[i].chunks|)
    && (forall i, c :: 0 <= i < |ps| && 0 <= c < |ps[i].chunks| ==> ps[i].chunks[c].Value() == vs[i].chunks[c])
  }

  /** The patch objects have these values, and no patch and no chunk occurs twice. */
  ghost predicate HoldAll(ps: seq<Patch>, vs: seq<PatchValue>)
    reads ps, ChunksOf(ps)
  {
    && EachHolds(ps, vs)
    && (forall i, j :: 0 <= i < j < |ps| ==> ps[i] != ps[j])
    && (forall i, c, d :: 0 <= i < |ps| && 0 <= c < d < |ps[i].chunks| ==> ps[i].chunks[c] != ps[i].chunks[d])
    && (forall i, j :: 0 <= i < j < |ps| ==> Apart(ps[i].chunks, ps[j].chunks))
  }

  ghost predicate Apart(cs: seq<PatchChunk>, ds: seq<PatchChunk>) {
    forall c, d :: 0 <= c < |cs| && 0 <= d < |ds| ==> cs[c] != ds[d]
  }

  /** The objects a parser in state st is working on. */
  ghost predicate Building(ps: seq<Patch>, currentPatch: Patch?, currentChunk: PatchChunk?, st: State)
    reads ps, ChunksOf(ps)
  {
    && Valid(st) && HoldAll(ps, st.patches)
    && (if ps == [] then currentPatch == null else currentPatch == ps[|ps| - 1])
    && (st.current == None <==> currentChunk == null)
    && (st.current.Some? ==> currentChunk == ps[st.current.value.0].chunks[st.current.value.1])
  }

  method StartPatch(ps0: seq<Patch>, src: string, ghost currentChunk: PatchChunk?, ghost st: State)
    returns (ps: seq<Patch>, currentPatch: Patch)
    requires Building(ps0, if ps0 == [] then null else ps0[|ps0| - 1], currentChunk, st)
    ensures fresh(currentPatch) && ps == ps0 + [currentPatch] && currentPatch.chunks == []
    ensures Building(ps, currentPatch, currentChunk, st.(patches := st.patches + [PatchValue(src, "", [])]))
  {
    currentPatch := new Patch();
    currentPatch.SetSrc(src);
    assert HoldAll(ps0, st.patches);
    ps := ps0 + [currentPatch];
    HoldOneMore(ps0, st.patches, currentPatch);
  }

  lemma HoldOneMore(ps: seq<Patch>, vs: seq<PatchValue>, p: Patch)
    requires HoldAll(ps, vs) && p !in ps && p.chunks == []
    ensures HoldAll(ps + [p], vs + [PatchValue(p.src, p.dst, [])])
  {
  }

  method NameTarget(currentPatch: Patch, dst: string, ghost ps: seq<Patch>, ghost currentChunk: PatchChunk?,
                    ghost st: State)
    requires ps != [] && Building(ps, currentPatch, currentChunk, st)
    modifies currentPatch
    ensures currentPatch.chunks == old(currentPatch.chunks)
    ensures var last := |ps| - 1;
            Building(ps, currentPatch, currentChunk, st.(patches := st.patches[last := st.patches[last].(dst := dst)]))
  {
    currentPatch.SetDst(dst);
  }

  method StartChunk(currentPatch: Patch, srcPos: nat, dstPos: nat, ghost ps: seq<Patch>,
                    ghost currentChunk0: PatchChunk?, ghost st: State)
    returns (currentChunk: PatchChunk)
    requires ps != [] && Building(ps, currentPatch, currentChunk0, st)
    modifies currentPatch
    ensures fresh(currentChunk) && currentPatch.chunks == old(currentPatch.chunks) + [currentChunk]
    ensures var last := |ps| - 1;
            var chunks := st.patches[last].chunks;
            Building(ps, currentPatch, currentChunk,
                     State(st.patches[last := st.patches[last].(chunks := chunks + [ChunkValue(srcPos, dstPos, [])])],
                           Some((last, |chunks|))))
  {
    currentChunk := new PatchChunk(srcPos, dstPos);
    currentPatch.AddChunk(currentChunk);
  }

  method AppendLine(currentChunk: PatchChunk, line: ChunkLine, ghost ps: seq<Patch>, ghost currentPatch: Patch?,
                    ghost st: State)
    requires Building(ps, currentPatch, currentChunk, st) && st.current.Some?
    modifies currentChunk
    ensures Building(ps, currentPatch, currentChunk, AddContent(st, line))
  {
    currentChunk.AddLine(line);
  }

  lemma FeedAllStep(st: State, lines: seq<string>, i: nat)
    requires Valid(st) && i < |lines|
    ensures FeedAll(st, lines[i..]) ==
            match Feed(st, lines[i]) {
              case Failure(e) => Failure(e)
              case Success(next) => FeedAll(next, lines[i + 1..])
            }
  {
    assert lines[i..][1..] == lines[i + 1..];
  }

  method ParsePatchset(lines: seq<string>) returns (r: Result<seq<Patch>, Error>)
    ensures r.Success? == ParseLines(lines).Success?
    ensures r.Failure? ==> r.error == ParseLines(lines).error
    ensures r.Success? ==> HoldAll(r.value, ParseLines(lines).value)
  {
    hide HoldAll, FeedAll, MatchPrefix, MatchChunkStart, AddContent, ChunksOf;
    var patchset: seq<Patch> := [];
    var currentPatch: Patch? := null;
    var currentChunk: PatchChunk? := null;
    ghost var st := Begin;
    NothingBuilt();
    for i := 0 to |lines|
      invariant Building(patchset, currentPatch, currentChunk, st)
      invariant FeedAll(Begin, lines) == FeedAll(st, lines[i..])
      invariant currentPatch != null ==> fresh(currentPatch)
      invariant currentChunk != null ==> fresh(currentChunk)
    {
      var line := lines[i];
      FeedAllStep(st, lines, i);
      SameLength(patchset, st);
      var m := MatchPrefix("--- ", line);
      if m.Some? {
        patchset, currentPatch := StartPatch(patchset, m.value, currentChunk, st);
        st := Feed(st, line).value;
        continue;
      }
      m := MatchPrefix("+++ ", line);
      if m.Some? {
        if currentPatch == null {
          return Failure(NoCurrentPatch);
        }
        NameTarget(currentPatch, m.value, patchset, currentChunk, st);
        st := Feed(st, line).value;
        continue;
      }
      var start := MatchChunkStart(line);
      if start.Some? {
        if currentPatch == null {
          return Failure(NoCurrentPatch);
        }
        currentChunk := StartChunk(currentPatch, start.value.0, start.value.1, patchset, currentChunk, st);
        st := Feed(st, line).value;
        continue;
      }
      var side := Src;
      m := MatchPrefix("-", line);
      if m == None {
        side := Dst;
        m := MatchPrefix("+", line);
      }
      if m == None {
        side := Both;
        m := MatchPrefix(" ", line);
      }
      if m == None {
        return Failure(UnknownLine);
      }
      if currentChunk == null {
        return Failure(NoCurrentChunk);
      }
      AppendLine(currentChunk, ChunkLine(side, m.value), patchset, currentPatch, st);
      st := Feed(st, line).value;
    }
    FeedNothing(st, lines);
    r := Success(patchset);
  }

  lemma FeedNothing(st: State, lines: seq<string>)
    requires Valid(st)
    ensures FeedAll(st, lines[|lines|..]) == Success(st)
  {
    assert lines[|lines|..] == [];
  }

  lemma SameLength(ps: seq<Patch>, st: State)
    requires HoldAll(ps, st.patches)
    ensures |ps| == |st.patches|
  {
  }

  lemma NothingBuilt()
    ensures Building([], null, null, Begin)
  {
  }
}
