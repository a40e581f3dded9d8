/**
 * lib/proxy/stream_filter.py: the stream filter that matches its finish
 * pattern against the buffer with ANSI control sequences removed, so that a
 * coloured prompt is still recognised, while the bytes it shows keep their
 * colouring. The visible text is copied chunk by chunk, and two parallel
 * tables remember where each chunk starts in the original buffer and in the
 * copy; the end of the match in the copy is mapped back to the original
 * through them.
 *
 * `MapFrom` is the reference for that mapping: the position in the original
 * just after the e-th visible byte. The method `ChunkTable` builds the copy
 * and the tables with the loop of the source and is proved to agree with
 * `Remove` and `MapFrom`.
 */
module ProxyStreamFilter {
  import opened Common
  import opened ControlSequences
  import opened StreamFilters

  /** The position in s, scanning from pos, just after the e-th byte that
      is not part of a control sequence. */
  function MapFrom(s: string, pos: nat, e: nat): (q: nat)
    requires pos <= |s| && 0 < e <= |RemoveFrom(AnyLetter, s, pos)|
    ensures pos < q <= |s|
    decreases |s| - pos
  {
    match Next(AnyLetter, s, pos)
    case None => pos + e
    case Some((a, b)) => if e <= a - pos then pos + e else MapFrom(s, b, e - (a - pos))
  }

  /** A prefix of s that ends before any control sequence starting at or
      after pos has no control sequence from pos. */
  lemma PrefixClean(s: string, pos: nat, q: nat)
    requires pos <= q <= |s|
    requires Next(AnyLetter, s, pos).None? || q <= Next(AnyLetter, s, pos).value.0
    ensures Next(AnyLetter, s[..q], pos) == None
  {
    var t := s[..q];
    forall i, j | pos <= i < j < |t| && t[i] == '[' ensures !Final(AnyLetter, t[j]) {
      assert t[i] == s[i] && t[j] == s[j];
    }
  }

  /** A prefix of s that contains the first control sequence from pos finds
      it there too. */
  lemma PrefixNext(s: string, pos: nat, q: nat)
    requires pos <= q <= |s|
    requires Next(AnyLetter, s, pos).Some? && Next(AnyLetter, s, pos).value.1 <= q
    ensures Next(AnyLetter, s[..q], pos) == Next(AnyLetter, s, pos)
  {
    var t := s[..q];
    var (a, b) := Next(AnyLetter, s, pos).value;
    assert t[a] == '[' && t[b - 1] == s[b - 1];
    var r := Next(AnyLetter, t, pos);
    assert r.Some?;
    assert r.value.0 == a by {
      assert t[r.value.0] == s[r.value.0];
    }
    assert r.value.1 == b by {
      assert t[r.value.1 - 1] == s[r.value.1 - 1];
    }
  }

  /** The visible text from pos starts with the run of visible bytes there. */
  lemma RunPrefix(s: string, pos: nat, e: nat)
    requires pos <= |s|
    requires Next(AnyLetter, s, pos).None? ==> pos + e <= |s|
    requires Next(AnyLetter, s, pos).Some? ==> pos + e <= Next(AnyLetter, s, pos).value.0
    ensures e <= |RemoveFrom(AnyLetter, s, pos)|
    ensures RemoveFrom(AnyLetter, s, pos)[..e] == s[pos..pos + e]
  {
    match Next(AnyLetter, s, pos)
    case None =>
    case Some((a, b)) =>
      var rest := RemoveFrom(AnyLetter, s, b);
      assert (s[pos..a] + rest)[..e] == s[pos..pos + e];
  }

  /** A cut inside the run of visible bytes that starts at pos keeps the
      first e of them. */
  lemma SplitInRun(s: string, pos: nat, e: nat)
    requires pos <= |s|
    requires Next(AnyLetter, s, pos).None? ==> pos + e <= |s|
    requires Next(AnyLetter, s, pos).Some? ==> pos + e <= Next(AnyLetter, s, pos).value.0
    ensures e <= |RemoveFrom(AnyLetter, s, pos)|
    ensures RemoveFrom(AnyLetter, s[..pos + e], pos) == RemoveFrom(AnyLetter, s, pos)[..e]
  {
    var t := s[..pos + e];
    PrefixClean(s, pos, pos + e);
    assert RemoveFrom(AnyLetter, t, pos) == t[pos..] == s[pos..pos + e];
    RunPrefix(s, pos, e);
  }

  /** A cut after the first control sequence from pos keeps the run before
      it and whatever the cut keeps of the rest. */
  lemma SplitAfterNext(s: string, pos: nat, q: nat)
    requires pos <= |s| && Next(AnyLetter, s, pos).Some?
    requires Next(AnyLetter, s, pos).value.1 <= q <= |s|
    ensures var (a, b) := Next(AnyLetter, s, pos).value;
      && RemoveFrom(AnyLetter, s[..q], pos) == s[pos..a] + RemoveFrom(AnyLetter, s[..q], b)
      && RemoveFrom(AnyLetter, s, pos) == s[pos..a] + RemoveFrom(AnyLetter, s, b)
  {
    var (a, b) := Next(AnyLetter, s, pos).value;
    var t := s[..q];
    PrefixNext(s, pos, q);
    assert t[pos..a] == s[pos..a];
  }

  /** The original bytes up to the mapped position show exactly the first e
      visible bytes: the cut falls outside every control sequence. */
  lemma {:induction false} MapFromSplit(s: string, pos: nat, e: nat)
    requires pos <= |s| && 0 < e <= |RemoveFrom(AnyLetter, s, pos)|
    ensures RemoveFrom(AnyLetter, s[..MapFrom(s, pos, e)], pos) == RemoveFrom(AnyLetter, s, pos)[..e]
    decreases |s| - pos
  {
    match Next(AnyLetter, s, pos)
    case None =>
      SplitInRun(s, pos, e);
    case Some((a, b)) =>
      if e <= a - pos {
        SplitInRun(s, pos, e);
      } else {
        var e' := e - (a - pos);
        var q := MapFrom(s, b, e');
        MapFromSplit(s, b, e');
        SplitAfterNext(s, pos, q);
        ConcatPrefix(s[pos..a], RemoveFrom(AnyLetter, s, b), e');
      }
  }

  /** A prefix of a concatenation reaching into its second part. */
  lemma ConcatPrefix(x: string, y: string, n: nat)
    requires n <= |y|
    ensures (x + y)[..|x| + n] == x + y[..n]
  {
  }

  /** The position in s just after its e-th visible byte. */
  function MapOffset(s: string, e: nat): (q: nat)
    requires 0 < e <= |Remove(AnyLetter, s)|
    ensures 0 < q <= |s|
    ensures Remove(AnyLetter, s[..q]) == Remove(AnyLetter, s)[..e]
  {
    MapFromSplit(s, 0, e);
    MapFrom(s, 0, e)
  }

  /** `filter(data)` of the control-sequence-aware filter. The match is
      searched in the visible text; its end is mapped back to the original
      buffer. A match ending at 0 fails the source's `assert idx > 0`, after
      the matcher has been cleared. */
  function FeedVisible(engine: Engine, f: Filter, data: string): (r: (Filter, Result<Reply>))
  {
    if !Armed(f) then (f, Ok(Reply(data, None)))
    else
      var buf := f.buffer + data;
      var visible := Remove(AnyLetter, buf);
      match Search(engine, f.matcher.value, visible)
      case None => (Stream(buf, f.matcher), Ok(Reply([], None)))
      case Some(m) =>
        if m.end == 0 then (Stream(buf, None), Raise("AssertionError"))
        else (Stream([], None), Ok(Reply(buf[MapOffset(buf, m.end)..], Some(visible[..m.end]))))
  }

  /** On a match the filter hands over the visible text up to the match end
      and shows the original bytes after the mapped position; the original
      bytes before that position are exactly the ones whose visible text was
      concealed, so nothing is lost and no colouring is dropped from the part
      shown. Without a match it shows nothing and keeps everything. */
  lemma FeedVisibleSplits(engine: Engine, f: Filter, data: string)
    requires Armed(f)
    ensures var (g, r) := FeedVisible(engine, f, data);
      var buf := f.buffer + data;
      var m := Search(engine, f.matcher.value, Remove(AnyLetter, buf));
      && (m.None? ==> r == Ok(Reply([], None)) && g == Stream(buf, f.matcher))
      && (m.Some? && m.value.end == 0 ==> r.Raise? && g.matcher.None?)
      && (m.Some? && m.value.end > 0 ==>
            && r.Ok? && r.value.filtered.Some? && g == Stream([], None)
            && exists q :: 0 < q <= |buf|
                 && r.value.filtered.value == Remove(AnyLetter, buf[..q])
                 && buf[..q] + r.value.output == buf
                 && |r.value.filtered.value| == m.value.end)
  {
    var buf := f.buffer + data;
    var visible := Remove(AnyLetter, buf);
    var m := Search(engine, f.matcher.value, visible);
    if m.Some? && m.value.end > 0 {
      var q := MapOffset(buf, m.value.end);
      assert buf[..q] + buf[q..] == buf;
      assert Remove(AnyLetter, buf[..q]) == visible[..m.value.end];
    }
  }

  /** A buffer without control sequences behaves as lib/stream_filter.py. */
  lemma FeedVisiblePlain(engine: Engine, f: Filter, data: string)
    requires Armed(f) && Clean(AnyLetter, f.buffer + data)
    requires Search(engine, f.matcher.value, f.buffer + data).None?
          || Search(engine, f.matcher.value, f.buffer + data).value.end > 0
    ensures FeedVisible(engine, f, data) == (Feed(engine, f, data).0, Ok(Feed(engine, f, data).1))
  {
    var buf := f.buffer + data;
    RemoveClean(AnyLetter, buf);
    var m := Search(engine, f.matcher.value, buf);
    if m.Some? {
      MapFromIdentity(buf, 0, m.value.end);
    }
  }

  /** In text without control sequences the e-th visible byte is the e-th byte. */
  lemma {:induction false} MapFromIdentity(s: string, pos: nat, e: nat)
    requires pos <= |s| && CleanFrom(AnyLetter, s, pos) && 0 < e <= |RemoveFrom(AnyLetter, s, pos)|
    ensures MapFrom(s, pos, e) == pos + e
  {
  }

  // ---------------------------------------------------------------------
  // The chunk tables of `filter`

  /** Where chunk k ends in the visible copy. */
  function ChunkEnd(visible: string, offVisible: seq<nat>, k: nat): nat
    requires k < |offVisible|
  {
    if k + 1 < |offVisible| then offVisible[k + 1] else |visible|
  }

  /** Where chunk k ends in the original buffer. */
  function ChunkEndInBuffer(visible: string, offBuf: seq<nat>, offVisible: seq<nat>, k: nat): int
    requires k < |offVisible| == |offBuf|
  {
    offBuf[k] + (ChunkEnd(visible, offVisible, k) - offVisible[k])
  }

  /** Chunk k of the copy is not empty, lies inside the copy, equals the
      bytes of the original at its recorded offset and ends, in the
      original, before the next chunk starts. */
  ghost predicate ChunkAt(buf: string, visible: string, offBuf: seq<nat>, offVisible: seq<nat>, k: nat)
    requires |offBuf| == |offVisible|
  {
    k < |offVisible| ==>
      && offVisible[k] < ChunkEnd(visible, offVisible, k) <= |visible|
      && ChunkEndInBuffer(visible, offBuf, offVisible, k) <= |buf|
      && visible[offVisible[k]..ChunkEnd(visible, offVisible, k)]
         == buf[offBuf[k]..ChunkEndInBuffer(visible, offBuf, offVisible, k)]
      && (k + 1 < |offVisible| ==> ChunkEndInBuffer(visible, offBuf, offVisible, k) < offBuf[k + 1])
  }

  /** The copy and its two offset tables: one entry per non-empty chunk, the
      copy's table starting at 0, both tables strictly increasing, each chunk
      of the copy equal to the bytes of the original at its recorded offset. */
  ghost predicate Chunks(buf: string, visible: string, offBuf: seq<nat>, offVisible: seq<nat>)
  {
    && |offBuf| == |offVisible|
    && (offVisible == [] ==> visible == [])
    && (offVisible != [] ==> offVisible[0] == 0)
    && forall k: nat :: ChunkAt(buf, visible, offBuf, offVisible, k)
  }

  /** The visible position e, if it lies inside chunk k, maps to the same
      position of the original chunk. */
  ghost predicate MappedAt(buf: string, visible: string, offBuf: seq<nat>, offVisible: seq<nat>, k: nat, e: nat)
    requires |offBuf| == |offVisible|
  {
    k < |offVisible| && offVisible[k] < e <= ChunkEnd(visible, offVisible, k) ==>
      e <= |RemoveFrom(AnyLetter, buf, 0)| && MapFrom(buf, 0, e) == offBuf[k] + e - offVisible[k]
  }

  /** Every visible position inside a chunk maps to the same position of the
      original chunk. */
  ghost predicate ChunksMapped(buf: string, visible: string, offBuf: seq<nat>, offVisible: seq<nat>)
    requires |offBuf| == |offVisible|
  {
    forall k: nat, e: nat :: MappedAt(buf, visible, offBuf, offVisible, k, e)
  }

  lemma ChunksMappedAt(buf: string, visible: string, offBuf: seq<nat>, offVisible: seq<nat>, k: nat, e: nat)
    requires |offBuf| == |offVisible| && ChunksMapped(buf, visible, offBuf, offVisible)
    requires k < |offVisible| && offVisible[k] < e <= ChunkEnd(visible, offVisible, k)
    ensures e <= |RemoveFrom(AnyLetter, buf, 0)| && MapFrom(buf, 0, e) == offBuf[k] + e - offVisible[k]
  {
    assert MappedAt(buf, visible, offBuf, offVisible, k, e);
  }

  /** The visible position e of buf[offset..] maps, counted from the start,
      as it does from offset once `copied` visible bytes precede it. */
  ghost predicate RestAt(buf: string, copied: nat, offset: nat, e: nat)
    requires offset <= |buf|
  {
    0 < e <= |RemoveFrom(AnyLetter, buf, offset)| ==>
      copied + e <= |RemoveFrom(AnyLetter, buf, 0)| && MapFrom(buf, 0, copied + e) == MapFrom(buf, offset, e)
  }

  /** Visible positions past the copied part map as they do from `offset`. */
  ghost predicate RestMapped(buf: string, copied: nat, offset: nat)
    requires offset <= |buf|
  {
    forall e: nat :: RestAt(buf, copied, offset, e)
  }

  lemma RestMappedAt(buf: string, copied: nat, offset: nat, e: nat)
    requires offset <= |buf| && RestMapped(buf, copied, offset)
    requires 0 < e <= |RemoveFrom(AnyLetter, buf, offset)|
    ensures copied + e <= |RemoveFrom(AnyLetter, buf, 0)|
    ensures MapFrom(buf, 0, copied + e) == MapFrom(buf, offset, e)
  {
    assert RestAt(buf, copied, offset, e);
  }

  /** Both tables strictly increase. */
  lemma {:induction false} ChunksIncreasing(buf: string, visible: string, offBuf: seq<nat>, offVisible: seq<nat>, i: nat, j: nat)
    requires Chunks(buf, visible, offBuf, offVisible)
    requires i < j < |offVisible|
    ensures offVisible[i] < offVisible[j] && offBuf[i] < offBuf[j]
    decreases j - i
  {
    assert ChunkAt(buf, visible, offBuf, offVisible, i);
    if i + 1 < j {
      ChunksIncreasing(buf, visible, offBuf, offVisible, i + 1, j);
    }
  }

  /** Appending a chunk leaves the ends of the earlier chunks where they were. */
  lemma AppendKeepsEnds(visible: string, offBuf: seq<nat>, offVisible: seq<nat>, chunk: string, offset: nat)
    requires |offBuf| == |offVisible|
    ensures var v', ob', ov' := visible + chunk, offBuf + [offset], offVisible + [|visible|];
      && (forall k :: 0 <= k < |offVisible| ==> ChunkEnd(v', ov', k) == ChunkEnd(visible, offVisible, k))
      && (forall k :: 0 <= k < |offVisible| ==>
            ChunkEndInBuffer(v', ob', ov', k) == ChunkEndInBuffer(visible, offBuf, offVisible, k))
      && ChunkEnd(v', ov', |offVisible|) == |visible| + |chunk|
      && ChunkEndInBuffer(v', ob', ov', |offVisible|) == offset + |chunk|
  {
  }

  /** Appending the chunk buf[offset..a], which starts after the last chunk
      ends, keeps the tables consistent. */
  lemma AppendChunk(buf: string, visible: string, offBuf: seq<nat>, offVisible: seq<nat>, offset: nat, a: nat)
    requires offset < a <= |buf|
    requires Chunks(buf, visible, offBuf, offVisible)
    requires offVisible != [] ==> ChunkEndInBuffer(visible, offBuf, offVisible, |offVisible| - 1) < offset
    ensures Chunks(buf, visible + buf[offset..a], offBuf + [offset], offVisible + [|visible|])
  {
    var v', ob', ov' := visible + buf[offset..a], offBuf + [offset], offVisible + [|visible|];
    var n := |offVisible|;
    AppendKeepsEnds(visible, offBuf, offVisible, buf[offset..a], offset);
    forall k: nat ensures ChunkAt(buf, v', ob', ov', k) {
      if k < n {
        assert ChunkAt(buf, visible, offBuf, offVisible, k);
        assert v'[ov'[k]..ChunkEnd(v', ov', k)] == visible[offVisible[k]..ChunkEnd(visible, offVisible, k)];
      } else if k == n {
        assert v'[ov'[k]..ChunkEnd(v', ov', k)] == buf[offset..a];
      }
    }
  }

  /** The run of visible bytes starting at offset ends at a: where the next
      control sequence starts, or at the end of the buffer. */
  ghost predicate RunEnd(buf: string, offset: nat, a: nat)
    requires offset <= |buf|
  {
    match Next(AnyLetter, buf, offset)
    case None => a == |buf|
    case Some((x, _)) => a == x
  }

  /** Inside that run the e-th visible byte from offset is the e-th byte. */
  lemma RunMaps(buf: string, offset: nat, a: nat, e: nat)
    requires offset <= |buf| && RunEnd(buf, offset, a)
    requires 0 < e <= a - offset
    ensures e <= |RemoveFrom(AnyLetter, buf, offset)|
    ensures MapFrom(buf, offset, e) == offset + e
  {
  }

  /** One position of the chunk table after appending buf[offset..a]. */
  lemma AppendMappedAt(buf: string, visible: string, offBuf: seq<nat>, offVisible: seq<nat>, offset: nat, a: nat, k: nat, e: nat)
    requires offset < a <= |buf| && RunEnd(buf, offset, a)
    requires |offBuf| == |offVisible| && ChunksMapped(buf, visible, offBuf, offVisible)
    requires RestMapped(buf, |visible|, offset)
    requires k <= |offVisible|
    requires (offVisible + [|visible|])[k] < e <= ChunkEnd(visible + buf[offset..a], offVisible + [|visible|], k)
    ensures e <= |RemoveFrom(AnyLetter, buf, 0)|
    ensures MapFrom(buf, 0, e) == (offBuf + [offset])[k] + e - (offVisible + [|visible|])[k]
  {
    AppendKeepsEnds(visible, offBuf, offVisible, buf[offset..a], offset);
    if k < |offVisible| {
      ChunksMappedAt(buf, visible, offBuf, offVisible, k, e);
    } else {
      RunMaps(buf, offset, a, e - |visible|);
      RestMappedAt(buf, |visible|, offset, e - |visible|);
    }
  }

  /** Appending the run buf[offset..a] keeps every copied position mapped. */
  lemma AppendMapped(buf: string, visible: string, offBuf: seq<nat>, offVisible: seq<nat>, offset: nat, a: nat)
    requires offset < a <= |buf| && RunEnd(buf, offset, a)
    requires |offBuf| == |offVisible| && ChunksMapped(buf, visible, offBuf, offVisible)
    requires RestMapped(buf, |visible|, offset)
    ensures ChunksMapped(buf, visible + buf[offset..a], offBuf + [offset], offVisible + [|visible|])
  {
    var v', ob', ov' := visible + buf[offset..a], offBuf + [offset], offVisible + [|visible|];
    forall k: nat, e: nat ensures MappedAt(buf, v', ob', ov', k, e) {
      if k < |ov'| && ov'[k] < e <= ChunkEnd(v', ov', k) {
        AppendMappedAt(buf, visible, offBuf, offVisible, offset, a, k, e);
      }
    }
  }

  /** Stepping over the run buf[offset..a] and the control sequence
      buf[a..b] keeps the positions past the copied part mapped. */
  lemma SkipMapped(buf: string, copied: nat, offset: nat)
    requires offset <= |buf| && Next(AnyLetter, buf, offset).Some?
    requires RestMapped(buf, copied, offset)
    ensures var (a, b) := Next(AnyLetter, buf, offset).value;
      RestMapped(buf, copied + (a - offset), b)
  {
    var (a, b) := Next(AnyLetter, buf, offset).value;
    assert RemoveFrom(AnyLetter, buf, offset) == buf[offset..a] + RemoveFrom(AnyLetter, buf, b);
    var c := copied + (a - offset);
    forall e: nat ensures RestAt(buf, c, b, e) {
      if 0 < e <= |RemoveFrom(AnyLetter, buf, b)| {
        RestMappedAt(buf, copied, offset, (a - offset) + e);
        assert MapFrom(buf, offset, (a - offset) + e) == MapFrom(buf, b, e);
      }
    }
  }

  /** The invariant of the loop of `filter`: the copy so far plus what
      remains to be copied from offset is the visible text; the tables
      describe the copy; the last chunk ends before offset; visible positions
      still to be copied map as they do from offset. */
  ghost predicate TableInv(buf: string, visible: string, offBuf: seq<nat>, offVisible: seq<nat>, offset: nat)
  {
    && offset <= |buf|
    && visible + RemoveFrom(AnyLetter, buf, offset) == Remove(AnyLetter, buf)
    && Chunks(buf, visible, offBuf, offVisible)
    && ChunksMapped(buf, visible, offBuf, offVisible)
    && (offVisible != [] ==> ChunkEndInBuffer(visible, offBuf, offVisible, |offVisible| - 1) < offset)
    && RestMapped(buf, |visible|, offset)
  }

  lemma ConcatAssoc(x: string, y: string, z: string)
    ensures (x + y) + z == x + (y + z)
  {
  }

  lemma SeqAssoc(x: seq<nat>, y: seq<nat>, z: seq<nat>)
    ensures (x + y) + z == x + (y + z)
  {
  }

  /** One turn of the loop when a control sequence starts right at offset:
      nothing is appended and the scan continues after it. */
  lemma TableSkip(buf: string, visible: string, offBuf: seq<nat>, offVisible: seq<nat>, offset: nat)
    requires TableInv(buf, visible, offBuf, offVisible, offset)
    requires Next(AnyLetter, buf, offset).Some? && Next(AnyLetter, buf, offset).value.0 == offset
    ensures TableInv(buf, visible, offBuf, offVisible, Next(AnyLetter, buf, offset).value.1)
  {
    var b := Next(AnyLetter, buf, offset).value.1;
    SkipMapped(buf, |visible|, offset);
    assert RemoveFrom(AnyLetter, buf, offset) == RemoveFrom(AnyLetter, buf, b);
  }

  /** One turn of the loop when visible bytes precede the next control
      sequence: they are appended as a chunk and the scan continues after
      the control sequence. */
  lemma TableAppend(buf: string, visible: string, offBuf: seq<nat>, offVisible: seq<nat>, offset: nat)
    requires TableInv(buf, visible, offBuf, offVisible, offset)
    requires Next(AnyLetter, buf, offset).Some? && Next(AnyLetter, buf, offset).value.0 > offset
    ensures var (a, b) := Next(AnyLetter, buf, offset).value;
      TableInv(buf, visible + buf[offset..a], offBuf + [offset], offVisible + [|visible|], b)
  {
    var (a, b) := Next(AnyLetter, buf, offset).value;
    SkipMapped(buf, |visible|, offset);
    AppendChunk(buf, visible, offBuf, offVisible, offset, a);
    AppendMapped(buf, visible, offBuf, offVisible, offset, a);
    AppendKeepsEnds(visible, offBuf, offVisible, buf[offset..a], offset);
    ConcatAssoc(visible, buf[offset..a], RemoveFrom(AnyLetter, buf, b));
  }

  /** The finished copy and tables: the copy is the visible text, the tables
      describe it and map every visible position back to the original. */
  ghost predicate Table(buf: string, visible: string, offBuf: seq<nat>, offVisible: seq<nat>)
  {
    && visible == Remove(AnyLetter, buf)
    && Chunks(buf, visible, offBuf, offVisible)
    && ChunksMapped(buf, visible, offBuf, offVisible)
  }

  /** After the last control sequence the rest of the buffer, if any, is the
      last chunk. */
  lemma TableLast(buf: string, visible: string, offBuf: seq<nat>, offVisible: seq<nat>, offset: nat)
    requires TableInv(buf, visible, offBuf, offVisible, offset)
    requires Next(AnyLetter, buf, offset).None?
    ensures offset == |buf| ==> Table(buf, visible, offBuf, offVisible)
    ensures offset < |buf| ==>
      Table(buf, visible + buf[offset..], offBuf + [offset], offVisible + [|visible|])
  {
    assert RemoveFrom(AnyLetter, buf, offset) == buf[offset..];
    if offset < |buf| {
      AppendChunk(buf, visible, offBuf, offVisible, offset, |buf|);
      AppendMapped(buf, visible, offBuf, offVisible, offset, |buf|);
      assert buf[offset..|buf|] == buf[offset..];
    }
  }

  /** Before the loop nothing is copied and the scan starts at 0. */
  lemma TableStart(buf: string)
    ensures TableInv(buf, [], [], [], 0)
  {
    assert [] + RemoveFrom(AnyLetter, buf, 0) == Remove(AnyLetter, buf);
    forall e: nat ensures RestAt(buf, 0, 0, e) {
      assert 0 + e == e;
    }
  }

  datatype Tables = Tables(visible: string, offBuf: seq<nat>, offVisible: seq<nat>)

  /** The copy and the two tables that the loop of `filter` produces for
      buf[pos..] once `copied` visible bytes have been copied before pos. */
  ghost function TablesFrom(buf: string, pos: nat, copied: nat): Tables
    requires pos <= |buf|
    decreases |buf| - pos
  {
    match Next(AnyLetter, buf, pos)
    case None => if pos < |buf| then Tables(buf[pos..], [pos], [copied]) else Tables([], [], [])
    case Some((a, b)) =>
      var t := TablesFrom(buf, b, copied + (a - pos));
      if a > pos then Tables(buf[pos..a] + t.visible, [pos] + t.offBuf, [copied] + t.offVisible) else t
  }

  /** The tables built so far followed by the ones still to be built. */
  function Combine(visible: string, offBuf: seq<nat>, offVisible: seq<nat>, rest: Tables): Tables
  {
    Tables(visible + rest.visible, offBuf + rest.offBuf, offVisible + rest.offVisible)
  }

  /** One turn of the loop moves a chunk from the tables still to be built
      to the ones built so far, leaving the whole unchanged. */
  lemma TablesStep(buf: string, visible: string, offBuf: seq<nat>, offVisible: seq<nat>, offset: nat)
    requires offset <= |buf| && Next(AnyLetter, buf, offset).Some?
    ensures var (a, b) := Next(AnyLetter, buf, offset).value;
      var whole := Combine(visible, offBuf, offVisible, TablesFrom(buf, offset, |visible|));
      && (a == offset ==> Combine(visible, offBuf, offVisible, TablesFrom(buf, b, |visible|)) == whole)
      && (a > offset ==>
            Combine(visible + buf[offset..a], offBuf + [offset], offVisible + [|visible|],
                    TablesFrom(buf, b, |visible + buf[offset..a]|)) == whole)
  {
    var (a, b) := Next(AnyLetter, buf, offset).value;
    var rest := TablesFrom(buf, b, |visible| + (a - offset));
    if a > offset {
      ConcatAssoc(visible, buf[offset..a], rest.visible);
      SeqAssoc(offBuf, [offset], rest.offBuf);
      SeqAssoc(offVisible, [|visible|], rest.offVisible);
    } else {
      assert TablesFrom(buf, offset, |visible|) == rest;
    }
  }

  /** Whatever the loop has built so far, finishing it yields a correct table. */
  lemma {:induction false} TablesFromCorrect(buf: string, visible: string, offBuf: seq<nat>, offVisible: seq<nat>, offset: nat)
    requires TableInv(buf, visible, offBuf, offVisible, offset)
    ensures var t := Combine(visible, offBuf, offVisible, TablesFrom(buf, offset, |visible|));
      Table(buf, t.visible, t.offBuf, t.offVisible)
    decreases |buf| - offset
  {
    match Next(AnyLetter, buf, offset)
    case None =>
      TableLast(buf, visible, offBuf, offVisible, offset);
      if offset == |buf| {
        assert visible + [] == visible && offBuf + [] == offBuf && offVisible + [] == offVisible;
      }
    case Some((a, b)) =>
      TablesStep(buf, visible, offBuf, offVisible, offset);
      if a > offset {
        TableAppend(buf, visible, offBuf, offVisible, offset);
        TablesFromCorrect(buf, visible + buf[offset..a], offBuf + [offset], offVisible + [|visible|], b);
      } else {
        TableSkip(buf, visible, offBuf, offVisible, offset);
        TablesFromCorrect(buf, visible, offBuf, offVisible, b);
      }
  }

  /** `list.append` on an offset table. */
  function Push(xs: seq<nat>, x: nat): (r: seq<nat>)
    ensures r == xs + [x]
  {
    xs + [x]
  }

  /** The loop of `filter` over the control sequences of the buffer: the
      visible copy and the two offset tables. */
  method ChunkTable(buf: string) returns (visible: string, offBuf: seq<nat>, offVisible: seq<nat>)
    ensures Table(buf, visible, offBuf, offVisible)
  {
    visible, offBuf, offVisible := [], [], [];
    var offset := 0;
    var m := Next(AnyLetter, buf, 0);
    TableStart(buf);
    TablesFromCorrect(buf, [], [], [], 0);
    ghost var whole := Combine([], [], [], TablesFrom(buf, 0, 0));
    while m.Some?
      invariant offset <= |buf| && m == Next(AnyLetter, buf, offset)
      invariant Combine(visible, offBuf, offVisible, TablesFrom(buf, offset, |visible|)) == whole
      decreases |buf| - offset
    {
      var (a, b) := m.value;
      TablesStep(buf, visible, offBuf, offVisible, offset);
      if a > offset {
        offVisible := Push(offVisible, |visible|);
        offBuf := Push(offBuf, offset);
        visible := visible + buf[offset..a];
      }
      offset := b;
      m := Next(AnyLetter, buf, offset);
    }
    if offset < |buf| {
      offVisible := Push(offVisible, |visible|);
      offBuf := Push(offBuf, offset);
      visible := visible + buf[offset..];
    } else {
      assert visible + [] == visible && offBuf + [] == offBuf && offVisible + [] == offVisible;
    }
  }

  /** `bisect.bisect_left(xs, x)`: the first index whose entry is not below
      x, which on a sorted list is where x would be inserted. */
  function BisectLeft(xs: seq<nat>, x: nat): (i: nat)
    ensures i <= |xs|
    ensures forall k :: 0 <= k < i ==> xs[k] < x
    ensures i < |xs| ==> xs[i] >= x
  {
    if xs == [] || xs[0] >= x then 0 else 1 + BisectLeft(xs[1..], x)
  }

  /** The mapped offset of the source lies in the original chunk holding the
      match end, and it is the reference mapping `MapOffset`; `idx > 0`
      holds exactly when the match end is positive. */
  lemma OffsetRest(buf: string, visible: string, offBuf: seq<nat>, offVisible: seq<nat>, e: nat)
    requires visible == Remove(AnyLetter, buf)
    requires Chunks(buf, visible, offBuf, offVisible) && ChunksMapped(buf, visible, offBuf, offVisible)
    requires e <= |visible|
    ensures var idx := BisectLeft(offVisible, e);
      && (idx > 0 <==> e > 0)
      && (idx > 0 ==>
            && offVisible[idx - 1] < e <= ChunkEnd(visible, offVisible, idx - 1)
            && offBuf[idx - 1] < offBuf[idx - 1] + e - offVisible[idx - 1] <= |buf|
            && offBuf[idx - 1] + e - offVisible[idx - 1] == MapOffset(buf, e))
  {
    var idx := BisectLeft(offVisible, e);
    if e > 0 {
      assert offVisible != [] && offVisible[0] == 0;
      assert idx > 0;
      var k := idx - 1;
      assert ChunkAt(buf, visible, offBuf, offVisible, k);
      assert offVisible[k] < e <= ChunkEnd(visible, offVisible, k);
      ChunksMappedAt(buf, visible, offBuf, offVisible, k, e);
    }
  }

  /** The object `StreamFilter` of lib/proxy/stream_filter.py. */
  class StreamFilter {
    var buffer: string
    var matcher: Option<string>

    function Value(): Filter
      reads this
    {
      Stream(buffer, matcher)
    }

    constructor (finish: string)
      ensures Value() == Stream([], Some(finish))
    {
      buffer := [];
      matcher := Some(finish);
    }

    method UpdateFinishMatcher(finish: string)
      modifies this
      ensures Value() == WithFinishMatcher(old(Value()), finish)
    {
      matcher := Some(finish);
    }

    method Filter(engine: Engine, data: string) returns (r: Result<Reply>)
      modifies this
      ensures (Value(), r) == FeedVisible(engine, old(Value()), data)
    {
      if matcher.None? {
        return Ok(Reply(data, None));
      }
      buffer := buffer + data;
      var visible, offBuf, offVisible := ChunkTable(buffer);
      var m := Search(engine, matcher.value, visible);
      if m.Some? {
        matcher := None;
        var filtered := visible[..m.value.end];
        var idx := BisectLeft(offVisible, m.value.end);
        OffsetRest(buffer, visible, offBuf, offVisible, m.value.end);
        if idx == 0 {
          return Raise("AssertionError");
        }
        var offsetRest := offBuf[idx - 1] + m.value.end - offVisible[idx - 1];
        var output := buffer[offsetRest..];
        buffer := [];
        return Ok(Reply(output, Some(filtered)));
      }
      return Ok(Reply([], None));
    }

    method Timeout() returns (output: string)
      modifies this
      ensures (Value(), output) == Expire(old(Value()))
    {
      if matcher.Some? {
        output := buffer;
        buffer := [];
        return output;
      }
      return [];
    }
  }
}
