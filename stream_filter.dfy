/**
 * lib/stream_filter.py: the filter that conceals the debugger's echo of an
 * injected side-channel command. A `StreamFilter` is armed with a finish
 * matcher (the debugger prompt); it swallows everything it is fed until the
 * matcher fires on the accumulated buffer, then hands back the concealed
 * part and shows the rest. The plain `Filter` passes everything through.
 *
 * The filters are described as values (`Filter`, with `Feed` and
 * `Expire`), which is how the proxies keep them on their filter stack, and
 * as the class `StreamFilter`, whose methods update its two fields in place
 * and are proved to agree with the value functions.
 */
module StreamFilters {
  import opened Common

  /** `Filter()` and `StreamFilter` with its `buffer` and `matcher` fields;
      a matcher of `None` is the cleared matcher after a match. */
  datatype Filter = Passthrough | Stream(buffer: string, matcher: Option<string>)

  /** What `filter` returns: the bytes to show, and the concealed bytes up to
      and including the finish match once it has fired. */
  datatype Reply = Reply(output: string, filtered: Option<string>)

  /** A filter that will conceal bytes: a stream filter with its matcher set. */
  predicate Armed(f: Filter) { f.Stream? && f.matcher.Some? }

  /** Bytes held back and not yet shown or handed over. */
  function Pending(f: Filter): string
  {
    if f.Stream? then f.buffer else []
  }

  /** A filter never holds bytes it can no longer release: a cleared matcher
      comes with an empty buffer. */
  predicate Inv(f: Filter) { Armed(f) || Pending(f) == [] }

  /** The bytes a reply hands out, concealed part first. */
  function Released(r: Reply): string
  {
    (if r.filtered.Some? then r.filtered.value else []) + r.output
  }

  /** `filter(data)`: the next filter and the reply. */
  function Feed(engine: Engine, f: Filter, data: string): (Filter, Reply)
  {
    if !Armed(f) then (f, Reply(data, None))
    else
      var buf := f.buffer + data;
      match Search(engine, f.matcher.value, buf)
      case Some(m) => (Stream([], None), Reply(buf[m.end..], Some(buf[..m.end])))
      case None => (Stream(buf, f.matcher), Reply([], None))
  }

  /** `timeout()`: the next filter and the bytes released. */
  function Expire(f: Filter): (Filter, string)
  {
    if Armed(f) then (Stream([], f.matcher), f.buffer) else (f, [])
  }

  /** `update_finish_matcher(finish_re)` on a stream filter. */
  function WithFinishMatcher(f: Filter, finish: string): (g: Filter)
    requires f.Stream?
    ensures g.Stream? && g.matcher == Some(finish)
    ensures Pending(g) == Pending(f)
  {
    f.(matcher := Some(finish))
  }

  /** Feeding loses and duplicates nothing: what was pending plus the new
      data is what the reply releases plus what stays pending. The pending
      bytes are a prefix of what is released next. */
  lemma FeedConserves(engine: Engine, f: Filter, data: string)
    requires Inv(f)
    ensures Inv(Feed(engine, f, data).0)
    ensures Pending(f) + data == Released(Feed(engine, f, data).1) + Pending(Feed(engine, f, data).0)
  {
    if Armed(f) {
      var buf := f.buffer + data;
      match Search(engine, f.matcher.value, buf)
      case Some(m) =>
        assert buf[..m.end] + buf[m.end..] == buf;
      case None =>
    }
  }

  /** While no match occurs the filter shows nothing and accumulates
      everything; when the match occurs the concealed part runs exactly up
      to the match end and the rest is shown; afterwards the filter is spent. */
  lemma FeedArmed(engine: Engine, f: Filter, data: string)
    requires Armed(f)
    ensures var (g, r) := Feed(engine, f, data);
      && (r.filtered.None? <==> Search(engine, f.matcher.value, f.buffer + data).None?)
      && (r.filtered.None? ==> r.output == [] && g == Stream(f.buffer + data, f.matcher))
      && (r.filtered.Some? ==>
            && r.filtered.value + r.output == f.buffer + data
            && |r.filtered.value| == Search(engine, f.matcher.value, f.buffer + data).value.end
            && g == Stream([], None))
  {
    var buf := f.buffer + data;
    if Search(engine, f.matcher.value, buf).Some? {
      var m := Search(engine, f.matcher.value, buf).value;
      assert buf[..m.end] + buf[m.end..] == buf;
    }
  }

  /** `timeout` releases the held bytes of an armed filter and keeps it
      armed; any other filter releases nothing. */
  lemma TimeoutReleases(f: Filter)
    requires Inv(f)
    ensures var (g, out) := Expire(f);
      && Inv(g) && Pending(g) == [] && out == Pending(f)
      && Armed(g) == Armed(f)
  {
  }

  /** Applying `filter` to each chunk in turn: the final filter and the
      replies in order. */
  function FeedAll(engine: Engine, f: Filter, chunks: seq<string>): (Filter, seq<Reply>)
    decreases |chunks|
  {
    if chunks == [] then (f, [])
    else
      var (g, rs) := FeedAll(engine, f, chunks[..|chunks| - 1]);
      var (h, r) := Feed(engine, g, chunks[|chunks| - 1]);
      (h, rs + [r])
  }

  function Concat(xs: seq<string>): string
  {
    if xs == [] then [] else Concat(xs[..|xs| - 1]) + xs[|xs| - 1]
  }

  function ReleasedAll(rs: seq<Reply>): string
  {
    if rs == [] then [] else ReleasedAll(rs[..|rs| - 1]) + Released(rs[|rs| - 1])
  }

  lemma ReleasedAllSnoc(rs: seq<Reply>, r: Reply)
    ensures ReleasedAll(rs + [r]) == ReleasedAll(rs) + Released(r)
  {
    assert (rs + [r])[..|rs|] == rs;
  }

  /** Over any run of `filter` calls, the bytes released, in order, followed
      by those still pending, are the pending bytes at the start followed by
      everything fed. */
  lemma {:induction false} FeedAllConserves(engine: Engine, f: Filter, chunks: seq<string>)
    requires Inv(f)
    ensures |FeedAll(engine, f, chunks).1| == |chunks| && Inv(FeedAll(engine, f, chunks).0)
    ensures Pending(f) + Concat(chunks)
         == ReleasedAll(FeedAll(engine, f, chunks).1) + Pending(FeedAll(engine, f, chunks).0)
    decreases |chunks|
  {
    if chunks != [] {
      var init, last := chunks[..|chunks| - 1], chunks[|chunks| - 1];
      FeedAllConserves(engine, f, init);
      var before := FeedAll(engine, f, init);
      FeedConserves(engine, before.0, last);
      var step := Feed(engine, before.0, last);
      ReleasedAllSnoc(before.1, step.1);
      assert Concat(chunks) == Concat(init) + last;
      Regroup(Pending(f), Concat(init), last, ReleasedAll(before.1), Pending(before.0),
              Released(step.1), Pending(step.0));
    }
  }

  /** Two conservation steps make one. */
  lemma Regroup(p: string, fed: string, last: string, out: string, mid: string, more: string, rest: string)
    requires p + fed == out + mid
    requires mid + last == more + rest
    ensures p + (fed + last) == (out + more) + rest
  {
    calc {
      p + (fed + last);
      (p + fed) + last;
      (out + mid) + last;
      out + (mid + last);
      out + (more + rest);
      (out + more) + rest;
    }
  }

  /** Once the matcher has fired, the filter is spent: every later call of
      `filter` shows its data unchanged and `timeout` releases nothing. */
  lemma {:induction false} SpentPassesThrough(engine: Engine, f: Filter, chunks: seq<string>)
    requires f == Stream([], None)
    ensures var (g, rs) := FeedAll(engine, f, chunks);
      && g == f && |rs| == |chunks|
      && (forall i :: 0 <= i < |rs| ==> rs[i] == Reply(chunks[i], None))
      && Expire(g) == (f, [])
    decreases |chunks|
  {
    if chunks != [] {
      SpentPassesThrough(engine, f, chunks[..|chunks| - 1]);
    }
  }

  /** The pass-through filter shows every chunk unchanged and holds nothing. */
  lemma {:induction false} PassthroughIdentity(engine: Engine, chunks: seq<string>)
    ensures var (g, rs) := FeedAll(engine, Passthrough, chunks);
      && g == Passthrough && |rs| == |chunks|
      && (forall i :: 0 <= i < |rs| ==> rs[i] == Reply(chunks[i], None))
      && Expire(g) == (Passthrough, [])
    decreases |chunks|
  {
    if chunks != [] {
      PassthroughIdentity(engine, chunks[..|chunks| - 1]);
    }
  }

  /** The bytes fed before a matcher update stay in the buffer, so the match
      of the new matcher conceals them too. */
  lemma UpdateKeepsBuffer(engine: Engine, f: Filter, finish: string, data: string)
    requires Armed(f)
    requires Search(engine, finish, f.buffer + data).Some?
    ensures var r := Feed(engine, WithFinishMatcher(f, finish), data).1;
      && r.filtered.Some?
      && r.filtered.value == (f.buffer + data)[..Search(engine, finish, f.buffer + data).value.end]
      && f.buffer <= r.filtered.value + r.output
  {
  }

  // The unit tests of lib/test_stream_filter.py, with each prompt pattern
  // written as the literal text it matches.

  const GdbPrompt := "\n(gdb) "
  const Echo := "  server nvim-gdb-breakpoint"

  /** A literal matcher whose first character has not been fed keeps
      accumulating. */
  lemma LiteralNoMatch(p: string, b: string, data: string)
    requires |p| > 0 && p[0] !in b + data
    ensures Feed(Literal, Stream(b, Some(p)), data) == (Stream(b + data, Some(p)), Reply([], None))
  {
    FindAbsent(p, b + data, 0);
  }

  /** A literal matcher fed its own text, when its first character has not
      been fed before, conceals everything. */
  lemma LiteralMatchAtEnd(p: string, b: string)
    requires |p| > 0 && p[0] !in b
    ensures Feed(Literal, Stream(b, Some(p)), p) == (Stream([], None), Reply([], Some(b + p)))
  {
    FindAt(p, b + p, 0, |b|);
    assert (b + p)[..|b + p|] == b + p;
  }

  lemma SmokeTest()
    ensures var f0 := Stream([], Some(GdbPrompt));
      var (f1, r1) := Feed(Literal, f0, Echo);
      var (f2, r2) := Feed(Literal, f1, "foo-bar");
      var (f3, r3) := Feed(Literal, f2, GdbPrompt);
      && r1 == Reply([], None) && r2 == Reply([], None)
      && r3 == Reply([], Some(Echo + "foo-bar" + GdbPrompt))
      && f3 == Stream([], None)
  {
    LiteralNoMatch(GdbPrompt, [], Echo);
    LiteralNoMatch(GdbPrompt, Echo, "foo-bar");
    LiteralMatchAtEnd(GdbPrompt, Echo + "foo-bar");
  }

  lemma TimeoutTest()
    ensures var f0 := Stream([], Some("qwer"));
      var (f1, r1) := Feed(Literal, f0, "asdf");
      var (f2, r2) := Feed(Literal, f1, "xyz");
      && r1 == Reply([], None) && r2 == Reply([], None)
      && Expire(f2) == (Stream([], Some("qwer")), "asdfxyz")
  {
    LiteralNoMatch("qwer", [], "asdf");
    assert [] + "asdf" == "asdf";
    LiteralNoMatch("qwer", "asdf", "xyz");
    assert "asdf" + "xyz" == "asdfxyz";
  }

  lemma UpdateFinishTest()
    ensures var f0 := Stream([], Some("\nXXXX "));
      var (f1, r1) := Feed(Literal, f0, Echo);
      var (f2, r2) := Feed(Literal, f1, "foo-bar");
      var (f3, r3) := Feed(Literal, WithFinishMatcher(f2, GdbPrompt), GdbPrompt);
      && r1 == Reply([], None) && r2 == Reply([], None)
      && r3 == Reply([], Some(Echo + "foo-bar" + GdbPrompt))
  {
    LiteralNoMatch("\nXXXX ", [], Echo);
    LiteralNoMatch("\nXXXX ", Echo, "foo-bar");
    LiteralMatchAtEnd(GdbPrompt, Echo + "foo-bar");
  }

  /** The object `StreamFilter` of lib/stream_filter.py. */
  class StreamFilter {
    var buffer: string
    var matcher: Option<string>

    /** The filter this object currently is. */
    function Value(): Filter
      reads this
    {
      Stream(buffer, matcher)
    }

    ghost predicate Valid()
      reads this
    {
      Inv(Value())
    }

    constructor (finish: string)
      ensures Valid() && Value() == Stream([], Some(finish))
    {
      buffer := [];
      matcher := Some(finish);
    }

    method UpdateFinishMatcher(finish: string)
      modifies this
      ensures Value() == WithFinishMatcher(old(Value()), finish)
      ensures Valid()
    {
      matcher := Some(finish);
    }

    method Filter(engine: Engine, data: string) returns (output: string, filtered: Option<string>)
      requires Valid()
      modifies this
      ensures (Value(), Reply(output, filtered)) == Feed(engine, old(Value()), data)
      ensures Valid()
    {
      filtered := None;
      if matcher.None? {
        return data, None;
      }
      buffer := buffer + data;
      var m := Search(engine, matcher.value, buffer);
      if m.Some? {
        matcher := None;
        filtered := Some(buffer[..m.value.end]);
        output := buffer[m.value.end..];
        buffer := [];
        return output, filtered;
      }
      return [], None;
    }

    method Timeout() returns (output: string)
      requires Valid()
      modifies this
      ensures (Value(), output) == Expire(old(Value()))
      ensures Valid()
    {
      if matcher.Some? {
        output := buffer;
        buffer := [];
        return output;
      }
      return [];
    }
  }
}
