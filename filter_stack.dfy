/**
 * The filter stack shared by the two older pty proxies (lib/base_proxy.py
 * and lib/BaseProxy.py): a passthrough filter at the bottom and at most one
 * side-command filter on top, each paired with the handler of the text it
 * captures. The handler type is left open; each proxy supplies its own.
 */
module FilterStack {
  import opened Common
  import opened StreamFilters

  datatype Entry<H> = Entry(filter: Filter, handler: H)

  type Stack<H> = seq<Entry<H>>

  /** The passthrough is at the bottom and at most one filter is above it. */
  predicate Stacked<H>(s: Stack<H>)
  {
    1 <= |s| <= 2 && s[0].filter == Passthrough
  }

  /** `_timeout()`: the top filter releases what it holds, and a filter above
      the passthrough is dropped. The result is the new stack and the bytes
      written to the terminal. */
  function Release<H>(s: Stack<H>): (r: (Stack<H>, string))
    requires Stacked(s)
    ensures Stacked(r.0) && |r.0| == 1 && r.0[0] == s[0]
    ensures r.1 == Pending(s[|s| - 1].filter) || !Armed(s[|s| - 1].filter)
    ensures !Armed(s[|s| - 1].filter) ==> r.1 == []
  {
    var top := s[|s| - 1];
    var (f, out) := StreamFilters.Expire(top.filter);
    if |s| > 1 then (s[..|s| - 1], out) else (s[|s| - 1 := top.(filter := f)], out)
  }

  /** `set_filter(filt, handler)`: time out and push only when the
      passthrough is alone; the flag says whether the filter was pushed. */
  function Push<H>(s: Stack<H>, e: Entry<H>): (r: (Stack<H>, string, bool))
    requires Stacked(s)
  {
    if |s| == 1 then
      var (s1, out) := Release(s);
      (s1 + [e], out, true)
    else (s, [], false)
  }

  /** At most one side command at a time: the filter is pushed exactly when
      only the passthrough is stacked, a rejected push changes nothing, and
      timing out the passthrough shows nothing. */
  lemma PushOnlyOne<H>(s: Stack<H>, e: Entry<H>)
    requires Stacked(s)
    ensures var (t, out, accepted) := Push(s, e);
      && (accepted <==> |s| == 1)
      && (accepted ==> t == s + [e] && out == [])
      && (!accepted ==> t == s && out == [])
      && (e.filter != Passthrough || |t| == 1 ==> Stacked(t))
  {
    if |s| == 1 {
      assert s[0 := s[0].(filter := Passthrough)] == s;
    }
  }

  /** The first half of `write_stdout`: feed the top filter. The result is
      the stack with the fed filter and the filter's reply. Only a filter
      above the passthrough can capture anything. */
  function FeedTop<H>(engine: Engine, s: Stack<H>, data: string): (r: (Stack<H>, Reply))
    requires Stacked(s)
    ensures Stacked(r.0) && |r.0| == |s| && r.0[0] == s[0]
    ensures r.1.filtered.Some? ==> |s| == 2
    ensures |s| == 1 ==> r == (s, Reply(data, None))
  {
    var top := s[|s| - 1];
    var (f, reply) := Feed(engine, top.filter, data);
    assert |s| == 1 ==> s[0 := top.(filter := f)] == s;
    (s[|s| - 1 := top.(filter := f)], reply)
  }
}
