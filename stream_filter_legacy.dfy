/**
 * lib/StreamFilter.py, the older copy of the stream filter used by the
 * proxies built on lib/BaseProxy.py. It behaves as lib/stream_filter.py
 * does, so its methods are proved against the same value functions; its
 * constructor sets the matcher through `updateFinishMatcher`.
 */
module LegacyStreamFilter {
  import opened Common
  import opened StreamFilters

  class StreamFilter {
    var buffer: string
    var matcher: Option<string>

    function Value(): Filter
      reads this
    {
      Stream(buffer, matcher)
    }

    ghost predicate Valid()
      reads this
    {
      Inv(Value())
    }

    /** `__init__(finish_re)`: an empty buffer, then the matcher. */
    constructor (finish: string)
      ensures Valid() && Value() == Stream([], Some(finish))
    {
      buffer := [];
      matcher := None;
      new;
      UpdateFinishMatcher(finish);
    }

    /** `updateFinishMatcher(finish_re)`. */
    method UpdateFinishMatcher(finish: string)
      modifies this
      ensures Value() == WithFinishMatcher(old(Value()), finish)
      ensures Valid()
    {
      matcher := Some(finish);
    }

    /** `filter(data)`. */
    method Filter(engine: Engine, data: string) returns (output: string, filtered: Option<string>)
      requires Valid()
      modifies this
      ensures (Value(), Reply(output, filtered)) == Feed(engine, old(Value()), data)
      ensures Valid()
    {
      filtered := None;
      if matcher.None? {
        return data, None;
      }
      buffer := buffer + data;
      var m := Search(engine, matcher.value, buffer);
      if m.Some? {
        matcher := None;
        filtered := Some(buffer[..m.value.end]);
        output := buffer[m.value.end..];
        buffer := [];
        return output, filtered;
      }
      return [], None;
    }

    /** `timeout()`. */
    method Timeout() returns (output: string)
      requires Valid()
      modifies this
      ensures (Value(), output) == Expire(old(Value()))
      ensures Valid()
    {
      if matcher.Some? {
        output := buffer;
        buffer := [];
        return output;
      }
      return [];
    }
  }
}
