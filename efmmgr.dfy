/**
 * rplugin/python3/gdb/efmmgr.py: the `errorformat` entries the backends
 * install are reference counted, so that two debugging sessions that use
 * the same format share one `set efm+=`, and the format is removed only
 * when the last of them is torn down. The Vim commands issued are
 * recorded in order.
 */
module EfmMgr {
  import opened Common
  import Dict

  /** The counters (a dictionary in insertion order) and the Vim commands
      issued so far. */
  datatype Efm = Efm(counters: Dict.Dict<string, int>, commands: seq<string>)

  /** Every format present is counted at least once, and only once. */
  predicate Counted(e: Efm)
  {
    Dict.Unique(e.counters) && forall i :: 0 <= i < |e.counters| ==> e.counters[i].1 >= 1
  }

  /** How many times a format is installed: 0 when it is absent. */
  function Count(e: Efm, f: string): int
  {
    Dict.GetOr(e.counters, f, 0)
  }

  function Added(f: string): string { "set efm+=" + f }

  function Removed(f: string): string { "set efm-=" + f }

  /** In a counted state a format is present exactly when its count is
      positive, and its entry is its count. */
  lemma {:induction false} CountedGet(e: Efm, f: string)
    requires Counted(e)
    ensures Count(e, f) >= 0
    ensures Dict.Get(e.counters, f) == if Count(e, f) == 0 then None else Some(Count(e, f))
    decreases |e.counters|
  {
    if e.counters != [] && e.counters[0].0 != f {
      CountedGet(e.(counters := e.counters[1..]), f);
    }
  }

  /** The body of `setup`'s loop for one format: a known format is counted
      once more and nothing is issued; a new one is counted once and added
      to 'errorformat'. */
  function SetupOne(e: Efm, f: string): (r: Efm)
    ensures Count(r, f) == Count(e, f) + 1
    ensures forall g :: g != f ==> Dict.Get(r.counters, g) == Dict.Get(e.counters, g)
    ensures f in Dict.Keys(e.counters) ==> r.commands == e.commands
    ensures f !in Dict.Keys(e.counters) ==> r.commands == e.commands + [Added(f)] && Count(r, f) == 1
  {
    match Dict.Get(e.counters, f)
    case Some(n) => e.(counters := Dict.Put(e.counters, f, n + 1))
    case None => Efm(Dict.Put(e.counters, f, 1), e.commands + [Added(f)])
  }

  /** `setup(formats)`. */
  function AfterSetup(e: Efm, formats: seq<string>): (r: Efm)
    ensures Counted(e) ==> Counted(r)
    decreases |formats|
  {
    if formats == [] then e
    else
      SetupKeepsCounted(e, formats[0]);
      AfterSetup(SetupOne(e, formats[0]), formats[1..])
  }

  lemma SetupStep(e: Efm, formats: seq<string>)
    requires formats != []
    ensures AfterSetup(e, formats) == AfterSetup(SetupOne(e, formats[0]), formats[1..])
  {
  }

  datatype EfmOutcome = EfmOutcome(efm: Efm, result: Result<()>)

  /** The body of `teardown`'s loop for one format: `counters[f] -= 1`
      raises KeyError for a format that is not installed; one whose count
      drops below 1 is deleted and removed from 'errorformat'. */
  function TeardownOne(e: Efm, f: string): (r: EfmOutcome)
    requires Dict.Unique(e.counters)
    ensures r.result.Ok? <==> f in Dict.Keys(e.counters)
    ensures r.result.Raise? ==> r.result.exception == "KeyError" && r.efm == e
    ensures forall g :: g != f ==> Dict.Get(r.efm.counters, g) == Dict.Get(e.counters, g)
  {
    match Dict.Get(e.counters, f)
    case None => EfmOutcome(e, Raise("KeyError"))
    case Some(n) =>
      if n - 1 < 1 then EfmOutcome(Efm(Dict.Remove(e.counters, f), e.commands + [Removed(f)]), Ok(()))
      else EfmOutcome(e.(counters := Dict.Put(e.counters, f, n - 1)), Ok(()))
  }

  /** `teardown(formats)`: the formats in turn, until one raises; the ones
      before it stay torn down. */
  function AfterTeardown(e: Efm, formats: seq<string>): EfmOutcome
    requires Counted(e)
    decreases |formats|
  {
    if formats == [] then EfmOutcome(e, Ok(()))
    else
      var o := TeardownOne(e, formats[0]);
      if o.result.Raise? then o
      else
        TeardownOneSpec(e, formats[0]);
        AfterTeardown(o.efm, formats[1..])
  }

  /** `setup` keeps every count positive. */
  lemma SetupKeepsCounted(e: Efm, f: string)
    ensures Counted(e) ==> Counted(SetupOne(e, f))
  {
    if !Counted(e) {
      return;
    }
    var r := SetupOne(e, f);
    Dict.PutUnique(e.counters, f, Count(r, f));
    CountedGet(e, f);
    forall i | 0 <= i < |r.counters| ensures r.counters[i].1 >= 1 {
      var g := r.counters[i].0;
      UniqueEntry(r.counters, i);
      if g != f {
        CountedGet(e, g);
      }
    }
  }

  /** One format torn down: its count drops by one, a format whose count
      reaches 0 is removed with one `set efm-=`, and every count stays
      positive. */
  lemma TeardownOneSpec(e: Efm, f: string)
    requires Counted(e)
    ensures var r := TeardownOne(e, f);
      && Counted(r.efm)
      && (r.result.Ok? ==> Count(r.efm, f) == Count(e, f) - 1)
      && (r.result.Ok? && Count(e, f) == 1 ==> r.efm.commands == e.commands + [Removed(f)])
      && (r.result.Ok? && Count(e, f) > 1 ==> r.efm.commands == e.commands)
  {
    CountedGet(e, f);
    if Count(e, f) == 1 {
      TeardownRemoves(e, f);
    } else if Count(e, f) > 1 {
      TeardownDecrements(e, f);
    }
  }

  /** A format installed once is deleted and removed from 'errorformat'. */
  lemma TeardownRemoves(e: Efm, f: string)
    requires Counted(e) && Dict.Get(e.counters, f) == Some(1)
    ensures var r := TeardownOne(e, f);
      && r.result.Ok? && Counted(r.efm) && Count(r.efm, f) == 0
      && r.efm.commands == e.commands + [Removed(f)]
  {
    var r := Dict.Remove(e.counters, f);
    assert TeardownOne(e, f).efm == Efm(r, e.commands + [Removed(f)]);
    forall i | 0 <= i < |r| ensures r[i].1 >= 1 {
      assert r[i] in e.counters;
    }
    Dict.RemoveUnique(e.counters, f);
  }

  /** A format installed more than once is counted once less, and
      'errorformat' is left alone. */
  lemma TeardownDecrements(e: Efm, f: string)
    requires Counted(e) && Count(e, f) > 1
    ensures var r := TeardownOne(e, f);
      && r.result.Ok? && Counted(r.efm) && Count(r.efm, f) == Count(e, f) - 1
      && r.efm.commands == e.commands
  {
    var n := Count(e, f);
    CountedGet(e, f);
    var r := Dict.Put(e.counters, f, n - 1);
    assert TeardownOne(e, f).efm == e.(counters := r);
    Dict.PutUnique(e.counters, f, n - 1);
    forall i | 0 <= i < |r| ensures r[i].1 >= 1 {
      var g := r[i].0;
      UniqueEntry(r, i);
      if g != f {
        CountedGet(e, g);
      }
    }
  }

  /** In a dictionary without repeated keys, looking up the key of an entry
      gives that entry's value. */
  lemma {:induction false} UniqueEntry<V>(d: Dict.Dict<string, V>, i: nat)
    requires Dict.Unique(d) && i < |d|
    ensures Dict.Get(d, d[i].0) == Some(d[i].1)
  {
    if i > 0 {
      assert d[0].0 != d[i].0;
      assert d[1..][i - 1] == d[i];
      UniqueEntry(d[1..], i - 1);
    }
  }

  /** `setup(formats)` adds to each count the number of times the format
      occurs in `formats`, and keeps every count positive. */
  lemma {:induction false} SetupCounts(e: Efm, formats: seq<string>)
    requires Counted(e)
    ensures Counted(AfterSetup(e, formats))
    ensures forall f :: Count(AfterSetup(e, formats), f) == Count(e, f) + multiset(formats)[f]
    decreases |formats|
  {
    if formats != [] {
      var e1 := SetupOne(e, formats[0]);
      SetupKeepsCounted(e, formats[0]);
      SetupCounts(e1, formats[1..]);
      assert formats == [formats[0]] + formats[1..];
      forall f ensures Count(AfterSetup(e, formats), f) == Count(e, f) + multiset(formats)[f] {
        if f != formats[0] {
          assert Dict.Get(e1.counters, f) == Dict.Get(e.counters, f);
        }
      }
    }
  }

  /** `teardown(formats)` succeeds exactly when no format occurs in
      `formats` more often than it is installed, and then takes from each
      count the number of its occurrences; otherwise it raises KeyError. */
  lemma {:induction false} TeardownCounts(e: Efm, formats: seq<string>)
    requires Counted(e)
    ensures var r := AfterTeardown(e, formats);
      && Counted(r.efm)
      && (r.result.Ok? <==> forall f :: multiset(formats)[f] <= Count(e, f))
      && (r.result.Raise? ==> r.result.exception == "KeyError")
      && (r.result.Ok? ==> forall f :: Count(r.efm, f) == Count(e, f) - multiset(formats)[f])
    decreases |formats|
  {
    if formats == [] {
      forall f ensures Count(e, f) >= 0 {
        CountedGet(e, f);
      }
    } else {
      var g := formats[0];
      assert formats == [g] + formats[1..];
      var o := TeardownOne(e, g);
      TeardownOneSpec(e, g);
      CountedGet(e, g);
      if o.result.Ok? {
        TeardownCounts(o.efm, formats[1..]);
        forall f ensures Count(o.efm, f) == Count(e, f) - (if f == g then 1 else 0) {
          if f != g {
            assert Dict.Get(o.efm.counters, f) == Dict.Get(e.counters, f);
          }
        }
        assert forall f :: (multiset(formats)[f] <= Count(e, f)) == (multiset(formats[1..])[f] <= Count(o.efm, f));
      } else {
        assert Dict.Get(e.counters, g) == None;
        assert Count(e, g) == 0;
        assert multiset(formats)[g] > Count(e, g);
      }
    }
  }

  /** `setup(formats)` followed by `teardown(formats)` succeeds and gives
      back the counters it started from, key by key. */
  lemma SetupThenTeardown(e: Efm, formats: seq<string>)
    requires Counted(e)
    ensures var r := AfterTeardown(AfterSetup(e, formats), formats);
      r.result.Ok? && forall f :: Dict.Get(r.efm.counters, f) == Dict.Get(e.counters, f)
  {
    var s := AfterSetup(e, formats);
    SetupCounts(e, formats);
    TeardownCounts(s, formats);
    assert forall f :: multiset(formats)[f] <= Count(s, f) by {
      forall f ensures multiset(formats)[f] <= Count(s, f) {
        CountedGet(e, f);
      }
    }
    var r := AfterTeardown(s, formats);
    assert r.result.Ok?;
    forall f ensures Dict.Get(r.efm.counters, f) == Dict.Get(e.counters, f) {
      assert Count(r.efm, f) == Count(e, f);
      CountedGet(e, f);
      CountedGet(r.efm, f);
    }
  }

  /** The commands `cleanup` issues: one removal per installed format, in
      the order the formats were first installed. */
  function Removals(formats: seq<string>): (cs: seq<string>)
    ensures |cs| == |formats|
  {
    seq(|formats|, i requires 0 <= i < |formats| => Removed(formats[i]))
  }

  /** `cleanup` removes every installed format, and issues nothing else. */
  lemma CleanupRemovesAll(e: Efm)
    requires Counted(e)
    ensures forall f :: Count(e, f) >= 1 <==> Removed(f) in Removals(Dict.Keys(e.counters))
  {
    var ks := Dict.Keys(e.counters);
    forall f ensures Count(e, f) >= 1 <==> Removed(f) in Removals(ks) {
      CountedGet(e, f);
      if Removed(f) in Removals(ks) {
        var i :| 0 <= i < |ks| && Removals(ks)[i] == Removed(f);
        assert Removed(f)[9..] == f && Removed(ks[i])[9..] == ks[i];
        assert f in ks;
      }
      if Count(e, f) >= 1 {
        var i :| 0 <= i < |ks| && ks[i] == f;
        assert Removals(ks)[i] == Removed(f);
      }
    }
  }

  /** `EfmMgr`, whose counters `setup` and `teardown` update in place. */
  class EfmManager {
    var counters: Dict.Dict<string, int>
    var commands: seq<string>

    function Value(): Efm
      reads this
    {
      Efm(counters, commands)
    }

    ghost predicate Valid()
      reads this
    {
      Counted(Value())
    }

    /** `__init__`: nothing installed. */
    constructor ()
      ensures Valid() && Value() == Efm([], [])
    {
      counters, commands := [], [];
    }

    /** `setup(formats)`. */
    method Setup(formats: seq<string>)
      requires Valid()
      modifies this
      ensures Valid() && Value() == AfterSetup(old(Value()), formats)
    {
      for i := 0 to |formats|
        invariant AfterSetup(old(Value()), formats) == AfterSetup(Value(), formats[i..])
      {
        SetupStep(Value(), formats[i..]);
        assert formats[i..][0] == formats[i] && formats[i..][1..] == formats[i + 1..];
        SetupFormat(formats[i]);
      }
      assert formats[|formats|..] == [];
    }

    /** One format of `setup`'s loop. */
    method SetupFormat(f: string)
      modifies this
      ensures Value() == SetupOne(old(Value()), f)
    {
      match Dict.Get(counters, f) {
        case Some(n) =>
          counters := Dict.Put(counters, f, n + 1);
        case None =>
          counters := Dict.Put(counters, f, 1);
          commands := commands + [Added(f)];
      }
    }

    /** `teardown(formats)`. */
    method Teardown(formats: seq<string>) returns (r: Result<()>)
      requires Valid()
      modifies this
      ensures Valid() && EfmOutcome(Value(), r) == AfterTeardown(old(Value()), formats)
    {
      TeardownCounts(Value(), formats);
      for i := 0 to |formats|
        invariant Valid()
        invariant AfterTeardown(old(Value()), formats) == AfterTeardown(Value(), formats[i..])
      {
        assert formats[i..][0] == formats[i] && formats[i..][1..] == formats[i + 1..];
        var f := formats[i];
        TeardownOneSpec(Value(), f);
        match Dict.Get(counters, f) {
          case None =>
            return Raise("KeyError");
          case Some(n) =>
            if n - 1 < 1 {
              counters := Dict.Remove(counters, f);
              commands := commands + [Removed(f)];
            } else {
              counters := Dict.Put(counters, f, n - 1);
            }
        }
      }
      assert formats[|formats|..] == [];
      return Ok(());
    }

    /** `cleanup()`: a removal for every installed format; the counters
        are left as they are. */
    method Cleanup()
      modifies this
      ensures counters == old(counters)
      ensures commands == old(commands) + Removals(Dict.Keys(counters))
    {
      var ks := Dict.Keys(counters);
      for i := 0 to |ks|
        invariant counters == old(counters)
        invariant commands == old(commands) + Removals(ks[..i])
      {
        assert Removals(ks[..i + 1]) == Removals(ks[..i]) + [Removed(ks[i])];
        commands := commands + [Removed(ks[i])];
      }
      assert ks[..|ks|] == ks;
    }
  }
}
