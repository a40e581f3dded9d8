/**
 * rplugin/python3/gdb/keymaps.py: the buffer-local and terminal-local
 * keymaps of the debugger commands. Each default entry whose keystroke is
 * configured becomes one Vim mapping command; the `set_keymaps`,
 * `unset_keymaps` and `set_tkeymaps` hooks of the configuration decide
 * what happens when the plugin asks for the keymaps, and the dispatch can
 * be switched off.
 *
 * `Keymaps.default` and `Keymaps.default_t` are Python sets: their
 * iteration order is not given by the program, so each `Keymaps` object
 * is built with the order in which the running interpreter enumerates
 * them. The Vim commands and Vim function calls issued are recorded in
 * order.
 */
module Keymaps {
  import opened Common
  import Dict
  import Config

  /** An entry of `Keymaps.default`: the mode letter, the configuration
      key of the keystroke, and the Ex command mapped to it. */
  datatype Binding = Binding(mode: string, name: string, cmd: string)

  /** An entry of `Keymaps.default_t`. */
  datatype TermBinding = TermBinding(name: string, cmd: string)

  /** `Keymaps.default`. */
  const Defaults: set<Binding> := {
    Binding("n", "key_until", ":GdbUntil"),
    Binding("n", "key_continue", ":GdbContinue"),
    Binding("n", "key_next", ":GdbNext"),
    Binding("n", "key_step", ":GdbStep"),
    Binding("n", "key_finish", ":GdbFinish"),
    Binding("n", "key_breakpoint", ":GdbBreakpointToggle"),
    Binding("n", "key_frameup", ":GdbFrameUp"),
    Binding("n", "key_framedown", ":GdbFrameDown"),
    Binding("n", "key_eval", ":GdbEvalWord"),
    Binding("v", "key_eval", ":GdbEvalRange"),
    Binding("n", "key_quit", ":GdbDebugStop")
  }

  /** `Keymaps.default_t`. */
  const TermDefaults: set<TermBinding> := {
    TermBinding("key_until", ":GdbUntil"),
    TermBinding("key_continue", ":GdbContinue"),
    TermBinding("key_next", ":GdbNext"),
    TermBinding("key_step", ":GdbStep"),
    TermBinding("key_finish", ":GdbFinish"),
    TermBinding("key_quit", ":GdbDebugStop")
  }

  /** `order` lists the elements of `s`, each once: one way of iterating
      over a Python set. */
  predicate Enumerates<T(==,!new)>(order: seq<T>, s: set<T>)
  {
    (forall x :: x in order ==> x in s) && (forall x :: x in s ==> x in order) &&
    (forall i, j :: 0 <= i < j < |order| ==> order[i] != order[j])
  }

  /** `self.config.get_or(name, None)`, as the text it is formatted to,
      or None when it `is None`. */
  function Keystroke(conf: Dict.Dict<string, Config.Value>, name: string): (r: Option<string>)
    ensures r.None? <==> Dict.Get(conf, name) in {None, Some(Config.Null)}
    ensures r.Some? ==> r.value == Config.ValueText(Dict.Get(conf, name).value)
  {
    var v := Dict.Get(conf, name);
    if v.None? || v.value.Null? then None else Some(Config.ValueText(v.value))
  }

  function MapCommand(b: Binding, keystroke: string): string
  {
    b.mode + "noremap <buffer> <silent> " + keystroke + " " + b.cmd + "<cr>"
  }

  function UnmapCommand(b: Binding, keystroke: string): string
  {
    b.mode + "unmap <buffer> " + keystroke
  }

  function TermMapCommand(t: TermBinding, keystroke: string): string
  {
    "tnoremap <buffer> <silent> " + keystroke + " <c-\\><c-n>" + t.cmd + "<cr>i"
  }

  /** The mapping `set_t` always ends with: Escape leaves terminal mode. */
  const EscapeMapping: string := "tnoremap <silent> <buffer> <esc> <c-\\><c-n>G"

  // ---------------------------------------------------------------------
  // What the loops emit, entry by entry

  /** The bindings of `order` that have a keystroke, with that keystroke. */
  function Mapped(conf: Dict.Dict<string, Config.Value>, order: seq<Binding>): seq<(Binding, string)>
  {
    if order == [] then []
    else
      var b := order[|order| - 1];
      Mapped(conf, order[..|order| - 1]) +
      (match Keystroke(conf, b.name) case Some(k) => [(b, k)] case None => [])
  }

  /** The commands `set` issues when it meets the entries in `order`. */
  function SetCommands(conf: Dict.Dict<string, Config.Value>, order: seq<Binding>): seq<string>
  {
    if order == [] then []
    else
      var b := order[|order| - 1];
      SetCommands(conf, order[..|order| - 1]) +
      (match Keystroke(conf, b.name) case Some(k) => [MapCommand(b, k)] case None => [])
  }

  /** The commands `unset` issues when it meets the entries in `order`. */
  function UnsetCommands(conf: Dict.Dict<string, Config.Value>, order: seq<Binding>): seq<string>
  {
    if order == [] then []
    else
      var b := order[|order| - 1];
      UnsetCommands(conf, order[..|order| - 1]) +
      (match Keystroke(conf, b.name) case Some(k) => [UnmapCommand(b, k)] case None => [])
  }

  /** The per-entry commands `set_t` issues when it meets the entries in `order`. */
  function TermCommands(conf: Dict.Dict<string, Config.Value>, order: seq<TermBinding>): seq<string>
  {
    if order == [] then []
    else
      var t := order[|order| - 1];
      TermCommands(conf, order[..|order| - 1]) +
      (match Keystroke(conf, t.name) case Some(k) => [TermMapCommand(t, k)] case None => [])
  }

  /** The entries given a keystroke are exactly the entries of `order`
      whose key is configured, each with its configured keystroke, each
      once and in the order met. */
  lemma {:induction false} MappedSpec(conf: Dict.Dict<string, Config.Value>, order: seq<Binding>)
    ensures forall b, k :: (b, k) in Mapped(conf, order) <==> b in order && Keystroke(conf, b.name) == Some(k)
    ensures (forall i, j :: 0 <= i < j < |order| ==> order[i] != order[j]) ==>
      forall i, j :: 0 <= i < j < |Mapped(conf, order)| ==> Mapped(conf, order)[i].0 != Mapped(conf, order)[j].0
  {
    if order != [] {
      var init, b := order[..|order| - 1], order[|order| - 1];
      MappedSpec(conf, init);
      assert order == init + [b];
      var m: seq<(Binding, string)> := Mapped(conf, init);
      var tail: seq<(Binding, string)> := match Keystroke(conf, b.name) case Some(k) => [(b, k)] case None => [];
      assert Mapped(conf, order) == m + tail;
      if forall i, j :: 0 <= i < j < |order| ==> order[i] != order[j] {
        forall i, j | 0 <= i < j < |m + tail| ensures (m + tail)[i].0 != (m + tail)[j].0 {
          if j >= |m| {
            assert (m + tail)[j].0 == b;
            assert (m + tail)[i] == m[i] && m[i] in m;
          }
        }
      }
    }
  }

  /** `unset` undoes `set`: both issue one command per configured entry, in
      the same order, the i-th unmapping the keystroke the i-th maps, in the
      same mode. */
  lemma {:induction false} SetUnsetAgree(conf: Dict.Dict<string, Config.Value>, order: seq<Binding>)
    ensures |SetCommands(conf, order)| == |UnsetCommands(conf, order)| == |Mapped(conf, order)|
    ensures forall i :: 0 <= i < |Mapped(conf, order)| ==>
      var (b, k) := Mapped(conf, order)[i];
      SetCommands(conf, order)[i] == MapCommand(b, k) && UnsetCommands(conf, order)[i] == UnmapCommand(b, k)
  {
    if order != [] {
      SetUnsetAgree(conf, order[..|order| - 1]);
    }
  }

  /** An entry without a keystroke issues nothing: when no key of `order`
      is configured, neither `set` nor `unset` issues a command. */
  lemma {:induction false} UnconfiguredSilent(conf: Dict.Dict<string, Config.Value>, order: seq<Binding>)
    requires forall b :: b in order ==> Keystroke(conf, b.name).None?
    ensures SetCommands(conf, order) == [] && UnsetCommands(conf, order) == []
  {
    if order != [] {
      var init := order[..|order| - 1];
      assert forall b :: b in init ==> b in order;
      UnconfiguredSilent(conf, init);
    }
  }

  /** Every terminal mapping `set_t` issues before the Escape mapping is for
      a configured entry of `order`, and there is at most one per entry. */
  lemma {:induction false} TermCommandsBound(conf: Dict.Dict<string, Config.Value>, order: seq<TermBinding>)
    ensures |TermCommands(conf, order)| <= |order|
    ensures forall c :: c in TermCommands(conf, order) ==>
      exists t :: t in order && Keystroke(conf, t.name).Some? && c == TermMapCommand(t, Keystroke(conf, t.name).value)
  {
    if order != [] {
      var init, t := order[..|order| - 1], order[|order| - 1];
      TermCommandsBound(conf, init);
      assert forall x :: x in init ==> x in order;
      forall c | c in TermCommands(conf, order)
        ensures exists x :: x in order && Keystroke(conf, x.name).Some? && c == TermMapCommand(x, Keystroke(conf, x.name).value)
      {
        if c !in TermCommands(conf, init) {
          assert t in order;
        }
      }
    }
  }

  // ---------------------------------------------------------------------
  // Dispatching to the configured hooks

  /** What calling the hook stored under `key` does, when dispatch is on:
      the Vim commands issued and the Vim functions called. A missing key
      gives the no-op default; a stored value that is not callable raises
      TypeError, which is logged, so it does nothing either. */
  datatype Effect = Effect(commands: seq<string>, calls: seq<Config.Value>)

  function HookEffect(conf: Dict.Dict<string, Config.Value>, key: string,
                      order: seq<Binding>, orderT: seq<TermBinding>): (e: Effect)
    ensures Dict.Get(conf, key).None? ==> e == Effect([], [])
    ensures e.calls != [] ==> e.commands == [] && Dict.Get(conf, key) == Some(Config.Callable(Config.VimFunction(e.calls[0])))
  {
    var v := Dict.Get(conf, key);
    if v.None? || !v.value.Callable? then Effect([], [])
    else
      match v.value.hook
      case SetKeymaps => Effect(SetCommands(conf, order), [])
      case UnsetKeymaps => Effect(UnsetCommands(conf, order), [])
      case SetTKeymaps => Effect(TermCommands(conf, orderT) + [EscapeMapping], [])
      case VimFunction(name) => Effect([], [name])
  }

  class Keymaps {
    var dispatchActive: bool
    var commands: seq<string>
    var calls: seq<Config.Value>
    /** The interpreter's iteration order of `Keymaps.default`. */
    const order: seq<Binding>
    /** The interpreter's iteration order of `Keymaps.default_t`. */
    const orderT: seq<TermBinding>

    predicate Valid()
    {
      Enumerates(order, Defaults) && Enumerates(orderT, TermDefaults)
    }

    /** `Keymaps.__init__`: dispatch starts switched on. */
    constructor(order: seq<Binding>, orderT: seq<TermBinding>)
      requires Enumerates(order, Defaults) && Enumerates(orderT, TermDefaults)
      ensures Valid() && this.order == order && this.orderT == orderT
      ensures dispatchActive && commands == [] && calls == []
    {
      this.order := order;
      this.orderT := orderT;
      dispatchActive := true;
      commands := [];
      calls := [];
    }

    /** `set_dispatch_active(state)`: the only way the flag changes. */
    method SetDispatchActive(state: bool)
      modifies this
      ensures dispatchActive == state
      ensures commands == old(commands) && calls == old(calls)
    {
      dispatchActive := state;
    }

    /** `set()`: one `noremap` per default entry with a keystroke. */
    method Set(conf: Config.Configuration)
      modifies this
      ensures commands == old(commands) + SetCommands(conf.config, order)
      ensures dispatchActive == old(dispatchActive) && calls == old(calls)
    {
      for i := 0 to |order|
        invariant commands == old(commands) + SetCommands(conf.config, order[..i])
        invariant dispatchActive == old(dispatchActive) && calls == old(calls)
      {
        assert order[..i + 1][..i] == order[..i];
        var keystroke := conf.GetOr(order[i].name, Config.Null);
        if keystroke != Config.Null {
          commands := commands + [MapCommand(order[i], Config.ValueText(keystroke))];
        }
      }
      assert order[..|order|] == order;
    }

    /** `unset()`: one `unmap` per default entry with a keystroke. */
    method Unset(conf: Config.Configuration)
      modifies this
      ensures commands == old(commands) + UnsetCommands(conf.config, order)
      ensures dispatchActive == old(dispatchActive) && calls == old(calls)
    {
      for i := 0 to |order|
        invariant commands == old(commands) + UnsetCommands(conf.config, order[..i])
        invariant dispatchActive == old(dispatchActive) && calls == old(calls)
      {
        assert order[..i + 1][..i] == order[..i];
        var keystroke := conf.GetOr(order[i].name, Config.Null);
        if keystroke != Config.Null {
          commands := commands + [UnmapCommand(order[i], Config.ValueText(keystroke))];
        }
      }
      assert order[..|order|] == order;
    }

    /** `set_t()`: one `tnoremap` per terminal entry with a keystroke, then
        always the Escape mapping. */
    method SetT(conf: Config.Configuration)
      modifies this
      ensures commands == old(commands) + TermCommands(conf.config, orderT) + [EscapeMapping]
      ensures commands[|commands| - 1] == EscapeMapping
      ensures dispatchActive == old(dispatchActive) && calls == old(calls)
    {
      for i := 0 to |orderT|
        invariant commands == old(commands) + TermCommands(conf.config, orderT[..i])
        invariant dispatchActive == old(dispatchActive) && calls == old(calls)
      {
        assert orderT[..i + 1][..i] == orderT[..i];
        var keystroke := conf.GetOr(orderT[i].name, Config.Null);
        if keystroke != Config.Null {
          commands := commands + [TermMapCommand(orderT[i], Config.ValueText(keystroke))];
        }
      }
      assert orderT[..|orderT|] == orderT;
      commands := commands + [EscapeMapping];
    }

    /** `_dispatch(key)`: nothing while dispatch is off; otherwise the hook
        stored under `key` is called with this object. */
    method Dispatch(conf: Config.Configuration, key: string)
      modifies this
      ensures !old(dispatchActive) ==> commands == old(commands) && calls == old(calls)
      ensures old(dispatchActive) ==>
        var e := HookEffect(conf.config, key, order, orderT);
        commands == old(commands) + e.commands && calls == old(calls) + e.calls
      ensures dispatchActive == old(dispatchActive)
    {
      if dispatchActive {
        var hook := conf.GetOr(key, Config.Null);
        if hook.Callable? {
          match hook.hook
          case SetKeymaps => Set(conf);
          case UnsetKeymaps => Unset(conf);
          case SetTKeymaps => SetT(conf);
          case VimFunction(name) => calls := calls + [name];
        }
      }
    }

    /** `dispatch_set()`. */
    method DispatchSet(conf: Config.Configuration)
      modifies this
      ensures old(dispatchActive) ==>
        var e := HookEffect(conf.config, "set_keymaps", order, orderT);
        commands == old(commands) + e.commands && calls == old(calls) + e.calls
      ensures !old(dispatchActive) ==> commands == old(commands) && calls == old(calls)
      ensures dispatchActive == old(dispatchActive)
    {
      Dispatch(conf, "set_keymaps");
    }

    /** `dispatch_unset()`. */
    method DispatchUnset(conf: Config.Configuration)
      modifies this
      ensures old(dispatchActive) ==>
        var e := HookEffect(conf.config, "unset_keymaps", order, orderT);
        commands == old(commands) + e.commands && calls == old(calls) + e.calls
      ensures !old(dispatchActive) ==> commands == old(commands) && calls == old(calls)
      ensures dispatchActive == old(dispatchActive)
    {
      Dispatch(conf, "unset_keymaps");
    }

    /** `dispatch_set_t()`. */
    method DispatchSetT(conf: Config.Configuration)
      modifies this
      ensures old(dispatchActive) ==>
        var e := HookEffect(conf.config, "set_tkeymaps", order, orderT);
        commands == old(commands) + e.commands && calls == old(calls) + e.calls
      ensures !old(dispatchActive) ==> commands == old(commands) && calls == old(calls)
      ensures dispatchActive == old(dispatchActive)
    {
      Dispatch(conf, "set_tkeymaps");
    }
  }
}
