/**
 * rplugin/python3/gdb/config.py: the configuration in force, from the
 * defaults, the user's `g:nvimgdb_config`, the `g:nvimgdb_config_override`
 * dictionary and the per-key `g:nvimgdb_<key>` variables. Keystroke
 * entries (`key_*`) are kept free of conflicts: when two functions claim
 * the same keystroke, the earlier one loses its keymap. The Vim variables
 * are parameters; the Vim commands issued are recorded in order.
 */
module Config {
  import opened Common
  import Dict

  /** The callables an entry can hold: the `Keymaps` methods of the
      defaults, or a Vim function called by name (`_filter_funcref`). */
  datatype Hook = SetTKeymaps | SetKeymaps | UnsetKeymaps | VimFunction(name: Value)

  /** The values a configuration entry can hold. */
  datatype Value =
    | Str(s: string)
    | Num(n: int)
    | StrList(items: seq<string>)
    | Callable(hook: Hook)
    | Null

  /** Python truthiness. */
  predicate Truthy(v: Value)
  {
    match v
    case Str(s) => s != ""
    case Num(n) => n != 0
    case StrList(xs) => xs != []
    case Callable(_) => true
    case Null => false
  }

  /** A list cannot be a dictionary key. */
  predicate Hashable(v: Value)
  {
    !v.StrList?
  }

  /** The i-th entry of `Config.default`, in the order written. */
  function DefaultEntry(i: nat): (string, Value)
  {
    if i == 0 then ("key_until", Str("<f4>"))
    else if i == 1 then ("key_continue", Str("<f5>"))
    else if i == 2 then ("key_next", Str("<f10>"))
    else if i == 3 then ("key_step", Str("<f11>"))
    else if i == 4 then ("key_finish", Str("<f12>"))
    else if i == 5 then ("key_breakpoint", Str("<f8>"))
    else if i == 6 then ("key_frameup", Str("<c-p>"))
    else if i == 7 then ("key_framedown", Str("<c-n>"))
    else if i == 8 then ("key_eval", Str("<f9>"))
    else if i == 9 then ("set_tkeymaps", Callable(SetTKeymaps))
    else if i == 10 then ("set_keymaps", Callable(SetKeymaps))
    else if i == 11 then ("unset_keymaps", Callable(UnsetKeymaps))
    else if i == 12 then ("sign_current_line", Str("▶"))
    else if i == 13 then ("sign_breakpoint", StrList(["●", "●²", "●³", "●⁴", "●⁵", "●⁶", "●⁷", "●⁸", "●⁹", "●ⁿ"]))
    else if i == 14 then ("split_command", Str("split"))
    else ("set_scroll_off", Num(5))
  }

  /** `Config.default`. */
  function DefaultFrom(i: nat): Dict.Dict<string, Value>
    decreases 16 - i
  {
    if i >= 16 then [] else [DefaultEntry(i)] + DefaultFrom(i + 1)
  }

  function FirstIndex(): nat { 0 }

  const Default: Dict.Dict<string, Value> := DefaultFrom(FirstIndex())

  /** The entries a user configuration is completed with. */
  const MustHave: seq<string> := ["sign_current_line", "sign_breakpoint", "split_command", "set_scroll_off"]

  /** `re.match('^key_.*', name)`. */
  predicate IsKeyName(name: string)
  {
    StartsWith(name, "key_")
  }

  /** `_filter_funcref(Config.default, key, val)`: `def_conf[key]` raises
      KeyError for a key without a default; a value whose default is
      callable becomes a call of the Vim function it names; any other
      value is kept. */
  function FilterFuncref(key: string, val: Value): (r: Result<Value>)
    ensures r.Raise? <==> key !in Dict.Keys(Default)
    ensures r.Raise? ==> r.exception == "KeyError"
    ensures r.Ok? && !Dict.Get(Default, key).value.Callable? ==> r.value == val
    ensures r.Ok? && Dict.Get(Default, key).value.Callable? ==> r.value == Callable(VimFunction(val))
  {
    match Dict.Get(Default, key)
    case None => Raise("KeyError")
    case Some(d) => if d.Callable? then Ok(Callable(VimFunction(val))) else Ok(val)
  }

  /** The same inside `_copy_user_config`, where an exception is logged and
      the value left as it was. */
  function Filtered(key: string, val: Value): Value
  {
    match FilterFuncref(key, val)
    case Ok(v) => v
    case Raise(_) => val
  }

  /** Adding the missing essential entries, in order. */
  function FillMustHave(c: Dict.Dict<string, Value>, ms: seq<string>): Dict.Dict<string, Value>
    decreases |ms|
  {
    if ms == [] then c
    else
      var c1 := if ms[0] in Dict.Keys(c) then c else Dict.Put(c, ms[0], Dict.GetOr(Default, ms[0], Null));
      FillMustHave(c1, ms[1..])
  }

  /** `_copy_user_config()`: empty when `g:nvimgdb_config` does not exist. */
  function CopyUserConfig(user: Option<Dict.Dict<string, Value>>): Dict.Dict<string, Value>
  {
    match user
    case None => []
    case Some(u) =>
      var filtered := seq(|u|, i requires 0 <= i < |u| => (u[i].0, Filtered(u[i].0, u[i].1)));
      FillMustHave(filtered, MustHave)
  }

  lemma {:induction false} FillMustHaveKeys(c: Dict.Dict<string, Value>, ms: seq<string>)
    ensures forall k :: k in Dict.Keys(c) ==> k in Dict.Keys(FillMustHave(c, ms))
    ensures forall m :: m in ms ==> m in Dict.Keys(FillMustHave(c, ms))
    ensures forall k :: k in Dict.Keys(c) ==> Dict.Get(FillMustHave(c, ms), k) == Dict.Get(c, k)
    decreases |ms|
  {
    if ms != [] {
      var c1 := if ms[0] in Dict.Keys(c) then c else Dict.Put(c, ms[0], Dict.GetOr(Default, ms[0], Null));
      FillMustHaveKeys(c1, ms[1..]);
    }
  }

  /** A user configuration keeps every entry the user gave, and gains the
      four essential ones when they are missing. */
  lemma MustHavesPresent(u: Dict.Dict<string, Value>)
    ensures forall m :: m in MustHave ==> m in Dict.Keys(CopyUserConfig(Some(u)))
    ensures forall k :: k in Dict.Keys(u) ==> k in Dict.Keys(CopyUserConfig(Some(u)))
  {
    var filtered := seq(|u|, i requires 0 <= i < |u| => (u[i].0, Filtered(u[i].0, u[i].1)));
    FillMustHaveKeys(filtered, MustHave);
    assert Dict.Keys(filtered) == Dict.Keys(u);
  }

  // ---------------------------------------------------------------------
  // Keystroke conflicts

  /** The state while the configuration is being resolved: the entries,
      `key_to_func`, and the Vim commands issued. */
  datatype Resolving = Resolving(config: Dict.Dict<string, Value>, keyToFunc: Dict.Dict<Value, string>,
                                 commands: seq<string>)

  predicate Wf(s: Resolving)
  {
    Dict.Unique(s.config) && Dict.Unique(s.keyToFunc)
  }

  /** `str(v)` where a message shows a value; only strings and numbers are
      shown as Python would. */
  function ValueText(v: Value): string
  {
    match v
    case Str(s) => s
    case Num(n) => IntToString(n)
    case _ => "<value>"
  }

  function Echo(key: Value, func: string, prev: string): string
  {
    "echo 'Overriding conflicting keymap \"" + ValueText(key) + "\" for " + func + " (was " + prev + ")'"
  }

  /** `_check_keymap_conflicts(key, func, verbose)` as written. The entry
      deleted from `key_to_func` is the one for the keystroke `func` has
      now, which raises KeyError when `func` has no entry or its keystroke
      is not recorded. */
  function CheckConflicts(s: Resolving, key: Value, func: string, verbose: bool): (r: Result<Resolving>)
    requires Wf(s)
    ensures !IsKeyName(func) ==> r == Ok(s)
    ensures r.Ok? && IsKeyName(func) ==> Dict.Get(r.value.keyToFunc, key) == Some(func)
    ensures r.Raise? ==> IsKeyName(func)
    ensures IsKeyName(func) && !Hashable(key) ==> r == Raise("TypeError")
    ensures r.Ok? && IsKeyName(func) ==>
      var prev := Dict.Get(s.keyToFunc, key);
      if prev.Some? && prev.value != "" && prev.value != func
      then Dict.Get(r.value.config, prev.value) == Some(Null)
      else r.value.config == s.config
  {
    if !IsKeyName(func) then Ok(s)
    else if !Hashable(key) then Raise("TypeError")
    else
      var prev := Dict.Get(s.keyToFunc, key);
      if prev.Some? && prev.value != "" && prev.value != func then
        var commands := if verbose then s.commands + [Echo(key, func, prev.value)] else s.commands;
        match Dict.Get(s.config, func)
        case None => Raise("KeyError")
        case Some(cur) =>
          if !Hashable(cur) then Raise("TypeError")
          else if cur !in Dict.Keys(s.keyToFunc) then Raise("KeyError")
          else
            Ok(Resolving(Dict.Put(s.config, prev.value, Null),
                         Dict.Put(Dict.Remove(s.keyToFunc, cur), key, func), commands))
      else Ok(s.(keyToFunc := Dict.Put(s.keyToFunc, key, func)))
  }

  /** The conflict check followed by `self.config[func] = val`, as each
      override does. */
  function Assign(s: Resolving, func: string, val: Value, verbose: bool): (r: Result<Resolving>)
    requires Wf(s)
    ensures r.Ok? ==> Wf(r.value) && Dict.Get(r.value.config, func) == Some(val)
  {
    match CheckConflicts(s, val, func, verbose)
    case Raise(e) => Raise(e)
    case Ok(t) =>
      CheckKeepsWf(s, val, func, verbose);
      Dict.PutUnique(t.config, func, val);
      Ok(t.(config := Dict.Put(t.config, func, val)))
  }

  lemma CheckKeepsWf(s: Resolving, key: Value, func: string, verbose: bool)
    requires Wf(s)
    ensures CheckConflicts(s, key, func, verbose).Ok? ==> Wf(CheckConflicts(s, key, func, verbose).value)
  {
    if IsKeyName(func) && Hashable(key) {
      var prev := Dict.Get(s.keyToFunc, key);
      if prev.Some? && prev.value != "" && prev.value != func {
        match Dict.Get(s.config, func)
        case None =>
        case Some(cur) =>
          if Hashable(cur) && cur in Dict.Keys(s.keyToFunc) {
            Dict.PutUnique(s.config, prev.value, Null);
            Dict.RemoveUnique(s.keyToFunc, cur);
            Dict.PutUnique(Dict.Remove(s.keyToFunc, cur), key, func);
          }
      } else {
        Dict.PutUnique(s.keyToFunc, key, func);
      }
    }
  }

  /** The first loop of `__init__`: every entry is checked against those
      before it, with the value it has when its turn comes. */
  function CheckAll(s: Resolving, funcs: seq<string>): (r: Result<Resolving>)
    requires Wf(s)
    ensures r.Ok? ==> Wf(r.value)
    decreases |funcs|
  {
    if funcs == [] then Ok(s)
    else
      var key := Dict.GetOr(s.config, funcs[0], Null);
      match CheckConflicts(s, key, funcs[0], true)
      case Raise(e) => Raise(e)
      case Ok(t) =>
        CheckKeepsWf(s, key, funcs[0], true);
        CheckAll(t, funcs[1..])
  }

  /** The entries of `g:nvimgdb_config_override`, in order; an entry
      without a default raises KeyError. */
  function OverrideAll(s: Resolving, entries: Dict.Dict<string, Value>): (r: Result<Resolving>)
    requires Wf(s)
    ensures r.Ok? ==> Wf(r.value)
    decreases |entries|
  {
    if entries == [] then Ok(s)
    else
      match FilterFuncref(entries[0].0, entries[0].1)
      case Raise(e) => Raise(e)
      case Ok(v) =>
        match Assign(s, entries[0].0, v, true)
        case Raise(e) => Raise(e)
        case Ok(t) => OverrideAll(t, entries[1..])
  }

  /** One `g:nvimgdb_<key>` variable: applied only when it is set and
      truthy. */
  function GlobalStep(s: Resolving, key: string, globals: map<string, Value>): (r: Result<Resolving>)
    requires Wf(s)
    ensures r.Ok? ==> Wf(r.value)
    ensures !(key in globals && Truthy(globals[key])) ==> r == Ok(s)
  {
    if key in globals && Truthy(globals[key]) then Assign(s, key, Filtered(key, globals[key]), false)
    else Ok(s)
  }

  /** The per-key variables, in the order of the defaults. */
  function GlobalsAll(s: Resolving, keys: seq<string>, globals: map<string, Value>): (r: Result<Resolving>)
    requires Wf(s)
    ensures r.Ok? ==> Wf(r.value)
    decreases |keys|
  {
    if keys == [] then Ok(s)
    else
      match GlobalStep(s, keys[0], globals)
      case Raise(e) => Raise(e)
      case Ok(t) => GlobalsAll(t, keys[1..], globals)
  }

  /** `_apply_overrides()`; an empty override dictionary is ignored. */
  function ApplyOverrides(s: Resolving, overrides: Option<Dict.Dict<string, Value>>, globals: map<string, Value>): (r: Result<Resolving>)
    requires Wf(s)
    ensures r.Ok? ==> Wf(r.value)
  {
    var first := if overrides.Some? && overrides.value != [] then OverrideAll(s, overrides.value) else Ok(s);
    match first
    case Raise(e) => Raise(e)
    case Ok(t) => GlobalsAll(t, Dict.Keys(Default), globals)
  }

  /** `{key: val for key, val in config.items() if val}`. */
  function RemoveFalsy(c: Dict.Dict<string, Value>): (r: Dict.Dict<string, Value>)
    ensures forall i :: 0 <= i < |r| ==> Truthy(r[i].1)
    ensures forall x :: x in r ==> x in c
    ensures Dict.Unique(c) ==> forall k :: Dict.Get(r, k) == if Dict.Get(c, k).Some? && Truthy(Dict.Get(c, k).value) then Dict.Get(c, k) else None
    decreases |c|
  {
    if c == [] then []
    else
      var rest := RemoveFalsy(c[1..]);
      if Truthy(c[0].1) then
        [c[0]] + rest
      else rest
  }

  lemma {:induction false} RemoveFalsyUnique(c: Dict.Dict<string, Value>)
    requires Dict.Unique(c)
    ensures Dict.Unique(RemoveFalsy(c))
    decreases |c|
  {
    if c != [] {
      RemoveFalsyUnique(c[1..]);
      var rest := RemoveFalsy(c[1..]);
      if Truthy(c[0].1) {
        var r := [c[0]] + rest;
        assert RemoveFalsy(c) == r;
        forall j | 0 < j < |r|
          ensures r[0].0 != r[j].0
        {
          assert r[j] in rest;
          var b :| 0 <= b < |c[1..]| && c[1..][b] == r[j];
          assert c[b + 1] == r[j];
        }
        forall i, j | 0 < i < j < |r|
          ensures r[i].0 != r[j].0
        {
          assert r[i] == rest[i - 1] && r[j] == rest[j - 1];
        }
      }
    }
  }

  // ---------------------------------------------------------------------
  // Signs

  /** The name of the i-th breakpoint sign defined, counting from 1. */
  function BreakSignName(i: int): string
  {
    "GdbBreakpoint" + IntToString(i)
  }

  /** `sign define GdbBreakpoint{i+1} text={brk}` for each breakpoint sign. */
  function BreakSignDefinitions(signs: seq<string>): (cs: seq<string>)
    ensures |cs| == |signs|
  {
    seq(|signs|, i requires 0 <= i < |signs| => "sign define " + BreakSignName(i + 1) + " text=" + signs[i])
  }

  /** The breakpoint sign texts: a list as given, a string one character
      per sign, anything else a TypeError. */
  function BreakTexts(brk: Value): (r: Result<seq<string>>)
    ensures r.Raise? <==> !(brk.StrList? || brk.Str?)
    ensures r.Raise? ==> r.exception == "TypeError"
    ensures brk.StrList? ==> r == Ok(brk.items)
    ensures brk.Str? ==> r.Ok? && |r.value| == |brk.s| && forall i :: 0 <= i < |brk.s| ==> r.value[i] == [brk.s[i]]
  {
    match brk
    case StrList(xs) => Ok(xs)
    case Str(s) => Ok(seq(|s|, i requires 0 <= i < |s| => [s[i]]))
    case _ => Raise("TypeError")
  }

  /** `_define_signs()`: KeyError when an essential entry was removed as
      falsy, TypeError when the current-line sign is not a string; a string
      given for the breakpoint signs defines one sign per character. */
  function DefineSigns(c: Dict.Dict<string, Value>): Result<seq<string>>
  {
    match Dict.Get(c, "sign_current_line")
    case None => Raise("KeyError")
    case Some(line) =>
      if !line.Str? then Raise("TypeError")
      else
        match Dict.Get(c, "sign_breakpoint")
        case None => Raise("KeyError")
        case Some(brk) =>
          match BreakTexts(brk)
          case Raise(e) => Raise(e)
          case Ok(texts) => Ok(["sign define GdbCurrentLine text=" + line.s] + BreakSignDefinitions(texts))
  }

  /** The entries `__init__` starts from: the user's, or the defaults when
      there are none. */
  function StartConfig(user: Option<Dict.Dict<string, Value>>): (c: Dict.Dict<string, Value>)
    requires user.Some? ==> Dict.Unique(user.value)
    ensures Dict.Unique(c)
    ensures user.None? ==> c == Default
  {
    UserConfigUnique(user);
    DefaultIsUnique();
    var copied := CopyUserConfig(user);
    if copied == [] then Default else copied
  }

  /** Removing the falsy entries and defining the signs. */
  function Finish(s: Resolving): (r: Result<Resolving>)
    requires Wf(s)
    ensures r.Ok? ==> Dict.Unique(r.value.config) && forall i :: 0 <= i < |r.value.config| ==> Truthy(r.value.config[i].1)
  {
    var c := RemoveFalsy(s.config);
    RemoveFalsyUnique(s.config);
    match DefineSigns(c)
    case Raise(e) => Raise(e)
    case Ok(signs) => Ok(Resolving(c, s.keyToFunc, s.commands + signs))
  }

  /** `Config.__init__`, from `g:nvimgdb_config`, `g:nvimgdb_config_override`
      and the `g:nvimgdb_<key>` variables. */
  function Resolve(user: Option<Dict.Dict<string, Value>>, overrides: Option<Dict.Dict<string, Value>>,
                   globals: map<string, Value>): (r: Result<Resolving>)
    requires user.Some? ==> Dict.Unique(user.value)
    ensures r.Ok? ==> Dict.Unique(r.value.config) && forall i :: 0 <= i < |r.value.config| ==> Truthy(r.value.config[i].1)
  {
    ResolveFrom(StartConfig(user), overrides, globals)
  }

  /** The first conflict loop over the starting entries, then the rest. */
  function ResolveFrom(start: Dict.Dict<string, Value>, overrides: Option<Dict.Dict<string, Value>>,
                       globals: map<string, Value>): (r: Result<Resolving>)
    requires Dict.Unique(start)
    ensures r.Ok? ==> Dict.Unique(r.value.config) && forall i :: 0 <= i < |r.value.config| ==> Truthy(r.value.config[i].1)
  {
    match CheckAll(Resolving(start, [], []), Dict.Keys(start))
    case Raise(e) => Raise(e)
    case Ok(s1) => Complete(s1, overrides, globals)
  }

  /** Everything after the first conflict loop. */
  function Complete(s: Resolving, overrides: Option<Dict.Dict<string, Value>>, globals: map<string, Value>): (r: Result<Resolving>)
    requires Wf(s)
    ensures r.Ok? ==> Dict.Unique(r.value.config) && forall i :: 0 <= i < |r.value.config| ==> Truthy(r.value.config[i].1)
  {
    match ApplyOverrides(s, overrides, globals)
    case Raise(e) => Raise(e)
    case Ok(t) => Finish(t)
  }

  /** The defaults name each entry once. */
  predicate DefaultUnique()
  {
    Dict.Unique(Default)
  }

  /** Two keys that differ in length, first letter or fifth letter. */
  function KeySignature(s: string): (int, char, char)
    requires |s| >= 5
  {
    (|s|, s[0], s[4])
  }

  /** The defaults from the i-th entry on are the entries as numbered. */
  lemma {:induction false} DefaultFromShape(i: nat)
    requires i <= 16
    ensures |DefaultFrom(i)| == 16 - i
    ensures forall j :: 0 <= j < 16 - i ==> DefaultFrom(i)[j] == DefaultEntry(i + j)
    decreases 16 - i
  {
    if i < 16 {
      DefaultFromShape(i + 1);
    }
  }

  /** The length and the first and fifth letters of each default key. */
  function EntrySignature(i: nat): (int, char, char)
  {
    if i == 0 then (9, 'k', 'u')
    else if i == 1 then (12, 'k', 'c')
    else if i == 2 then (8, 'k', 'n')
    else if i == 3 then (8, 'k', 's')
    else if i == 4 then (10, 'k', 'f')
    else if i == 5 then (14, 'k', 'b')
    else if i == 6 then (11, 'k', 'f')
    else if i == 7 then (13, 'k', 'f')
    else if i == 8 then (8, 'k', 'e')
    else if i == 9 then (12, 's', 't')
    else if i == 10 then (11, 's', 'k')
    else if i == 11 then (13, 'u', 't')
    else if i == 12 then (17, 's', '_')
    else if i == 13 then (15, 's', '_')
    else if i == 14 then (13, 's', 't')
    else (14, 's', 's')
  }

  lemma EntrySignatureOf(i: nat)
    requires i < 16
    ensures |DefaultEntry(i).0| >= 5 && KeySignature(DefaultEntry(i).0) == EntrySignature(i)
  {
  }

  /** No two default entries share a key. */
  lemma EntriesDistinct(a: nat, b: nat)
    requires a < b < 16
    ensures DefaultEntry(a).0 != DefaultEntry(b).0
  {
    EntrySignatureOf(a);
    EntrySignatureOf(b);
    assert EntrySignature(a) != EntrySignature(b);
  }

  lemma DefaultIsUnique()
    ensures DefaultUnique()
  {
    DefaultFromShape(FirstIndex());
    forall i, j | 0 <= i < j < |Default|
      ensures Default[i].0 != Default[j].0
    {
      EntriesDistinct(i, j);
    }
  }

  lemma UserConfigUnique(user: Option<Dict.Dict<string, Value>>)
    requires user.Some? ==> Dict.Unique(user.value)
    ensures Dict.Unique(CopyUserConfig(user))
  {
    if user.Some? {
      var u := user.value;
      var filtered := seq(|u|, i requires 0 <= i < |u| => (u[i].0, Filtered(u[i].0, u[i].1)));
      FillUnique(filtered, MustHave);
    }
  }

  lemma {:induction false} FillUnique(c: Dict.Dict<string, Value>, ms: seq<string>)
    requires Dict.Unique(c)
    ensures Dict.Unique(FillMustHave(c, ms))
    decreases |ms|
  {
    if ms != [] {
      Dict.PutUnique(c, ms[0], Dict.GetOr(Default, ms[0], Null));
      var c1 := if ms[0] in Dict.Keys(c) then c else Dict.Put(c, ms[0], Dict.GetOr(Default, ms[0], Null));
      FillUnique(c1, ms[1..]);
    }
  }

  /** Every function in `done` is a keystroke entry, `key_to_func` maps a
      keystroke only to a function in `done` that is configured with it,
      and every function in `done` that is not disabled owns its
      keystroke. */
  ghost predicate ExactOn(s: Resolving, done: set<string>)
  {
    && (forall f :: f in done ==> IsKeyName(f))
    && (forall k :: Dict.Get(s.keyToFunc, k).Some? ==>
          Dict.Get(s.keyToFunc, k).value in done && Dict.Get(s.config, Dict.Get(s.keyToFunc, k).value) == Some(k))
    && (forall f :: f in done && Dict.Get(s.config, f).Some? && Dict.Get(s.config, f).value != Null ==>
          Dict.Get(s.keyToFunc, Dict.Get(s.config, f).value) == Some(f))
  }

  /** The keystroke map with `func`'s own entry forgotten: the entry for
      the keystroke `func` is configured with, when it names `func`. */
  function Forget(s: Resolving, func: string): (k2f: Dict.Dict<Value, string>)
    requires Wf(s)
    ensures Dict.Unique(k2f)
    ensures forall k :: Dict.Get(k2f, k).Some? ==> Dict.Get(k2f, k) == Dict.Get(s.keyToFunc, k)
    ensures forall k :: Dict.Get(s.keyToFunc, k) != Some(func) ==> Dict.Get(k2f, k) == Dict.Get(s.keyToFunc, k)
  {
    match Dict.Get(s.config, func)
    case None => s.keyToFunc
    case Some(cur) =>
      if Dict.Get(s.keyToFunc, cur) == Some(func) then
        Dict.RemoveUnique(s.keyToFunc, cur);
        Dict.Remove(s.keyToFunc, cur)
      else s.keyToFunc
  }

  /** When ownership is exact, forgetting leaves no entry naming `func`. */
  lemma ForgetExact(s: Resolving, done: set<string>, func: string)
    requires Wf(s) && ExactOn(s, done)
    ensures forall k :: Dict.Get(Forget(s, func), k) != Some(func)
  {
    forall k | Dict.Get(s.keyToFunc, k) == Some(func)
      ensures Dict.Get(Forget(s, func), k) != Some(func)
    {
      assert Dict.Get(s.config, func) == Some(k);
    }
  }

  /** `_check_keymap_conflicts` as evidently intended: the function first
      gives up the keystroke it had, so that a conflict is detected only
      against a function that holds the keystroke now; the displaced
      function is disabled. */
  function FixedCheck(s: Resolving, key: Value, func: string, verbose: bool): (r: Result<Resolving>)
    requires Wf(s)
    ensures r.Ok? ==> Wf(r.value)
    ensures !IsKeyName(func) ==> r == Ok(s)
    ensures r.Raise? <==> IsKeyName(func) && !Hashable(key)
  {
    if !IsKeyName(func) then Ok(s)
    else if !Hashable(key) then Raise("TypeError")
    else
      var k2f := Forget(s, func);
      var prev := Dict.Get(k2f, key);
      Dict.PutUnique(k2f, key, func);
      if prev.Some? && prev.value != "" && prev.value != func then
        var commands := if verbose then s.commands + [Echo(key, func, prev.value)] else s.commands;
        Dict.PutUnique(s.config, prev.value, Null);
        Ok(Resolving(Dict.Put(s.config, prev.value, Null), Dict.Put(k2f, key, func), commands))
      else Ok(s.(keyToFunc := Dict.Put(k2f, key, func)))
  }

  /** The corrected check followed by the assignment. */
  function FixedAssign(s: Resolving, func: string, val: Value, verbose: bool): (r: Result<Resolving>)
    requires Wf(s)
    ensures r.Ok? ==> Wf(r.value) && Dict.Get(r.value.config, func) == Some(val)
    ensures r.Raise? <==> IsKeyName(func) && !Hashable(val)
  {
    match FixedCheck(s, val, func, verbose)
    case Raise(e) => Raise(e)
    case Ok(t) =>
      Dict.PutUnique(t.config, func, val);
      Ok(t.(config := Dict.Put(t.config, func, val)))
  }

  /** A keystroke entry's name is never empty. */
  lemma KeyNameNonEmpty(f: string)
    requires IsKeyName(f)
    ensures f != ""
  {
    assert |f| >= 4;
  }

  /** The corrected check keeps ownership exact, and the function assigned
      joins the owners. */
  lemma FixedAssignExact(s: Resolving, done: set<string>, func: string, val: Value, verbose: bool)
    requires Wf(s) && ExactOn(s, done)
    requires FixedAssign(s, func, val, verbose).Ok?
    ensures ExactOn(FixedAssign(s, func, val, verbose).value, if IsKeyName(func) then done + {func} else done)
  {
    var t := FixedAssign(s, func, val, verbose).value;
    if IsKeyName(func) {
      FixedRecordsOwners(s, done, func, val, verbose);
      FixedOwnersRecorded(s, done, func, val, verbose);
      assert forall f :: f in done + {func} ==> IsKeyName(f);
      assert ExactOn(t, done + {func});
    } else {
      NonKeyAssignExact(s, done, func, val, verbose);
    }
  }

  lemma NonKeyAssignExact(s: Resolving, done: set<string>, func: string, val: Value, verbose: bool)
    requires Wf(s) && ExactOn(s, done) && !IsKeyName(func)
    requires FixedAssign(s, func, val, verbose).Ok?
    ensures ExactOn(FixedAssign(s, func, val, verbose).value, done)
  {
    var t := FixedAssign(s, func, val, verbose).value;
    assert t == s.(config := Dict.Put(s.config, func, val));
    forall k | Dict.Get(t.keyToFunc, k).Some?
      ensures Dict.Get(t.config, Dict.Get(t.keyToFunc, k).value) == Some(k)
    {
      assert Dict.Get(t.keyToFunc, k).value in done;
    }
  }

  /** The facts both halves of the proof start from: the forgotten map,
      the function displaced (if any), and the new state. */
  lemma FixedShape(s: Resolving, done: set<string>, func: string, val: Value, verbose: bool)
      returns (k2f: Dict.Dict<Value, string>, prev: Option<string>)
    requires Wf(s) && ExactOn(s, done) && IsKeyName(func)
    requires FixedAssign(s, func, val, verbose).Ok?
    ensures forall k :: Dict.Get(k2f, k) != Some(func)
    ensures forall k :: Dict.Get(k2f, k).Some? ==> Dict.Get(k2f, k) == Dict.Get(s.keyToFunc, k)
    ensures forall k :: Dict.Get(s.keyToFunc, k) != Some(func) ==> Dict.Get(k2f, k) == Dict.Get(s.keyToFunc, k)
    ensures prev == Dict.Get(k2f, val)
    ensures prev.Some? ==> prev.value in done && prev.value != func && Dict.Get(s.config, prev.value) == Some(val)
    ensures FixedAssign(s, func, val, verbose).value.keyToFunc == Dict.Put(k2f, val, func)
    ensures prev.Some? ==> FixedAssign(s, func, val, verbose).value.config == Dict.Put(Dict.Put(s.config, prev.value, Null), func, val)
    ensures prev.None? ==> FixedAssign(s, func, val, verbose).value.config == Dict.Put(s.config, func, val)
  {
    k2f := Forget(s, func);
    ForgetExact(s, done, func);
    prev := Dict.Get(k2f, val);
    if prev.Some? {
      KeyNameNonEmpty(prev.value);
    }
  }

  lemma FixedRecordsOwners(s: Resolving, done: set<string>, func: string, val: Value, verbose: bool)
    requires Wf(s) && ExactOn(s, done) && IsKeyName(func)
    requires FixedAssign(s, func, val, verbose).Ok?
    ensures var t := FixedAssign(s, func, val, verbose).value;
      forall k :: Dict.Get(t.keyToFunc, k).Some? ==>
        Dict.Get(t.keyToFunc, k).value in done + {func} && Dict.Get(t.config, Dict.Get(t.keyToFunc, k).value) == Some(k)
  {
    var t := FixedAssign(s, func, val, verbose).value;
    var k2f, prev := FixedShape(s, done, func, val, verbose);
    forall k | Dict.Get(t.keyToFunc, k).Some?
      ensures Dict.Get(t.keyToFunc, k).value in done + {func}
      ensures Dict.Get(t.config, Dict.Get(t.keyToFunc, k).value) == Some(k)
    {
      if k != val {
        var g := Dict.Get(k2f, k).value;
        assert g in done && g != func && Dict.Get(s.config, g) == Some(k);
      }
    }
  }

  lemma FixedOwnersRecorded(s: Resolving, done: set<string>, func: string, val: Value, verbose: bool)
    requires Wf(s) && ExactOn(s, done) && IsKeyName(func)
    requires FixedAssign(s, func, val, verbose).Ok?
    ensures var t := FixedAssign(s, func, val, verbose).value;
      forall f :: f in done + {func} && Dict.Get(t.config, f).Some? && Dict.Get(t.config, f).value != Null ==>
        Dict.Get(t.keyToFunc, Dict.Get(t.config, f).value) == Some(f)
  {
    var t := FixedAssign(s, func, val, verbose).value;
    var k2f, prev := FixedShape(s, done, func, val, verbose);
    forall f | f in done + {func} && Dict.Get(t.config, f).Some? && Dict.Get(t.config, f).value != Null
      ensures Dict.Get(t.keyToFunc, Dict.Get(t.config, f).value) == Some(f)
    {
      if f != func {
        var v := Dict.Get(s.config, f).value;
        assert Dict.Get(t.config, f) == Some(v);
        assert Dict.Get(s.keyToFunc, v) == Some(f);
        assert Dict.Get(k2f, v) == Some(f);
      }
    }
  }

  /** With the corrected check, a function other than the one assigned
      loses its keymap exactly when the new keystroke is the one it holds,
      and otherwise keeps its entry. */
  lemma FixedDisablesOnlyTaken(s: Resolving, done: set<string>, func: string, val: Value, verbose: bool,
                               g: string, v: Value)
    requires Wf(s) && ExactOn(s, done)
    requires FixedAssign(s, func, val, verbose).Ok?
    requires g in done && g != func && Dict.Get(s.config, g) == Some(v) && v != Null
    ensures Dict.Get(FixedAssign(s, func, val, verbose).value.config, g) == if IsKeyName(func) && v == val then Some(Null) else Some(v)
  {
    if IsKeyName(func) {
      var k2f := Forget(s, func);
      ForgetExact(s, done, func);
      var prev := Dict.Get(k2f, val);
      if prev.Some? {
        assert prev.value in done;
        KeyNameNonEmpty(prev.value);
      }
      if v == val {
        assert Dict.Get(s.keyToFunc, v) == Some(g);
        assert prev == Some(g);
      } else if prev.Some? {
        assert Dict.Get(s.config, prev.value) == Some(val);
        assert prev.value != g;
      }
    }
  }

  /** Exact ownership means no two functions share a keystroke. */
  lemma ExactDistinct(s: Resolving, done: set<string>, f: string, g: string)
    requires ExactOn(s, done)
    requires f in done && g in done && f != g
    requires Dict.Get(s.config, f).Some? && Dict.Get(s.config, f).value != Null
    ensures Dict.Get(s.config, g) != Dict.Get(s.config, f)
  {
  }

  /** As written, moving a function `f1` to a free keystroke leaves its
      old keystroke recorded for it; when another function `f2` is then
      given that old keystroke, the check takes it for a conflict and
      disables `f1`, although nothing claims the keystroke `f1` now has.
      (With the defaults: the override `{'key_next': '<f6>', 'key_step':
      '<f10>'}` disables `key_next`.) */
  lemma StaleKeymapAsWritten(s: Resolving, done: set<string>, f1: string, f2: string, k1: Value, k2: Value, k3: Value)
    requires Wf(s) && ExactOn(s, done)
    requires f1 in done && f2 in done && f1 != f2
    requires Dict.Get(s.config, f1) == Some(k1) && Dict.Get(s.config, f2) == Some(k2)
    requires k1 != Null && k2 != Null && Hashable(k1) && Hashable(k2) && Hashable(k3)
    requires Dict.Get(s.keyToFunc, k3) == None
    ensures Assign(s, f1, k3, true).Ok?
    ensures Assign(Assign(s, f1, k3, true).value, f2, k1, true).Ok?
    ensures Dict.Get(Assign(Assign(s, f1, k3, true).value, f2, k1, true).value.config, f1) == Some(Null)
    ensures k1 != k3
  {
    assert Dict.Get(s.keyToFunc, k1) == Some(f1);
    assert Dict.Get(s.keyToFunc, k2) == Some(f2);
    var s1 := Assign(s, f1, k3, true);
    assert s1.Ok? && s1.value.keyToFunc == Dict.Put(s.keyToFunc, k3, f1);
    assert s1.value.config == Dict.Put(s.config, f1, k3);
    KeyNameNonEmpty(f1);
    assert Dict.Get(s1.value.keyToFunc, k1) == Some(f1);
    assert Dict.Get(s1.value.config, f2) == Some(k2);
    assert Dict.Get(s1.value.keyToFunc, k2) == Some(f2);
    var c := CheckConflicts(s1.value, k1, f2, true);
    assert c.Ok? && c.value.config == Dict.Put(s1.value.config, f1, Null);
  }

  /** With the corrected check the same two assignments leave `f1` on its
      new keystroke and `f2` on the one `f1` gave up. */
  lemma StaleKeymapFixed(s: Resolving, done: set<string>, f1: string, f2: string, k1: Value, k2: Value, k3: Value)
    requires Wf(s) && ExactOn(s, done)
    requires f1 in done && f2 in done && f1 != f2
    requires Dict.Get(s.config, f1) == Some(k1) && Dict.Get(s.config, f2) == Some(k2)
    requires k1 != Null && k3 != Null && Hashable(k1) && Hashable(k3)
    requires Dict.Get(s.keyToFunc, k3) == None
    ensures FixedAssign(s, f1, k3, true).Ok?
    ensures FixedAssign(FixedAssign(s, f1, k3, true).value, f2, k1, true).Ok?
    ensures Dict.Get(FixedAssign(FixedAssign(s, f1, k3, true).value, f2, k1, true).value.config, f1) == Some(k3)
    ensures Dict.Get(FixedAssign(FixedAssign(s, f1, k3, true).value, f2, k1, true).value.config, f2) == Some(k1)
  {
    assert k1 != k3 by {
      assert Dict.Get(s.keyToFunc, k1) == Some(f1);
    }
    var s1 := FixedAssign(s, f1, k3, true);
    assert IsKeyName(f1);
    FixedAssignExact(s, done, f1, k3, true);
    FixedDisablesOnlyTaken(s1.value, done + {f1}, f2, k1, true, f1, k3);
  }

  // ---------------------------------------------------------------------
  // Overrides

  /** Per-key variables that are all falsy change nothing. */
  lemma {:induction false} FalsyGlobalsIgnored(s: Resolving, keys: seq<string>, globals: map<string, Value>)
    requires Wf(s)
    requires forall k :: k in globals ==> !Truthy(globals[k])
    ensures GlobalsAll(s, keys, globals) == Ok(s)
    decreases |keys|
  {
    if keys != [] {
      assert GlobalStep(s, keys[0], globals) == Ok(s);
      FalsyGlobalsIgnored(s, keys[1..], globals);
    }
  }

  lemma {:induction false} OverrideAllSnoc(s: Resolving, entries: Dict.Dict<string, Value>, x: (string, Value))
    requires Wf(s)
    ensures OverrideAll(s, entries + [x]) ==
      match OverrideAll(s, entries)
      case Raise(e) => Raise(e)
      case Ok(t) => OverrideAll(t, [x])
    decreases |entries|
  {
    if entries == [] {
      assert entries + [x] == [x];
    } else {
      assert (entries + [x])[1..] == entries[1..] + [x];
      match FilterFuncref(entries[0].0, entries[0].1)
      case Raise(e) =>
      case Ok(v) =>
        match Assign(s, entries[0].0, v, true)
        case Raise(e) =>
        case Ok(t) => OverrideAllSnoc(t, entries[1..], x);
    }
  }

  /** The override dictionary is applied in order: its last entry is in
      force afterwards, converted by `_filter_funcref`. */
  lemma OverrideLastWins(s: Resolving, entries: Dict.Dict<string, Value>, key: string, val: Value)
    requires Wf(s)
    requires OverrideAll(s, entries + [(key, val)]).Ok?
    ensures FilterFuncref(key, val).Ok?
    ensures Dict.Get(OverrideAll(s, entries + [(key, val)]).value.config, key) == Some(FilterFuncref(key, val).value)
  {
    OverrideAllSnoc(s, entries, (key, val));
    var t := OverrideAll(s, entries).value;
    var fv := FilterFuncref(key, val);
    assert fv.Ok? && Assign(t, key, fv.value, true).Ok?;
    var u := Assign(t, key, fv.value, true).value;
    assert OverrideAll(u, [(key, val)][1..]) == Ok(u);
  }

  // ---------------------------------------------------------------------
  // At most one owner per keystroke, for the code as written

  /** Every function in `done` is a configured keystroke entry,
      `key_to_func` names only functions in `done`, and each function in
      `done` that is not disabled is the one recorded for its keystroke.
      Unlike `ExactOn`, stale entries are allowed. */
  ghost predicate Owned(s: Resolving, done: set<string>)
  {
    OwnedNames(s, done) && OwnedRecords(s, done) && OwnedOwners(s, done)
  }

  ghost predicate OwnedNames(s: Resolving, done: set<string>)
  {
    forall f :: f in done ==> IsKeyName(f) && f in Dict.Keys(s.config)
  }

  ghost predicate OwnedRecords(s: Resolving, done: set<string>)
  {
    forall k :: Dict.Get(s.keyToFunc, k).Some? ==> Dict.Get(s.keyToFunc, k).value in done
  }

  ghost predicate OwnedOwners(s: Resolving, done: set<string>)
  {
    forall f :: f in done && Dict.Get(s.config, f).Some? && Dict.Get(s.config, f).value != Null ==>
      Dict.Get(s.keyToFunc, Dict.Get(s.config, f).value) == Some(f)
  }

  /** An assignment as written keeps `Owned`, and the function assigned
      joins the owners. A function not yet among them is either not
      configured or assigned the value it already has. */
  lemma AssignOwned(s: Resolving, done: set<string>, func: string, val: Value, verbose: bool)
    requires Wf(s) && Owned(s, done)
    requires IsKeyName(func) && func !in done ==> Dict.Get(s.config, func) == None || Dict.Get(s.config, func) == Some(val)
    requires Assign(s, func, val, verbose).Ok?
    ensures Owned(Assign(s, func, val, verbose).value, if IsKeyName(func) then done + {func} else done)
  {
    var t := Assign(s, func, val, verbose).value;
    if IsKeyName(func) {
      var prev := Dict.Get(s.keyToFunc, val);
      if prev.Some? && prev.value != "" && prev.value != func {
        AssignOwnedConflict(s, done, func, val, verbose);
      } else {
        AssignOwnedFree(s, done, func, val, verbose);
      }
    } else {
      assert t == s.(config := Dict.Put(s.config, func, val));
      forall k | Dict.Get(t.keyToFunc, k).Some?
        ensures Dict.Get(t.config, Dict.Get(t.keyToFunc, k).value) == Dict.Get(s.config, Dict.Get(t.keyToFunc, k).value)
      {
        assert Dict.Get(t.keyToFunc, k).value in done;
      }
      forall f | f in done
        ensures f in Dict.Keys(t.config) && Dict.Get(t.config, f) == Dict.Get(s.config, f)
      {
        assert IsKeyName(f);
      }
    }
  }

  /** An assignment as written adds at most the entry assigned. */
  lemma AssignKeys(s: Resolving, done: set<string>, func: string, val: Value, verbose: bool)
    requires Wf(s) && Owned(s, done)
    requires Assign(s, func, val, verbose).Ok?
    ensures forall f :: f in Dict.Keys(Assign(s, func, val, verbose).value.config) <==> f in Dict.Keys(s.config) || f == func
  {
    if IsKeyName(func) {
      var p := Dict.Get(s.keyToFunc, val);
      if p.Some? && p.value != "" && p.value != func {
        var prev, cur := ConflictShape(s, done, func, val, verbose);
        assert prev in Dict.Keys(s.config);
      } else {
        FreeShape(s, done, func, val, verbose);
      }
    }
  }

  /** The state after an assignment that meets no conflict. */
  lemma FreeShape(s: Resolving, done: set<string>, func: string, val: Value, verbose: bool)
    requires Wf(s) && Owned(s, done) && IsKeyName(func)
    requires Assign(s, func, val, verbose).Ok?
    requires var prev := Dict.Get(s.keyToFunc, val); !(prev.Some? && prev.value != "" && prev.value != func)
    ensures Dict.Get(s.keyToFunc, val).Some? ==> Dict.Get(s.keyToFunc, val) == Some(func)
    ensures Assign(s, func, val, verbose).value.keyToFunc == Dict.Put(s.keyToFunc, val, func)
    ensures Assign(s, func, val, verbose).value.config == Dict.Put(s.config, func, val)
  {
    var prev := Dict.Get(s.keyToFunc, val);
    if prev.Some? {
      assert prev.value in done;
      KeyNameNonEmpty(prev.value);
    }
  }

  lemma AssignOwnedFree(s: Resolving, done: set<string>, func: string, val: Value, verbose: bool)
    requires Wf(s) && Owned(s, done) && IsKeyName(func)
    requires func !in done ==> Dict.Get(s.config, func) == None || Dict.Get(s.config, func) == Some(val)
    requires Assign(s, func, val, verbose).Ok?
    requires var prev := Dict.Get(s.keyToFunc, val); !(prev.Some? && prev.value != "" && prev.value != func)
    ensures Owned(Assign(s, func, val, verbose).value, done + {func})
  {
    FreeShape(s, done, func, val, verbose);
    FreeOwners(s, done, func, val, verbose);
    FreeRecords(s, done, func, val, Assign(s, func, val, verbose).value);
  }

  lemma FreeRecords(s: Resolving, done: set<string>, func: string, val: Value, t: Resolving)
    requires OwnedNames(s, done) && OwnedRecords(s, done) && IsKeyName(func)
    requires t.keyToFunc == Dict.Put(s.keyToFunc, val, func)
    requires t.config == Dict.Put(s.config, func, val)
    ensures OwnedRecords(t, done + {func})
    ensures OwnedNames(t, done + {func})
  {
    assert forall k :: Dict.Get(t.keyToFunc, k).Some? ==> Dict.Get(t.keyToFunc, k).value in done + {func};
    assert forall f :: f in done + {func} ==> IsKeyName(f) && f in Dict.Keys(t.config);
  }

  lemma FreeOwners(s: Resolving, done: set<string>, func: string, val: Value, verbose: bool)
    requires Wf(s) && Owned(s, done) && IsKeyName(func)
    requires Assign(s, func, val, verbose).Ok?
    requires var prev := Dict.Get(s.keyToFunc, val); !(prev.Some? && prev.value != "" && prev.value != func)
    ensures OwnedOwners(Assign(s, func, val, verbose).value, done + {func})
  {
    FreeShape(s, done, func, val, verbose);
    UndisturbedOwners(s, done, func, val, Assign(s, func, val, verbose).value);
  }

  /** When the keystroke is free or already `func`'s, every owner that is
      not disabled stays recorded for its keystroke. */
  lemma UndisturbedOwners(s: Resolving, done: set<string>, func: string, val: Value, t: Resolving)
    requires OwnedOwners(s, done)
    requires Dict.Get(s.keyToFunc, val).Some? ==> Dict.Get(s.keyToFunc, val) == Some(func)
    requires t.keyToFunc == Dict.Put(s.keyToFunc, val, func)
    requires t.config == Dict.Put(s.config, func, val)
    ensures OwnedOwners(t, done + {func})
  {
    forall f | f in done + {func} && Dict.Get(t.config, f).Some? && Dict.Get(t.config, f).value != Null
      ensures Dict.Get(t.keyToFunc, Dict.Get(t.config, f).value) == Some(f)
    {
      if f != func {
        assert Dict.Get(t.config, f) == Dict.Get(s.config, f);
        var v := Dict.Get(s.config, f).value;
        assert f in done && Dict.Get(s.config, f).Some? && v != Null;
        assert Dict.Get(s.keyToFunc, v) == Some(f);
        assert v != val;
        assert Dict.Get(t.keyToFunc, v) == Some(f);
      }
    }
  }

  /** The state after an assignment that displaces `prev`. */
  lemma ConflictShape(s: Resolving, done: set<string>, func: string, val: Value, verbose: bool)
      returns (prev: string, cur: Value)
    requires Wf(s) && Owned(s, done) && IsKeyName(func)
    requires Assign(s, func, val, verbose).Ok?
    requires var p := Dict.Get(s.keyToFunc, val); p.Some? && p.value != "" && p.value != func
    ensures Dict.Get(s.keyToFunc, val) == Some(prev) && prev in done && prev != func
    ensures Dict.Get(s.config, func) == Some(cur) && cur in Dict.Keys(s.keyToFunc)
    ensures Assign(s, func, val, verbose).value.keyToFunc == Dict.Put(Dict.Remove(s.keyToFunc, cur), val, func)
    ensures Assign(s, func, val, verbose).value.config == Dict.Put(Dict.Put(s.config, prev, Null), func, val)
  {
    prev := Dict.Get(s.keyToFunc, val).value;
    cur := Dict.Get(s.config, func).value;
  }

  lemma AssignOwnedConflict(s: Resolving, done: set<string>, func: string, val: Value, verbose: bool)
    requires Wf(s) && Owned(s, done) && IsKeyName(func)
    requires func !in done ==> Dict.Get(s.config, func) == None || Dict.Get(s.config, func) == Some(val)
    requires Assign(s, func, val, verbose).Ok?
    requires var prev := Dict.Get(s.keyToFunc, val); prev.Some? && prev.value != "" && prev.value != func
    ensures Owned(Assign(s, func, val, verbose).value, done + {func})
  {
    ConflictRecords(s, done, func, val, verbose);
    ConflictOwners(s, done, func, val, verbose);
  }

  lemma ConflictRecords(s: Resolving, done: set<string>, func: string, val: Value, verbose: bool)
    requires Wf(s) && Owned(s, done) && IsKeyName(func)
    requires Assign(s, func, val, verbose).Ok?
    requires var p := Dict.Get(s.keyToFunc, val); p.Some? && p.value != "" && p.value != func
    ensures OwnedRecords(Assign(s, func, val, verbose).value, done + {func})
    ensures OwnedNames(Assign(s, func, val, verbose).value, done + {func})
  {
    var prev, cur := ConflictShape(s, done, func, val, verbose);
    DisplacedRecords(s, done, func, val, prev, cur, Assign(s, func, val, verbose).value);
  }

  /** After `prev` is displaced, `key_to_func` still names only owners, and
      every owner is still configured. */
  lemma DisplacedRecords(s: Resolving, done: set<string>, func: string, val: Value, prev: string, cur: Value,
                         t: Resolving)
    requires Wf(s) && OwnedNames(s, done) && OwnedRecords(s, done) && IsKeyName(func)
    requires t.keyToFunc == Dict.Put(Dict.Remove(s.keyToFunc, cur), val, func)
    requires t.config == Dict.Put(Dict.Put(s.config, prev, Null), func, val)
    ensures OwnedRecords(t, done + {func})
    ensures OwnedNames(t, done + {func})
  {
    var c1 := Dict.Put(s.config, prev, Null);
    forall f | f in done
      ensures f in Dict.Keys(t.config)
    {
      assert f in Dict.Keys(s.config);
      assert f in Dict.Keys(c1);
    }
    assert Dict.Get(t.config, func) == Some(val);
    OwnedNamesAdd(t, done, func);
    var k2f := Dict.Remove(s.keyToFunc, cur);
    forall k | Dict.Get(t.keyToFunc, k).Some? && k != val
      ensures Dict.Get(t.keyToFunc, k).value in done
    {
      assert Dict.Get(t.keyToFunc, k) == Dict.Get(k2f, k);
      assert Dict.Get(k2f, k) == Dict.Get(s.keyToFunc, k);
    }
    assert Dict.Get(t.keyToFunc, val) == Some(func);
    OwnedRecordsAdd(t, done, func, val);
  }

  lemma OwnedNamesAdd(t: Resolving, done: set<string>, func: string)
    requires forall f :: f in done ==> IsKeyName(f)
    requires forall f :: f in done ==> f in Dict.Keys(t.config)
    requires IsKeyName(func) && func in Dict.Keys(t.config)
    ensures OwnedNames(t, done + {func})
  {
  }

  lemma OwnedRecordsAdd(t: Resolving, done: set<string>, func: string, val: Value)
    requires forall k :: Dict.Get(t.keyToFunc, k).Some? && k != val ==> Dict.Get(t.keyToFunc, k).value in done
    requires Dict.Get(t.keyToFunc, val) == Some(func)
    ensures OwnedRecords(t, done + {func})
  {
  }

  lemma ConflictOwners(s: Resolving, done: set<string>, func: string, val: Value, verbose: bool)
    requires Wf(s) && Owned(s, done) && IsKeyName(func)
    requires func !in done ==> Dict.Get(s.config, func) == None || Dict.Get(s.config, func) == Some(val)
    requires Assign(s, func, val, verbose).Ok?
    requires var p := Dict.Get(s.keyToFunc, val); p.Some? && p.value != "" && p.value != func
    ensures OwnedOwners(Assign(s, func, val, verbose).value, done + {func})
  {
    var prev, cur := ConflictShape(s, done, func, val, verbose);
    DisplacedOwners(s, done, func, val, prev, cur, Assign(s, func, val, verbose).value);
  }

  /** After `prev` is displaced, every owner that is not disabled is still
      recorded for its keystroke. */
  lemma DisplacedOwners(s: Resolving, done: set<string>, func: string, val: Value, prev: string, cur: Value,
                        t: Resolving)
    requires Wf(s) && OwnedOwners(s, done)
    requires func !in done ==> Dict.Get(s.config, func) == Some(val)
    requires Dict.Get(s.keyToFunc, val) == Some(prev) && prev != func
    requires Dict.Get(s.config, func) == Some(cur)
    requires t.keyToFunc == Dict.Put(Dict.Remove(s.keyToFunc, cur), val, func)
    requires t.config == Dict.Put(Dict.Put(s.config, prev, Null), func, val)
    ensures OwnedOwners(t, done + {func})
  {
    assert Dict.Get(t.config, func) == Some(val) && Dict.Get(t.keyToFunc, val) == Some(func);
    forall f | f in done && Dict.Get(t.config, f).Some? && Dict.Get(t.config, f).value != Null
      ensures Dict.Get(t.keyToFunc, Dict.Get(t.config, f).value) == Some(f)
    {
      if f != func {
        DisplacedOwnerAt(s, done, func, val, prev, cur, t, f);
      }
    }
    OwnedOwnersAdd(t, done, func);
  }

  /** Ownership extends to one more function that owns its keystroke. */
  lemma OwnedOwnersAdd(t: Resolving, done: set<string>, func: string)
    requires OwnedOwners(t, done)
    requires Dict.Get(t.config, func).Some? && Dict.Get(t.config, func).value != Null ==>
      Dict.Get(t.keyToFunc, Dict.Get(t.config, func).value) == Some(func)
    ensures OwnedOwners(t, done + {func})
  {
  }

  lemma DisplacedOwnerAt(s: Resolving, done: set<string>, func: string, val: Value, prev: string, cur: Value,
                         t: Resolving, f: string)
    requires Wf(s) && OwnedOwners(s, done)
    requires func !in done ==> Dict.Get(s.config, func) == Some(val)
    requires Dict.Get(s.keyToFunc, val) == Some(prev) && prev != func
    requires Dict.Get(s.config, func) == Some(cur)
    requires t.keyToFunc == Dict.Put(Dict.Remove(s.keyToFunc, cur), val, func)
    requires t.config == Dict.Put(Dict.Put(s.config, prev, Null), func, val)
    requires f in done && f != func
    requires Dict.Get(t.config, f).Some? && Dict.Get(t.config, f).value != Null
    ensures Dict.Get(t.keyToFunc, Dict.Get(t.config, f).value) == Some(f)
  {
    var c1 := Dict.Put(s.config, prev, Null);
    assert Dict.Get(t.config, prev) == Dict.Get(c1, prev) == Some(Null);
    assert Dict.Get(t.config, f) == Dict.Get(c1, f) == Dict.Get(s.config, f);
    var v := Dict.Get(s.config, f).value;
    assert Dict.Get(s.keyToFunc, v) == Some(f);
    assert v != cur by {
      if func in done && cur != Null {
        assert Dict.Get(s.keyToFunc, cur) == Some(func);
      }
    }
    ConflictOwnerAt(s, func, val, prev, cur, t, f, v);
  }

  /** A function other than the one assigned and the one displaced keeps
      its keystroke, and the keystroke stays recorded for it. */
  lemma ConflictOwnerAt(s: Resolving, func: string, val: Value, prev: string, cur: Value,
                        t: Resolving, f: string, v: Value)
    requires Wf(s)
    requires Dict.Get(s.keyToFunc, val) == Some(prev)
    requires t.keyToFunc == Dict.Put(Dict.Remove(s.keyToFunc, cur), val, func)
    requires t.config == Dict.Put(Dict.Put(s.config, prev, Null), func, val)
    requires f != func && f != prev && v != cur
    requires Dict.Get(s.config, f) == Some(v) && Dict.Get(s.keyToFunc, v) == Some(f)
    ensures Dict.Get(t.config, f) == Some(v) && Dict.Get(t.keyToFunc, v) == Some(f)
  {
    assert v != val;
    assert Dict.Get(Dict.Remove(s.keyToFunc, cur), v) == Some(f);
  }

  /** The keystroke entries among `funcs`. */
  function KeyNamesIn(funcs: seq<string>): (r: set<string>)
    ensures forall f :: f in r <==> f in funcs && IsKeyName(f)
  {
    set f | f in funcs && IsKeyName(f)
  }

  /** Every configured keystroke entry is an owner. */
  ghost predicate AllOwned(s: Resolving)
  {
    Owned(s, KeyNamesIn(Dict.Keys(s.config)))
  }

  /** For an entry checked with the value it already has, as the first loop
      of `__init__` does, the check alone is the assignment. */
  lemma CheckIsAssign(s: Resolving, key: Value, func: string, verbose: bool)
    requires Wf(s) && Dict.Get(s.config, func) == Some(key)
    ensures CheckConflicts(s, key, func, verbose).Ok? <==> Assign(s, func, key, verbose).Ok?
    ensures CheckConflicts(s, key, func, verbose).Ok? ==>
      CheckConflicts(s, key, func, verbose).value == Assign(s, func, key, verbose).value
  {
    var c := CheckConflicts(s, key, func, verbose);
    if c.Ok? {
      var t := c.value;
      CheckKeepsWf(s, key, func, verbose);
      if IsKeyName(func) {
        var prev := Dict.Get(s.keyToFunc, key);
        if prev.Some? && prev.value != "" && prev.value != func {
          assert t.config == Dict.Put(s.config, prev.value, Null);
        }
      }
      assert Dict.Get(t.config, func) == Some(key);
      Dict.PutSame(t.config, func, key);
    }
  }

  /** The first loop of `__init__` makes every keystroke entry it checks an
      owner, and adds no entry. */
  lemma {:induction false} CheckAllOwned(s: Resolving, done: set<string>, funcs: seq<string>)
    requires Wf(s) && Owned(s, done)
    requires forall f :: f in funcs ==> f in Dict.Keys(s.config)
    requires CheckAll(s, funcs).Ok?
    ensures Owned(CheckAll(s, funcs).value, done + KeyNamesIn(funcs))
    ensures forall f :: f in Dict.Keys(CheckAll(s, funcs).value.config) <==> f in Dict.Keys(s.config)
    decreases |funcs|
  {
    if funcs == [] {
      assert done + KeyNamesIn(funcs) == done;
    } else {
      var t := CheckStepOwned(s, done, funcs[0]);
      var done' := if IsKeyName(funcs[0]) then done + {funcs[0]} else done;
      assert CheckAll(s, funcs) == CheckAll(t, funcs[1..]);
      CheckAllOwned(t, done', funcs[1..]);
      KeyNamesCons(funcs, done);
    }
  }

  lemma KeyNamesCons(funcs: seq<string>, done: set<string>)
    requires funcs != []
    ensures (if IsKeyName(funcs[0]) then done + {funcs[0]} else done) + KeyNamesIn(funcs[1..]) == done + KeyNamesIn(funcs)
  {
    assert funcs == [funcs[0]] + funcs[1..];
  }

  /** One entry of the first loop. */
  lemma CheckStepOwned(s: Resolving, done: set<string>, func: string) returns (t: Resolving)
    requires Wf(s) && Owned(s, done)
    requires func in Dict.Keys(s.config)
    requires CheckConflicts(s, Dict.GetOr(s.config, func, Null), func, true).Ok?
    ensures CheckConflicts(s, Dict.GetOr(s.config, func, Null), func, true) == Ok(t)
    ensures Wf(t) && Owned(t, if IsKeyName(func) then done + {func} else done)
    ensures forall f :: f in Dict.Keys(t.config) <==> f in Dict.Keys(s.config)
  {
    var key := Dict.GetOr(s.config, func, Null);
    assert Dict.Get(s.config, func) == Some(key);
    CheckIsAssign(s, key, func, true);
    CheckKeepsWf(s, key, func, true);
    t := CheckConflicts(s, key, func, true).value;
    AssignOwned(s, done, func, key, true);
    AssignKeys(s, done, func, key, true);
  }

  /** An assignment as written keeps every configured keystroke entry an
      owner. */
  lemma AssignAllOwned(s: Resolving, func: string, val: Value, verbose: bool)
    requires Wf(s) && AllOwned(s)
    requires Assign(s, func, val, verbose).Ok?
    ensures AllOwned(Assign(s, func, val, verbose).value)
  {
    var done := KeyNamesIn(Dict.Keys(s.config));
    var t := Assign(s, func, val, verbose).value;
    AssignOwned(s, done, func, val, verbose);
    AssignKeys(s, done, func, val, verbose);
    KeyNamesGrow(Dict.Keys(s.config), Dict.Keys(t.config), func);
  }

  /** Adding one name adds at most that keystroke entry. */
  lemma KeyNamesGrow(ks: seq<string>, ks': seq<string>, func: string)
    requires forall f :: f in ks' <==> f in ks || f == func
    ensures KeyNamesIn(ks') == if IsKeyName(func) then KeyNamesIn(ks) + {func} else KeyNamesIn(ks)
  {
  }

  lemma {:induction false} OverrideAllOwned(s: Resolving, entries: Dict.Dict<string, Value>)
    requires Wf(s) && AllOwned(s)
    requires OverrideAll(s, entries).Ok?
    ensures AllOwned(OverrideAll(s, entries).value)
    decreases |entries|
  {
    if entries != [] {
      var v := FilterFuncref(entries[0].0, entries[0].1).value;
      AssignAllOwned(s, entries[0].0, v, true);
      OverrideAllOwned(Assign(s, entries[0].0, v, true).value, entries[1..]);
    }
  }

  lemma {:induction false} GlobalsAllOwned(s: Resolving, keys: seq<string>, globals: map<string, Value>)
    requires Wf(s) && AllOwned(s)
    requires GlobalsAll(s, keys, globals).Ok?
    ensures AllOwned(GlobalsAll(s, keys, globals).value)
    decreases |keys|
  {
    if keys != [] {
      var key := keys[0];
      if key in globals && Truthy(globals[key]) {
        AssignAllOwned(s, key, Filtered(key, globals[key]), false);
      }
      GlobalsAllOwned(GlobalStep(s, key, globals).value, keys[1..], globals);
    }
  }

  /** After the first loop every configured keystroke entry is an owner. */
  lemma InitialOwned(start: Dict.Dict<string, Value>)
    requires Dict.Unique(start)
    requires CheckAll(Resolving(start, [], []), Dict.Keys(start)).Ok?
    ensures AllOwned(CheckAll(Resolving(start, [], []), Dict.Keys(start)).value)
  {
    var s0 := Resolving(start, [], []);
    assert Owned(s0, {});
    CheckAllOwned(s0, {}, Dict.Keys(start));
    var s1 := CheckAll(s0, Dict.Keys(start)).value;
    assert KeyNamesIn(Dict.Keys(s1.config)) == {} + KeyNamesIn(Dict.Keys(start));
  }

  lemma ApplyOverridesOwned(s: Resolving, overrides: Option<Dict.Dict<string, Value>>, globals: map<string, Value>)
    requires Wf(s) && AllOwned(s)
    requires ApplyOverrides(s, overrides, globals).Ok?
    ensures AllOwned(ApplyOverrides(s, overrides, globals).value)
  {
    var first := if overrides.Some? && overrides.value != [] then OverrideAll(s, overrides.value) else Ok(s);
    if overrides.Some? && overrides.value != [] {
      OverrideAllOwned(s, overrides.value);
    }
    GlobalsAllOwned(first.value, Dict.Keys(Default), globals);
  }

  /** Removing the falsy entries leaves each remaining keystroke entry on a
      keystroke of its own. */
  lemma FinishOneOwner(s: Resolving, f: string, g: string)
    requires Wf(s) && AllOwned(s)
    requires Finish(s).Ok?
    requires IsKeyName(f) && IsKeyName(g) && f != g
    requires Dict.Get(Finish(s).value.config, f).Some?
    ensures Dict.Get(Finish(s).value.config, g) != Dict.Get(Finish(s).value.config, f)
  {
    var c := RemoveFalsy(s.config);
    assert Finish(s).value.config == c;
    var v := Dict.Get(s.config, f).value;
    assert Dict.Get(c, f) == Some(v) && v != Null;
    assert Dict.Get(s.keyToFunc, v) == Some(f);
  }

  /** However the user configuration, the override dictionary and the
      per-key variables combine, the resolved configuration never gives
      one keystroke to two `key_*` entries. */
  lemma OneOwnerPerKeystroke(user: Option<Dict.Dict<string, Value>>, overrides: Option<Dict.Dict<string, Value>>,
                             globals: map<string, Value>, f: string, g: string)
    requires user.Some? ==> Dict.Unique(user.value)
    requires Resolve(user, overrides, globals).Ok?
    requires IsKeyName(f) && IsKeyName(g) && f != g
    requires Dict.Get(Resolve(user, overrides, globals).value.config, f).Some?
    ensures Dict.Get(Resolve(user, overrides, globals).value.config, g) != Dict.Get(Resolve(user, overrides, globals).value.config, f)
  {
    OneOwnerFrom(StartConfig(user), overrides, globals, f, g);
  }

  /** The same from any starting entries. */
  lemma OneOwnerFrom(start: Dict.Dict<string, Value>, overrides: Option<Dict.Dict<string, Value>>,
                     globals: map<string, Value>, f: string, g: string)
    requires Dict.Unique(start)
    requires ResolveFrom(start, overrides, globals).Ok?
    requires IsKeyName(f) && IsKeyName(g) && f != g
    requires Dict.Get(ResolveFrom(start, overrides, globals).value.config, f).Some?
    ensures Dict.Get(ResolveFrom(start, overrides, globals).value.config, g) != Dict.Get(ResolveFrom(start, overrides, globals).value.config, f)
  {
    InitialOwned(start);
    var s1 := CheckAll(Resolving(start, [], []), Dict.Keys(start)).value;
    ApplyOverridesOwned(s1, overrides, globals);
    var s2 := ApplyOverrides(s1, overrides, globals).value;
    assert ResolveFrom(start, overrides, globals) == Finish(s2);
    FinishOneOwner(s2, f, g);
  }

  // ---------------------------------------------------------------------
  // The resolved configuration, updated in place as `Config.__init__` does

  /** A method that follows a specification function: it raises what the
      function raises, and otherwise leaves the state the function gives. */
  predicate Follows(r: Result<()>, now: Resolving, spec: Result<Resolving>)
  {
    match spec
    case Raise(e) => r == Raise(e)
    case Ok(t) => r.Ok? && now == t
  }

  class Configuration {
    var config: Dict.Dict<string, Value>
    var keyToFunc: Dict.Dict<Value, string>
    var commands: seq<string>

    function Value(): Resolving
      reads this
    {
      Resolving(config, keyToFunc, commands)
    }

    constructor ()
      ensures Value() == Resolving([], [], [])
    {
      config := [];
      keyToFunc := [];
      commands := [];
    }

    /** `_check_keymap_conflicts(key, func, verbose)`. An exception ends
        the construction, so the state it leaves is not stated. */
    method CheckKeymapConflicts(key: Value, func: string, verbose: bool) returns (r: Result<()>)
      requires Wf(Value())
      modifies this
      ensures Follows(r, Value(), CheckConflicts(old(Value()), key, func, verbose))
    {
      if !IsKeyName(func) {
        return Ok(());
      }
      if !Hashable(key) {
        return Raise("TypeError");
      }
      var prev := Dict.Get(keyToFunc, key);
      if prev.Some? && prev.value != "" && prev.value != func {
        if verbose {
          commands := commands + [Echo(key, func, prev.value)];
        }
        var cur := Dict.Get(config, func);
        if cur.None? {
          return Raise("KeyError");
        }
        if !Hashable(cur.value) {
          return Raise("TypeError");
        }
        if cur.value !in Dict.Keys(keyToFunc) {
          return Raise("KeyError");
        }
        keyToFunc := Dict.Remove(keyToFunc, cur.value);
        config := Dict.Put(config, prev.value, Null);
      }
      keyToFunc := Dict.Put(keyToFunc, key, func);
      return Ok(());
    }

    /** The check followed by `self.config[func] = val`. */
    method AssignNow(func: string, val: Value, verbose: bool) returns (r: Result<()>)
      requires Wf(Value())
      modifies this
      ensures Follows(r, Value(), Assign(old(Value()), func, val, verbose))
    {
      r := CheckKeymapConflicts(val, func, verbose);
      if r.Raise? {
        return;
      }
      config := Dict.Put(config, func, val);
    }

    /** The first loop of `__init__`: each entry, in order, with the value
        it has when its turn comes. */
    method CheckInitial() returns (r: Result<()>)
      requires Wf(Value())
      modifies this
      ensures Follows(r, Value(), CheckAll(old(Value()), Dict.Keys(old(config))))
    {
      var funcs := Dict.Keys(config);
      var i := 0;
      while i < |funcs|
        invariant 0 <= i <= |funcs|
        invariant Wf(Value())
        invariant CheckAll(old(Value()), funcs) == CheckAll(Value(), funcs[i..])
      {
        var before := Value();
        var key := Dict.GetOr(config, funcs[i], Null);
        var res := CheckKeymapConflicts(key, funcs[i], true);
        assert funcs[i..][1..] == funcs[i + 1..];
        if res.Raise? {
          return res;
        }
        CheckKeepsWf(before, key, funcs[i], true);
        i := i + 1;
      }
      return Ok(());
    }

    /** The override dictionary, entry by entry. */
    method OverrideEach(entries: Dict.Dict<string, Value>) returns (r: Result<()>)
      requires Wf(Value())
      modifies this
      ensures Follows(r, Value(), OverrideAll(old(Value()), entries))
    {
      var i := 0;
      while i < |entries|
        invariant 0 <= i <= |entries|
        invariant Wf(Value())
        invariant OverrideAll(old(Value()), entries) == OverrideAll(Value(), entries[i..])
      {
        assert entries[i..][1..] == entries[i + 1..];
        var keyVal := FilterFuncref(entries[i].0, entries[i].1);
        if keyVal.Raise? {
          return Raise(keyVal.exception);
        }
        var res := AssignNow(entries[i].0, keyVal.value, true);
        if res.Raise? {
          return res;
        }
        i := i + 1;
      }
      return Ok(());
    }

    /** The per-key `g:nvimgdb_<key>` variables, in the order of the
        defaults. */
    method GlobalsEach(keys: seq<string>, globals: map<string, Value>) returns (r: Result<()>)
      requires Wf(Value())
      modifies this
      ensures Follows(r, Value(), GlobalsAll(old(Value()), keys, globals))
    {
      var i := 0;
      while i < |keys|
        invariant 0 <= i <= |keys|
        invariant Wf(Value())
        invariant GlobalsAll(old(Value()), keys, globals) == GlobalsAll(Value(), keys[i..], globals)
      {
        assert keys[i..][1..] == keys[i + 1..];
        var res := GlobalNow(keys[i], globals);
        if res.Raise? {
          return res;
        }
        i := i + 1;
      }
      return Ok(());
    }

    /** One per-key variable. */
    method GlobalNow(key: string, globals: map<string, Value>) returns (r: Result<()>)
      requires Wf(Value())
      modifies this
      ensures Follows(r, Value(), GlobalStep(old(Value()), key, globals))
    {
      if key in globals && Truthy(globals[key]) {
        r := AssignNow(key, Filtered(key, globals[key]), false);
      } else {
        r := Ok(());
      }
    }

    /** `_apply_overrides()`. */
    method ApplyOverridesNow(overrides: Option<Dict.Dict<string, Value>>, globals: map<string, Value>) returns (r: Result<()>)
      requires Wf(Value())
      modifies this
      ensures Follows(r, Value(), ApplyOverrides(old(Value()), overrides, globals))
    {
      if overrides.Some? && overrides.value != [] {
        r := OverrideEach(overrides.value);
        if r.Raise? {
          return;
        }
      }
      r := GlobalsEach(Dict.Keys(Default), globals);
    }

    /** `_define_signs()`. */
    method DefineSignsNow() returns (r: Result<()>)
      modifies this
      ensures DefineSigns(old(config)).Raise? ==> r == Raise(DefineSigns(old(config)).exception)
      ensures DefineSigns(old(config)).Ok? ==>
        r.Ok? && Value() == old(Value()).(commands := old(commands) + DefineSigns(old(config)).value)
    {
      var line := Dict.Get(config, "sign_current_line");
      if line.None? {
        return Raise("KeyError");
      }
      if !line.value.Str? {
        return Raise("TypeError");
      }
      var brk := Dict.Get(config, "sign_breakpoint");
      if brk.None? {
        return Raise("KeyError");
      }
      var texts := BreakTexts(brk.value);
      if texts.Raise? {
        return Raise(texts.exception);
      }
      commands := commands + ["sign define GdbCurrentLine text=" + line.value.s];
      DefineBreakSigns(texts.value);
      return Ok(());
    }

    /** The loop of `_define_signs()`: one `sign define` per text, numbered
        from 1. */
    method DefineBreakSigns(texts: seq<string>)
      modifies this
      ensures Value() == old(Value()).(commands := old(commands) + BreakSignDefinitions(texts))
    {
      ghost var defs := BreakSignDefinitions(texts);
      for i := 0 to |texts|
        invariant config == old(config) && keyToFunc == old(keyToFunc)
        invariant commands == old(commands) + defs[..i]
      {
        assert defs[..i + 1] == defs[..i] + [defs[i]];
        commands := commands + ["sign define " + BreakSignName(i + 1) + " text=" + texts[i]];
      }
      assert defs[..|texts|] == defs;
    }

    /** `Config.__init__`. */
    method Init(user: Option<Dict.Dict<string, Value>>, overrides: Option<Dict.Dict<string, Value>>,
                globals: map<string, Value>) returns (r: Result<()>)
      requires user.Some? ==> Dict.Unique(user.value)
      modifies this
      ensures Follows(r, Value(), Resolve(user, overrides, globals))
    {
      r := InitFrom(StartConfig(user), overrides, globals);
    }

    /** `__init__` from its starting entries. */
    method InitFrom(start: Dict.Dict<string, Value>, overrides: Option<Dict.Dict<string, Value>>,
                    globals: map<string, Value>) returns (r: Result<()>)
      requires Dict.Unique(start)
      modifies this
      ensures Follows(r, Value(), ResolveFrom(start, overrides, globals))
    {
      keyToFunc := [];
      commands := [];
      config := start;
      r := CheckInitial();
      if r.Raise? {
        return;
      }
      r := CompleteNow(overrides, globals);
    }

    /** The overrides, the removal of falsy entries and the signs. */
    method CompleteNow(overrides: Option<Dict.Dict<string, Value>>, globals: map<string, Value>) returns (r: Result<()>)
      requires Wf(Value())
      modifies this
      ensures Follows(r, Value(), Complete(old(Value()), overrides, globals))
    {
      r := ApplyOverridesNow(overrides, globals);
      if r.Raise? {
        return;
      }
      r := FinishNow();
    }

    /** The removal of falsy entries and the signs. */
    method FinishNow() returns (r: Result<()>)
      requires Wf(Value())
      modifies this
      ensures Follows(r, Value(), Finish(old(Value())))
    {
      RemoveFalsyUnique(config);
      config := RemoveFalsy(config);
      r := DefineSignsNow();
    }

    /** `get(key)`. */
    function Get(key: string): (r: Result<Value>)
      reads this
      ensures r.Ok? <==> key in Dict.Keys(config)
      ensures r.Ok? ==> Dict.Get(config, key) == Some(r.value)
      ensures r.Raise? ==> r.exception == "KeyError"
    {
      match Dict.Get(config, key)
      case Some(v) => Ok(v)
      case None => Raise("KeyError")
    }

    /** `get_or(key, val)`. */
    function GetOr(key: string, fallback: Value): (r: Value)
      reads this
      ensures key !in Dict.Keys(config) ==> r == fallback
      ensures key in Dict.Keys(config) ==> Get(key) == Ok(r)
    {
      Dict.GetOr(config, key, fallback)
    }
  }
}
