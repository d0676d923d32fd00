/** The gadget descriptor tree shared by the translator and both backends: a
    device (USB 2.0 device descriptor fields, section 9.6.1), its string
    tables keyed by LANGID, the functions it owns, and configurations
    (section 9.6.3) that reference those functions by index. */
module Descriptor {
  import opened Base

  newtype u8 = x: int | 0 <= x < 0x100
  newtype u16 = x: int | 0 <= x < 0x1_0000

  datatype Attrs = Attrs(
    bDeviceClass: u8,
    bDeviceSubClass: u8,
    bDeviceProtocol: u8,
    idVendor: u16,
    idProduct: u16,
    bcdDevice: u16)

  /** One entry of the gadget's string table; an entry whose `lang` is 0
      terminates the table, as does the end of the sequence. An absent string
      is NULL in the C structure. */
  datatype Strings = Strings(lang: int, manufacturer: Option<string>, product: Option<string>, serial: Option<string>)

  datatype ConfigAttrs = ConfigAttrs(bmAttributes: u8, maxPower: int)

  /** One entry of a configuration's string table; `lang == 0` terminates it. */
  datatype ConfigString = ConfigString(lang: int, text: string)

  /** A configuration. `funcs` holds indices into the owning gadget's function
      list: references, never owners. `None` is a NULL array. */
  datatype Config = Config(attrs: ConfigAttrs, strs: Option<seq<ConfigString>>, funcs: Option<seq<nat>>)

  /** The two function variants: a kernel function, or a FunctionFS function
      served by a user-space daemon started through socket activation. */
  datatype Group = Simple | WithService(service: string)

  datatype Function = Function(group: Group, id: nat, name: string, instance: string)

  datatype Gadget = Gadget(
    attrs: Attrs,
    strs: Option<seq<Strings>>,
    funcs: Option<seq<Function>>,
    configs: Option<seq<Config>>)

  function FuncList(g: Gadget): seq<Function>
  {
    if g.funcs.Some? then g.funcs.value else []
  }

  function ConfigList(g: Gadget): seq<Config>
  {
    if g.configs.Some? then g.configs.value else []
  }

  function RefList(c: Config): seq<nat>
  {
    if c.funcs.Some? then c.funcs.value else []
  }

  /** The arena invariant: every reference a configuration holds names a
      function owned by the gadget. */
  predicate RefsInRange(g: Gadget)
  {
    forall j, k :: 0 <= j < |ConfigList(g)| && 0 <= k < |RefList(ConfigList(g)[j])| ==>
      RefList(ConfigList(g)[j])[k] < |FuncList(g)|
  }

  /** Number of string-table entries before the terminator. */
  function LiveStrings(ss: seq<Strings>): (n: nat)
    ensures n <= |ss|
    ensures forall i :: 0 <= i < n ==> ss[i].lang != 0
    ensures n < |ss| ==> ss[n].lang == 0
  {
    if ss == [] || ss[0].lang == 0 then 0 else 1 + LiveStrings(ss[1..])
  }

  /** Number of configuration-string entries before the terminator: the
      rule of `LiveStrings` repeated over the other element type, as the C
      code repeats the walk (usb_gadget.c:50 and 75). */
  function LiveConfigStrings(cs: seq<ConfigString>): (n: nat)
    ensures n <= |cs|
    ensures forall i :: 0 <= i < n ==> cs[i].lang != 0
    ensures n < |cs| ==> cs[n].lang == 0
  {
    if cs == [] || cs[0].lang == 0 then 0 else 1 + LiveConfigStrings(cs[1..])
  }

  // ---------------------------------------------------------------------------
  // Release (simple_cleanup_config / simple_cleanup_gadget)

  /** What one release step frees. */
  datatype Release =
    | FreeStrings(i: nat)                 // manufacturer, product and serial of string entry i
    | FreeStringTable
    | FreeConfigString(j: nat, i: nat)    // string i of configuration j
    | FreeConfigStringTable(j: nat)
    | FreeConfigRefs(j: nat)              // the reference array of configuration j, not its targets
    | FreeConfig(j: nat)
    | FreeConfigTable
    | FreeFunction(k: nat)                // the function at index k, through its own release hook
    | FreeFunctionTable
    | FreeGadget

  /** The step belongs to the release of some configuration. */
  predicate ConfigStep(e: Release)
  {
    e.FreeConfigString? || e.FreeConfigStringTable? || e.FreeConfigRefs? || e.FreeConfig?
  }

  predicate OfConfig(e: Release, j: nat)
  {
    ConfigStep(e) && e.j == j
  }

  /** The number of live strings of a configuration; none when its table is NULL. */
  function NumConfigStrings(c: Config): nat
  {
    if c.strs.Some? then LiveConfigStrings(c.strs.value) else 0
  }

  /** Configuration `j` (holding `c`) is released exactly once: each live
      string once, its string table and its reference array once when
      present and never when NULL, and the configuration itself once. */
  predicate ConfigFreedOnce(log: seq<Release>, j: nat, c: Config)
  {
    && (forall i :: 0 <= i < NumConfigStrings(c) ==> multiset(log)[FreeConfigString(j, i)] == 1)
    && multiset(log)[FreeConfigStringTable(j)] == TableCount(c.strs)
    && multiset(log)[FreeConfigRefs(j)] == TableCount(c.funcs)
    && multiset(log)[FreeConfig(j)] == 1
  }

  /** No step of the log belongs to configuration `j`. */
  predicate NoneOf(log: seq<Release>, j: nat)
  {
    forall e :: e in log ==> !OfConfig(e, j)
  }

  /** Releases configuration `j`: its strings and its reference array, never
      the functions it references. */
  method CleanupConfig(j: nat, c: Config) returns (log: seq<Release>)
    ensures forall e :: e in log ==> OfConfig(e, j)
    ensures ConfigFreedOnce(log, j, c)
    ensures forall e :: e in log && e.FreeConfigString? ==> e.i < NumConfigStrings(c)
    ensures log[|log| - 1] == FreeConfig(j)
  {
    var names: seq<Release> := [];
    var table: seq<Release> := [];
    if c.strs.Some? {
      var strs := c.strs.value;
      var i := 0;
      while i < |strs| && strs[i].lang != 0
        invariant 0 <= i <= LiveConfigStrings(strs)
        invariant |names| == i && forall m :: 0 <= m < i ==> names[m] == FreeConfigString(j, m)
        decreases |strs| - i
      {
        names := names + [FreeConfigString(j, i)];
        i := i + 1;
      }
      assert i == LiveConfigStrings(strs);
      table := [FreeConfigStringTable(j)];
    }
    var refs := if c.funcs.Some? then [FreeConfigRefs(j)] else [];
    ConfigLogSteps(names, table, refs, j, c);
    ConfigLogCounts(names, table, refs, j, c);
    log := names + table + refs + [FreeConfig(j)];
  }

  /** Every step `CleanupConfig` logs belongs to configuration `j`, and only
      live strings are released. */
  lemma ConfigLogSteps(names: seq<Release>, table: seq<Release>, refs: seq<Release>, j: nat, c: Config)
    requires |names| == NumConfigStrings(c) && forall m :: 0 <= m < |names| ==> names[m] == FreeConfigString(j, m)
    requires table == [] || table == [FreeConfigStringTable(j)]
    requires refs == [] || refs == [FreeConfigRefs(j)]
    ensures forall e :: e in names + table + refs + [FreeConfig(j)] ==> OfConfig(e, j)
    ensures forall e :: e in names + table + refs + [FreeConfig(j)] && e.FreeConfigString? ==> e.i < NumConfigStrings(c)
  {
    forall e | e in names + table + refs + [FreeConfig(j)]
      ensures OfConfig(e, j) && (e.FreeConfigString? ==> e.i < NumConfigStrings(c))
    {
      if e in names {
        var m :| 0 <= m < |names| && names[m] == e;
      }
    }
  }

  /** The live strings, the string table when present, the reference array
      when present and the configuration release `c` exactly once. */
  lemma ConfigLogCounts(names: seq<Release>, table: seq<Release>, refs: seq<Release>, j: nat, c: Config)
    requires |names| == NumConfigStrings(c) && forall m :: 0 <= m < |names| ==> names[m] == FreeConfigString(j, m)
    requires table == (if c.strs.Some? then [FreeConfigStringTable(j)] else [])
    requires refs == (if c.funcs.Some? then [FreeConfigRefs(j)] else [])
    ensures ConfigFreedOnce(names + table + refs + [FreeConfig(j)], j, c)
  {
    var log := names + table + refs + [FreeConfig(j)];
    assert multiset(log) == multiset(names) + multiset(table) + multiset(refs) + multiset{FreeConfig(j)};
    forall i | 0 <= i < NumConfigStrings(c)
      ensures multiset(log)[FreeConfigString(j, i)] == 1
    {
      NamesOnce(names, j, i);
    }
    assert forall e :: e in names ==> e.FreeConfigString?;
    assert FreeConfigStringTable(j) !in names && FreeConfigRefs(j) !in names && FreeConfig(j) !in names;
  }

  /** In the run `[FreeConfigString(j, 0), …]`, string `i` appears once. */
  lemma {:induction false} NamesOnce(names: seq<Release>, j: nat, i: nat)
    requires forall m :: 0 <= m < |names| ==> names[m] == FreeConfigString(j, m)
    requires i < |names|
    ensures multiset(names)[FreeConfigString(j, i)] == 1
  {
    var last := |names| - 1;
    assert names == names[..last] + [names[last]];
    if i < last {
      NamesOnce(names[..last], j, i);
    } else {
      assert FreeConfigString(j, i) !in names[..last];
    }
  }

  /** Joining a log that releases configuration `m` once with one that never
      touches it still releases it once, in either order. */
  lemma FreedOnceJoin(a: seq<Release>, b: seq<Release>, m: nat, c: Config)
    requires (ConfigFreedOnce(a, m, c) && NoneOf(b, m)) || (NoneOf(a, m) && ConfigFreedOnce(b, m, c))
    ensures ConfigFreedOnce(a + b, m, c)
  {
    assert multiset(a + b) == multiset(a) + multiset(b);
    assert NoneOf(b, m) ==> forall e :: OfConfig(e, m) ==> multiset(b)[e] == 0;
    assert NoneOf(a, m) ==> forall e :: OfConfig(e, m) ==> multiset(a)[e] == 0;
    assert OfConfig(FreeConfigStringTable(m), m) && OfConfig(FreeConfigRefs(m), m) && OfConfig(FreeConfig(m), m);
    forall i | 0 <= i < NumConfigStrings(c)
      ensures multiset(a + b)[FreeConfigString(m, i)] == 1
    {
      assert OfConfig(FreeConfigString(m, i), m);
    }
  }

  /** The number of live string sets of a gadget; none when the table is NULL. */
  function NumStrings(g: Gadget): nat
  {
    if g.strs.Some? then LiveStrings(g.strs.value) else 0
  }

  /** A table is released once when the gadget has it, and never otherwise. */
  function TableCount<T>(table: Option<T>): nat
  {
    if table.Some? then 1 else 0
  }

  /** Each live string set is released exactly once, no other string set is
      released, and the string table is released once when present. */
  predicate StringsReleased(log: seq<Release>, g: Gadget)
  {
    && (forall i :: 0 <= i < NumStrings(g) ==> multiset(log)[FreeStrings(i)] == 1)
    && (forall e :: e in log && e.FreeStrings? ==> e.i < NumStrings(g))
    && multiset(log)[FreeStringTable] == TableCount(g.strs)
  }

  /** Each configuration is released exactly once with its strings, string
      table and reference array (`ConfigFreedOnce`), no step touches a
      configuration or a configuration string that does not exist, and the
      configuration table is released once when present. */
  predicate ConfigsReleased(log: seq<Release>, g: Gadget)
  {
    && (forall j :: 0 <= j < |ConfigList(g)| ==> ConfigFreedOnce(log, j, ConfigList(g)[j]))
    && (forall e :: e in log && ConfigStep(e) ==> e.j < |ConfigList(g)|)
    && (forall e :: e in log && e.FreeConfigString? && e.j < |ConfigList(g)| ==> e.i < NumConfigStrings(ConfigList(g)[e.j]))
    && multiset(log)[FreeConfigTable] == TableCount(g.configs)
  }

  /** Each owned function is released exactly once, no other function index
      is released, and the function table is released once when present. */
  predicate FunctionsReleased(log: seq<Release>, g: Gadget)
  {
    && (forall k :: 0 <= k < |FuncList(g)| ==> multiset(log)[FreeFunction(k)] == 1)
    && (forall e :: e in log && e.FreeFunction? ==> e.k < |FuncList(g)|)
    && multiset(log)[FreeFunctionTable] == TableCount(g.funcs)
  }

  /** No configuration is touched once functions are being released: the
      references a configuration holds are never followed after their
      targets are gone. */
  predicate ConfigsBeforeFunctions(log: seq<Release>)
  {
    forall a, b :: 0 <= a < b < |log| && log[a].FreeFunction? ==> !ConfigStep(log[b])
  }

  /** The string phase: string sets below `ns`, each once, then the table once. */
  predicate StringsPart(p: seq<Release>, ns: nat)
  {
    && (forall e :: e in p ==> (e.FreeStrings? && e.i < ns) || e == FreeStringTable)
    && (forall i :: 0 <= i < ns ==> multiset(p)[FreeStrings(i)] == 1)
    && multiset(p)[FreeStringTable] == 1
  }

  /** The configuration phase: steps of the given configurations only, each
      configuration released once with its parts, then the table once. */
  predicate ConfigsPart(p: seq<Release>, configs: seq<Config>)
  {
    && (forall e :: e in p ==> (ConfigStep(e) && e.j < |configs|) || e == FreeConfigTable)
    && (forall e :: e in p && e.FreeConfigString? && e.j < |configs| ==> e.i < NumConfigStrings(configs[e.j]))
    && (forall j :: 0 <= j < |configs| ==> ConfigFreedOnce(p, j, configs[j]))
    && multiset(p)[FreeConfigTable] == 1
  }

  /** The function phase: functions below `nf`, each once, then the table once. */
  predicate FunctionsPart(p: seq<Release>, nf: nat)
  {
    && (forall e :: e in p ==> (e.FreeFunction? && e.k < nf) || e == FreeFunctionTable)
    && (forall k :: 0 <= k < nf ==> multiset(p)[FreeFunction(k)] == 1)
    && multiset(p)[FreeFunctionTable] == 1
  }

  /** The phase of `simple_cleanup_gadget` a release step belongs to:
      strings, configurations, functions, then the gadget. */
  function Stage(e: Release): nat
  {
    match e
    case FreeStrings(_) => 0
    case FreeStringTable => 0
    case FreeFunction(_) => 2
    case FreeFunctionTable => 2
    case FreeGadget => 3
    case _ => 1
  }

  predicate StagesIn(p: seq<Release>, lo: nat, hi: nat)
  {
    forall e :: e in p ==> lo <= Stage(e) <= hi
  }

  /** Releases a gadget: its string tables, then each configuration, then
      each owned function exactly once, then the gadget itself. */
  method CleanupGadget(g: Option<Gadget>) returns (log: seq<Release>)
    ensures g.None? ==> log == []
    ensures g.Some? ==> |log| > 0 && log[|log| - 1] == FreeGadget && multiset(log)[FreeGadget] == 1
    ensures g.Some? ==> StringsReleased(log, g.value) && ConfigsReleased(log, g.value) && FunctionsReleased(log, g.value)
    ensures ConfigsBeforeFunctions(log)
  {
    log := [];
    if g.None? {
      return;
    }
    var gd := g.value;
    var strsPart: seq<Release> := [];
    if gd.strs.Some? {
      strsPart := CleanupStringTable(gd.strs.value);
    }
    var configsPart: seq<Release> := [];
    if gd.configs.Some? {
      configsPart := CleanupConfigTable(gd.configs.value);
    }
    var funcsPart: seq<Release> := [];
    if gd.funcs.Some? {
      funcsPart := CleanupFunctionTable(gd.funcs.value);
    }
    CleanupAssembly(gd, strsPart, configsPart, funcsPart);
    log := (strsPart + configsPart) + (funcsPart + [FreeGadget]);
  }

  /** The three phases and the gadget, in that order, release what
      `CleanupGadget` promises. */
  lemma CleanupAssembly(g: Gadget, strsPart: seq<Release>, configsPart: seq<Release>, funcsPart: seq<Release>)
    requires if g.strs.Some? then StringsPart(strsPart, NumStrings(g)) else strsPart == []
    requires if g.configs.Some? then ConfigsPart(configsPart, ConfigList(g)) else configsPart == []
    requires if g.funcs.Some? then FunctionsPart(funcsPart, |FuncList(g)|) else funcsPart == []
    ensures var log := (strsPart + configsPart) + (funcsPart + [FreeGadget]);
      && StringsReleased(log, g) && ConfigsReleased(log, g) && FunctionsReleased(log, g)
      && multiset(log)[FreeGadget] == 1
      && ConfigsBeforeFunctions(log)
  {
    PartStages(g, strsPart, configsPart, funcsPart);
    CleanupStringCounts(g, strsPart, configsPart, funcsPart);
    CleanupConfigCounts(g, strsPart, configsPart, funcsPart);
    CleanupFunctionCounts(g, strsPart, configsPart, funcsPart);
    CleanupOrder(strsPart + configsPart, funcsPart + [FreeGadget]);
  }

  /** Each phase holds steps of its own stage only. */
  lemma PartStages(g: Gadget, strsPart: seq<Release>, configsPart: seq<Release>, funcsPart: seq<Release>)
    requires if g.strs.Some? then StringsPart(strsPart, NumStrings(g)) else strsPart == []
    requires if g.configs.Some? then ConfigsPart(configsPart, ConfigList(g)) else configsPart == []
    requires if g.funcs.Some? then FunctionsPart(funcsPart, |FuncList(g)|) else funcsPart == []
    ensures StagesIn(strsPart, 0, 0) && StagesIn(configsPart, 1, 1) && StagesIn(funcsPart, 2, 2)
    ensures StagesIn(strsPart + configsPart, 0, 1) && StagesIn(funcsPart + [FreeGadget], 2, 3)
  {
    assert StagesIn(strsPart, 0, 0);
    assert StagesIn(configsPart, 1, 1);
    assert StagesIn(funcsPart, 2, 2);
  }

  /** String releases are counted in the string phase alone. */
  lemma CleanupStringCounts(g: Gadget, strsPart: seq<Release>, configsPart: seq<Release>, funcsPart: seq<Release>)
    requires if g.strs.Some? then StringsPart(strsPart, NumStrings(g)) else strsPart == []
    requires StagesIn(configsPart, 1, 1) && StagesIn(funcsPart, 2, 2)
    ensures StringsReleased((strsPart + configsPart) + (funcsPart + [FreeGadget]), g)
  {
    var log := (strsPart + configsPart) + (funcsPart + [FreeGadget]);
    assert multiset(log) == multiset(strsPart) + multiset(configsPart) + multiset(funcsPart) + multiset{FreeGadget};
    forall i | 0 <= i < NumStrings(g)
      ensures multiset(log)[FreeStrings(i)] == 1
    {
      assert FreeStrings(i) !in configsPart && FreeStrings(i) !in funcsPart;
    }
    forall e | e in log && e.FreeStrings?
      ensures e.i < NumStrings(g)
    {
      assert e in strsPart;
    }
    assert FreeStringTable !in configsPart && FreeStringTable !in funcsPart;
  }

  /** Configuration releases are counted in the configuration phase alone. */
  lemma CleanupConfigCounts(g: Gadget, strsPart: seq<Release>, configsPart: seq<Release>, funcsPart: seq<Release>)
    requires if g.configs.Some? then ConfigsPart(configsPart, ConfigList(g)) else configsPart == []
    requires StagesIn(strsPart, 0, 0) && StagesIn(funcsPart, 2, 2)
    ensures ConfigsReleased((strsPart + configsPart) + (funcsPart + [FreeGadget]), g)
  {
    var log := (strsPart + configsPart) + (funcsPart + [FreeGadget]);
    var tail := funcsPart + [FreeGadget];
    assert StagesIn(tail, 2, 3);
    assert multiset(log) == multiset(strsPart) + multiset(configsPart) + multiset(funcsPart) + multiset{FreeGadget};
    forall j | 0 <= j < |ConfigList(g)|
      ensures ConfigFreedOnce(log, j, ConfigList(g)[j])
    {
      assert NoneOf(strsPart, j) && NoneOf(tail, j);
      FreedOnceJoin(strsPart, configsPart, j, ConfigList(g)[j]);
      FreedOnceJoin(strsPart + configsPart, tail, j, ConfigList(g)[j]);
    }
    forall e | e in log && ConfigStep(e)
      ensures e in configsPart
    {
      assert e !in strsPart && e !in tail;
    }
    assert FreeConfigTable !in strsPart && FreeConfigTable !in funcsPart;
  }

  /** Function releases are counted in the function phase alone, and the
      gadget is released once. */
  lemma CleanupFunctionCounts(g: Gadget, strsPart: seq<Release>, configsPart: seq<Release>, funcsPart: seq<Release>)
    requires if g.funcs.Some? then FunctionsPart(funcsPart, |FuncList(g)|) else funcsPart == []
    requires StagesIn(strsPart, 0, 0) && StagesIn(configsPart, 1, 1)
    ensures FunctionsReleased((strsPart + configsPart) + (funcsPart + [FreeGadget]), g)
    ensures multiset((strsPart + configsPart) + (funcsPart + [FreeGadget]))[FreeGadget] == 1
  {
    var log := (strsPart + configsPart) + (funcsPart + [FreeGadget]);
    assert multiset(log) == multiset(strsPart) + multiset(configsPart) + multiset(funcsPart) + multiset{FreeGadget};
    forall k | 0 <= k < |FuncList(g)|
      ensures multiset(log)[FreeFunction(k)] == 1
    {
      assert FreeFunction(k) !in strsPart && FreeFunction(k) !in configsPart;
    }
    forall e | e in log && e.FreeFunction?
      ensures e.k < |FuncList(g)|
    {
      assert e in funcsPart;
    }
    assert FreeFunctionTable !in strsPart && FreeFunctionTable !in configsPart;
    assert FreeGadget !in strsPart && FreeGadget !in configsPart && FreeGadget !in funcsPart;
  }

  /** With no function step in `head` and no configuration step in `tail`,
      every configuration step of the concatenation precedes every function step. */
  lemma CleanupOrder(head: seq<Release>, tail: seq<Release>)
    requires StagesIn(head, 0, 1) && StagesIn(tail, 2, 3)
    ensures ConfigsBeforeFunctions(head + tail)
  {
    var log := head + tail;
    forall i | 0 <= i < |head|
      ensures !log[i].FreeFunction?
    {
      assert log[i] == head[i] && head[i] in head;
    }
    forall a, b | 0 <= a < b < |log| && log[a].FreeFunction?
      ensures !ConfigStep(log[b])
    {
      assert log[b] == tail[b - |head|] && tail[b - |head|] in tail;
    }
  }

  /** The string entries before the terminator, then the table. */
  method CleanupStringTable(strs: seq<Strings>) returns (part: seq<Release>)
    ensures StringsPart(part, LiveStrings(strs))
    ensures part[|part| - 1] == FreeStringTable
  {
    part := [];
    var i := 0;
    while i < |strs| && strs[i].lang != 0
      invariant 0 <= i <= LiveStrings(strs)
      invariant forall e :: e in part ==> e.FreeStrings? && e.i < i
      invariant forall m :: 0 <= m < i ==> multiset(part)[FreeStrings(m)] == 1
      decreases |strs| - i
    {
      assert FreeStrings(i) !in part;
      part := part + [FreeStrings(i)];
      i := i + 1;
    }
    assert i == LiveStrings(strs);
    assert FreeStringTable !in part;
    part := part + [FreeStringTable];
  }

  /** Every configuration in order, then the table. */
  method CleanupConfigTable(configs: seq<Config>) returns (part: seq<Release>)
    ensures ConfigsPart(part, configs)
    ensures part[|part| - 1] == FreeConfigTable
  {
    part := [];
    for j := 0 to |configs|
      invariant forall e :: e in part ==> ConfigStep(e) && e.j < j
      invariant forall e :: e in part && e.FreeConfigString? ==> e.i < NumConfigStrings(configs[e.j])
      invariant forall m :: 0 <= m < j ==> ConfigFreedOnce(part, m, configs[m])
    {
      var one := CleanupConfig(j, configs[j]);
      forall m | 0 <= m < j
        ensures ConfigFreedOnce(part + one, m, configs[m])
      {
        FreedOnceJoin(part, one, m, configs[m]);
      }
      assert NoneOf(part, j);
      FreedOnceJoin(part, one, j, configs[j]);
      part := part + one;
    }
    assert FreeConfigTable !in part;
    FreeTableLast(part, configs);
    part := part + [FreeConfigTable];
  }

  /** Appending the configuration table keeps every configuration's counts. */
  lemma FreeTableLast(part: seq<Release>, configs: seq<Config>)
    requires forall e :: e in part ==> ConfigStep(e) && e.j < |configs|
    requires forall m :: 0 <= m < |configs| ==> ConfigFreedOnce(part, m, configs[m])
    ensures forall m :: 0 <= m < |configs| ==> ConfigFreedOnce(part + [FreeConfigTable], m, configs[m])
  {
    forall m | 0 <= m < |configs|
      ensures ConfigFreedOnce(part + [FreeConfigTable], m, configs[m])
    {
      FreedOnceJoin(part, [FreeConfigTable], m, configs[m]);
    }
  }

  /** Every owned function once, through its release hook, then the table. */
  method CleanupFunctionTable(funcs: seq<Function>) returns (part: seq<Release>)
    ensures FunctionsPart(part, |funcs|)
    ensures part[|part| - 1] == FreeFunctionTable
  {
    part := [];
    for k := 0 to |funcs|
      invariant forall e :: e in part ==> e.FreeFunction? && e.k < k
      invariant forall m :: 0 <= m < k ==> multiset(part)[FreeFunction(m)] == 1
    {
      assert FreeFunction(k) !in part;
      part := part + [FreeFunction(k)];
    }
    assert FreeFunctionTable !in part;
    part := part + [FreeFunctionTable];
  }
}
