/** Read-back of the configfs client: the gadget description rebuilt from
    what configfs holds (attributes, the US English strings, one clone of
    the registry function behind each function directory, and the
    configurations with their bindings turned back into references). */
module CfsRead {
  import opened Base
  import opened Descriptor
  import opened CfsFunctions
  import opened CfsBackend
  import opened CfsApply

  // ---------------------------------------------------------------------------
  // Configuration order

  lemma LeastExists(ids: set<int>)
    requires ids != {}
    ensures exists m :: m in ids && forall y :: y in ids ==> m <= y
  {
    var least := LeastId(ids);
  }

  /** The smallest id of a non-empty set. */
  function Least(ids: set<int>): (m: int)
    requires ids != {}
    ensures m in ids && forall y :: y in ids ==> m <= y
  {
    LeastExists(ids);
    var m :| m in ids && forall y :: y in ids ==> m <= y;
    m
  }

  /** The configuration ids in the order configfs lists them. */
  function SortedIds(ids: set<int>): (r: seq<int>)
    ensures |r| == |ids|
    ensures forall i :: 0 <= i < |r| ==> r[i] in ids
    decreases |ids|
  {
    if ids == {} then []
    else
      var m := Least(ids);
      [m] + SortedIds(ids - {m})
  }

  /** The listing holds every id once, in increasing order. */
  lemma {:induction false} SortedIdsMeans(ids: set<int>)
    ensures forall x :: x in ids ==> x in SortedIds(ids)
    ensures forall i, j :: 0 <= i < j < |SortedIds(ids)| ==> SortedIds(ids)[i] < SortedIds(ids)[j]
    decreases |ids|
  {
    if ids != {} {
      var m := Least(ids);
      var rest := SortedIds(ids - {m});
      SortedIdsMeans(ids - {m});
      assert SortedIds(ids) == [m] + rest;
      forall x | x in ids
        ensures x in SortedIds(ids)
      {
        if x != m {
          assert x in ids - {m};
        }
      }
    }
  }

  /** The configurations in listing order. */
  function ConfigsInOrder(configs: map<int, LiveConfig>): (r: seq<LiveConfig>)
    ensures |r| == |SortedIds(configs.Keys)|
    ensures forall i :: 0 <= i < |r| ==> r[i] == configs[SortedIds(configs.Keys)[i]]
  {
    var ids := SortedIds(configs.Keys);
    seq(|ids|, i requires 0 <= i < |ids| => configs[ids[i]])
  }

  // ---------------------------------------------------------------------------
  // Reading functions

  /** `cfs_alloc_new_func` for a function directory: the first registry
      entry it stands for, or -ENOTSUP. */
  function ReadFunc(reg: seq<Function>, key: FuncKey): Result<Function>
  {
    match FirstMatch(reg, key.typeName, key.instance)
    case None => Err(-ENOTSUP)
    case Some(k) => Ok(reg[k])
  }

  /** `cfs_read_funcs`: every function directory in order; the first one the
      registry does not know ends the read. */
  function ReadFuncs(reg: seq<Function>, keys: seq<FuncKey>): Result<seq<Function>>
    decreases |keys|
  {
    if keys == [] then Ok([])
    else
      match ReadFuncs(reg, keys[..|keys| - 1])
      case Err(e) => Err(e)
      case Ok(fs) =>
        match ReadFunc(reg, keys[|keys| - 1])
        case Err(e) => Err(e)
        case Ok(f) => Ok(fs + [f])
  }

  /** Functions read back: one per directory, each a registry entry that
      the directory stands for. */
  lemma ReadFuncsOk(reg: seq<Function>, keys: seq<FuncKey>)
    requires ReadFuncs(reg, keys).Ok?
    ensures |ReadFuncs(reg, keys).value| == |keys|
    ensures forall i :: 0 <= i < |keys| ==>
              ReadFuncs(reg, keys).value[i] in reg
              && MatchFunc(ReadFuncs(reg, keys).value[i], keys[i].typeName, keys[i].instance)
  {
    ReadFuncsLength(reg, keys);
    forall i | 0 <= i < |keys|
      ensures ReadFuncs(reg, keys).value[i] in reg
              && MatchFunc(ReadFuncs(reg, keys).value[i], keys[i].typeName, keys[i].instance)
    {
      ReadFuncsAt(reg, keys, i);
      var k := FirstMatch(reg, keys[i].typeName, keys[i].instance).value;
      assert ReadFuncs(reg, keys).value[i] == reg[k];
    }
  }

  /** One function read back per directory. */
  lemma {:induction false} ReadFuncsLength(reg: seq<Function>, keys: seq<FuncKey>)
    requires ReadFuncs(reg, keys).Ok?
    ensures |ReadFuncs(reg, keys).value| == |keys|
    decreases |keys|
  {
    if keys != [] {
      ReadFuncsLength(reg, keys[..|keys| - 1]);
    }
  }

  /** The function read back for directory `i` is the first registry
      entry the directory stands for. */
  lemma {:induction false} ReadFuncsAt(reg: seq<Function>, keys: seq<FuncKey>, i: nat)
    requires ReadFuncs(reg, keys).Ok? && i < |keys|
    ensures |ReadFuncs(reg, keys).value| == |keys|
    ensures ReadFunc(reg, keys[i]).Ok? && ReadFuncs(reg, keys).value[i] == ReadFunc(reg, keys[i]).value
    decreases |keys|
  {
    var n := |keys| - 1;
    var init := keys[..n];
    var fs, f := ReadFuncsSnoc(reg, keys);
    ReadFuncsLength(reg, init);
    assert |fs| == n;
    if i < n {
      assert keys[i] == init[i];
      ReadFuncsAt(reg, init, i);
      assert (fs + [f])[i] == fs[i];
    } else {
      assert i == |keys| - 1;
    }
  }

  /** A successful read of a non-empty list is the read of all but the last
      directory, then the last one. */
  lemma ReadFuncsSnoc(reg: seq<Function>, keys: seq<FuncKey>) returns (fs: seq<Function>, f: Function)
    requires keys != [] && ReadFuncs(reg, keys).Ok?
    ensures ReadFuncs(reg, keys[..|keys| - 1]) == Ok(fs)
    ensures ReadFunc(reg, keys[|keys| - 1]) == Ok(f)
    ensures ReadFuncs(reg, keys).value == fs + [f]
  {
    fs := ReadFuncs(reg, keys[..|keys| - 1]).value;
    f := ReadFunc(reg, keys[|keys| - 1]).value;
  }

  /** The read of functions fails exactly when some directory matches no
      registry entry, and then with -ENOTSUP. */
  lemma ReadFuncsErr(reg: seq<Function>, keys: seq<FuncKey>)
    ensures ReadFuncs(reg, keys).Err? <==>
      exists i :: 0 <= i < |keys| && FirstMatch(reg, keys[i].typeName, keys[i].instance).None?
    ensures ReadFuncs(reg, keys).Err? ==> ReadFuncs(reg, keys).code == -ENOTSUP
  {
    if ReadFuncs(reg, keys).Err? {
      ReadFuncsErrAt(reg, keys);
    } else {
      ReadFuncsOkAll(reg, keys);
    }
  }

  /** A failed read names a directory that matches no registry entry. */
  lemma {:induction false} ReadFuncsErrAt(reg: seq<Function>, keys: seq<FuncKey>)
    requires ReadFuncs(reg, keys).Err?
    ensures ReadFuncs(reg, keys).code == -ENOTSUP
    ensures exists i :: 0 <= i < |keys| && FirstMatch(reg, keys[i].typeName, keys[i].instance).None?
    decreases |keys|
  {
    var n := |keys| - 1;
    var init := keys[..n];
    if ReadFuncs(reg, init).Err? {
      ReadFuncsErrAt(reg, init);
      var i :| 0 <= i < n && FirstMatch(reg, init[i].typeName, init[i].instance).None?;
      assert keys[i] == init[i];
    } else {
      assert FirstMatch(reg, keys[n].typeName, keys[n].instance).None?;
    }
  }

  /** A successful read found a registry entry for every directory. */
  lemma ReadFuncsOkAll(reg: seq<Function>, keys: seq<FuncKey>)
    requires ReadFuncs(reg, keys).Ok?
    ensures forall i :: 0 <= i < |keys| ==> FirstMatch(reg, keys[i].typeName, keys[i].instance).Some?
  {
    forall i | 0 <= i < |keys|
      ensures FirstMatch(reg, keys[i].typeName, keys[i].instance).Some?
    {
      ReadFuncsAt(reg, keys, i);
    }
  }

  /** A read that failed on a prefix fails on the whole list. */
  lemma {:induction false} ReadFuncsErrPrefix(reg: seq<Function>, keys: seq<FuncKey>, i: nat)
    requires i <= |keys| && ReadFuncs(reg, keys[..i]).Err?
    ensures ReadFuncs(reg, keys) == ReadFuncs(reg, keys[..i])
    decreases |keys| - i
  {
    if i < |keys| {
      assert keys[..i + 1][..i] == keys[..i];
      ReadFuncsErrPrefix(reg, keys, i + 1);
    } else {
      assert keys[..i] == keys;
    }
  }

  // ---------------------------------------------------------------------------
  // Reading configurations

  /** The bindings of a configuration as indices into the functions read
      back: each binding becomes the first function it stands for. */
  function ReadRefs(funcs: seq<Function>, bindings: seq<FuncKey>): Option<seq<nat>>
    decreases |bindings|
  {
    if bindings == [] then Some([])
    else
      match ReadRefs(funcs, bindings[..|bindings| - 1])
      case None => None
      case Some(refs) =>
        var b := bindings[|bindings| - 1];
        match FirstMatch(funcs, b.typeName, b.instance)
        case None => None
        case Some(k) => Some(refs + [k])
  }

  lemma ReadRefsMeans(funcs: seq<Function>, bindings: seq<FuncKey>)
    ensures ReadRefs(funcs, bindings).Some? ==>
      && |ReadRefs(funcs, bindings).value| == |bindings|
      && forall i :: 0 <= i < |bindings| ==>
           FirstMatch(funcs, bindings[i].typeName, bindings[i].instance) == Some(ReadRefs(funcs, bindings).value[i])
    ensures ReadRefs(funcs, bindings).None? <==>
      exists i :: 0 <= i < |bindings| && FirstMatch(funcs, bindings[i].typeName, bindings[i].instance).None?
  {
    if ReadRefs(funcs, bindings).None? {
      ReadRefsNoneAt(funcs, bindings);
    } else {
      ReadRefsSomeAll(funcs, bindings);
    }
  }

  /** A failed resolution names a binding that matches no function. */
  lemma {:induction false} ReadRefsNoneAt(funcs: seq<Function>, bindings: seq<FuncKey>)
    requires ReadRefs(funcs, bindings).None?
    ensures exists i :: 0 <= i < |bindings| && FirstMatch(funcs, bindings[i].typeName, bindings[i].instance).None?
    decreases |bindings|
  {
    var n := |bindings| - 1;
    var init := bindings[..n];
    if ReadRefs(funcs, init).None? {
      ReadRefsNoneAt(funcs, init);
      var i :| 0 <= i < n && FirstMatch(funcs, init[i].typeName, init[i].instance).None?;
      assert bindings[i] == init[i];
    } else {
      assert FirstMatch(funcs, bindings[n].typeName, bindings[n].instance).None?;
    }
  }

  /** A successful resolution maps each binding to its first match. */
  lemma ReadRefsSomeAll(funcs: seq<Function>, bindings: seq<FuncKey>)
    requires ReadRefs(funcs, bindings).Some?
    ensures |ReadRefs(funcs, bindings).value| == |bindings|
    ensures forall i :: 0 <= i < |bindings| ==>
      FirstMatch(funcs, bindings[i].typeName, bindings[i].instance) == Some(ReadRefs(funcs, bindings).value[i])
  {
    ReadRefsLength(funcs, bindings);
    forall i | 0 <= i < |bindings|
      ensures FirstMatch(funcs, bindings[i].typeName, bindings[i].instance) == Some(ReadRefs(funcs, bindings).value[i])
    {
      ReadRefsAt(funcs, bindings, i);
    }
  }

  /** One reference per binding. */
  lemma {:induction false} ReadRefsLength(funcs: seq<Function>, bindings: seq<FuncKey>)
    requires ReadRefs(funcs, bindings).Some?
    ensures |ReadRefs(funcs, bindings).value| == |bindings|
    decreases |bindings|
  {
    if bindings != [] {
      ReadRefsLength(funcs, bindings[..|bindings| - 1]);
    }
  }

  /** Reference `i` is the first function binding `i` stands for. */
  lemma {:induction false} ReadRefsAt(funcs: seq<Function>, bindings: seq<FuncKey>, i: nat)
    requires ReadRefs(funcs, bindings).Some? && i < |bindings|
    ensures |ReadRefs(funcs, bindings).value| == |bindings|
    ensures FirstMatch(funcs, bindings[i].typeName, bindings[i].instance) == Some(ReadRefs(funcs, bindings).value[i])
    decreases |bindings|
  {
    var n := |bindings| - 1;
    var init := bindings[..n];
    var b := bindings[n];
    ReadRefsLength(funcs, init);
    var refs := ReadRefs(funcs, init).value;
    var k := FirstMatch(funcs, b.typeName, b.instance).value;
    assert ReadRefs(funcs, bindings).value == refs + [k];
    assert |refs| == n;
    if i < n {
      assert bindings[i] == init[i];
      ReadRefsAt(funcs, init, i);
      assert (refs + [k])[i] == refs[i];
    } else {
      assert i == |bindings| - 1;
    }
  }

  /** The string table of a configuration read back: US English when
      configfs has it, else an entry with LANGID 0; then the terminator. */
  function ReadConfigStrs(lc: LiveConfig): seq<ConfigString>
  {
    if LangUsEng in lc.strs then [ConfigString(LangUsEng, lc.strs[LangUsEng]), ConfigString(0, "")]
    else [ConfigString(0, ""), ConfigString(0, "")]
  }

  /** `cfs_read_config`: a binding to a function not read back is not
      supported; MaxPower is bMaxPower in mA. */
  function ReadConfig(funcs: seq<Function>, lc: LiveConfig): Result<Config>
  {
    match ReadRefs(funcs, lc.bindings)
    case None => Err(-ENOTSUP)
    case Some(refs) =>
      Ok(Config(ConfigAttrs(lc.bmAttributes, lc.bMaxPower as int * 2), Some(ReadConfigStrs(lc)), Some(refs)))
  }

  /** `cfs_read_configs`: every configuration in listing order; the first
      failure ends the read. */
  function ReadConfigs(funcs: seq<Function>, lcs: seq<LiveConfig>): Result<seq<Config>>
    decreases |lcs|
  {
    if lcs == [] then Ok([])
    else
      match ReadConfigs(funcs, lcs[..|lcs| - 1])
      case Err(e) => Err(e)
      case Ok(cs) =>
        match ReadConfig(funcs, lcs[|lcs| - 1])
        case Err(e) => Err(e)
        case Ok(c) => Ok(cs + [c])
  }

  lemma {:induction false} ReadConfigsMeans(funcs: seq<Function>, lcs: seq<LiveConfig>)
    ensures ReadConfigs(funcs, lcs).Ok? ==>
      && |ReadConfigs(funcs, lcs).value| == |lcs|
      && forall j :: 0 <= j < |lcs| ==> ReadConfig(funcs, lcs[j]) == Ok(ReadConfigs(funcs, lcs).value[j])
    ensures ReadConfigs(funcs, lcs).Err? <==> exists j :: 0 <= j < |lcs| && ReadConfig(funcs, lcs[j]).Err?
    decreases |lcs|
  {
    if lcs != [] {
      var init := lcs[..|lcs| - 1];
      ReadConfigsMeans(funcs, init);
      forall j | 0 <= j < |init|
        ensures init[j] == lcs[j]
      {
      }
      if ReadConfigs(funcs, init).Ok? && ReadConfig(funcs, lcs[|lcs| - 1]).Ok? {
        forall j | 0 <= j < |lcs|
          ensures ReadConfig(funcs, lcs[j]).Ok?
        {
          if j < |init| {
            assert lcs[j] == init[j];
          }
        }
      }
    }
  }

  lemma {:induction false} ReadConfigsErrPrefix(funcs: seq<Function>, lcs: seq<LiveConfig>, i: nat)
    requires i <= |lcs| && ReadConfigs(funcs, lcs[..i]).Err?
    ensures ReadConfigs(funcs, lcs) == ReadConfigs(funcs, lcs[..i])
    decreases |lcs| - i
  {
    if i < |lcs| {
      assert lcs[..i + 1][..i] == lcs[..i];
      ReadConfigsErrPrefix(funcs, lcs, i + 1);
    } else {
      assert lcs[..i] == lcs;
    }
  }

  // ---------------------------------------------------------------------------
  // The whole gadget

  /** The string table read back: the US English strings, then the
      terminator. */
  function ReadStrs(s: UsbgStrs): seq<Strings>
  {
    [Strings(LangUsEng, Some(s.manufacturer), Some(s.product), Some(s.serial)), Strings(0, None, None, None)]
  }

  /** `cfs_get_current_gadget` on its success path and its not-supported
      failures: missing US English strings, a function directory the
      registry does not know, a binding to a function not read back. */
  function ReadGadget(reg: seq<Function>, attrs: UsbgAttrs, strs: map<int, UsbgStrs>,
                      keys: seq<FuncKey>, configs: map<int, LiveConfig>): Result<Gadget>
  {
    if LangUsEng !in strs then Err(UsbgErrorNotFound)
    else
      match ReadFuncs(reg, keys)
      case Err(e) => Err(e)
      case Ok(funcs) =>
        match ReadConfigs(funcs, ConfigsInOrder(configs))
        case Err(e) => Err(e)
        case Ok(cs) => Ok(Gadget(attrs.device, Some(ReadStrs(strs[LangUsEng])), Some(funcs), Some(cs)))
  }

  /** A gadget read back owns one function per function directory, one
      configuration per configuration directory (in listing order, with
      the attributes and strings configfs holds), and every reference it
      holds names one of its own functions: the arena invariant. */
  lemma ReadGadgetShape(reg: seq<Function>, attrs: UsbgAttrs, strs: map<int, UsbgStrs>,
                        keys: seq<FuncKey>, configs: map<int, LiveConfig>)
    requires ReadGadget(reg, attrs, strs, keys, configs).Ok?
    ensures var g := ReadGadget(reg, attrs, strs, keys, configs).value;
      && g.attrs == attrs.device
      && g.strs == Some(ReadStrs(strs[LangUsEng]))
      && |FuncList(g)| == |keys|
      && (forall i :: 0 <= i < |keys| ==> FuncList(g)[i] in reg && MatchFunc(FuncList(g)[i], keys[i].typeName, keys[i].instance))
      && |ConfigList(g)| == |configs.Keys|
      && (forall j :: 0 <= j < |ConfigList(g)| ==>
            var lc := ConfigsInOrder(configs)[j];
            ConfigList(g)[j].attrs == ConfigAttrs(lc.bmAttributes, lc.bMaxPower as int * 2)
            && ConfigList(g)[j].strs == Some(ReadConfigStrs(lc))
            && |RefList(ConfigList(g)[j])| == |lc.bindings|)
      && RefsInRange(g)
  {
    var funcs := ReadFuncs(reg, keys).value;
    var lcs := ConfigsInOrder(configs);
    ReadFuncsOk(reg, keys);
    ReadConfigsMeans(funcs, lcs);
    var g := ReadGadget(reg, attrs, strs, keys, configs).value;
    forall j, k | 0 <= j < |ConfigList(g)| && 0 <= k < |RefList(ConfigList(g)[j])|
      ensures RefList(ConfigList(g)[j])[k] < |FuncList(g)|
    {
      ReadRefsMeans(funcs, lcs[j].bindings);
    }
    forall j | 0 <= j < |ConfigList(g)|
      ensures |RefList(ConfigList(g)[j])| == |lcs[j].bindings|
    {
      ReadRefsMeans(funcs, lcs[j].bindings);
    }
  }

  // ---------------------------------------------------------------------------
  // The read-back path as the client runs it

  /** `cfs_read_config`: bindings first, then attributes and strings. */
  method ReadConfigOf(funcs: seq<Function>, lc: LiveConfig) returns (r: Result<Config>)
    ensures r == ReadConfig(funcs, lc)
  {
    var refs: seq<nat> := [];
    for i := 0 to |lc.bindings|
      invariant ReadRefs(funcs, lc.bindings[..i]) == Some(refs)
    {
      var b := lc.bindings[i];
      var k := FindFuncInGadget(funcs, b.typeName, b.instance);
      assert lc.bindings[..i + 1][..i] == lc.bindings[..i];
      if k.None? {
        ReadRefsNonePrefix(funcs, lc.bindings, i + 1);
        return Err(-ENOTSUP);
      }
      refs := refs + [k.value];
    }
    assert lc.bindings[..|lc.bindings|] == lc.bindings;
    r := Ok(Config(ConfigAttrs(lc.bmAttributes, lc.bMaxPower as int * 2), Some(ReadConfigStrs(lc)), Some(refs)));
  }

  lemma {:induction false} ReadRefsNonePrefix(funcs: seq<Function>, bindings: seq<FuncKey>, i: nat)
    requires i <= |bindings| && ReadRefs(funcs, bindings[..i]).None?
    ensures ReadRefs(funcs, bindings).None?
    decreases |bindings| - i
  {
    if i < |bindings| {
      assert bindings[..i + 1][..i] == bindings[..i];
      ReadRefsNonePrefix(funcs, bindings, i + 1);
    } else {
      assert bindings[..i] == bindings;
    }
  }

  /** `cfs_read_funcs`: the registry entry for each function directory in
      turn; the first one the registry does not know ends the read. */
  method ReadFuncsOf(reg: seq<Function>, keys: seq<FuncKey>) returns (r: Result<seq<Function>>)
    ensures r == ReadFuncs(reg, keys)
  {
    var funcs: seq<Function> := [];
    for i := 0 to |keys|
      invariant ReadFuncs(reg, keys[..i]) == Ok(funcs)
    {
      var f := AllocNewFunc(reg, keys[i].typeName, keys[i].instance);
      assert keys[..i + 1][..i] == keys[..i];
      if f.Err? {
        ReadFuncsErrPrefix(reg, keys, i + 1);
        return Err(f.code);
      }
      funcs := funcs + [f.value];
    }
    assert keys[..|keys|] == keys;
    r := Ok(funcs);
  }

  /** `cfs_read_configs`: each configuration directory in listing order;
      the first one that fails ends the read. */
  method ReadConfigsOf(funcs: seq<Function>, lcs: seq<LiveConfig>) returns (r: Result<seq<Config>>)
    ensures r == ReadConfigs(funcs, lcs)
  {
    var cs: seq<Config> := [];
    for j := 0 to |lcs|
      invariant ReadConfigs(funcs, lcs[..j]) == Ok(cs)
    {
      var c := ReadConfigOf(funcs, lcs[j]);
      assert lcs[..j + 1][..j] == lcs[..j];
      if c.Err? {
        ReadConfigsErrPrefix(funcs, lcs, j + 1);
        return Err(c.code);
      }
      cs := cs + [c.value];
    }
    assert lcs[..|lcs|] == lcs;
    r := Ok(cs);
  }

  /** `cfs_get_current_gadget`. */
  method GetCurrentGadget(fs: ConfigFs, reg: seq<Function>) returns (r: Result<Gadget>)
    ensures r == ReadGadget(reg, fs.attrs, fs.strs, fs.funcs, fs.configs)
  {
    if LangUsEng !in fs.strs {
      return Err(UsbgErrorNotFound);
    }
    var funcs := ReadFuncsOf(reg, fs.funcs);
    if funcs.Err? {
      return Err(funcs.code);
    }
    var cs := ReadConfigsOf(funcs.value, ConfigsInOrder(fs.configs));
    if cs.Err? {
      return Err(cs.code);
    }
    r := Ok(Gadget(fs.attrs.device, Some(ReadStrs(fs.strs[LangUsEng])), Some(funcs.value), Some(cs.value)));
  }
}

module CfsRoundTrip {
  import opened Base
  import opened Descriptor
  import opened CfsFunctions
  import opened CfsBackend
  import opened CfsApply
  import opened CfsRead

  /** A function the configfs name written for it leads back to. */
  predicate Findable(f: Function)
  {
    && (f.group.Simple? ==> f.name != FfsType)
    && (f.group.WithService? ==> NameInstanceSep !in f.name && f.instance != [])
  }

  /** Every function of the list is told apart by its configfs name: the
      name written for function `i` matches function `i` and no other. */
  predicate KeysIdentify(gfuncs: seq<Function>)
  {
    && (forall i :: 0 <= i < |gfuncs| ==> Findable(gfuncs[i]))
    && (forall i, j :: (0 <= i < |gfuncs| && 0 <= j < |gfuncs|
          && MatchFunc(gfuncs[j], KeyFor(gfuncs[i]).typeName, KeyFor(gfuncs[i]).instance)) ==> i == j)
  }

  /** The name written for function `r` finds that function first. */
  predicate FindsOwn(gfuncs: seq<Function>, r: nat)
    requires r < |gfuncs|
  {
    FirstMatch(gfuncs, KeyFor(gfuncs[r]).typeName, KeyFor(gfuncs[r]).instance) == Some(r)
  }

  predicate OwnKeysFirst(gfuncs: seq<Function>)
  {
    forall r: nat :: r < |gfuncs| ==> FindsOwn(gfuncs, r)
  }

  lemma KeysIdentifyFirst(gfuncs: seq<Function>)
    requires KeysIdentify(gfuncs)
    ensures OwnKeysFirst(gfuncs)
  {
    forall r: nat | r < |gfuncs|
      ensures FindsOwn(gfuncs, r)
    {
      KeyMatches(gfuncs[r]);
    }
  }

  lemma KeysSnoc(gfuncs: seq<Function>, refs: seq<nat>)
    requires refs != [] && RefsBelow(refs, |gfuncs|)
    ensures RefsBelow(refs[..|refs| - 1], |gfuncs|)
    ensures Keys(gfuncs, refs) == Keys(gfuncs, refs[..|refs| - 1]) + [KeyFor(gfuncs[refs[|refs| - 1]])]
  {
    assert Keys(gfuncs, refs) == Keys(gfuncs, refs[..|refs| - 1]) + [KeyFor(gfuncs[refs[|refs| - 1]])];
  }

  lemma ReadRefsSnoc(funcs: seq<Function>, bs: seq<FuncKey>, b: FuncKey, refs: seq<nat>, k: nat)
    requires ReadRefs(funcs, bs) == Some(refs)
    requires FirstMatch(funcs, b.typeName, b.instance) == Some(k)
    ensures ReadRefs(funcs, bs + [b]) == Some(refs + [k])
  {
    assert (bs + [b])[..|bs|] == bs;
  }

  /** The bindings written for references `refs` read back as `refs`. */
  lemma {:induction false} ReadRefsOfKeys(gfuncs: seq<Function>, refs: seq<nat>)
    requires RefsBelow(refs, |gfuncs|) && OwnKeysFirst(gfuncs)
    ensures ReadRefs(gfuncs, Keys(gfuncs, refs)) == Some(refs)
    decreases |refs|
  {
    if refs != [] {
      var init := refs[..|refs| - 1];
      var last := refs[|refs| - 1];
      KeysSnoc(gfuncs, refs);
      calc {
        ReadRefs(gfuncs, Keys(gfuncs, refs));
        ReadRefs(gfuncs, Keys(gfuncs, init) + [KeyFor(gfuncs[last])]);
        { ReadRefsOfKeys(gfuncs, init);
          assert FindsOwn(gfuncs, last);
          ReadRefsSnoc(gfuncs, Keys(gfuncs, init), KeyFor(gfuncs[last]), init, last); }
        Some(init + [last]);
        { assert init + [last] == refs; }
        Some(refs);
      }
    }
  }

  /** Writing a configuration with `cfs_set_gadget_config` and reading it
      back with `cfs_read_config` against the same functions gives back its
      references and bmAttributes, its MaxPower when that is an even number
      of mA below 512, and its last US English string. */
  lemma ReadWrittenConfig(gfuncs: seq<Function>, c: Config)
    requires RefsBelow(RefList(c), |gfuncs|) && KeysIdentify(gfuncs)
    ensures ReadConfig(gfuncs, Written(gfuncs, c)).Ok?
    ensures var rc := ReadConfig(gfuncs, Written(gfuncs, c)).value;
      && rc.funcs == Some(RefList(c))
      && rc.attrs.bmAttributes == c.attrs.bmAttributes
      && (0 <= c.attrs.maxPower < 512 && c.attrs.maxPower % 2 == 0 ==> rc.attrs == c.attrs)
    ensures var t := ConfigStrTable(c);
      forall i :: 0 <= i < |t| && t[i].lang == LangUsEng && (forall k :: i < k < |t| ==> t[k].lang != LangUsEng) ==>
        ReadConfig(gfuncs, Written(gfuncs, c)).value.strs == Some([ConfigString(LangUsEng, t[i].text), ConfigString(0, "")])
    ensures var t := ConfigStrTable(c);
      (forall i :: 0 <= i < |t| ==> t[i].lang != LangUsEng) ==>
        ReadConfig(gfuncs, Written(gfuncs, c)).value.strs == Some([ConfigString(0, ""), ConfigString(0, "")])
  {
    KeysIdentifyFirst(gfuncs);
    ReadRefsOfKeys(gfuncs, RefList(c));
    StrMapAfterReads(map[], ConfigStrTable(c));
  }

  /** US English strings written with every string present read back as
      written. */
  lemma ReadStrsAfterWrite(m: map<int, UsbgStrs>, s: Strings)
    requires s.lang == LangUsEng && s.manufacturer.Some? && s.product.Some? && s.serial.Some?
    ensures LangUsEng in StrsAfter(m, s)
    ensures ReadStrs(StrsAfter(m, s)[LangUsEng])[0] == s
  {
    StrsAfterReads(m, s);
  }

  lemma RangeCard(keys: set<int>, n: nat)
    requires forall id :: id in keys <==> 1 <= id <= n
    ensures |keys| == n
  {
    if n > 0 {
      RangeCard(keys - {n}, n - 1);
    } else if keys != {} {
      var x := SomeId(keys);
      assert false;
    }
  }

  lemma {:induction false} IncreasingGap(r: seq<int>, i: nat, j: nat)
    requires forall a, b :: 0 <= a < b < |r| ==> r[a] < r[b]
    requires i <= j < |r|
    ensures r[j] - r[i] >= j - i
    decreases j - i
  {
    if i < j {
      IncreasingGap(r, i, j - 1);
    }
  }

  /** N increasing values between 1 and N are 1, 2, ..., N. */
  lemma IncreasingRange(r: seq<int>, n: nat)
    requires |r| == n
    requires forall a, b :: 0 <= a < b < |r| ==> r[a] < r[b]
    requires forall i :: 0 <= i < |r| ==> 1 <= r[i] <= n
    ensures forall j :: 0 <= j < n ==> r[j] == j + 1
  {
    forall j | 0 <= j < n
      ensures r[j] == j + 1
    {
      IncreasingGap(r, 0, j);
      IncreasingGap(r, j, n - 1);
    }
  }

  /** Configurations 1..N are listed in the order 1, 2, ..., N. */
  lemma SortedRange(configs: map<int, LiveConfig>, n: nat)
    requires forall id :: id in configs <==> 1 <= id <= n
    ensures |ConfigsInOrder(configs)| == n
    ensures forall j :: 0 <= j < n ==> ConfigsInOrder(configs)[j] == configs[j + 1]
  {
    var ids := configs.Keys;
    assert forall id :: id in ids <==> 1 <= id <= n;
    RangeCard(ids, n);
    SortedIdsMeans(ids);
    var r := SortedIds(ids);
    forall i | 0 <= i < |r|
      ensures 1 <= r[i] <= n
    {
      assert r[i] in ids;
    }
    IncreasingRange(r, n);
    forall j | 0 <= j < n
      ensures ConfigsInOrder(configs)[j] == configs[j + 1]
    {
      assert r[j] == j + 1;
    }
  }

  /** Configuration `c` of functions `gfuncs` read back as `rc` against
      functions `funcs`: the same bmAttributes, and at every position a
      binding to a function of the configfs name written there. */
  predicate ConfigReadBack(gfuncs: seq<Function>, c: Config, funcs: seq<Function>, rc: Config)
  {
    && rc.attrs.bmAttributes == c.attrs.bmAttributes
    && |RefList(rc)| == |RefList(c)|
    && forall i :: 0 <= i < |RefList(c)| ==>
         && RefList(c)[i] < |gfuncs| && RefList(rc)[i] < |funcs|
         && var key := KeyFor(gfuncs[RefList(c)[i]]);
            MatchFunc(funcs[RefList(rc)[i]], key.typeName, key.instance)
  }

  lemma ReadBackConfig(funcs: seq<Function>, gfuncs: seq<Function>, c: Config, rc: Config)
    requires RefsBelow(RefList(c), |gfuncs|)
    requires ReadConfig(funcs, Written(gfuncs, c)) == Ok(rc)
    ensures ConfigReadBack(gfuncs, c, funcs, rc)
  {
    ReadRefsMeans(funcs, Written(gfuncs, c).bindings);
  }

  /** A gadget written by `cfs_reconfigure_gadget` reads back with the
      device attributes written, one configuration per configuration of the
      gadget, each with its bmAttributes and with, at every position, a
      binding to a function of the configfs name the gadget's function at
      that position was written under; and, when the last string set
      written is a complete US English one, with those strings. */
  lemma ReadBackApplied(fs: ConfigFs, attrs0: UsbgAttrs, strs0: map<int, UsbgStrs>, g: Gadget, reg: seq<Function>)
    requires RefsInRange(g)
    requires Applied(fs, attrs0, strs0, g)
    requires ReadGadget(reg, fs.attrs, fs.strs, fs.funcs, fs.configs).Ok?
    ensures var h := ReadGadget(reg, fs.attrs, fs.strs, fs.funcs, fs.configs).value;
      && h.attrs == g.attrs
      && |ConfigList(h)| == |ConfigList(g)|
      && forall j :: 0 <= j < |ConfigList(g)| ==> ConfigReadBack(FuncList(g), ConfigList(g)[j], FuncList(h), ConfigList(h)[j])
    ensures var ss := StrTable(g);
      var h := ReadGadget(reg, fs.attrs, fs.strs, fs.funcs, fs.configs).value;
      ss != [] && ss[|ss| - 1].lang == LangUsEng
      && ss[|ss| - 1].manufacturer.Some? && ss[|ss| - 1].product.Some? && ss[|ss| - 1].serial.Some? ==>
        h.strs.value[0] == ss[|ss| - 1]
  {
    var h := ReadGadget(reg, fs.attrs, fs.strs, fs.funcs, fs.configs).value;
    var funcs := ReadFuncs(reg, fs.funcs).value;
    var lcs := ConfigsInOrder(fs.configs);
    var n := |ConfigList(g)|;
    SortedRange(fs.configs, n);
    ReadConfigsMeans(funcs, lcs);
    assert FuncList(h) == funcs;
    forall j | 0 <= j < n
      ensures ConfigReadBack(FuncList(g), ConfigList(g)[j], FuncList(h), ConfigList(h)[j])
    {
      var k := j + 1;
      assert fs.configs[k] == Written(FuncList(g), ConfigList(g)[k - 1]);
      ReadBackConfig(funcs, FuncList(g), ConfigList(g)[j], ConfigList(h)[j]);
    }
    var ss := StrTable(g);
    if ss != [] && ss[|ss| - 1].lang == LangUsEng
      && ss[|ss| - 1].manufacturer.Some? && ss[|ss| - 1].product.Some? && ss[|ss| - 1].serial.Some? {
      ReadStrsAfterWrite(StrsAfterAll(strs0, ss[..|ss| - 1]), ss[|ss| - 1]);
    }
  }
}
