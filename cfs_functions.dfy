/** Function identity and support checks of the configfs client: how a
    function found in configfs (a type name and an instance name) is matched
    to a registry or gadget function, and which gadgets the client accepts. */
module CfsFunctions {
  import opened Base
  import opened Descriptor

  /** The type name libusbg gives to FunctionFS functions. */
  const FfsType: string := "ffs"
  const NameInstanceSep: char := '.'

  /** How a function is named in configfs: its type name and its instance. */
  datatype FuncKey = FuncKey(typeName: string, instance: string)

  /** The configfs instance of a function with a service: `name.instance`. */
  function ServiceInstance(f: Function): string
  {
    f.name + [NameInstanceSep] + f.instance
  }

  /** The configfs name under which a function is created. */
  function KeyFor(f: Function): FuncKey
  {
    match f.group
    case Simple => FuncKey(f.name, f.instance)
    case WithService(_) => FuncKey(FfsType, ServiceInstance(f))
  }

  /** Position `k` of a FunctionFS instance is its first separator, and
      something follows it. */
  predicate SplitsAt(instance: string, k: int)
  {
    0 <= k < |instance| - 1 && instance[k] == NameInstanceSep && NameInstanceSep !in instance[..k]
  }

  /** `cfs_match_func`: does the configfs function `name`/`instance` stand for `f`?
      For FunctionFS the instance is split at its first separator, and the
      part after it must not be empty. */
  function MatchFunc(f: Function, name: string, instance: string): (r: bool)
    ensures name != FfsType ==> (r <==> name == f.name && instance == f.instance)
    ensures name == FfsType ==>
      (r <==> exists k {:trigger SplitsAt(instance, k)} ::
                SplitsAt(instance, k) && f.name == instance[..k] && f.instance == instance[k + 1..])
  {
    if name != FfsType then
      name == f.name && instance == f.instance
    else
      match IndexOf(instance, NameInstanceSep)
      case None => NoSplit(instance); false
      case Some(k) =>
        FirstSplit(instance, k);
        |instance[k + 1..]| >= 1 && |f.name| == k && f.name == instance[..k] && f.instance == instance[k + 1..]
  }

  /** An instance without a separator splits nowhere. */
  lemma NoSplit(instance: string)
    requires NameInstanceSep !in instance
    ensures forall k {:trigger SplitsAt(instance, k)} :: !SplitsAt(instance, k)
  {
    forall k | 0 <= k < |instance|
      ensures instance[k] != NameInstanceSep
    {
      assert instance[k] in instance;
    }
  }

  /** An instance splits at most at its first separator. */
  lemma FirstSplit(instance: string, k: nat)
    requires IndexOf(instance, NameInstanceSep) == Some(k)
    ensures SplitsAt(instance, k) <==> k < |instance| - 1
    ensures forall j {:trigger SplitsAt(instance, j)} :: SplitsAt(instance, j) ==> j == k
  {
    forall j | SplitsAt(instance, j)
      ensures j == k
    {
      assert instance[j] == NameInstanceSep && instance[k] == NameInstanceSep;
    }
  }

  /** A function with a service is found again under the name it is created
      with, provided its name has no separator and its instance is not empty. */
  lemma ServiceKeyMatches(f: Function)
    requires f.group.WithService? && NameInstanceSep !in f.name && f.instance != []
    ensures MatchFunc(f, KeyFor(f).typeName, KeyFor(f).instance)
  {
    var s := ServiceInstance(f);
    var k := |f.name|;
    assert s[k] == NameInstanceSep && s[..k] == f.name && s[k + 1..] == f.instance;
    assert SplitsAt(s, k);
  }

  /** Any function is found again under the name it is created with. */
  lemma KeyMatches(f: Function)
    requires f.group.Simple? ==> f.name != FfsType
    requires f.group.WithService? ==> NameInstanceSep !in f.name && f.instance != []
    ensures MatchFunc(f, KeyFor(f).typeName, KeyFor(f).instance)
  {
    if f.group.WithService? {
      ServiceKeyMatches(f);
    }
  }

  /** The index of the first function of `funcs` that the configfs function
      `name`/`instance` stands for. */
  function FirstMatch(funcs: seq<Function>, name: string, instance: string): (r: Option<nat>)
    ensures r.Some? ==> r.value < |funcs| && MatchFunc(funcs[r.value], name, instance)
    ensures r.Some? ==> forall i {:trigger MatchFunc(funcs[i], name, instance)} :: 0 <= i < r.value ==> !MatchFunc(funcs[i], name, instance)
    ensures r.None? <==> forall i {:trigger MatchFunc(funcs[i], name, instance)} :: 0 <= i < |funcs| ==> !MatchFunc(funcs[i], name, instance)
  {
    if funcs == [] then None
    else if MatchFunc(funcs[0], name, instance) then Some(0)
    else match FirstMatch(funcs[1..], name, instance)
      case None => None
      case Some(k) => Some(k + 1)
  }

  /** `cfs_find_func`: the first registry entry that matches, or -ENOENT. */
  method FindFunc(reg: seq<Function>, name: string, instance: string) returns (r: int)
    ensures r == -ENOENT || 0 <= r < |reg|
    ensures r >= 0 ==> MatchFunc(reg[r], name, instance) && forall i :: 0 <= i < r ==> !MatchFunc(reg[i], name, instance)
    ensures r == -ENOENT <==> forall i :: 0 <= i < |reg| ==> !MatchFunc(reg[i], name, instance)
    ensures r == (match FirstMatch(reg, name, instance) case None => -ENOENT case Some(k) => k)
  {
    for i := 0 to |reg|
      invariant forall m :: 0 <= m < i ==> !MatchFunc(reg[m], name, instance)
    {
      if MatchFunc(reg[i], name, instance) {
        return i;
      }
    }
    return -ENOENT;
  }

  /** `cfs_alloc_new_func`: a clone of the matching registry entry; a
      function the registry does not know is not supported. */
  method AllocNewFunc(reg: seq<Function>, name: string, instance: string) returns (r: Result<Function>)
    ensures r.Err? <==> forall i :: 0 <= i < |reg| ==> !MatchFunc(reg[i], name, instance)
    ensures r.Err? ==> r.code == -ENOTSUP
    ensures r.Ok? ==> r.value == reg[FirstMatch(reg, name, instance).value] && MatchFunc(r.value, name, instance)
  {
    var i := FindFunc(reg, name, instance);
    if i < 0 {
      return Err(-ENOTSUP);
    }
    return Ok(reg[i]);
  }

  /** `cfs_find_func_in_gadget`: the index of the first gadget function that
      matches, or `None` for the NULL terminator. */
  method FindFuncInGadget(funcs: seq<Function>, name: string, instance: string) returns (r: Option<nat>)
    ensures r.Some? ==> r.value < |funcs| && MatchFunc(funcs[r.value], name, instance)
    ensures r.Some? ==> forall i {:trigger MatchFunc(funcs[i], name, instance)} :: 0 <= i < r.value ==> !MatchFunc(funcs[i], name, instance)
    ensures r.None? <==> forall i {:trigger MatchFunc(funcs[i], name, instance)} :: 0 <= i < |funcs| ==> !MatchFunc(funcs[i], name, instance)
    ensures r == FirstMatch(funcs, name, instance)
  {
    var i := 0;
    while i < |funcs|
      invariant i <= |funcs|
      invariant forall m :: 0 <= m < i ==> !MatchFunc(funcs[m], name, instance)
    {
      if MatchFunc(funcs[i], name, instance) {
        return Some(i);
      }
      i := i + 1;
    }
    return None;
  }

  /** `cfs_is_function_supported`: a kernel function needs a type libusbg
      knows (`types` is libusbg's list of type names); a function with a
      service is always accepted. */
  function IsFunctionSupported(types: seq<string>, f: Function): (r: bool)
    ensures f.group.WithService? ==> r
    ensures f.group.Simple? ==> (r <==> f.name in types)
  {
    match f.group
    case Simple => f.name in types
    case WithService(_) => true
  }

  /** What `cfs_is_gadget_supported` accepts: the gadget and its tables are
      present, there is at least one configuration, every configuration has a
      reference array, and every referenced function is supported. Strings
      are not restricted. */
  predicate Supported(types: seq<string>, g: Option<Gadget>)
    requires g.Some? ==> RefsInRange(g.value)
  {
    && g.Some? && g.value.configs.Some? && g.value.funcs.Some?
    && |g.value.configs.value| > 0
    && (forall j :: 0 <= j < |g.value.configs.value| ==> g.value.configs.value[j].funcs.Some?)
    && (forall j, i :: 0 <= j < |ConfigList(g.value)| && 0 <= i < |RefList(ConfigList(g.value)[j])| ==>
          IsFunctionSupported(types, FuncList(g.value)[RefList(ConfigList(g.value)[j])[i]]))
  }

  /** `cfs_is_gadget_supported`. */
  method IsGadgetSupported(types: seq<string>, g: Option<Gadget>) returns (r: bool)
    requires g.Some? ==> RefsInRange(g.value)
    ensures r == Supported(types, g)
  {
    if g.None? || g.value.configs.None? || g.value.funcs.None? {
      return false;
    }
    var configs := ConfigList(g.value);
    var funcs := FuncList(g.value);
    var j := 0;
    while j < |configs|
      invariant j <= |configs|
      invariant forall m :: 0 <= m < j ==> configs[m].funcs.Some?
      invariant forall m, i :: 0 <= m < j && 0 <= i < |RefList(configs[m])| ==>
        RefList(configs[m])[i] < |funcs| && IsFunctionSupported(types, funcs[RefList(configs[m])[i]])
    {
      if configs[j].funcs.None? {
        return false;
      }
      var refs := configs[j].funcs.value;
      assert forall k :: 0 <= k < |refs| ==> refs[k] == RefList(configs[j])[k] && refs[k] < |funcs|;
      for i := 0 to |refs|
        invariant forall k :: 0 <= k < i ==> IsFunctionSupported(types, funcs[refs[k]])
      {
        if !IsFunctionSupported(types, funcs[refs[i]]) {
          return false;
        }
      }
      j := j + 1;
    }
    if j == 0 {
      return false;
    }
    return true;
  }
}
