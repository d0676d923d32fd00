/** The legacy client: the gadget written to and read from the flat key
    files of the slp-gadget driver under /sys/class/usb_mode/usb0. Two
    fixed configuration slots hold comma-joined function names; device
    attributes are integer files; only US English strings exist. */
module LegacyClient {
  import opened Base
  import opened Descriptor
  import opened LegacyParse

  const RootPath: string := "/sys/class/usb_mode/usb0"
  const ClassPath: string := RootPath + "/bDeviceClass"
  const SubClassPath: string := RootPath + "/bDeviceSubClass"
  const ProtocolPath: string := RootPath + "/bDeviceProtocol"
  const VendorPath: string := RootPath + "/idVendor"
  const ProductPath: string := RootPath + "/idProduct"
  const BcdPath: string := RootPath + "/bcdDevice"
  const ManufacturerPath: string := RootPath + "/iManufacturer"
  const ProductStrPath: string := RootPath + "/iProduct"
  const SerialPath: string := RootPath + "/iSerial"
  const Config1Path: string := RootPath + "/funcs_fconf"
  const Config2Path: string := RootPath + "/funcs_sconf"
  const EnablePath: string := RootPath + "/enable"

  const EnableText: string := "1"
  const DisableText: string := "0"
  const FuncSep: char := ','
  /** MAX_GADGET_STR_LEN: the buffer a slot's text is built in. */
  const MaxGadgetStrLen: nat := 256
  const LangUsEng: int := 0x409
  const LegacyBmAttributes: u8 := 0xC0
  const LegacyMaxPower: int := 500

  // ---------------------------------------------------------------------------
  // The key files

  /** One key file written with a text. */
  datatype Put = Put(key: string, text: string)

  /** The key files after `puts` are written in order. */
  function Overlay(m: map<string, string>, puts: seq<Put>): map<string, string>
    decreases |puts|
  {
    if puts == [] then m else Overlay(m, puts[..|puts| - 1])[puts[|puts| - 1].key := puts[|puts| - 1].text]
  }

  /** One more write: `n` is the new count of writes done. */
  lemma OverlayStep(m: map<string, string>, puts: seq<Put>, i: nat) returns (n: nat)
    requires i < |puts|
    ensures n == i + 1 && Overlay(m, puts[..n]) == Overlay(m, puts[..i])[puts[i].key := puts[i].text]
  {
    n := i + 1;
    assert puts[..i + 1][..i] == puts[..i];
  }

  lemma {:induction false} OverlayAppend(m: map<string, string>, a: seq<Put>, b: seq<Put>)
    ensures Overlay(m, a + b) == Overlay(Overlay(m, a), b)
    decreases |b|
  {
    if b == [] {
      assert a + b == a;
    } else {
      assert (a + b)[..|a + b| - 1] == a + b[..|b| - 1];
      OverlayAppend(m, a, b[..|b| - 1]);
    }
  }

  /** A key no put names keeps its text; otherwise the last put wins. */
  lemma {:induction false} OverlayLookup(m: map<string, string>, puts: seq<Put>, key: string)
    ensures (forall i :: 0 <= i < |puts| ==> puts[i].key != key) ==>
      (key in Overlay(m, puts) <==> key in m) && (key in m ==> Overlay(m, puts)[key] == m[key])
    ensures puts != [] && puts[|puts| - 1].key == key ==> Overlay(m, puts)[key] == puts[|puts| - 1].text
    decreases |puts|
  {
    if puts != [] {
      var init := puts[..|puts| - 1];
      OverlayLookup(m, init, key);
      if forall i :: 0 <= i < |puts| ==> puts[i].key != key {
        forall i | 0 <= i < |init|
          ensures init[i].key != key
        {
          assert init[i] == puts[i];
        }
      }
    }
  }

  /** The sysfs attributes of the driver. Reading a missing key fails with
      -ENOENT; a write may fail with a negative errno and then changes
      nothing. */
  class KeyFiles {
    var files: map<string, string>

    constructor(files0: map<string, string>)
      ensures files == files0
    {
      files := files0;
    }

    /** `sys_get_str`. */
    method Get(path: string) returns (r: Result<string>)
      ensures r == FileText(files, path)
    {
      if path in files {
        r := Ok(files[path]);
      } else {
        r := Err(-ENOENT);
      }
    }

    /** `sys_set_str` (and `sys_set_int` with the decimal text). */
    method Set(path: string, text: string) returns (ret: int)
      modifies this`files
      ensures ret <= 0
      ensures files == (if ret == 0 then old(files)[path := text] else old(files))
    {
      var ok: bool :| true;
      if ok {
        files := files[path := text];
        ret := 0;
      } else {
        var e: int :| e < 0;
        ret := e;
      }
    }
  }

  function FileText(files: map<string, string>, path: string): Result<string>
  {
    if path in files then Ok(files[path]) else Err(-ENOENT)
  }

  // ---------------------------------------------------------------------------
  // Function lookup

  /** The first function named `name`. */
  function FirstNamed(funcs: seq<Function>, name: string): (r: Option<nat>)
    ensures r.Some? ==> r.value < |funcs| && funcs[r.value].name == name
    ensures r.Some? ==> forall i :: 0 <= i < r.value ==> funcs[i].name != name
    ensures r.None? <==> forall i :: 0 <= i < |funcs| ==> funcs[i].name != name
  {
    if funcs == [] then None
    else if funcs[0].name == name then Some(0)
    else match FirstNamed(funcs[1..], name)
      case None => None
      case Some(k) => Some(k + 1)
  }

  /** `legacy_find_func`: the registry index of the first function named
      `name`, or -1. */
  method FindFunc(reg: seq<Function>, name: string) returns (r: int)
    ensures r == (match FirstNamed(reg, name) case None => -1 case Some(k) => k)
  {
    for i := 0 to |reg|
      invariant forall k :: 0 <= k < i ==> reg[k].name != name
    {
      if reg[i].name == name {
        return i;
      }
    }
    return -1;
  }

  /** `legacy_find_func_in_gadget`. */
  method FindFuncInGadget(funcs: seq<Function>, name: string) returns (r: Option<nat>)
    ensures r == FirstNamed(funcs, name)
  {
    for i := 0 to |funcs|
      invariant forall k :: 0 <= k < i ==> funcs[k].name != name
    {
      if funcs[i].name == name {
        return Some(i);
      }
    }
    return None;
  }

  // ---------------------------------------------------------------------------
  // The validator

  /** The LANGID at position `i` of a table; past the end reads as the
      terminator. */
  function LangAt(ss: seq<Strings>, i: nat): int
  {
    if i < |ss| then ss[i].lang else 0
  }

  function ConfigLangAt0(cs: seq<ConfigString>): int
  {
    if cs == [] then 0 else cs[0].lang
  }

  /** `legacy_is_function_supported`: the registry has a function of that name. */
  predicate FunctionSupported(reg: seq<Function>, f: Function)
  {
    FirstNamed(reg, f.name).Some?
  }

  /** One configuration passes: no configuration string, a reference array,
      and only functions the registry names. */
  predicate ConfigSupported(reg: seq<Function>, funcs: seq<Function>, c: Config)
  {
    && (c.strs.Some? ==> ConfigLangAt0(c.strs.value) == 0)
    && c.funcs.Some?
    && forall i :: 0 <= i < |c.funcs.value| ==> c.funcs.value[i] < |funcs| && FunctionSupported(reg, funcs[c.funcs.value[i]])
  }

  /** `legacy_is_gadget_supported`: tables present; when there are strings,
      exactly one set and in US English; every configuration supported;
      one or two configurations. An empty function list passes. */
  predicate LegacySupported(reg: seq<Function>, g: Option<Gadget>)
  {
    && g.Some? && g.value.configs.Some? && g.value.funcs.Some?
    && (g.value.strs.Some? ==> LangAt(g.value.strs.value, 0) == LangUsEng && LangAt(g.value.strs.value, 1) == 0)
    && (forall j :: 0 <= j < |g.value.configs.value| ==> ConfigSupported(reg, g.value.funcs.value, g.value.configs.value[j]))
    && 1 <= |g.value.configs.value| <= 2
  }

  method IsFunctionSupported(reg: seq<Function>, f: Function) returns (r: bool)
    ensures r == FunctionSupported(reg, f)
  {
    var k := FindFunc(reg, f.name);
    r := k >= 0;
  }

  method IsGadgetSupported(reg: seq<Function>, g: Option<Gadget>) returns (r: bool)
    requires g.Some? ==> RefsInRange(g.value)
    ensures r == LegacySupported(reg, g)
  {
    if g.None? || g.value.configs.None? || g.value.funcs.None? {
      return false;
    }
    var gd := g.value;
    if gd.strs.Some? {
      if LangAt(gd.strs.value, 0) != LangUsEng || LangAt(gd.strs.value, 1) != 0 {
        return false;
      }
    }
    var configs := gd.configs.value;
    var funcs := gd.funcs.value;
    for j := 0 to |configs|
      invariant forall jj :: 0 <= jj < j ==> ConfigSupported(reg, funcs, configs[jj])
    {
      var c := configs[j];
      if c.strs.Some? && ConfigLangAt0(c.strs.value) != 0 {
        return false;
      }
      if c.funcs.None? {
        return false;
      }
      var refs := c.funcs.value;
      for i := 0 to |refs|
        invariant forall ii :: 0 <= ii < i ==> refs[ii] < |funcs| && FunctionSupported(reg, funcs[refs[ii]])
      {
        assert refs == RefList(ConfigList(gd)[j]);
        var ok := IsFunctionSupported(reg, funcs[refs[i]]);
        if !ok {
          return false;
        }
      }
    }
    r := |configs| != 0 && |configs| <= 2;
  }

  // ---------------------------------------------------------------------------
  // Slot text

  /** Each name followed by the separator, as the loop of
      `legacy_set_gadget_config` prints them. */
  function Trailing(names: seq<string>): string
  {
    if names == [] then [] else names[0] + [FuncSep] + Trailing(names[1..])
  }

  lemma {:induction false} TrailingSnoc(names: seq<string>, x: string)
    ensures Trailing(names + [x]) == Trailing(names) + x + [FuncSep]
    decreases |names|
  {
    if names == [] {
      assert Trailing([x]) == x + [FuncSep] + Trailing([]);
    } else {
      assert (names + [x])[1..] == names[1..] + [x];
      TrailingSnoc(names[1..], x);
    }
  }

  lemma {:induction false} TrailingJoin(names: seq<string>)
    requires |names| >= 1
    ensures Trailing(names) == Join(names, FuncSep) + [FuncSep]
    decreases |names|
  {
    if |names| > 1 {
      TrailingJoin(names[1..]);
    }
  }

  lemma {:induction false} TrailingPrefix(names: seq<string>, i: nat)
    requires i <= |names|
    ensures |Trailing(names[..i])| <= |Trailing(names)|
    decreases |names| - i
  {
    if i < |names| {
      TrailingPrefix(names, i + 1);
      TrailingSnoc(names[..i], names[i]);
      assert names[..i] + [names[i]] == names[..i + 1];
    } else {
      assert names[..i] == names;
    }
  }

  /** The text of a slot holding functions named `names`: the names joined
      by ','. The buffer loop prints each name with a trailing ',', so the
      result is -EOVERFLOW when those names plus the terminator exceed the
      buffer, that is, when the joined text is 255 bytes or more. */
  function ConfigText(names: seq<string>): Result<string>
    requires |names| >= 1
  {
    if |Join(names, FuncSep)| + 1 >= MaxGadgetStrLen then Err(-EOVERFLOW) else Ok(Join(names, FuncSep))
  }

  /** The names of the functions a configuration references. */
  function ConfigNames(funcs: seq<Function>, c: Config): (names: seq<string>)
    requires RefsBelowList(RefList(c), |funcs|)
    ensures |names| == |RefList(c)|
  {
    seq(|RefList(c)|, i requires 0 <= i < |RefList(c)| => funcs[RefList(c)[i]].name)
  }

  predicate RefsBelowList(refs: seq<nat>, n: nat)
  {
    forall i :: 0 <= i < |refs| ==> refs[i] < n
  }

  /** The text `legacy_set_gadget_config` writes for a slot: a newline for
      no configuration. */
  function SlotText(funcs: seq<Function>, c: Option<Config>): Result<string>
    requires c.Some? ==> RefsBelowList(RefList(c.value), |funcs|) && |RefList(c.value)| >= 1
  {
    if c.None? then Ok("\n") else ConfigText(ConfigNames(funcs, c.value))
  }

  /** The loop of `legacy_set_gadget_config`: each name and a separator
      printed into the buffer, then the last separator cut off. */
  method FormatConfig(names: seq<string>) returns (r: Result<string>)
    requires |names| >= 1
    ensures r == ConfigText(names)
  {
    var buf := new char[MaxGadgetStrLen];
    var left := MaxGadgetStrLen;
    var pos := 0;
    var i := 0;
    while i < |names|
      invariant 0 <= i <= |names|
      invariant pos + left == MaxGadgetStrLen && left > 0
      invariant pos == |Trailing(names[..i])|
      invariant buf[..pos] == Trailing(names[..i])
    {
      var name := names[i];
      var n := |name| + 1;
      TrailingSnoc(names[..i], name);
      assert names[..i] + [name] == names[..i + 1];
      if n >= left {
        TrailingPrefix(names, i + 1);
        TrailingJoin(names);
        return Err(-EOVERFLOW);
      }
      var k := 0;
      while k < |name|
        invariant 0 <= k <= |name|
        invariant buf[..pos + k] == Trailing(names[..i]) + name[..k]
      {
        buf[pos + k] := name[k];
        assert buf[..pos + k + 1] == buf[..pos + k] + [name[k]];
        assert name[..k + 1] == name[..k] + [name[k]];
        k := k + 1;
      }
      buf[pos + |name|] := FuncSep;
      assert buf[..pos + n] == buf[..pos + |name|] + [FuncSep];
      assert name[..|name|] == name;
      pos := pos + n;
      left := left - n;
      i := i + 1;
    }
    assert names[..i] == names;
    TrailingJoin(names);
    assert buf[..pos - 1] == buf[..pos][..pos - 1];
    r := Ok(buf[..pos - 1]);
  }

  /** `legacy_read_config`'s view of a slot text: empty or starting with a
      newline is no configuration; otherwise the names between separators. */
  function SlotNames(text: string): Option<seq<string>>
  {
    if text == [] || text[0] == '\n' then None else Some(Split(text, FuncSep))
  }

  /** A slot written for a configuration reads back as its names, one per
      counted separator plus one, provided no name holds a separator and
      the text starts with a name character; a slot written empty reads
      back as no configuration. */
  lemma SlotRoundTrip(names: seq<string>)
    requires |names| >= 1 && ConfigText(names).Ok?
    requires forall k :: 0 <= k < |names| ==> FuncSep !in names[k]
    requires names[0] != [] && names[0][0] != '\n'
    ensures SlotNames(ConfigText(names).value) == Some(names)
    ensures CountChar(ConfigText(names).value, FuncSep) + 1 == |names|
    ensures SlotNames("\n") == None
  {
    var text := Join(names, FuncSep);
    if |names| > 1 {
      assert text == names[0] + [FuncSep] + Join(names[1..], FuncSep);
    }
    assert text[0] == names[0][0];
    SplitJoin(names, FuncSep);
    SplitCount(text, FuncSep);
  }

  // ---------------------------------------------------------------------------
  // Applying a gadget

  /** The device attribute writes: class, subclass and protocol in decimal,
      vendor, product and bcdDevice in lower-case hexadecimal. */
  function AttrPuts(a: Attrs): seq<Put>
  {
    [ Put(ClassPath, DecimalText(a.bDeviceClass as nat)),
      Put(SubClassPath, DecimalText(a.bDeviceSubClass as nat)),
      Put(ProtocolPath, DecimalText(a.bDeviceProtocol as nat)),
      Put(VendorPath, HexText(a.idVendor as nat)),
      Put(ProductPath, HexText(a.idProduct as nat)),
      Put(BcdPath, HexText(a.bcdDevice as nat)) ]
  }

  /** The string writes: manufacturer and product when present; the serial
      is never written. */
  function StrPuts(s: Strings): seq<Put>
  {
    (if s.manufacturer.Some? then [Put(ManufacturerPath, s.manufacturer.value)] else [])
    + (if s.product.Some? then [Put(ProductStrPath, s.product.value)] else [])
  }

  /** Every configuration names at least one function (the serialiser
      writes before its buffer otherwise). */
  predicate NonEmptyConfigs(g: Gadget)
  {
    forall j :: 0 <= j < |ConfigList(g)| ==> |RefList(ConfigList(g)[j])| >= 1
  }

  function SecondConfig(g: Gadget): Option<Config>
  {
    if |ConfigList(g)| >= 2 then Some(ConfigList(g)[1]) else None
  }

  /** The attribute and string writes that open a reconfiguration. */
  function HeadPuts(g: Gadget): seq<Put>
    requires g.strs.Some? ==> |g.strs.value| >= 1
  {
    AttrPuts(g.attrs) + (if g.strs.Some? then StrPuts(g.strs.value[0]) else [])
  }

  /** The slot writes: the first configuration, then the second or an
      empty slot, stopping with -EOVERFLOW at a text that does not fit. */
  function SlotPlan(funcs: seq<Function>, c1: Config, c2: Option<Config>): (seq<Put>, int)
    requires RefsBelowList(RefList(c1), |funcs|) && |RefList(c1)| >= 1
    requires c2.Some? ==> RefsBelowList(RefList(c2.value), |funcs|) && |RefList(c2.value)| >= 1
  {
    match SlotText(funcs, Some(c1))
    case Err(e) => ([], e)
    case Ok(t1) =>
      match SlotText(funcs, c2)
      case Err(e) => ([Put(Config1Path, t1)], e)
      case Ok(t2) => ([Put(Config1Path, t1), Put(Config2Path, t2)], 0)
  }

  /** What `legacy_reconfigure_gadget` writes for a supported gadget, and
      the code it ends with once every write succeeds (0, or -EOVERFLOW
      for a slot whose text does not fit). */
  function Plan(reg: seq<Function>, g: Gadget): (seq<Put>, int)
    requires LegacySupported(reg, Some(g)) && NonEmptyConfigs(g)
  {
    var slots := SlotPlan(FuncList(g), ConfigList(g)[0], SecondConfig(g));
    (HeadPuts(g) + slots.0, slots.1)
  }

  /** A run of writes from `before` to `after`: the first `done` of `puts`
      took effect; a write that failed ends the run with a negative code;
      a complete run ends with `stop`. */
  ghost predicate Ran(before: map<string, string>, after: map<string, string>, puts: seq<Put>, done: nat, ret: int, stop: int)
  {
    && done <= |puts| && after == Overlay(before, puts[..done])
    && (done < |puts| ==> ret < 0)
    && (done == |puts| ==> ret == stop)
  }

  /** A complete run followed by another is a run of both. */
  lemma RanThen(m: map<string, string>, m1: map<string, string>, a: seq<Put>, after: map<string, string>,
                b: seq<Put>, d: nat, ret: int, stop: int) returns (done: nat)
    requires m1 == Overlay(m, a)
    requires Ran(m1, after, b, d, ret, stop)
    ensures done == |a| + d && Ran(m, after, a + b, done, ret, stop)
  {
    done := |a| + d;
    assert (a + b)[..|a| + d] == a + b[..d];
    OverlayAppend(m, a, b[..d]);
  }

  /** A run cut short stays cut short whatever was to follow. */
  lemma RanStopped(m: map<string, string>, after: map<string, string>, a: seq<Put>, b: seq<Put>, d: nat, ret: int, stop: int)
    requires Ran(m, after, a, d, ret, 0) && d < |a|
    ensures Ran(m, after, a + b, d, ret, stop)
  {
    assert (a + b)[..d] == a[..d];
  }

  /** `legacy_set_gadget_attrs`: the six writes in order, stopping at the
      first failure. */
  method SetGadgetAttrs(kf: KeyFiles, a: Attrs) returns (ret: int, ghost done: nat)
    modifies kf`files
    ensures done <= 6 && kf.files == Overlay(old(kf.files), AttrPuts(a)[..done])
    ensures done < 6 ==> ret < 0
    ensures done == 6 ==> ret == 0
  {
    ghost var m := kf.files;
    ghost var ps := AttrPuts(a);
    assert ps[..0] == [];
    done := 0;
    ret := kf.Set(ClassPath, DecimalText(a.bDeviceClass as nat));
    if ret != 0 { return; }
    done := OverlayStep(m, ps, 0);
    ret := kf.Set(SubClassPath, DecimalText(a.bDeviceSubClass as nat));
    if ret != 0 { return; }
    done := OverlayStep(m, ps, 1);
    ret := kf.Set(ProtocolPath, DecimalText(a.bDeviceProtocol as nat));
    if ret != 0 { return; }
    done := OverlayStep(m, ps, 2);
    ret := SetIntHex(kf, VendorPath, a.idVendor as nat);
    if ret != 0 { return; }
    done := OverlayStep(m, ps, 3);
    ret := SetIntHex(kf, ProductPath, a.idProduct as nat);
    if ret != 0 { return; }
    done := OverlayStep(m, ps, 4);
    ret := SetIntHex(kf, BcdPath, a.bcdDevice as nat);
    if ret != 0 { return; }
    done := OverlayStep(m, ps, 5);
    assert ps[..6] == ps;
  }

  /** `legacy_set_int_hex`. */
  method SetIntHex(kf: KeyFiles, path: string, val: nat) returns (ret: int)
    modifies kf`files
    ensures ret <= 0
    ensures kf.files == (if ret == 0 then old(kf.files)[path := HexText(val)] else old(kf.files))
  {
    var r := kf.Set(path, HexText(val));
    if r < 0 {
      return r;
    }
    return 0;
  }

  /** `legacy_set_gadget_strs`. */
  method SetGadgetStrs(kf: KeyFiles, s: Strings) returns (ret: int, ghost done: nat)
    modifies kf`files
    ensures done <= |StrPuts(s)| && kf.files == Overlay(old(kf.files), StrPuts(s)[..done])
    ensures done < |StrPuts(s)| ==> ret < 0
    ensures done == |StrPuts(s)| ==> ret == 0
  {
    ghost var m := kf.files;
    ghost var ps := StrPuts(s);
    assert ps[..0] == [];
    ret := 0;
    done := 0;
    if s.manufacturer.Some? {
      ret := kf.Set(ManufacturerPath, s.manufacturer.value);
      if ret != 0 { return; }
      done := OverlayStep(m, ps, 0);
    }
    if s.product.Some? {
      ret := kf.Set(ProductStrPath, s.product.value);
      if ret != 0 { return; }
      done := OverlayStep(m, ps, done);
    }
    assert ps[..done] == ps;
  }

  /** `legacy_set_gadget_config`: the slot's text, or -EOVERFLOW before
      anything is written. */
  method SetGadgetConfig(kf: KeyFiles, path: string, funcs: seq<Function>, c: Option<Config>) returns (ret: int)
    requires c.Some? ==> RefsBelowList(RefList(c.value), |funcs|) && |RefList(c.value)| >= 1
    modifies kf`files
    ensures SlotText(funcs, c).Err? ==> ret == SlotText(funcs, c).code && kf.files == old(kf.files)
    ensures SlotText(funcs, c).Ok? ==>
      ret <= 0 && kf.files == (if ret == 0 then old(kf.files)[path := SlotText(funcs, c).value] else old(kf.files))
  {
    var text: string;
    if c.None? {
      text := "\n";
    } else {
      var t := FormatConfig(ConfigNames(funcs, c.value));
      if t.Err? {
        return t.code;
      }
      text := t.value;
    }
    ret := kf.Set(path, text);
  }

  /** The attribute writes, then the strings of the first set when the
      gadget has strings. */
  method SetHead(kf: KeyFiles, g: Gadget) returns (ret: int, ghost done: nat)
    requires g.strs.Some? ==> |g.strs.value| >= 1
    modifies kf`files
    ensures Ran(old(kf.files), kf.files, HeadPuts(g), done, ret, 0)
  {
    ghost var m := kf.files;
    ghost var a := AttrPuts(g.attrs);
    ghost var s := if g.strs.Some? then StrPuts(g.strs.value[0]) else [];
    ret, done := SetGadgetAttrs(kf, g.attrs);
    if ret != 0 {
      RanStopped(m, kf.files, a, s, done, ret, 0);
      return;
    }
    assert a[..done] == a;
    if g.strs.Some? {
      ghost var m1 := kf.files;
      ghost var d;
      ret, d := SetGadgetStrs(kf, g.strs.value[0]);
      done := RanThen(m, m1, a, kf.files, s, d, ret, 0);
    } else {
      assert HeadPuts(g) == a;
    }
  }

  /** The two slot writes. */
  method SetSlots(kf: KeyFiles, funcs: seq<Function>, c1: Config, c2: Option<Config>) returns (ret: int, ghost done: nat)
    requires RefsBelowList(RefList(c1), |funcs|) && |RefList(c1)| >= 1
    requires c2.Some? ==> RefsBelowList(RefList(c2.value), |funcs|) && |RefList(c2.value)| >= 1
    modifies kf`files
    ensures Ran(old(kf.files), kf.files, SlotPlan(funcs, c1, c2).0, done, ret, SlotPlan(funcs, c1, c2).1)
  {
    ghost var m := kf.files;
    ghost var ps := SlotPlan(funcs, c1, c2).0;
    assert ps[..0] == [];
    done := 0;
    ret := SetGadgetConfig(kf, Config1Path, funcs, Some(c1));
    if ret != 0 {
      return;
    }
    done := OverlayStep(m, ps, 0);
    ret := SetGadgetConfig(kf, Config2Path, funcs, c2);
    if ret != 0 {
      return;
    }
    done := OverlayStep(m, ps, 1);
    assert ps[..2] == ps;
  }

  /** `legacy_reconfigure_gadget`: an unsupported gadget is refused with
      -EINVAL before anything is written; otherwise the planned writes in
      order until one fails. What was written stays. The controller is not
      enabled. */
  method ReconfigureGadget(kf: KeyFiles, reg: seq<Function>, g: Option<Gadget>) returns (ret: int, ghost done: nat)
    requires g.Some? ==> RefsInRange(g.value)
    requires LegacySupported(reg, g) ==> NonEmptyConfigs(g.value)
    modifies kf`files
    ensures !LegacySupported(reg, g) ==> ret == -EINVAL && kf.files == old(kf.files)
    ensures LegacySupported(reg, g) ==> Ran(old(kf.files), kf.files, Plan(reg, g.value).0, done, ret, Plan(reg, g.value).1)
  {
    var supported := IsGadgetSupported(reg, g);
    if !supported {
      return -EINVAL, 0;
    }
    var gd := g.value;
    PlanParts(reg, gd);
    ret, done := WriteGadget(kf, gd);
  }

  /** The writes of `legacy_reconfigure_gadget` past the support check: the
      head writes, then the slot writes, until one fails. */
  method WriteGadget(kf: KeyFiles, g: Gadget) returns (ret: int, ghost done: nat)
    requires g.funcs.Some? && g.configs.Some? && 1 <= |g.configs.value| <= 2
    requires g.strs.Some? ==> |g.strs.value| >= 1
    requires RefsBelowList(RefList(ConfigList(g)[0]), |FuncList(g)|) && |RefList(ConfigList(g)[0])| >= 1
    requires SecondConfig(g).Some? ==>
      RefsBelowList(RefList(SecondConfig(g).value), |FuncList(g)|) && |RefList(SecondConfig(g).value)| >= 1
    modifies kf`files
    ensures Ran(old(kf.files), kf.files, HeadPuts(g) + SlotPlan(FuncList(g), ConfigList(g)[0], SecondConfig(g)).0, done, ret,
                SlotPlan(FuncList(g), ConfigList(g)[0], SecondConfig(g)).1)
  {
    var funcs := g.funcs.value;
    var configs := g.configs.value;
    var second: Option<Config> := None;
    if |configs| == 2 {
      second := Some(configs[1]);
    }
    assert second == SecondConfig(g) && configs[0] == ConfigList(g)[0] && funcs == FuncList(g);
    ghost var m := kf.files;
    ghost var slots := SlotPlan(funcs, configs[0], second);
    assert slots == SlotPlan(FuncList(g), ConfigList(g)[0], SecondConfig(g));
    ret, done := SetHead(kf, g);
    if ret != 0 {
      RanStopped(m, kf.files, HeadPuts(g), slots.0, done, ret, slots.1);
      return;
    }
    assert HeadPuts(g)[..done] == HeadPuts(g);
    ghost var m1 := kf.files;
    ghost var d;
    ret, d := SetSlots(kf, funcs, configs[0], second);
    done := RanThen(m, m1, HeadPuts(g), kf.files, slots.0, d, ret, slots.1);
  }

  /** What a supported gadget's plan is made of: the head writes, then the
      slot writes of its first and (if any) second configuration. */
  lemma PlanParts(reg: seq<Function>, g: Gadget)
    requires RefsInRange(g) && LegacySupported(reg, Some(g)) && NonEmptyConfigs(g)
    ensures g.strs.Some? ==> |g.strs.value| >= 1
    ensures RefsBelowList(RefList(ConfigList(g)[0]), |FuncList(g)|) && |RefList(ConfigList(g)[0])| >= 1
    ensures SecondConfig(g).Some? ==>
      RefsBelowList(RefList(SecondConfig(g).value), |FuncList(g)|) && |RefList(SecondConfig(g).value)| >= 1
    ensures Plan(reg, g).0 == HeadPuts(g) + SlotPlan(FuncList(g), ConfigList(g)[0], SecondConfig(g)).0
    ensures Plan(reg, g).1 == SlotPlan(FuncList(g), ConfigList(g)[0], SecondConfig(g)).1
  {
    if g.strs.Some? {
      assert LangAt(g.strs.value, 0) == LangUsEng;
    }
  }

  /** `legacy_enable`: "1" to the enable key. */
  method Enable(kf: KeyFiles) returns (ret: int)
    modifies kf`files
    ensures ret <= 0
    ensures kf.files == (if ret == 0 then old(kf.files)[EnablePath := EnableText] else old(kf.files))
  {
    ret := kf.Set(EnablePath, EnableText);
  }

  /** `legacy_disable`: "0" to the enable key. */
  method Disable(kf: KeyFiles) returns (ret: int)
    modifies kf`files
    ensures ret <= 0
    ensures kf.files == (if ret == 0 then old(kf.files)[EnablePath := DisableText] else old(kf.files))
  {
    ret := kf.Set(EnablePath, DisableText);
  }

  // ---------------------------------------------------------------------------
  // Reading the current gadget

  /** `get_int_from_file`: the key's text parsed as a C `long` in base 0. */
  function ReadInt(files: map<string, string>, path: string): Result<int>
  {
    match FileText(files, path)
    case Err(e) => Err(e)
    case Ok(t) => ParseInt(t)
  }

  /** The C conversions `(uint8_t)` and `(uint16_t)` of an `int`. */
  function U8Of(v: int): u8 { (v % 0x100) as u8 }
  function U16Of(v: int): u16 { (v % 0x1_0000) as u16 }

  /** `legacy_read_gadget_attrs_strs`, attribute half, as written: the
      idProduct value is stored into idVendor, so idVendor holds the product
      id and idProduct stays 0. Every read can still fail. */
  function ReadAttrs(files: map<string, string>): Result<Attrs>
  {
    match ReadInt(files, ClassPath)
    case Err(e) => Err(e)
    case Ok(cls) =>
      match ReadInt(files, SubClassPath)
      case Err(e) => Err(e)
      case Ok(sub) =>
        match ReadInt(files, ProtocolPath)
        case Err(e) => Err(e)
        case Ok(proto) =>
          match ReadInt(files, VendorPath)
          case Err(e) => Err(e)
          case Ok(_) =>
            match ReadInt(files, ProductPath)
            case Err(e) => Err(e)
            case Ok(product) =>
              match ReadInt(files, BcdPath)
              case Err(e) => Err(e)
              case Ok(bcd) => Ok(Attrs(U8Of(cls), U8Of(sub), U8Of(proto), U16Of(product), 0, U16Of(bcd)))
  }

  /** The string half: manufacturer, product and serial, in US English. */
  function ReadStrings(files: map<string, string>): Result<Strings>
  {
    match FileText(files, ManufacturerPath)
    case Err(e) => Err(e)
    case Ok(m) =>
      match FileText(files, ProductStrPath)
      case Err(e) => Err(e)
      case Ok(p) =>
        match FileText(files, SerialPath)
        case Err(e) => Err(e)
        case Ok(s) => Ok(Strings(LangUsEng, Some(m), Some(p), Some(s)))
  }

  /** A name the gadget lacks but the registry knows: `legacy_alloc_new_func`
      succeeds and the inverted test abandons the configuration. */
  predicate Abandons(gfuncs: seq<Function>, reg: seq<Function>, name: string)
  {
    FirstNamed(gfuncs, name).None? && FirstNamed(reg, name).Some?
  }

  /** A NULL-terminated reference array as the list it denotes: the
      entries before the first NULL (`None`). */
  function UpToNull(entries: seq<Option<nat>>): (r: seq<nat>)
    ensures |r| <= |entries|
    ensures forall i :: 0 <= i < |r| ==> entries[i] == Some(r[i])
    ensures |r| < |entries| ==> entries[|r|].None?
  {
    if entries == [] || entries[0].None? then [] else [entries[0].value] + UpToNull(entries[1..])
  }

  /** Entries after a NULL do not change the list. */
  lemma {:induction false} UpToNullPrefix(entries: seq<Option<nat>>, n: nat)
    requires n < |entries| && entries[n].None?
    ensures UpToNull(entries) == UpToNull(entries[..n])
    decreases n
  {
    if n > 0 && entries[0].Some? {
      assert entries[..n][1..] == entries[1..][..n - 1];
      UpToNullPrefix(entries[1..], n - 1);
    }
  }

  /** The references of a slot's names, or None when the configuration is
      abandoned. Each name stores the gadget's function, or NULL when the
      gadget lacks it; the list ends at the first NULL. */
  function ResolveNames(gfuncs: seq<Function>, reg: seq<Function>, names: seq<string>): Option<seq<nat>>
  {
    if exists k :: 0 <= k < |names| && Abandons(gfuncs, reg, names[k]) then None
    else Some(UpToNull(seq(|names|, k requires 0 <= k < |names| => FirstNamed(gfuncs, names[k]))))
  }

  /** `legacy_alloc_config` with its references: default attributes (they
      cannot be read) and one zeroed string entry. */
  function LegacyConfig(refs: seq<nat>): Config
  {
    Config(ConfigAttrs(LegacyBmAttributes, LegacyMaxPower), Some([ConfigString(0, "")]), Some(refs))
  }

  /** `legacy_read_config`: a read error is returned; an empty slot, or one
      whose configuration is abandoned, is no configuration. */
  function ReadSlot(files: map<string, string>, gfuncs: seq<Function>, reg: seq<Function>, path: string): Result<Option<Config>>
  {
    match FileText(files, path)
    case Err(e) => Err(e)
    case Ok(text) =>
      match SlotNames(text)
      case None => Ok(None)
      case Some(names) =>
        match ResolveNames(gfuncs, reg, names)
        case None => Ok(None)
        case Some(refs) => Ok(Some(LegacyConfig(refs)))
  }

  /** The configuration table `[c1, c2, NULL]` as a list: it ends at the
      first NULL entry. */
  function VisibleConfigs(c1: Option<Config>, c2: Option<Config>): seq<Config>
  {
    if c1.None? then [] else if c2.None? then [c1.value] else [c1.value, c2.value]
  }

  /** `legacy_get_current_gadget`: the gadget's function table is allocated
      but never filled, so both slots are resolved against no functions. */
  function ReadGadget(files: map<string, string>, reg: seq<Function>): Result<Gadget>
  {
    match ReadAttrs(files)
    case Err(e) => Err(e)
    case Ok(attrs) =>
      match ReadStrings(files)
      case Err(e) => Err(e)
      case Ok(strs) =>
        match ReadSlot(files, [], reg, Config1Path)
        case Err(e) => Err(e)
        case Ok(c1) =>
          match ReadSlot(files, [], reg, Config2Path)
          case Err(e) => Err(e)
          case Ok(c2) =>
            Ok(Gadget(attrs, Some([strs, Strings(0, None, None, None)]), Some([]), Some(VisibleConfigs(c1, c2))))
  }

  /** `get_int_from_file`. */
  method GetIntFromFile(kf: KeyFiles, path: string) returns (r: Result<int>)
    ensures r == ReadInt(kf.files, path)
  {
    var text := kf.Get(path);
    if text.Err? {
      return Err(text.code);
    }
    r := ParseInt(text.value);
  }

  /** `legacy_read_gadget_attrs_strs`. */
  method ReadGadgetAttrsStrs(kf: KeyFiles) returns (r: Result<(Attrs, Strings)>)
    ensures r.Err? <==> ReadAttrs(kf.files).Err? || ReadStrings(kf.files).Err?
    ensures r.Err? ==> r.code == (if ReadAttrs(kf.files).Err? then ReadAttrs(kf.files).code else ReadStrings(kf.files).code)
    ensures r.Ok? ==> r.value == (ReadAttrs(kf.files).value, ReadStrings(kf.files).value)
  {
    var cls := GetIntFromFile(kf, ClassPath);
    if cls.Err? { return Err(cls.code); }
    var sub := GetIntFromFile(kf, SubClassPath);
    if sub.Err? { return Err(sub.code); }
    var proto := GetIntFromFile(kf, ProtocolPath);
    if proto.Err? { return Err(proto.code); }
    var vendor := GetIntFromFile(kf, VendorPath);
    if vendor.Err? { return Err(vendor.code); }
    var attrs := Attrs(U8Of(cls.value), U8Of(sub.value), U8Of(proto.value), U16Of(vendor.value), 0, 0);
    var product := GetIntFromFile(kf, ProductPath);
    if product.Err? { return Err(product.code); }
    attrs := attrs.(idVendor := U16Of(product.value));
    var bcd := GetIntFromFile(kf, BcdPath);
    if bcd.Err? { return Err(bcd.code); }
    attrs := attrs.(bcdDevice := U16Of(bcd.value));

    var m := kf.Get(ManufacturerPath);
    if m.Err? { return Err(m.code); }
    var p := kf.Get(ProductStrPath);
    if p.Err? { return Err(p.code); }
    var s := kf.Get(SerialPath);
    if s.Err? { return Err(s.code); }
    r := Ok((attrs, Strings(LangUsEng, Some(m.value), Some(p.value), Some(s.value))));
  }

  /** The counting loop of `legacy_read_config`: one more function than
      separators. */
  method CountFuncs(text: string) returns (fCnt: nat)
    ensures fCnt == CountChar(text, FuncSep) + 1
  {
    fCnt := 1;
    var i := 0;
    while i < |text|
      invariant 0 <= i <= |text|
      invariant fCnt == CountChar(text[..i], FuncSep) + 1
    {
      CountCharAppend(text[..i], [text[i]], FuncSep);
      assert text[..i] + [text[i]] == text[..i + 1];
      if text[i] == FuncSep {
        fCnt := fCnt + 1;
      }
      i := i + 1;
    }
    assert text[..i] == text;
  }

  /** `legacy_alloc_new_func`, clones assumed to succeed. */
  method AllocNewFunc(reg: seq<Function>, name: string) returns (r: Result<Function>)
    ensures r.Err? <==> FirstNamed(reg, name).None?
    ensures r.Err? ==> r.code == -ENOTSUP
    ensures r.Ok? ==> r.value == reg[FirstNamed(reg, name).value]
  {
    var i := FindFunc(reg, name);
    if i < 0 {
      return Err(-ENOTSUP);
    }
    return Ok(reg[i]);
  }

  /** `legacy_read_config`. */
  method ReadConfig(kf: KeyFiles, gfuncs: seq<Function>, reg: seq<Function>, path: string) returns (r: Result<Option<Config>>)
    ensures r == ReadSlot(kf.files, gfuncs, reg, path)
  {
    var text := kf.Get(path);
    if text.Err? {
      return Err(text.code);
    }
    var buf := text.value;
    if buf == [] || buf[0] == '\n' {
      return Ok(None);
    }
    var fCnt := CountFuncs(buf);
    var names := Split(buf, FuncSep);
    SplitCount(buf, FuncSep);
    var refs := LookUpNames(gfuncs, reg, names, fCnt + 1);
    if refs.None? {
      return Ok(None);
    }
    r := Ok(Some(LegacyConfig(refs.value)));
  }

  /** The lookup loop of `legacy_read_config`: each name's entry is stored
      in a zeroed array of `size` entries; a name only the registry knows
      abandons the configuration, one neither knows stores NULL. */
  method LookUpNames(gfuncs: seq<Function>, reg: seq<Function>, names: seq<string>, size: nat) returns (r: Option<seq<nat>>)
    requires |names| < size
    ensures r == ResolveNames(gfuncs, reg, names)
  {
    var funcs := new Option<nat>[size](_ => None);
    var fIdx := 0;
    while fIdx < |names|
      invariant 0 <= fIdx <= |names|
      invariant forall k :: 0 <= k < fIdx ==> !Abandons(gfuncs, reg, names[k]) && funcs[k] == FirstNamed(gfuncs, names[k])
      invariant forall k :: fIdx <= k < size ==> funcs[k].None?
    {
      var name := names[fIdx];
      var func := FindFuncInGadget(gfuncs, name);
      if func.None? {
        var newFunc := AllocNewFunc(reg, name);
        if newFunc.Ok? {
          assert Abandons(gfuncs, reg, names[fIdx]);
          return None;
        }
      }
      funcs[fIdx] := func;
      fIdx := fIdx + 1;
    }
    assert !exists k :: 0 <= k < |names| && Abandons(gfuncs, reg, names[k]);
    assert funcs[..][..fIdx] == seq(|names|, k requires 0 <= k < |names| => FirstNamed(gfuncs, names[k]));
    UpToNullPrefix(funcs[..], fIdx);
    r := Some(UpToNull(funcs[..]));
  }

  /** `legacy_get_current_gadget`. */
  method GetCurrentGadget(kf: KeyFiles, reg: seq<Function>) returns (r: Result<Gadget>)
    ensures r == ReadGadget(kf.files, reg)
  {
    var read := ReadGadgetAttrsStrs(kf);
    if read.Err? {
      return Err(read.code);
    }
    var funcs: seq<Function> := [];
    var c1 := ReadConfig(kf, funcs, reg, Config1Path);
    if c1.Err? {
      return Err(c1.code);
    }
    var c2 := ReadConfig(kf, funcs, reg, Config2Path);
    if c2.Err? {
      return Err(c2.code);
    }
    var strs := [read.value.1, Strings(0, None, None, None)];
    r := Ok(Gadget(read.value.0, Some(strs), Some(funcs), Some(VisibleConfigs(c1.value, c2.value))));
  }
}
