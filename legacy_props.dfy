/** What the legacy client's write and read paths do to each other: what a
    successful reconfiguration leaves in the key files, and what reading
    those files back yields with the read path as written. */
module LegacyProps {
  import opened Base
  import opened Descriptor
  import opened LegacyParse
  import opened LegacyClient
  import Translator

  /** Every function name can be written to a slot and split out again. */
  predicate NamesFit(g: Gadget)
  {
    forall i :: 0 <= i < |FuncList(g)| ==>
      FuncList(g)[i].name != [] && FuncList(g)[i].name[0] != '\n' && FuncSep !in FuncList(g)[i].name
  }

  /** `files` is what a reconfiguration of `g` whose every write succeeded
      leaves behind, starting from `m`. */
  predicate Applied(reg: seq<Function>, g: Gadget, m: map<string, string>, files: map<string, string>)
  {
    && RefsInRange(g) && LegacySupported(reg, Some(g)) && NonEmptyConfigs(g)
    && Plan(reg, g).1 == 0 && files == Overlay(m, Plan(reg, g).0)
  }

  /** The last write of a key decides its text. */
  lemma LastWriteWins(m: map<string, string>, a: seq<Put>, p: Put, b: seq<Put>)
    requires forall q :: q in b ==> q.key != p.key
    ensures p.key in Overlay(m, a + [p] + b) && Overlay(m, a + [p] + b)[p.key] == p.text
  {
    OverlayAppend(m, a + [p], b);
    assert (a + [p])[..|a + [p]| - 1] == a;
    forall i | 0 <= i < |b|
      ensures b[i].key != p.key
    {
      assert b[i] in b;
    }
    OverlayLookup(Overlay(m, a + [p]), b, p.key);
  }

  /** Keys no write names keep their text. */
  lemma Untouched(m: map<string, string>, puts: seq<Put>, key: string)
    requires forall q :: q in puts ==> q.key != key
    ensures (key in Overlay(m, puts) <==> key in m) && (key in m ==> Overlay(m, puts)[key] == m[key])
  {
    forall i | 0 <= i < |puts|
      ensures puts[i].key != key
    {
      assert puts[i] in puts;
    }
    OverlayLookup(m, puts, key);
  }

  lemma StrPutsKeys(s: Strings)
    ensures forall q :: q in StrPuts(s) ==> q.key == ManufacturerPath || q.key == ProductStrPath
  {
  }

  /** The writes of a complete reconfiguration, laid out. */
  lemma PlanShape(reg: seq<Function>, g: Gadget)
    requires LegacySupported(reg, Some(g)) && NonEmptyConfigs(g) && Plan(reg, g).1 == 0
    ensures var funcs := FuncList(g);
      var s := if g.strs.Some? then StrPuts(g.strs.value[0]) else [];
      && SlotText(funcs, Some(ConfigList(g)[0])).Ok? && SlotText(funcs, SecondConfig(g)).Ok?
      && Plan(reg, g).0 == AttrPuts(g.attrs) + s
           + [Put(Config1Path, SlotText(funcs, Some(ConfigList(g)[0])).value),
              Put(Config2Path, SlotText(funcs, SecondConfig(g)).value)]
  {
  }

  /** A gadget with one configuration clears the second slot: its last
      write is a newline to funcs_sconf. */
  lemma OneConfigClearsSlot2(reg: seq<Function>, g: Gadget)
    requires LegacySupported(reg, Some(g)) && NonEmptyConfigs(g) && Plan(reg, g).1 == 0
    requires |ConfigList(g)| == 1
    ensures |Plan(reg, g).0| >= 1 && Plan(reg, g).0[|Plan(reg, g).0| - 1] == Put(Config2Path, "\n")
  {
    PlanShape(reg, g);
  }

  /** The keys written after the device attributes. */
  function TailKeys(): set<string>
  {
    {ManufacturerPath, ProductStrPath, Config1Path, Config2Path}
  }

  /** A complete reconfiguration opens with the six attribute writes; every
      later write goes to a string or slot key. */
  lemma PlanTail(reg: seq<Function>, g: Gadget)
    requires LegacySupported(reg, Some(g)) && NonEmptyConfigs(g) && Plan(reg, g).1 == 0
    ensures |Plan(reg, g).0| >= 8 && Plan(reg, g).0[..6] == AttrPuts(g.attrs)
    ensures forall j :: 6 <= j < |Plan(reg, g).0| ==> Plan(reg, g).0[j].key in TailKeys()
  {
    PlanShape(reg, g);
    var puts := Plan(reg, g).0;
    var s := if g.strs.Some? then StrPuts(g.strs.value[0]) else [];
    if g.strs.Some? {
      StrPutsKeys(g.strs.value[0]);
    }
    forall j | 6 <= j < |puts|
      ensures puts[j].key in TailKeys()
    {
      if j < 6 + |s| {
        assert puts[j] == s[j - 6];
        assert s[j - 6] in s;
      }
    }
  }

  /** A successful reconfiguration never writes the serial string or the
      enable key: they keep their text. */
  lemma AppliedKeepsSerialAndEnable(reg: seq<Function>, g: Gadget, m: map<string, string>, files: map<string, string>)
    requires Applied(reg, g, m, files)
    ensures SerialPath in files <==> SerialPath in m
    ensures SerialPath in m ==> files[SerialPath] == m[SerialPath]
    ensures EnablePath in files <==> EnablePath in m
    ensures EnablePath in m ==> files[EnablePath] == m[EnablePath]
  {
    PlanTail(reg, g);
    KeysDistinct();
    var puts := Plan(reg, g).0;
    var n := |RootPath|;
    assert |SerialPath| == n + 8 && |EnablePath| == n + 7;
    forall q | q in puts
      ensures q.key != SerialPath && q.key != EnablePath
    {
      var j :| 0 <= j < |puts| && puts[j] == q;
      if j < 6 {
        assert q == AttrPuts(g.attrs)[j];
      }
    }
    Untouched(m, puts, SerialPath);
    Untouched(m, puts, EnablePath);
  }

  /** A key no later write names keeps the text of its write. */
  lemma OverlayAt(m: map<string, string>, puts: seq<Put>, i: nat)
    requires i < |puts|
    requires forall j :: i < j < |puts| ==> puts[j].key != puts[i].key
    ensures puts[i].key in Overlay(m, puts) && Overlay(m, puts)[puts[i].key] == puts[i].text
  {
    var b := puts[i + 1..];
    assert puts == puts[..i] + [puts[i]] + b;
    forall q | q in b
      ensures q.key != puts[i].key
    {
      var j :| 0 <= j < |b| && b[j] == q;
      assert q == puts[i + 1 + j];
    }
    LastWriteWins(m, puts[..i], puts[i], b);
  }

  /** Where the attribute keys sit in a complete reconfiguration: the four
      first writes, each written once. */
  lemma PlanAttrKeys(reg: seq<Function>, g: Gadget)
    requires LegacySupported(reg, Some(g)) && NonEmptyConfigs(g) && Plan(reg, g).1 == 0
    ensures var puts := Plan(reg, g).0;
      && |puts| >= 8
      && puts[0] == Put(ClassPath, DecimalText(g.attrs.bDeviceClass as nat))
      && puts[1] == Put(SubClassPath, DecimalText(g.attrs.bDeviceSubClass as nat))
      && puts[2] == Put(ProtocolPath, DecimalText(g.attrs.bDeviceProtocol as nat))
      && puts[3] == Put(VendorPath, HexText(g.attrs.idVendor as nat))
      && (forall j :: 1 <= j < |puts| ==> puts[j].key != ClassPath)
      && (forall j :: 2 <= j < |puts| ==> puts[j].key != SubClassPath)
      && (forall j :: 3 <= j < |puts| ==> puts[j].key != ProtocolPath)
      && (forall j :: 4 <= j < |puts| ==> puts[j].key != VendorPath)
  {
    PlanTail(reg, g);
    KeysDistinct();
    var puts := Plan(reg, g).0;
    var a := AttrPuts(g.attrs);
    assert puts[..6] == a;
    assert puts[0] == a[0] && puts[1] == a[1] && puts[2] == a[2] && puts[3] == a[3] && puts[4] == a[4] && puts[5] == a[5];
    forall j | 1 <= j < |puts|
      ensures puts[j].key != ClassPath
      ensures j >= 2 ==> puts[j].key != SubClassPath
      ensures j >= 3 ==> puts[j].key != ProtocolPath
      ensures j >= 4 ==> puts[j].key != VendorPath
    {
      if j == 1 {
        assert puts[j].key == SubClassPath;
      } else if j == 2 {
        assert puts[j].key == ProtocolPath;
      } else if j == 3 {
        assert puts[j].key == VendorPath;
      } else if j == 4 {
        assert puts[j].key == ProductPath;
      } else if j == 5 {
        assert puts[j].key == BcdPath;
      }
    }
  }

  /** The attribute keys are pairwise distinct, none of the four first is a
      string or slot key, nor are the serial and enable keys, and the two
      slots differ. */
  lemma KeysDistinct()
    ensures ClassPath != SubClassPath && ClassPath != ProtocolPath && ClassPath != VendorPath
    ensures ClassPath != ProductPath && ClassPath != BcdPath
    ensures SubClassPath != ProtocolPath && SubClassPath != VendorPath && SubClassPath != ProductPath && SubClassPath != BcdPath
    ensures ProtocolPath != VendorPath && ProtocolPath != ProductPath && ProtocolPath != BcdPath
    ensures VendorPath != ProductPath && VendorPath != BcdPath
    ensures ClassPath !in TailKeys() && SubClassPath !in TailKeys() && ProtocolPath !in TailKeys() && VendorPath !in TailKeys()
    ensures SerialPath !in TailKeys() && EnablePath !in TailKeys()
    ensures Config1Path != Config2Path
  {
    var n := |RootPath|;
    assert |ClassPath| == n + 13 && |SubClassPath| == n + 16 && |ProtocolPath| == n + 16;
    assert |VendorPath| == n + 9 && |ProductPath| == n + 10 && |BcdPath| == n + 10;
    assert |ManufacturerPath| == n + 14 && |ProductStrPath| == n + 9 && |SerialPath| == n + 8;
    assert |Config1Path| == n + 12 && |Config2Path| == n + 12 && |EnablePath| == n + 7;
    assert SubClassPath[n + 8] != ProtocolPath[n + 8];
    assert ProductPath[n + 1] != BcdPath[n + 1];
    assert VendorPath[n + 2] != ProductStrPath[n + 2];
    assert Config1Path[n + 7] != Config2Path[n + 7];
  }

  /** The class, subclass and protocol written in decimal read back as
      written. */
  lemma AppliedClassReadsBack(reg: seq<Function>, g: Gadget, m: map<string, string>, files: map<string, string>)
    requires Applied(reg, g, m, files)
    ensures ReadInt(files, ClassPath) == Ok(g.attrs.bDeviceClass as int)
    ensures ReadInt(files, SubClassPath) == Ok(g.attrs.bDeviceSubClass as int)
    ensures ReadInt(files, ProtocolPath) == Ok(g.attrs.bDeviceProtocol as int)
  {
    PlanAttrKeys(reg, g);
    var puts := Plan(reg, g).0;
    var a := g.attrs;
    OverlayAt(m, puts, 0);
    OverlayAt(m, puts, 1);
    OverlayAt(m, puts, 2);
    DecimalRoundTrip(a.bDeviceClass as nat, []);
    DecimalRoundTrip(a.bDeviceSubClass as nat, []);
    DecimalRoundTrip(a.bDeviceProtocol as nat, []);
    assert DecimalText(a.bDeviceClass as nat) + [] == DecimalText(a.bDeviceClass as nat);
    assert DecimalText(a.bDeviceSubClass as nat) + [] == DecimalText(a.bDeviceSubClass as nat);
    assert DecimalText(a.bDeviceProtocol as nat) + [] == DecimalText(a.bDeviceProtocol as nat);
  }

  /** The vendor id is written in hexadecimal without a prefix, which the
      read path parses in base 0: Samsung's 0x04e8 comes back as "4e8",
      rejected with -EINVAL. */
  lemma AppliedVendorUnreadable(reg: seq<Function>, g: Gadget, m: map<string, string>, files: map<string, string>)
    requires Applied(reg, g, m, files) && g.attrs.idVendor == 0x04e8
    ensures ReadInt(files, VendorPath) == Err(-EINVAL)
    ensures ReadAttrs(files) == Err(-EINVAL)
    ensures ReadGadget(files, reg) == Err(-EINVAL)
  {
    PlanAttrKeys(reg, g);
    AppliedClassReadsBack(reg, g, m, files);
    OverlayAt(m, Plan(reg, g).0, 3);
    UnprefixedHexRejected();
  }

  /** A slot holding a supported configuration is abandoned when read: its
      first name is a registry function, and the read path, with no
      function in the gadget, treats the successful lookup as a failure. */
  lemma SupportedSlotAbandoned(reg: seq<Function>, g: Gadget, c: Config)
    requires RefsInRange(g) && NamesFit(g)
    requires ConfigSupported(reg, FuncList(g), c) && |RefList(c)| >= 1
    requires ConfigText(ConfigNames(FuncList(g), c)).Ok?
    ensures SlotNames(ConfigText(ConfigNames(FuncList(g), c)).value).Some?
    ensures ResolveNames([], reg, SlotNames(ConfigText(ConfigNames(FuncList(g), c)).value).value) == None
  {
    var names := ConfigNames(FuncList(g), c);
    SlotRoundTrip(names);
    assert Abandons([], reg, names[0]);
  }

  /** After a successful reconfiguration both slots read as no
      configuration: the gadget just written reads back with none. */
  lemma AppliedSlotsReadEmpty(reg: seq<Function>, g: Gadget, m: map<string, string>, files: map<string, string>)
    requires Applied(reg, g, m, files) && NamesFit(g)
    ensures ReadSlot(files, [], reg, Config1Path) == Ok(None)
    ensures ReadSlot(files, [], reg, Config2Path) == Ok(None)
    ensures ReadGadget(files, reg).Ok? ==> ConfigList(ReadGadget(files, reg).value) == []
  {
    PlanSlots(reg, g);
    KeysDistinct();
    var puts := Plan(reg, g).0;
    var n := |puts|;
    OverlayAt(m, puts, n - 1);
    OverlayAt(m, puts, n - 2);
    SupportedSlotAbandoned(reg, g, ConfigList(g)[0]);
    if |ConfigList(g)| == 2 {
      SupportedSlotAbandoned(reg, g, ConfigList(g)[1]);
    }
  }

  /** The two last writes of a complete reconfiguration fill the slots. */
  lemma PlanSlots(reg: seq<Function>, g: Gadget)
    requires LegacySupported(reg, Some(g)) && NonEmptyConfigs(g) && Plan(reg, g).1 == 0
    ensures var puts := Plan(reg, g).0;
      && SlotText(FuncList(g), Some(ConfigList(g)[0])).Ok? && SlotText(FuncList(g), SecondConfig(g)).Ok?
      && |puts| >= 2
      && puts[|puts| - 2] == Put(Config1Path, SlotText(FuncList(g), Some(ConfigList(g)[0])).value)
      && puts[|puts| - 1] == Put(Config2Path, SlotText(FuncList(g), SecondConfig(g)).value)
  {
    PlanShape(reg, g);
  }

  /** With no function in the gadget, a slot keeps its configuration
      exactly when none of its names is a registry function, and the
      configuration it keeps lists no function: the first name stores NULL,
      which ends the list. */
  lemma ReadSlotMeans(files: map<string, string>, reg: seq<Function>, path: string)
    requires FileText(files, path).Ok? && SlotNames(FileText(files, path).value).Some?
    ensures var names := SlotNames(FileText(files, path).value).value;
      && (ReadSlot(files, [], reg, path) == Ok(None) <==> exists k :: 0 <= k < |names| && FunctionSupported(reg, Function(Simple, 0, names[k], [])))
      && (ReadSlot(files, [], reg, path).Ok? && ReadSlot(files, [], reg, path).value.Some? ==>
            |names| >= 1 && ReadSlot(files, [], reg, path).value.value.funcs == Some([]))
  {
    var names := SlotNames(FileText(files, path).value).value;
    if exists k :: 0 <= k < |names| && FunctionSupported(reg, Function(Simple, 0, names[k], [])) {
      var k :| 0 <= k < |names| && FunctionSupported(reg, Function(Simple, 0, names[k], []));
      assert Abandons([], reg, names[k]);
    } else {
      forall k | 0 <= k < |names|
        ensures !Abandons([], reg, names[k])
      {
        assert !FunctionSupported(reg, Function(Simple, 0, names[k], []));
      }
      var entries := seq(|names|, k requires 0 <= k < |names| => FirstNamed([], names[k]));
      assert entries[0].None?;
      assert UpToNull(entries) == [];
    }
  }

  /** The attributes the read path yields, as written: idVendor holds the
      value of the idProduct key and idProduct stays 0; the vendor key is
      read and must parse, but its value is dropped. */
  lemma ReadAttrsAsWritten(files: map<string, string>)
    requires ReadAttrs(files).Ok?
    ensures ReadInt(files, VendorPath).Ok? && ReadInt(files, ProductPath).Ok?
    ensures ReadAttrs(files).value.idProduct == 0
    ensures ReadAttrs(files).value.idVendor == U16Of(ReadInt(files, ProductPath).value)
    ensures ReadInt(files, ClassPath).Ok? && ReadAttrs(files).value.bDeviceClass == U8Of(ReadInt(files, ClassPath).value)
    ensures ReadInt(files, BcdPath).Ok? && ReadAttrs(files).value.bcdDevice == U16Of(ReadInt(files, BcdPath).value)
  {
  }

  /** A configuration the read path keeps has the legacy defaults and lists
      no function. */
  lemma ReadSlotKept(files: map<string, string>, reg: seq<Function>, path: string)
    requires ReadSlot(files, [], reg, path).Ok? && ReadSlot(files, [], reg, path).value.Some?
    ensures var c := ReadSlot(files, [], reg, path).value.value;
      && c.attrs == ConfigAttrs(LegacyBmAttributes, LegacyMaxPower)
      && c.funcs == Some([])
  {
    ReadSlotMeans(files, reg, path);
  }

  /** What the read path yields, as written: no function table entries, at
      most two configurations, each with the legacy defaults and no
      function, idProduct always 0. A read gadget satisfies the arena
      invariant. */
  lemma ReadGadgetShape(files: map<string, string>, reg: seq<Function>)
    requires ReadGadget(files, reg).Ok?
    ensures var g := ReadGadget(files, reg).value;
      && g.funcs == Some([]) && g.configs.Some? && |ConfigList(g)| <= 2
      && g.attrs.idProduct == 0
      && g.strs.Some? && LangAt(g.strs.value, 0) == LangUsEng && LangAt(g.strs.value, 1) == 0
      && (forall j :: 0 <= j < |ConfigList(g)| ==>
            ConfigList(g)[j].attrs == ConfigAttrs(LegacyBmAttributes, LegacyMaxPower) && ConfigList(g)[j].funcs == Some([]))
      && RefsInRange(g)
  {
    ReadGadgetParts(files, reg);
    ReadAttrsAsWritten(files);
    var g := ReadGadget(files, reg).value;
    var c1 := ReadSlot(files, [], reg, Config1Path).value;
    var c2 := ReadSlot(files, [], reg, Config2Path).value;
    assert FuncList(g) == [] && ConfigList(g) == VisibleConfigs(c1, c2);
    if c1.Some? {
      ReadSlotKept(files, reg, Config1Path);
      if c2.Some? {
        ReadSlotKept(files, reg, Config2Path);
      }
    }
    forall j | 0 <= j < |ConfigList(g)|
      ensures ConfigList(g)[j].attrs == ConfigAttrs(LegacyBmAttributes, LegacyMaxPower) && ConfigList(g)[j].funcs == Some([])
    {
      if j == 0 {
        assert ConfigList(g)[j] == c1.value;
      } else {
        assert ConfigList(g)[j] == c2.value;
      }
    }
  }

  /** A gadget read back is assembled from the attribute, string and slot
      reads, each of which succeeded. */
  lemma ReadGadgetParts(files: map<string, string>, reg: seq<Function>)
    requires ReadGadget(files, reg).Ok?
    ensures ReadAttrs(files).Ok? && ReadStrings(files).Ok?
    ensures ReadSlot(files, [], reg, Config1Path).Ok? && ReadSlot(files, [], reg, Config2Path).Ok?
    ensures ReadGadget(files, reg).value == Gadget(ReadAttrs(files).value,
      Some([ReadStrings(files).value, Strings(0, None, None, None)]), Some([]),
      Some(VisibleConfigs(ReadSlot(files, [], reg, Config1Path).value, ReadSlot(files, [], reg, Config2Path).value)))
  {
  }

  /** A row of the table lists at least one function. */
  lemma RowsNotEmpty(mask: nat)
    requires Translator.CaseTable(mask).Some?
    ensures |Translator.CaseTable(mask).value.groups| == 1 && |Translator.CaseTable(mask).value.groups[0]| >= 1
  {
  }

  /** What the translator builds passes the legacy validator, and the
      reconfiguration it leads to can be planned. */
  lemma BuiltLegacySupported(reg: seq<Function>, mask: nat)
    requires Translator.RegistryOk(reg) && Translator.CaseTable(mask).Some?
    ensures RefsInRange(Translator.Built(reg, mask))
    ensures LegacySupported(reg, Some(Translator.Built(reg, mask)))
    ensures NonEmptyConfigs(Translator.Built(reg, mask))
  {
    Translator.BuiltFollowsTable(reg, mask);
    Translator.BuiltFuncs(reg, mask);
    RowsNotEmpty(mask);
    var g := Translator.Built(reg, mask);
    var c := ConfigList(g)[0];
    assert |RefList(c)| == |Translator.ConfigIds(g, 0)|;
    forall i | 0 <= i < |RefList(c)|
      ensures RefList(c)[i] < |FuncList(g)| && FunctionSupported(reg, FuncList(g)[RefList(c)[i]])
    {
      var k := RefList(c)[i];
      assert FuncList(g)[k] == reg[SetBits(mask, Translator.NFuncs)[k]];
    }
    assert ConfigSupported(reg, FuncList(g), c);
  }

  /** End to end: a translated gadget written through the legacy client
      cannot be read back, because its Samsung vendor id is written in a
      form the read path rejects. */
  lemma BuiltAppliedUnreadable(reg: seq<Function>, mask: nat, m: map<string, string>, files: map<string, string>)
    requires Translator.RegistryOk(reg) && Translator.CaseTable(mask).Some?
    requires Applied(reg, Translator.Built(reg, mask), m, files)
    ensures ReadGadget(files, reg) == Err(-EINVAL)
  {
    BuiltLegacySupported(reg, mask);
    Translator.BuiltDefaults(reg, mask);
    AppliedVendorUnreadable(reg, Translator.Built(reg, mask), m, files);
  }
}
