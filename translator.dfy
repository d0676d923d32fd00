/** The simple translator: a fixed table maps an exact function mask to the
    ordered function list of the single configuration and to a product ID,
    and the gadget tree is built from it by cloning one registry function
    per set bit and filling the configuration with references to the clones. */
module Translator {
  import opened Base
  import opened Descriptor

  // Function identifiers: function i of the registry has id 1 << i.
  const MTP: nat := 1
  const ACM: nat := 2
  const SDB: nat := 4
  const RNDIS: nat := 8
  const DIAG: nat := 16
  const RMNET: nat := 32
  const DM: nat := 64

  /** Number of entries of the function registry. */
  const NFuncs: nat := 7

  const DefaultVid: u16 := 0x04e8
  const DefaultPid: u16 := 0x6860
  const DefaultBcdDevice: u16 := 0xffff
  const DefaultLang: int := 0x409
  const DefaultBmAttributes: u8 := 0xC0   // bit 7 (reserved, set) and bit 6 (self-powered)
  const DefaultMaxPower: int := 500

  /** The registry of available functions, indexed by bit position. */
  predicate RegistryOk(reg: seq<Function>)
  {
    |reg| == NFuncs && forall i :: 0 <= i < |reg| ==> reg[i].id == Pow2(i)
  }

  /** A row of the table: the function lists of the configurations, in
      interface order, and the product ID. */
  datatype Case = Case(groups: seq<seq<nat>>, product: u16)

  /** The switch on the exact mask; `None` is every mask without a case. */
  function CaseTable(mask: nat): Option<Case>
  {
    if mask == SDB then Some(Case([[SDB]], 0x685d))
    else if mask == MTP then Some(Case([[MTP]], 0x6860))
    else if mask == RNDIS then Some(Case([[RNDIS]], 0x6863))
    else if mask == MTP + ACM + SDB then Some(Case([[MTP, ACM, SDB]], 0x6860))
    else if mask == MTP + ACM + SDB + DIAG then Some(Case([[MTP, ACM, SDB, DIAG]], 0x6860))
    else if mask == RNDIS + SDB then Some(Case([[RNDIS, SDB]], 0x6864))
    else if mask == RNDIS + SDB + ACM + DIAG then Some(Case([[RNDIS, SDB, ACM, DIAG]], 0x6864))
    else if mask == RNDIS + DIAG then Some(Case([[RNDIS, DIAG]], 0x6864))
    else if mask == ACM + SDB + DM then Some(Case([[ACM, SDB, DM]], 0x6860))
    else if mask == DIAG + ACM + RMNET then Some(Case([[DIAG, ACM, RMNET]], 0x685d))
    else None
  }

  function DefaultAttrs(): Attrs
  {
    Attrs(0, 0, 0, DefaultVid, DefaultPid, DefaultBcdDevice)
  }

  /** One string set followed by the zero-LANGID terminator. */
  function DefaultStrs(): seq<Strings>
  {
    [Strings(DefaultLang, Some("Samsung"), Some("TIZEN"), Some("01234TEST")), Strings(0, None, None, None)]
  }

  /** A fresh gadget: default descriptor and strings, no functions yet, an
      empty configuration table. */
  function DefaultGadget(): Gadget
  {
    Gadget(DefaultAttrs(), Some(DefaultStrs()), None, Some([]))
  }

  /** A fresh configuration: its string table is the terminator alone (whose
      text is never read) and its reference array is not yet allocated. */
  function DefaultConfig(): Config
  {
    Config(ConfigAttrs(DefaultBmAttributes, DefaultMaxPower), Some([ConfigString(0, "")]), None)
  }

  /** Clones of the registry functions whose bit is set, among the first `n`. */
  function Clones(reg: seq<Function>, mask: nat, n: nat): seq<Function>
    requires n <= |reg|
  {
    if n == 0 then [] else Clones(reg, mask, n - 1) + (if HasBit(mask, n - 1) then [reg[n - 1]] else [])
  }

  /** Position of the first function with the given id; `|funcs|` stands for
      the NULL terminator. */
  function FirstWithId(funcs: seq<Function>, id: nat): (k: nat)
    ensures k <= |funcs|
    ensures k < |funcs| ==> funcs[k].id == id
    ensures forall m :: 0 <= m < k ==> funcs[m].id != id
  {
    if funcs == [] then 0
    else if funcs[0].id == id then 0
    else 1 + FirstWithId(funcs[1..], id)
  }

  /** The references a configuration gets for the listed ids. */
  function Refs(ids: seq<nat>, funcs: seq<Function>): seq<nat>
  {
    seq(|ids|, i requires 0 <= i < |ids| => FirstWithId(funcs, ids[i]))
  }

  /** The gadget the translator builds for a recognised mask. */
  function Built(reg: seq<Function>, mask: nat): Gadget
    requires RegistryOk(reg) && CaseTable(mask).Some?
  {
    var c := CaseTable(mask).value;
    var funcs := Clones(reg, mask, |reg|);
    Gadget(
      DefaultAttrs().(idProduct := c.product),
      Some(DefaultStrs()),
      Some(funcs),
      Some(ConfigsFor(c.groups, funcs)))
  }

  /** The configurations built for the lists of a row. */
  function ConfigsFor(groups: seq<seq<nat>>, funcs: seq<Function>): seq<Config>
  {
    seq(|groups|, j requires 0 <= j < |groups| => DefaultConfig().(funcs := Some(Refs(groups[j], funcs))))
  }

  /** Allocations a complete build takes: the default gadget, the function
      array, one per clone, and per configuration the configuration and its
      reference array. */
  function Cost(mask: nat): nat
  {
    if CaseTable(mask).None? then 0 else 2 + Popcount(mask) + 2 * |CaseTable(mask).value.groups|
  }

  /** The allocation budget runs out exactly at a configuration's reference
      array. */
  predicate RefsAllocFails(mask: nat, allocs: nat)
  {
    CaseTable(mask).Some? && 2 + Popcount(mask) <= allocs < Cost(mask) && (allocs - Popcount(mask)) % 2 == 1
  }

  /** `find_func`: a linear scan up to the first function with the id, or to
      the terminator. */
  method FindFunc(funcs: seq<Function>, id: nat) returns (k: nat)
    ensures k == FirstWithId(funcs, id)
    ensures k < |funcs| <==> exists m :: 0 <= m < |funcs| && funcs[m].id == id
  {
    k := 0;
    while k < |funcs| && funcs[k].id != id
      invariant k <= |funcs|
      invariant forall m :: 0 <= m < k ==> funcs[m].id != id
      invariant FirstWithId(funcs, id) >= k
    {
      k := k + 1;
    }
  }

  /** `simple_id_to_gadget`. `gadgetId == None` and `!hasOut` are the NULL
      arguments; `allocs` is how many allocations succeed before the first
      one fails. As written, a failing reference-array allocation releases
      the gadget but returns 0. */
  method IdToGadget(reg: seq<Function>, gadgetId: Option<nat>, hasOut: bool, allocs: nat) returns (ret: int, g: Option<Gadget>)
    requires RegistryOk(reg)
    ensures ret == 0 || ret == -EINVAL || ret == -ENOMEM
    ensures g.Some? ==> ret == 0 && gadgetId.Some? && CaseTable(gadgetId.value).Some? && g.value == Built(reg, gadgetId.value)
    ensures ret == -EINVAL <==> gadgetId.None? || !hasOut || (allocs > 0 && CaseTable(gadgetId.value).None?)
    ensures g.Some? <==> gadgetId.Some? && hasOut && CaseTable(gadgetId.value).Some? && allocs >= Cost(gadgetId.value)
    ensures ret == 0 && g.None? <==> gadgetId.Some? && hasOut && RefsAllocFails(gadgetId.value, allocs)
  {
    if gadgetId.None? || !hasOut {
      return -EINVAL, None;
    }
    var mask := gadgetId.value;
    if allocs == 0 {
      return -ENOMEM, None;
    }
    var budget: nat := allocs - 1;
    var gadget := DefaultGadget();

    var groups: seq<seq<nat>> := [];
    var c := CaseTable(mask);
    if c.Some? {
      CaseCost(reg, mask);
      groups := c.value.groups;
      gadget := gadget.(attrs := gadget.attrs.(idProduct := c.value.product));
    }
    if |groups| > 2 || |groups| == 0 {
      return -EINVAL, None;
    }

    if budget == 0 {
      assert !RefsAllocFails(mask, allocs);
      return -ENOMEM, None;
    }
    budget := budget - 1;
    var funcs, left := CloneFunctions(reg, mask, budget);
    if funcs.None? {
      assert !RefsAllocFails(mask, allocs);
      return -ENOMEM, None;
    }
    assert left == allocs - Cost(mask) + 2;
    gadget := gadget.(funcs := funcs);

    var configs;
    ret, configs := FillConfigs(groups, funcs.value, left);
    if configs.None? {
      return ret, None;
    }
    gadget := gadget.(configs := configs);
    return 0, Some(gadget);
  }

  /** A recognised mask has one configuration and popcount(mask) clones, so
      a complete build takes popcount(mask) + 4 allocations. */
  lemma CaseCost(reg: seq<Function>, mask: nat)
    requires RegistryOk(reg) && CaseTable(mask).Some?
    ensures |CaseTable(mask).value.groups| == 1
    ensures |Clones(reg, mask, |reg|)| == Popcount(mask)
    ensures Cost(mask) == Popcount(mask) + 4
  {
    TableShape(mask);
    SetBitsCount(mask, NFuncs);
    ClonesCount(reg, mask, NFuncs);
  }

  /** The cloning loop: one clone per set bit, in registry order; `None`
      when an allocation fails. */
  method CloneFunctions(reg: seq<Function>, mask: nat, budget: nat) returns (funcs: Option<seq<Function>>, left: nat)
    ensures funcs.Some? <==> budget >= |Clones(reg, mask, |reg|)|
    ensures funcs.Some? ==> funcs.value == Clones(reg, mask, |reg|) && left == budget - |Clones(reg, mask, |reg|)|
  {
    left := budget;
    var cloned: seq<Function> := [];
    for i := 0 to |reg|
      invariant cloned == Clones(reg, mask, i)
      invariant left + |cloned| == budget
    {
      if !HasBit(mask, i) {
        continue;
      }
      if left == 0 {
        ClonesGrow(reg, mask, i + 1, |reg|);
        return None, 0;
      }
      left := left - 1;
      cloned := cloned + [reg[i]];
    }
    return Some(cloned), left;
  }

  /** The configuration loop: per list, a default configuration and its
      reference array, filled by `find_func`. On failure the result is
      -ENOMEM for the configuration itself and, as written, 0 for its
      reference array. */
  method FillConfigs(groups: seq<seq<nat>>, funcs: seq<Function>, budget: nat) returns (ret: int, configs: Option<seq<Config>>)
    ensures configs.Some? <==> budget >= 2 * |groups|
    ensures configs.Some? ==> ret == 0 && configs.value == ConfigsFor(groups, funcs)
    ensures configs.None? ==> (ret == 0 <==> budget % 2 == 1) && (ret == 0 || ret == -ENOMEM)
  {
    var left: nat := budget;
    var built: seq<Config> := [];
    for j := 0 to |groups|
      invariant left + 2 * j == budget
      invariant |built| == j
      invariant forall m :: 0 <= m < j ==> built[m] == DefaultConfig().(funcs := Some(Refs(groups[m], funcs)))
    {
      if left == 0 {
        return -ENOMEM, None;
      }
      left := left - 1;
      var config := DefaultConfig();
      if left == 0 {
        return 0, None;
      }
      left := left - 1;
      var refs: seq<nat> := [];
      for i := 0 to |groups[j]|
        invariant |refs| == i
        invariant forall m :: 0 <= m < i ==> refs[m] == FirstWithId(funcs, groups[j][m])
      {
        var k := FindFunc(funcs, groups[j][i]);
        refs := refs + [k];
      }
      assert refs == Refs(groups[j], funcs);
      built := built + [config.(funcs := Some(refs))];
    }
    assert left + 2 * |groups| == budget;
    assert built == ConfigsFor(groups, funcs);
    return 0, Some(built);
  }

  // ---------------------------------------------------------------------------
  // Properties of the table and of the built gadget

  /** Identifiers of the set bits of `mask` below bit `n`, ascending. */
  function BitIds(mask: nat, n: nat): seq<nat>
  {
    if n == 0 then [] else BitIds(mask, n - 1) + (if HasBit(mask, n - 1) then [Pow2(n - 1)] else [])
  }

  /** The row of `mask` has one configuration, whose list holds the
      identifiers of the set bits of the mask, each exactly once. */
  predicate RowMatches(mask: nat)
    requires CaseTable(mask).Some?
  {
    |CaseTable(mask).value.groups| == 1 && multiset(CaseTable(mask).value.groups[0]) == multiset(BitIds(mask, NFuncs))
  }

  /** Every row of the table matches its mask. */
  lemma TableShape(mask: nat)
    requires CaseTable(mask).Some?
    ensures mask < Pow2(NFuncs)
    ensures RowMatches(mask)
  {
    assert Pow2(NFuncs) == 128;
    if mask == 4 {
      RowSdb();
    }     else if mask == 1 {
      RowMtp();
    }     else if mask == 8 {
      RowRndis();
    }     else if mask == 7 {
      RowMtpAcmSdb();
    }     else if mask == 23 {
      RowMtpAcmSdbDiag();
    }     else if mask == 12 {
      RowRndisSdb();
    }     else if mask == 30 {
      RowRndisSdbAcmDiag();
    }     else if mask == 24 {
      RowRndisDiag();
    }     else if mask == 70 {
      RowAcmSdbDm();
    }     else if mask == 50 {
      RowDiagAcmRmnet();
    } else {
      assert false;
    }
  }

  /** SDB */
  lemma RowSdb()
    ensures CaseTable(4).Some? && RowMatches(4)
  {
    assert BitIds(4, NFuncs) == [4];
  }

  /** MTP */
  lemma RowMtp()
    ensures CaseTable(1).Some? && RowMatches(1)
  {
    assert BitIds(1, NFuncs) == [1];
  }

  /** RNDIS */
  lemma RowRndis()
    ensures CaseTable(8).Some? && RowMatches(8)
  {
    assert BitIds(8, NFuncs) == [8];
  }

  /** MTP|ACM|SDB */
  lemma RowMtpAcmSdb()
    ensures CaseTable(7).Some? && RowMatches(7)
  {
    assert BitIds(7, NFuncs) == [1, 2, 4];
  }

  /** MTP|ACM|SDB|DIAG */
  lemma RowMtpAcmSdbDiag()
    ensures CaseTable(23).Some? && RowMatches(23)
  {
    assert BitIds(23, NFuncs) == [1, 2, 4, 16];
  }

  /** RNDIS|SDB */
  lemma RowRndisSdb()
    ensures CaseTable(12).Some? && RowMatches(12)
  {
    assert BitIds(12, NFuncs) == [4, 8];
  }

  /** RNDIS|SDB|ACM|DIAG */
  lemma RowRndisSdbAcmDiag()
    ensures CaseTable(30).Some? && RowMatches(30)
  {
    assert BitIds(30, NFuncs) == [2, 4, 8, 16];
  }

  /** RNDIS|DIAG */
  lemma RowRndisDiag()
    ensures CaseTable(24).Some? && RowMatches(24)
  {
    assert BitIds(24, NFuncs) == [8, 16];
  }

  /** ACM|SDB|DM */
  lemma RowAcmSdbDm()
    ensures CaseTable(70).Some? && RowMatches(70)
  {
    assert BitIds(70, NFuncs) == [2, 4, 64];
  }

  /** DIAG|ACM|RMNET */
  lemma RowDiagAcmRmnet()
    ensures CaseTable(50).Some? && RowMatches(50)
  {
    assert BitIds(50, NFuncs) == [2, 16, 32];
  }

  lemma {:induction false} ClonesAreSetBits(reg: seq<Function>, mask: nat, n: nat)
    requires n <= |reg|
    ensures |Clones(reg, mask, n)| == |SetBits(mask, n)|
    ensures forall k :: 0 <= k < |Clones(reg, mask, n)| ==>
      SetBits(mask, n)[k] < |reg| && Clones(reg, mask, n)[k] == reg[SetBits(mask, n)[k]]
  {
    SetBitsMembers(mask, n);
    if n > 0 {
      ClonesAreSetBits(reg, mask, n - 1);
    }
  }

  lemma {:induction false} ClonesCount(reg: seq<Function>, mask: nat, n: nat)
    requires n <= |reg|
    ensures |Clones(reg, mask, n)| == |SetBits(mask, n)|
  {
    if n > 0 {
      ClonesCount(reg, mask, n - 1);
    }
  }

  lemma {:induction false} ClonesIds(reg: seq<Function>, mask: nat, n: nat)
    requires RegistryOk(reg) && n <= |reg|
    ensures |Clones(reg, mask, n)| == |BitIds(mask, n)|
    ensures forall k :: 0 <= k < |Clones(reg, mask, n)| ==> Clones(reg, mask, n)[k].id == BitIds(mask, n)[k]
  {
    if n > 0 {
      ClonesIds(reg, mask, n - 1);
    }
  }

  lemma {:induction false} BitIdsCount(mask: nat, n: nat)
    ensures |BitIds(mask, n)| == |SetBits(mask, n)|
  {
    if n > 0 {
      BitIdsCount(mask, n - 1);
    }
  }

  lemma {:induction false} BitIdsAscending(mask: nat, n: nat)
    ensures forall k :: 0 <= k < |BitIds(mask, n)| ==> BitIds(mask, n)[k] < Pow2(n)
    ensures forall a, b :: 0 <= a < b < |BitIds(mask, n)| ==> BitIds(mask, n)[a] < BitIds(mask, n)[b]
  {
    if n > 0 {
      BitIdsAscending(mask, n - 1);
    }
  }

  lemma {:induction false} ClonesGrow(reg: seq<Function>, mask: nat, i: nat, n: nat)
    requires i <= n <= |reg|
    ensures |Clones(reg, mask, i)| <= |Clones(reg, mask, n)|
    decreases n - i
  {
    if i < n {
      ClonesGrow(reg, mask, i, n - 1);
    }
  }

  /** The function array: popcount(mask) clones, clone k being the registry
      function of the k-th set bit, with strictly ascending ids. */
  lemma BuiltFuncs(reg: seq<Function>, mask: nat)
    requires RegistryOk(reg) && CaseTable(mask).Some?
    ensures |FuncList(Built(reg, mask))| == Popcount(mask) == |BitIds(mask, NFuncs)| == |SetBits(mask, NFuncs)|
    ensures forall k :: 0 <= k < Popcount(mask) ==>
      SetBits(mask, NFuncs)[k] < NFuncs && FuncList(Built(reg, mask))[k] == reg[SetBits(mask, NFuncs)[k]]
      && FuncList(Built(reg, mask))[k].id == BitIds(mask, NFuncs)[k]
    ensures forall a, b :: 0 <= a < b < Popcount(mask) ==> FuncList(Built(reg, mask))[a].id < FuncList(Built(reg, mask))[b].id
  {
    TableShape(mask);
    SetBitsCount(mask, NFuncs);
    ClonesAreSetBits(reg, mask, NFuncs);
    ClonesIds(reg, mask, NFuncs);
    BitIdsAscending(mask, NFuncs);
    BitIdsCount(mask, NFuncs);
  }

  /** A reference resolves to the first function with the listed id, and
      never to the terminator when such a function exists. */
  lemma RefsResolve(ids: seq<nat>, funcs: seq<Function>)
    requires forall i :: 0 <= i < |ids| ==> ids[i] in Ids(funcs)
    ensures forall i :: 0 <= i < |ids| ==> Refs(ids, funcs)[i] < |funcs| && funcs[Refs(ids, funcs)[i]].id == ids[i]
  {
    forall i | 0 <= i < |ids|
      ensures Refs(ids, funcs)[i] < |funcs|
    {
      var m :| 0 <= m < |funcs| && funcs[m].id == ids[i];
    }
  }

  function Ids(funcs: seq<Function>): seq<nat>
  {
    seq(|funcs|, k requires 0 <= k < |funcs| => funcs[k].id)
  }

  /** The identifiers configuration `j` refers to, in interface order. */
  function ConfigIds(g: Gadget, j: nat): seq<nat>
    requires RefsInRange(g) && j < |ConfigList(g)|
  {
    var refs := RefList(ConfigList(g)[j]);
    seq(|refs|, i requires 0 <= i < |refs| => FuncList(g)[refs[i]].id)
  }

  /** No lookup falls on the terminator, and the configuration refers to
      exactly the functions its row lists, in the row's order. */
  lemma BuiltFollowsTable(reg: seq<Function>, mask: nat)
    requires RegistryOk(reg) && CaseTable(mask).Some?
    ensures RefsInRange(Built(reg, mask))
    ensures |ConfigList(Built(reg, mask))| == 1
    ensures ConfigIds(Built(reg, mask), 0) == CaseTable(mask).value.groups[0]
    ensures Built(reg, mask).attrs.idProduct == CaseTable(mask).value.product
  {
    RowIdsCloned(reg, mask);
    var g := Built(reg, mask);
    var funcs := FuncList(g);
    var ids := CaseTable(mask).value.groups[0];
    RefsResolve(ids, funcs);
    assert RefList(ConfigList(g)[0]) == Refs(ids, funcs);
  }

  /** Every id of the row is the id of some clone. */
  lemma RowIdsCloned(reg: seq<Function>, mask: nat)
    requires RegistryOk(reg) && CaseTable(mask).Some?
    ensures |CaseTable(mask).value.groups| == 1
    ensures forall i :: 0 <= i < |CaseTable(mask).value.groups[0]| ==>
      CaseTable(mask).value.groups[0][i] in Ids(Clones(reg, mask, |reg|))
  {
    TableShape(mask);
    ClonesIds(reg, mask, NFuncs);
    var ids := CaseTable(mask).value.groups[0];
    assert Ids(Clones(reg, mask, |reg|)) == BitIds(mask, NFuncs);
    forall i | 0 <= i < |ids|
      ensures ids[i] in Ids(Clones(reg, mask, |reg|))
    {
      assert ids[i] in multiset(BitIds(mask, NFuncs));
    }
  }

  /** One clone per set bit: the configuration never refers to the same
      function twice. */
  lemma BuiltRefsDistinct(reg: seq<Function>, mask: nat)
    requires RegistryOk(reg) && CaseTable(mask).Some?
    ensures RefsInRange(Built(reg, mask))
    ensures NoDup(RefList(ConfigList(Built(reg, mask))[0]))
  {
    BuiltFollowsTable(reg, mask);
    TableShape(mask);
    BitIdsAscending(mask, NFuncs);
    var g := Built(reg, mask);
    var refs := RefList(ConfigList(g)[0]);
    var ids := CaseTable(mask).value.groups[0];
    forall a, b | 0 <= a < b < |refs|
      ensures refs[a] != refs[b]
    {
      assert ConfigIds(g, 0)[a] == ids[a] && ConfigIds(g, 0)[b] == ids[b];
      MultisetNoDup(ids, BitIds(mask, NFuncs), a, b);
    }
  }

  /** Entries of a list with the multiset of a duplicate-free list are distinct. */
  lemma MultisetNoDup(ids: seq<nat>, ref: seq<nat>, a: nat, b: nat)
    requires multiset(ids) == multiset(ref) && NoDup(ref)
    requires a < b < |ids|
    ensures ids[a] != ids[b]
  {
    if ids[a] == ids[b] {
      assert ids == ids[..a] + [ids[a]] + ids[a + 1..b] + [ids[b]] + ids[b + 1..];
      assert multiset(ref)[ids[a]] >= 2;
      NoDupCount(ref, ids[a]);
    }
  }

  lemma {:induction false} NoDupCount(s: seq<nat>, x: nat)
    requires NoDup(s)
    ensures multiset(s)[x] <= 1
  {
    if s != [] {
      assert s == [s[0]] + s[1..];
      assert NoDup(s[1..]);
      NoDupCount(s[1..], x);
      assert s[0] !in s[1..];
    }
  }

  /** The parts of the gadget that the table leaves at their defaults. */
  lemma BuiltDefaults(reg: seq<Function>, mask: nat)
    requires RegistryOk(reg) && CaseTable(mask).Some?
    ensures var g := Built(reg, mask);
      && g.attrs.idVendor == 0x04e8 && g.attrs.bcdDevice == 0xffff
      && g.attrs.bDeviceClass == 0 && g.attrs.bDeviceSubClass == 0 && g.attrs.bDeviceProtocol == 0
      && g.strs.Some? && LiveStrings(g.strs.value) == 1
      && g.strs.value[0] == Strings(0x409, Some("Samsung"), Some("TIZEN"), Some("01234TEST"))
      && forall j :: 0 <= j < |ConfigList(g)| ==>
           ConfigList(g)[j].attrs == ConfigAttrs(0xC0, 500)
           && ConfigList(g)[j].strs.Some? && LiveConfigStrings(ConfigList(g)[j].strs.value) == 0
  {
  }

  lemma ScenarioSdb(reg: seq<Function>)
    requires RegistryOk(reg)
    ensures CaseTable(SDB).Some? && RefsInRange(Built(reg, SDB))
    ensures Built(reg, SDB).attrs.idProduct == 0x685d && ConfigIds(Built(reg, SDB), 0) == [SDB]
  {
    BuiltFollowsTable(reg, SDB);
  }

  lemma ScenarioMtpAcmSdb(reg: seq<Function>)
    requires RegistryOk(reg)
    ensures CaseTable(MTP + ACM + SDB).Some? && RefsInRange(Built(reg, MTP + ACM + SDB))
    ensures Built(reg, MTP + ACM + SDB).attrs.idProduct == 0x6860
    ensures ConfigIds(Built(reg, MTP + ACM + SDB), 0) == [MTP, ACM, SDB]
  {
    BuiltFollowsTable(reg, MTP + ACM + SDB);
  }

  lemma ScenarioRndisSdb(reg: seq<Function>)
    requires RegistryOk(reg)
    ensures CaseTable(RNDIS + SDB).Some? && RefsInRange(Built(reg, RNDIS + SDB))
    ensures Built(reg, RNDIS + SDB).attrs.idProduct == 0x6864
    ensures ConfigIds(Built(reg, RNDIS + SDB), 0) == [RNDIS, SDB]
  {
    BuiltFollowsTable(reg, RNDIS + SDB);
  }

  /** Masks outside the table, for instance ACM alone or MTP|SDB, are refused. */
  lemma UnknownMasks()
    ensures CaseTable(ACM).None? && CaseTable(MTP + SDB).None? && CaseTable(0).None?
  {
  }
}
