/** How the two halves of the gadget HAL meet: a gadget the translator
    builds is one the configfs client accepts. */
module Pipeline {
  import opened Base
  import opened Descriptor
  import opened Translator
  import opened CfsFunctions

  /** Every gadget the table builds passes `cfs_is_gadget_supported` as long
      as every registry function is one the client supports: it has a
      function table, exactly one configuration, a reference array for it,
      and references only registry clones. */
  lemma BuiltSupported(reg: seq<Function>, mask: nat, types: seq<string>)
    requires RegistryOk(reg) && CaseTable(mask).Some?
    requires forall i :: 0 <= i < |reg| ==> IsFunctionSupported(types, reg[i])
    ensures RefsInRange(Built(reg, mask))
    ensures Supported(types, Some(Built(reg, mask)))
  {
    BuiltFollowsTable(reg, mask);
    BuiltFuncs(reg, mask);
    var g := Built(reg, mask);
    forall j, i | 0 <= j < |ConfigList(g)| && 0 <= i < |RefList(ConfigList(g)[j])|
      ensures IsFunctionSupported(types, FuncList(g)[RefList(ConfigList(g)[j])[i]])
    {
      var k := RefList(ConfigList(g)[j])[i];
      assert FuncList(g)[k] == reg[SetBits(mask, NFuncs)[k]];
    }
  }
}
