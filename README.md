# USB gadget descriptor core: a Dafny model

This project models the USB gadget layer of a Tizen device-manager plugin.
A gadget is a composite USB device. It has:

- device attributes (the device descriptor of section 9.6.1 of the USB 2.0 specification);
- string sets keyed by LANGID;
- a list of functions that the gadget owns;
- configurations (section 9.6.3) that reference those functions.

Three components are built on the gadget, and each is modelled here.

- **The mask translator** (`hw/usb_gadget/usb_gadget.c`). A fixed case table maps an exact function bitmask to a gadget. The built gadget holds one clone per set bit and one configuration whose references follow the table's order.
- **The configfs client** (`hw/usb_cfs_client/usb_cfs_client.c`). It covers:
  - the function-identity matcher;
  - the support check;
  - the read-back of a gadget from live configfs state;
  - the apply engine: attributes, strings, configurations 1..N, reuse or creation of functions (with the FunctionFS directory, mount and socket sequence), enable, and removal of stale configurations.
- **The legacy client** (`hw/usb_client/usb_client.c`). It writes and reads the flat key files of the slp-gadget driver. It covers:
  - the strict integer parser;
  - the validator;
  - the comma-join serialiser of a configuration slot and its split/count parser;
  - the fixed write order of a reconfiguration;
  - enable and disable.

Representation:

- Configurations hold indices into the gadget's function sequence (arena and index), so `RefsInRange` is the ownership invariant.
- `None` stands for a NULL field of the C structure; a `Result` carries a negative errno.
- The registry of available functions (`_available_funcs`) is a parameter. `RegistryOk` requires that function `i` has id `1 << i` and that there are seven functions.
- The bit of each function comes from the plugin's header, which is not part of this model. The values assumed are MTP 1, ACM 2, SDB 4, RNDIS 8, DIAG 16, RMNET 32 and DM 64.

The configfs backend is the class `CfsBackend.ConfigFs`:

- Its fields are attributes, strings by LANGID, functions, configurations by id, the enabled flag, directories, mounts and started sockets.
- Every libusbg call, `mkdir`, `mount`, `umount` and socket start is a method that may fail. It changes its field only on success.
- Each call is appended to a ghost journal. The order of the apply protocol is stated over that journal as phases that never go back: attributes, strings, configurations, enable, cleanup.

The legacy key files are the class `LegacyClient.KeyFiles`, a map from path to text:

- A read of a missing key fails with `-ENOENT`.
- A write may fail with a negative code, and then changes nothing.

The model follows the code as written, including these deviations:

- **Legacy attribute read** (`hw/usb_client/usb_client.c:103`). The idProduct key is read into `idVendor`, so `idVendor` holds the product id and `idProduct` stays 0.
- **Inverted test when reading a legacy slot** (`hw/usb_client/usb_client.c:249-251`). The gadget's function table is never filled, so every name misses it.
  - When the registry knows the name, the new function is allocated, and the success jumps to the cleanup path: the slot is read as no configuration, with return value 0.
  - When the registry does not know the name, the lookup leaves the entry NULL (`hw/usb_client/usb_client.c:246`, `254`). The function list ends at the first NULL, so a kept slot lists no function.
- **Empty slot list** (`hw/usb_client/usb_client.c:492`). Serialising a configuration with no functions writes before the buffer. The validator lets such a configuration through, so a non-empty list is a precondition of the legacy write path (`NonEmptyConfigs`).
- **Positive errno from `cfs_ensure_dir`** (`hw/usb_cfs_client/usb_cfs_client.c:595`). The callers test the result with `< 0`, so a `mkdir` failure other than EEXIST is ignored and preparation goes on.
- **Unchecked allocation in the translator** (`hw/usb_gadget/usb_gadget.c:329-332`). When a configuration's reference array cannot be allocated, the translator frees the gadget and returns 0 with no gadget. `Translator.IdToGadget` has this outcome.

The component's documented contract differs from the code in a few places. The model follows the code:

- **Legacy validator and WithService functions.** The legacy validator checks functions by name only, so it accepts a function with a service whose name the registry knows. The documented contract says such functions are always unsupported by this backend.
- **Legacy validator and empty lists.** The legacy validator rejects a configuration whose function array is NULL, but not an empty one.
- **Configfs validator and empty lists.** The configfs validator also lets an empty function list through. `cfs_set_gadget_config` then refuses it with -EINVAL, and it does so before it removes the old configuration.
- **Clearing a legacy slot.** The legacy client writes a newline, not an empty value.

## Model

| member | source | states |
|---|---|---|
| Base.SetBitsMembers | hw/usb_gadget/usb_gadget.c:304-315 | the clone loop visits exactly the set bits of the mask below the registry size, in ascending order, each once |
| Base.SetBitsCount | hw/usb_gadget/usb_gadget.c:293-295 | the number of set bits visited is the popcount of the mask |
| Base.SplitJoin | hw/usb_client/usb_client.c:243-255 | splitting a comma-joined list of names without commas gives back the names |
| Base.SplitCount | hw/usb_client/usb_client.c:229-233 | splitting yields one more piece than there are separators |
| Descriptor.LiveStrings | hw/usb_gadget/usb_gadget.c:74-79 | the live string sets are exactly those before the first zero LANGID |
| Descriptor.LiveConfigStrings | hw/usb_gadget/usb_gadget.c:50-52 | the live configuration strings are exactly those before the first zero LANGID |
| Descriptor.CleanupConfig | hw/usb_gadget/usb_gadget.c:43-65 | releases only steps of its own configuration, never a function: each string before the zero LANGID exactly once and none past it; the string table and the reference array once when present and never when NULL; then the configuration itself, last and once |
| Descriptor.ConfigLogSteps | hw/usb_gadget/usb_gadget.c:50-65 | every step of one configuration's release belongs to that configuration, and only live strings are released |
| Descriptor.ConfigLogCounts | hw/usb_gadget/usb_gadget.c:50-64 | the live strings, the tables present and the configuration are each released exactly once |
| Descriptor.NamesOnce | hw/usb_gadget/usb_gadget.c:51-52 | the string loop frees each live configuration string exactly once |
| Descriptor.FreedOnceJoin | hw/usb_gadget/usb_gadget.c:83-85 | releasing one configuration next to steps that never touch it still releases it exactly once |
| Descriptor.CleanupGadget | hw/usb_gadget/usb_gadget.c:67-98 | releases each live string set, each configuration (with each of its live strings, its string table and its reference array) and each function exactly once and no other string set or function; each table present once and a NULL table never; all configurations before any function; the gadget last and once; a NULL gadget releases nothing |
| Descriptor.CleanupAssembly | hw/usb_gadget/usb_gadget.c:67-98 | the string, configuration and function phases followed by the gadget release every item exactly once, and no function before a configuration |
| Descriptor.PartStages | hw/usb_gadget/usb_gadget.c:74-95 | each phase holds only steps of its own stage |
| Descriptor.CleanupStringCounts | hw/usb_gadget/usb_gadget.c:74-81 | in the whole release, each live string set and the string table are released once, and only live string sets |
| Descriptor.CleanupConfigCounts | hw/usb_gadget/usb_gadget.c:83-88 | in the whole release, each configuration with its live strings, string table and reference array is released once, no step touches a missing configuration or string, and the configuration table is released once |
| Descriptor.CleanupFunctionCounts | hw/usb_gadget/usb_gadget.c:90-97 | in the whole release, each owned function and the function table are released once, only owned functions, and the gadget once |
| Descriptor.CleanupOrder | hw/usb_gadget/usb_gadget.c:83-95 | no function is released before the configurations that reference it |
| Descriptor.CleanupStringTable | hw/usb_gadget/usb_gadget.c:74-81 | frees the strings of every live set exactly once and of no set past the terminator, then the table, last |
| Descriptor.CleanupConfigTable | hw/usb_gadget/usb_gadget.c:83-88 | only steps of the given configurations; every configuration released exactly once with its live strings, string table and reference array, then the table, last and once |
| Descriptor.FreeTableLast | hw/usb_gadget/usb_gadget.c:87 | releasing the configuration table afterwards leaves each configuration's counts unchanged |
| Descriptor.CleanupFunctionTable | hw/usb_gadget/usb_gadget.c:90-95 | frees every owned function exactly once and no other index, then the table, last and once |
| Translator.FirstWithId | hw/usb_gadget/usb_gadget.c:174-182 | the lookup gives the first function with the id, or the terminator position when there is none |
| Translator.FindFunc | hw/usb_gadget/usb_gadget.c:174-182 | the linear scan returns that first position; it is in range exactly when some function has the id |
| Translator.IdToGadget | hw/usb_gadget/usb_gadget.c:184-346 | -EINVAL for a missing id or output, and for a mask with no case; otherwise the built gadget when every allocation succeeds, -ENOMEM or, when a reference array cannot be allocated, 0 with no gadget |
| Translator.CloneFunctions | hw/usb_gadget/usb_gadget.c:293-315 | the function table is the clones of the set bits in ascending bit order, or nothing when allocation runs out |
| Translator.FillConfigs | hw/usb_gadget/usb_gadget.c:317-345 | every configuration has the defaults and the references of its row, or the run stops at the first failed allocation, returning 0 when the failure is a reference array |
| Translator.TableShape | hw/usb_gadget/usb_gadget.c:210-291 | every case lists one configuration whose ids are exactly the set bits of the mask, each once |
| Translator.ClonesAreSetBits | hw/usb_gadget/usb_gadget.c:304-315 | the k-th clone is the registry function of the k-th set bit |
| Translator.ClonesIds | hw/usb_gadget/usb_gadget.c:304-315 | the k-th clone's id is the k-th set bit's value |
| Translator.BitIdsAscending | hw/usb_gadget/usb_gadget.c:304-315 | the clone ids strictly ascend |
| Translator.BuiltFuncs | hw/usb_gadget/usb_gadget.c:293-315 | the function table holds popcount(mask) clones, one per set bit, ascending by id |
| Translator.RefsResolve | hw/usb_gadget/usb_gadget.c:174-182 | every lookup of an id present in the table lands on a function with that id, never the terminator |
| Translator.BuiltFollowsTable | hw/usb_gadget/usb_gadget.c:210-336 | a recognised mask yields exactly one configuration whose references name the row's ids in the row's order, and the row's product id |
| Translator.BuiltRefsDistinct | hw/usb_gadget/usb_gadget.c:317-336 | no configuration references a function twice |
| Translator.BuiltDefaults | hw/usb_gadget/usb_gadget.c:100-158 | vendor 0x04e8, bcdDevice 0xffff, class, subclass and protocol 0, one US English string set "Samsung"/"TIZEN"/"01234TEST", and every configuration 0xC0, 500 mA with no live string |
| Translator.ScenarioSdb | hw/usb_gadget/usb_gadget.c:211-216 | SDB gives [SDB] with product 0x685d |
| Translator.ScenarioMtpAcmSdb | hw/usb_gadget/usb_gadget.c:229-236 | MTP, ACM and SDB gives [MTP, ACM, SDB] with product 0x6860 |
| Translator.ScenarioRndisSdb | hw/usb_gadget/usb_gadget.c:247-253 | RNDIS and SDB gives [RNDIS, SDB] with product 0x6864 |
| Translator.UnknownMasks | hw/usb_gadget/usb_gadget.c:286-291 | masks with no case, such as ACM alone, MTP with SDB, or 0, are refused |
| CfsFunctions.MatchFunc | hw/usb_cfs_client/usb_cfs_client.c:168-194 | a kernel function matches on equal name and instance; for "ffs", the text before the first '.' is the name and the non-empty text after it is the instance |
| CfsFunctions.ServiceKeyMatches | hw/usb_cfs_client/usb_cfs_client.c:168-194 | a function with a service is found again under its "ffs" name.instance key |
| CfsFunctions.KeyMatches | hw/usb_cfs_client/usb_cfs_client.c:168-194 | every function is found again under the key it is created with |
| CfsFunctions.FirstMatch | hw/usb_cfs_client/usb_cfs_client.c:197-206 | the first matching registry index, or none when nothing matches |
| CfsFunctions.FindFunc | hw/usb_cfs_client/usb_cfs_client.c:197-206 | the first matching index or -ENOENT, exactly when nothing matches |
| CfsFunctions.AllocNewFunc | hw/usb_cfs_client/usb_cfs_client.c:208-224 | a clone of the first match; -ENOTSUP exactly when the registry has no match |
| CfsFunctions.FindFuncInGadget | hw/usb_cfs_client/usb_cfs_client.c:255-265 | the first matching gadget function, or the terminator |
| CfsFunctions.IsFunctionSupported | hw/usb_cfs_client/usb_cfs_client.c:488-508 | a function with a service is always accepted; a kernel function exactly when libusbg knows its type |
| CfsFunctions.IsGadgetSupported | hw/usb_cfs_client/usb_cfs_client.c:510-539 | true exactly when the gadget and its tables exist, it has a configuration, every configuration has a reference array and every referenced function is supported |
| CfsBackend.ConfigFs.SetGadgetAttrs | hw/usb_cfs_client/usb_cfs_client.c:541-561 | the attributes change only on success; the call is journalled |
| CfsBackend.ConfigFs.SetGadgetStr | hw/usb_cfs_client/usb_cfs_client.c:563-587 | one string of one LANGID changes only on success |
| CfsBackend.ConfigFs.RemoveConfig | hw/usb_cfs_client/usb_cfs_client.c:687-694 | the configuration disappears only on success |
| CfsBackend.ConfigFs.CreateConfig | hw/usb_cfs_client/usb_cfs_client.c:696-701 | creating an existing id fails; success adds an empty configuration with the given attributes |
| CfsBackend.ConfigFs.SetConfigString | hw/usb_cfs_client/usb_cfs_client.c:703-710 | one configuration string changes only on success |
| CfsBackend.ConfigFs.CreateFunction | hw/usb_cfs_client/usb_cfs_client.c:741-750 | creating an existing function fails; success appends it |
| CfsBackend.ConfigFs.AddConfigFunction | hw/usb_cfs_client/usb_cfs_client.c:771-775 | success appends one binding to the configuration |
| CfsBackend.ConfigFs.EnableGadget | hw/usb_cfs_client/usb_cfs_client.c:833-837 | success sets the enabled flag |
| CfsBackend.ConfigFs.MakeDir | hw/usb_cfs_client/usb_cfs_client.c:589-598 | mkdir fails with errno EEXIST exactly for an existing directory; success adds the directory |
| CfsBackend.ConfigFs.MountFfs | hw/usb_cfs_client/usb_cfs_client.c:654-658 | success mounts the FunctionFS instance at the path |
| CfsBackend.ConfigFs.Unmount | hw/usb_cfs_client/usb_cfs_client.c:667-669 | on success the mount point is gone; on failure -1 and the mounts are unchanged; the call is journalled with its outcome |
| CfsBackend.ConfigFs.StartSocket | hw/usb_cfs_client/usb_cfs_client.c:660-664 | success records the started socket |
| CfsApply.SetAttrs | hw/usb_cfs_client/usb_cfs_client.c:541-561 | the device descriptor is replaced only on success |
| CfsApply.StrsAfterReads | hw/usb_cfs_client/usb_cfs_client.c:563-587 | writing a string set changes only its LANGID, and only the strings present |
| CfsApply.SetStrs | hw/usb_cfs_client/usb_cfs_client.c:563-587 | manufacturer, product and serial are written in order, each when present, stopping at the first failure; success yields the string map with the set applied |
| CfsApply.EnsureDir | hw/usb_cfs_client/usb_cfs_client.c:589-598 | an existing directory is success; any other mkdir failure is returned positive, as written |
| CfsApply.MakeFfsDirs | hw/usb_cfs_client/usb_cfs_client.c:600-652 | creates the base, name and instance directories in order; -ENAMETOOLONG exactly when the mount point path does not fit; mkdir failures are ignored as written |
| CfsApply.MountService | hw/usb_cfs_client/usb_cfs_client.c:654-669 | mounts, then starts the socket; on failure no socket is recorded, and the journal's last events tell the outcome: a failed mount leaves the mounts as before; a socket that did not start is followed by an unmount, which leaves the mounts without `path` when it succeeds and with `path` still mounted when it fails |
| CfsApply.PrepFfsService | hw/usb_cfs_client/usb_cfs_client.c:600-670 | success leaves the instance mounted and the socket started; failure starts no socket; a path that does not fit leaves the mounts as before; otherwise the journal's last events tell the outcome: a failed mount leaves the mounts as before, and a socket that did not start is followed by an unmount that removes the mount point, or leaves it mounted when the unmount fails; only the three FunctionFS directories are ever added |
| CfsApply.MaxPowerByte | hw/usb_cfs_client/usb_cfs_client.c:676-679 | bMaxPower is MaxPower halved, in 2 mA units |
| CfsApply.StrMapAfterReads | hw/usb_cfs_client/usb_cfs_client.c:703-710 | after the configuration strings are written, each LANGID holds the text of its last entry, and other LANGIDs keep theirs |
| CfsApply.Keys | hw/usb_cfs_client/usb_cfs_client.c:718-741 | each reference is bound under the configfs key of the function it names |
| CfsApply.SetConfigStrings | hw/usb_cfs_client/usb_cfs_client.c:703-710 | writes the configuration's strings in order until one fails; nothing but that configuration's strings changes |
| CfsApply.BindFunction | hw/usb_cfs_client/usb_cfs_client.c:712-775 | -ENAMETOOLONG before any call when the instance does not fit; a function already present is reused with no directory, mount or socket change; an absent one is created once and, for a FunctionFS function, its service then prepared; success appends one binding |
| CfsApply.BindFunctions | hw/usb_cfs_client/usb_cfs_client.c:712-776 | success binds exactly the keys of the references in order; functions are only ever appended |
| CfsApply.MakeConfig | hw/usb_cfs_client/usb_cfs_client.c:687-710 | an existing configuration at the id is removed and created afresh with the attributes and strings of the gadget's configuration and no bindings; other configurations untouched |
| CfsApply.SetGadgetConfig | hw/usb_cfs_client/usb_cfs_client.c:672-779 | an empty list is -EINVAL with nothing changed; success leaves the configuration at that id as written from the gadget (attributes, strings, bindings), other configurations untouched |
| CfsApply.CleanupLeftConfigs | hw/usb_cfs_client/usb_cfs_client.c:781-797 | when configuration N exists, success removes every configuration after N and keeps every one up to N; nothing else changes |
| CfsApply.PositiveLangs | hw/usb_cfs_client/usb_cfs_client.c:819-823 | the string sets written are those before the first LANGID that is not positive |
| CfsApply.StrsAfterAllOther | hw/usb_cfs_client/usb_cfs_client.c:819-823 | a LANGID no written set names keeps its strings |
| CfsApply.SetStrTable | hw/usb_cfs_client/usb_cfs_client.c:819-823 | every set before the terminator is written in order; success yields all of them applied |
| CfsApply.WrittenUpToStep | hw/usb_cfs_client/usb_cfs_client.c:825-830 | writing configuration i+1 while keeping every other id extends the written prefix 1..i to 1..i+1 |
| CfsApply.SetConfigs | hw/usb_cfs_client/usb_cfs_client.c:825-830 | success leaves configuration k holding the k-th configuration for every k from 1 to N |
| CfsApply.EnableAndCleanup | hw/usb_cfs_client/usb_cfs_client.c:832-839 | success enables the gadget and leaves exactly the configurations up to N |
| CfsApply.ReconfigureGadget | hw/usb_cfs_client/usb_cfs_client.c:799-846 | an unsupported gadget is -EINVAL with no backend call; otherwise the journal runs attributes, strings, configurations, enable, cleanup in that order, stopping at the first failure with no rollback; success leaves the gadget applied; functions are only appended |
| CfsApply.ApplyGadget | hw/usb_cfs_client/usb_cfs_client.c:815-845 | the supported-gadget half of the reconfiguration, with the same journal and result |
| CfsApply.ApplyHead | hw/usb_cfs_client/usb_cfs_client.c:815-823 | on success the device attributes are the gadget's and the string sets before the first non-positive LANGID are written in order; the journal covers phases 0 and 1 |
| CfsApply.ApplyConfigs | hw/usb_cfs_client/usb_cfs_client.c:825-839 | on success exactly configurations 1..N hold the written configurations and the gadget is bound; the journal covers phases 2 to 4 |
| CfsApply.LeastId | hw/usb_cfs_client/usb_cfs_client.c:350-380 | a non-empty set of configuration ids has a least member |
| CfsRead.Least | hw/usb_cfs_client/usb_cfs_client.c:350-380 | the least configuration id |
| CfsRead.SortedIds | hw/usb_cfs_client/usb_cfs_client.c:350-380 | the configuration ids, one entry per id |
| CfsRead.SortedIdsMeans | hw/usb_cfs_client/usb_cfs_client.c:350-380 | the ids are listed in strictly ascending order and every id is listed |
| CfsRead.ConfigsInOrder | hw/usb_cfs_client/usb_cfs_client.c:350-380 | the live configurations in ascending id order |
| CfsRead.ReadFuncsOk | hw/usb_cfs_client/usb_cfs_client.c:226-253 | a successful read has one registry function per live function, each matching its key |
| CfsRead.ReadFuncsAt | hw/usb_cfs_client/usb_cfs_client.c:226-253 | after a successful read, the function at position i is the registry entry that directory i stands for |
| CfsRead.ReadFuncsErr | hw/usb_cfs_client/usb_cfs_client.c:226-253 | the read fails, with -ENOTSUP, exactly when some live function has no registry match |
| CfsRead.ReadFuncsErrPrefix | hw/usb_cfs_client/usb_cfs_client.c:226-253 | the first failing function decides the error |
| CfsRead.ReadRefsAt | hw/usb_cfs_client/usb_cfs_client.c:294-338 | after a successful resolution, reference i is the first gadget function binding i matches |
| CfsRead.ReadRefsMeans | hw/usb_cfs_client/usb_cfs_client.c:294-338 | each binding resolves to the first gadget function it matches; resolution fails exactly when a binding matches none |
| CfsRead.ReadConfigsMeans | hw/usb_cfs_client/usb_cfs_client.c:350-380 | a successful read has one configuration per live configuration, each read on its own; it fails exactly when one fails |
| CfsRead.ReadConfigsErrPrefix | hw/usb_cfs_client/usb_cfs_client.c:350-380 | the first failing configuration decides the error |
| CfsRead.ReadGadgetShape | hw/usb_cfs_client/usb_cfs_client.c:402-486 | the read gadget has the live device descriptor, the US English strings, one registry function per live function, and one configuration per live id in ascending order with bmAttributes, MaxPower doubled and its bindings; references stay in range |
| CfsRead.ReadConfigOf | hw/usb_cfs_client/usb_cfs_client.c:294-338 | the loop over bindings computes the configuration read |
| CfsRead.ReadRefsNonePrefix | hw/usb_cfs_client/usb_cfs_client.c:294-338 | a binding with no match fails the whole configuration |
| CfsRead.ReadFuncsOf | hw/usb_cfs_client/usb_cfs_client.c:226-253 | the loop over function directories computes the read of functions, stopping at the first unknown one |
| CfsRead.ReadConfigsOf | hw/usb_cfs_client/usb_cfs_client.c:350-380 | the loop over configuration directories computes the read of configurations, stopping at the first failure |
| CfsRead.GetCurrentGadget | hw/usb_cfs_client/usb_cfs_client.c:402-486 | the loops over functions and configurations compute the gadget read |
| CfsRoundTrip.KeysIdentifyFirst | hw/usb_cfs_client/usb_cfs_client.c:168-194 | when keys identify functions, every function is the first match of its own key |
| CfsRoundTrip.ReadRefsOfKeys | hw/usb_cfs_client/usb_cfs_client.c:294-338 | the bindings written for references resolve back to the same references |
| CfsRoundTrip.ReadWrittenConfig | hw/usb_cfs_client/usb_cfs_client.c:294-338 | a configuration written then read gives back its references and bmAttributes, an even MaxPower below 512, and its last US English string |
| CfsRoundTrip.ReadStrsAfterWrite | hw/usb_cfs_client/usb_cfs_client.c:125-166 | a complete US English string set written is read back |
| CfsRoundTrip.RangeCard | hw/usb_cfs_client/usb_cfs_client.c:382-390 | configurations 1 to N are N configurations |
| CfsRoundTrip.IncreasingRange | hw/usb_cfs_client/usb_cfs_client.c:350-380 | N ascending ids between 1 and N are 1..N |
| CfsRoundTrip.SortedRange | hw/usb_cfs_client/usb_cfs_client.c:350-380 | configurations 1..N are read in id order |
| CfsRoundTrip.ReadBackConfig | hw/usb_cfs_client/usb_cfs_client.c:294-338 | each read reference matches the key of the function written at that position |
| CfsRoundTrip.ReadBackApplied | hw/usb_cfs_client/usb_cfs_client.c:402-486 | after a successful apply, reading back gives the same attributes, the same number of configurations, the same bmAttributes and reference counts, references matching the written functions, and the last complete US English string set |
| Pipeline.BuiltSupported | hw/usb_cfs_client/usb_cfs_client.c:510-539 | every gadget the translator builds passes the configfs support check when libusbg knows the registry's types |
| LegacyParse.DigitValue | hw/usb_client/usb_client.c:75 | digit characters are worth 0 to 35, letters in either case |
| LegacyParse.Strtol | hw/usb_client/usb_client.c:75 | leading white space, an optional sign, the base from the prefix, then the digit run, clamped to the long range; no digits consumes nothing |
| LegacyParse.ParseInt | hw/usb_client/usb_client.c:64-83 | a rejection is -EINVAL; an accepted text is not empty and its value fits an int |
| LegacyParse.DecimalRoundTrip | hw/usb_client/usb_client.c:64-83 | a decimal number up to INT_MAX, alone or before a newline, is accepted as itself |
| LegacyParse.PrefixedHexRoundTrip | hw/usb_client/usb_client.c:75 | "0x" and hexadecimal digits parse as hexadecimal |
| LegacyParse.NegativeRoundTrip | hw/usb_client/usb_client.c:64-83 | a minus sign negates, down to INT_MIN |
| LegacyParse.AboveIntMaxRejected | hw/usb_client/usb_client.c:76-79 | values above INT_MAX are rejected |
| LegacyParse.TrailingRejected | hw/usb_client/usb_client.c:76-79 | any trailing character other than a newline is rejected |
| LegacyParse.EmptyAndNewline | hw/usb_client/usb_client.c:76-79 | empty text is rejected; a lone newline reads as 0 |
| LegacyParse.UnprefixedHexRejected | hw/usb_client/usb_client.c:395-409 | hexadecimal written without a prefix, as 0x04e8 is, does not parse back |
| LegacyClient.KeyFiles.Get | hw/usb_client/usb_client.c:71-73 | a key's text, or -ENOENT for a missing key |
| LegacyClient.KeyFiles.Set | hw/usb_client/usb_client.c:404-406 | success sets the key's text; failure is negative and changes nothing |
| LegacyClient.FirstNamed | hw/usb_client/usb_client.c:137-146 | the first function of that name, or none when no function has it |
| LegacyClient.FindFunc | hw/usb_client/usb_client.c:137-146 | the first registry index of the name, or -1 |
| LegacyClient.FindFuncInGadget | hw/usb_client/usb_client.c:148-157 | the first gadget function of the name, or the terminator |
| LegacyClient.IsFunctionSupported | hw/usb_client/usb_client.c:339-353 | a function is supported exactly when the registry has its name |
| LegacyClient.IsGadgetSupported | hw/usb_client/usb_client.c:355-392 | true exactly when the gadget and its tables exist, its strings, when present, are one US English set, no configuration has a string, every configuration has a reference array naming registry functions, and there are one or two configurations |
| LegacyClient.TrailingJoin | hw/usb_client/usb_client.c:480-492 | the names printed each with a separator are the joined names plus one separator |
| LegacyClient.TrailingPrefix | hw/usb_client/usb_client.c:480-490 | the text printed so far never exceeds the whole text, so an early overflow means the whole does not fit |
| LegacyClient.FormatConfig | hw/usb_client/usb_client.c:466-496 | the buffer loop yields the names joined by ',' with no trailing separator, or -EOVERFLOW exactly when the names, each printed with a trailing ',', plus the terminator exceed 256 bytes (a joined text of 255 bytes or more) |
| LegacyClient.SlotRoundTrip | hw/usb_client/usb_client.c:224-243 | a slot written for a configuration splits back into its names, one more than its separators; a slot written with a newline reads as no configuration |
| LegacyClient.SetIntHex | hw/usb_client/usb_client.c:395-409 | writes the value in lower-case hexadecimal without a prefix; a negative result is returned, else 0 |
| LegacyClient.SetGadgetAttrs | hw/usb_client/usb_client.c:411-438 | class, subclass and protocol in decimal, then vendor, product and bcdDevice in hexadecimal, in that order, stopping at the first failure with the earlier writes kept |
| LegacyClient.SetGadgetStrs | hw/usb_client/usb_client.c:440-464 | manufacturer, then product, each only when present; the serial never |
| LegacyClient.SetGadgetConfig | hw/usb_client/usb_client.c:466-496 | a NULL configuration writes a newline; otherwise the joined names, or -EOVERFLOW with nothing written |
| LegacyClient.RanThen | hw/usb_client/usb_client.c:498-523 | a complete run of writes followed by another is one run |
| LegacyClient.RanStopped | hw/usb_client/usb_client.c:498-523 | a run cut short by a failure stays cut short |
| LegacyClient.SetHead | hw/usb_client/usb_client.c:506-514 | the attribute writes, then the first string set's writes |
| LegacyClient.SetSlots | hw/usb_client/usb_client.c:516-522 | slot 1 from the first configuration, then slot 2 from the second or a newline |
| LegacyClient.ReconfigureGadget | hw/usb_client/usb_client.c:498-523 | an unsupported gadget is -EINVAL with no write; otherwise the planned writes in order until the first failure, with the earlier writes kept; the controller is not enabled |
| LegacyClient.Enable | hw/usb_client/usb_client.c:525-529 | "1" to the enable key |
| LegacyClient.Disable | hw/usb_client/usb_client.c:531-535 | "0" to the enable key |
| LegacyClient.GetIntFromFile | hw/usb_client/usb_client.c:64-83 | a read error is returned; otherwise the strict parse of the key's text |
| LegacyClient.ReadGadgetAttrsStrs | hw/usb_client/usb_client.c:85-135 | the six integer keys in order, then the three strings, failing with the first error, as written with the product id stored into idVendor |
| LegacyClient.CountFuncs | hw/usb_client/usb_client.c:228-233 | the number of functions is the number of separators plus one |
| LegacyClient.AllocNewFunc | hw/usb_client/usb_client.c:193-209 | a clone of the registry function of that name; -ENOTSUP exactly when there is none |
| LegacyClient.ReadConfig | hw/usb_client/usb_client.c:211-264 | the count and split loops compute the slot read: an error, no configuration for an empty or abandoned slot, or the references up to the first name not found |
| LegacyClient.LookUpNames | hw/usb_client/usb_client.c:241-256 | the lookup loop fills a NULL-initialised array with each name's reference in order, a name found nowhere leaving NULL, or abandons the configuration at a name only the registry knows; the result is the array up to its first NULL |
| LegacyClient.UpToNull | hw/usb_client/usb_client.c:383-384 | a NULL-terminated list, as its readers walk it: the entries before the first NULL, all of them when there is none |
| LegacyClient.GetCurrentGadget | hw/usb_client/usb_client.c:266-337 | attributes and strings, then slot 1, then slot 2, resolved against an empty function table |
| LegacyProps.LastWriteWins | hw/usb_client/usb_client.c:498-523 | the last write of a key decides its text |
| LegacyProps.Untouched | hw/usb_client/usb_client.c:498-523 | keys no write names keep their text |
| LegacyProps.OneConfigClearsSlot2 | hw/usb_client/usb_client.c:520 | a one-configuration gadget ends by writing a newline to the second slot |
| LegacyProps.AppliedKeepsSerialAndEnable | hw/usb_client/usb_client.c:440-464 | a complete reconfiguration never writes the serial string or the enable key |
| LegacyProps.PlanAttrKeys | hw/usb_client/usb_client.c:415-427 | class, subclass, protocol and vendor are the first four writes, each written once |
| LegacyProps.AppliedClassReadsBack | hw/usb_client/usb_client.c:415-425 | class, subclass and protocol written in decimal read back as written |
| LegacyProps.AppliedVendorUnreadable | hw/usb_client/usb_client.c:427 | a vendor of 0x04e8 written without a prefix makes reading the attributes, and the gadget, fail with -EINVAL |
| LegacyProps.SupportedSlotAbandoned | hw/usb_client/usb_client.c:245-255 | a slot holding a supported configuration splits into names the registry knows, so the read abandons it |
| LegacyProps.AppliedSlotsReadEmpty | hw/usb_client/usb_client.c:245-255 | after a successful reconfiguration both slots read as no configuration, so the gadget reads back with none |
| LegacyProps.ReadSlotMeans | hw/usb_client/usb_client.c:245-255 | a slot keeps its configuration exactly when none of its names is a registry function, and the configuration it keeps lists no function, because the first name stores NULL |
| LegacyProps.ReadAttrsAsWritten | hw/usb_client/usb_client.c:99-104 | idVendor is the idProduct key's value cast to 16 bits, idProduct is 0, and the vendor key must still parse |
| LegacyProps.ReadSlotKept | hw/usb_client/usb_client.c:159-264 | a kept configuration has 0xC0 and 500 mA and lists no function |
| LegacyProps.ReadGadgetShape | hw/usb_client/usb_client.c:266-337 | the read gadget has an empty function table, at most two configurations with the legacy defaults and no function, idProduct 0 and one US English set; it always satisfies the reference invariant |
| LegacyProps.BuiltLegacySupported | hw/usb_client/usb_client.c:355-392 | every gadget the translator builds passes the legacy validator with non-empty configurations |
| LegacyProps.BuiltAppliedUnreadable | hw/usb_client/usb_client.c:99-104 | a translated gadget written completely through the legacy client reads back as -EINVAL |

## Left out

- Module open and close, HAL registration, `usbg_init`, UDC discovery and the `access()` probe are not modelled. They are library and bus plumbing.
- The real filesystem, mount, systemd socket activation and the `sys_get_str`/`sys_set_str` helpers are not modelled beyond their results. The helpers live in a shared file that is not part of this model. A write either stores the text or fails with a negative code; a read returns the stored text or `-ENOENT`.
- `sys_set_int` is taken to write decimal text.
- Truncation of a read to the caller's buffer is not modelled: 37 bytes for integers, 256 for strings and slots.
- `malloc`/`free` are not modelled, and neither are the goto unwind chains of the clients. Three unwind paths are unsound as written. One frees the slot that failed (`usb_cfs_client.c:247-250`). One frees the current configuration twice (`usb_cfs_client.c:372-378`). The third reads through a NULL first configuration (`usb_client.c:317-320`): slot 1 reads as no configuration and the read of slot 2 then fails. `LegacyClient.GetCurrentGadget` returns the error code there. Allocation failure is modelled only in the translator, as an allocation budget, because its outcome there is visible.
- Translator.CloneFunctions: each clone is charged to the allocation budget, so a failed clone makes `Translator.IdToGadget` return -ENOMEM. As written, the error code is the clone's own (`usb_gadget.c:311-313`); the clone routines are not part of this model.
- LegacyClient.AllocNewFunc: a clone of a registry function is taken to succeed. The clone routines are not part of this model.
- CfsFunctions.AllocNewFunc: a clone of a registry function is taken to succeed, for the same reason.
- CfsApply.CleanupLeftConfigs: the library's configuration list is taken in ascending id order, so exactly the configurations above N are removed. libusbg sorts that list by directory name (`<label>.<id>`), so `hal-config.10` comes before `hal-config.2`, and a cleanup after configuration 2 then keeps configuration 10. That order is not modelled.
- CfsRead.ConfigsInOrder: configurations are read in ascending id order. libusbg yields them in directory-name order, which differs once an id reaches 10 or labels differ; that order is not modelled.
- CfsRead.ReadFuncs: functions are read in the order configfs created them. libusbg yields them in directory-name order (`<type>.<instance>`); that order is not modelled.
- Logging is not modelled.
- `cfs_enable`, `cfs_disable` and the free routines of both clients are not modelled; they are outside the modelled operations.
- The LED, battery, display, thermal and board modules are not modelled.
- LegacyClient.ReconfigureGadget, CfsApply.ReconfigureGadget, CfsRead.GetCurrentGadget: the `NULL` handle checks (usb_client.c:503, and usb_cfs_client.c:414-415 and 806-807) are not modelled, because the client object is not modelled.
- LegacyClient.FormatConfig: a configuration with no function is excluded by precondition. As written, it writes one byte before the buffer.
- LegacyClient.GetCurrentGadget: the `MAX_FUNCS` bound on the function table is not modelled; the table stays empty.
- CfsBackend.ConfigFs.AddConfigFunction: may succeed when the same function is already bound to the configuration, where libusbg's symlink would fail with EEXIST. No success-path property depends on this, and the apply engine never binds one function twice to one configuration unless the gadget lists it twice.
- LegacyParse.Strtol: only the ASCII white space of `isspace` in the C locale is modelled.
- LegacyParse.Strtol: `long` is taken to be 64 bits wide (LP64). With a 32-bit `long`, LONG_MAX equals INT_MAX, so the LONG_MAX and LONG_MIN tests of usb_client.c:76-78 would also reject "2147483647" and INT_MIN; `DecimalRoundTrip` and `NegativeRoundTrip` hold only on LP64.
- CfsRead.GetCurrentGadget: one library-read failure is modelled: a missing US English string table gives the error of `usbg_get_gadget_strs`. The other libusbg readers (attributes, configuration attributes and strings, bindings, enumeration) are taken to succeed.
- CfsApply.ReconfigureGadget: the lookups `usbg_get_config` and `usbg_get_function` are modelled as reads of the backend state. Only the calls that change state can fail.
