/** The state the configfs client drives, as seen through libusbg and the
    system calls it makes: one gadget directory with its attributes, string
    directories per LANGID, function directories, configurations keyed by
    id, the UDC binding, plus the FunctionFS directories, mounts and started
    sockets. Every call that writes may fail; the ghost journal records each
    call and whether it succeeded. */
module CfsBackend {
  import opened Base
  import opened Descriptor
  import opened CfsFunctions

  /** libusbg's USBG_ERROR_NOT_FOUND. */
  const UsbgErrorNotFound: int := -4

  /** The gadget attributes libusbg reads and writes; the client only ever
      changes the `device` part. */
  datatype UsbgAttrs = UsbgAttrs(bcdUSB: u16, bMaxPacketSize0: u8, device: Attrs)

  datatype UsbgStrs = UsbgStrs(manufacturer: string, product: string, serial: string)

  datatype StrId = Manufacturer | Product | Serial

  /** A configuration directory: name, attributes, strings per LANGID and
      the functions bound into it, in binding order. */
  datatype LiveConfig = LiveConfig(name: string, bmAttributes: u8, bMaxPower: u8, strs: map<int, string>, bindings: seq<FuncKey>)

  datatype Op =
    | SetAttrs
    | SetStr(lang: int, which: StrId)
    | RmConfig(id: int)
    | CreateConfig(id: int)
    | SetConfigStr(id: int, lang: int)
    | CreateFunction(key: FuncKey)
    | MkDir(path: string)
    | Mount(path: string)
    | StartSocket(name: string)
    | Umount(path: string)
    | Bind(id: int, key: FuncKey)
    | Enable

  datatype Event = Event(op: Op, ok: bool)

  /** One string of a string directory replaced. */
  function WithStr(s: UsbgStrs, which: StrId, text: string): UsbgStrs
  {
    match which
    case Manufacturer => s.(manufacturer := text)
    case Product => s.(product := text)
    case Serial => s.(serial := text)
  }

  /** A string directory that does not exist yet reads as empty strings. */
  function StrsOf(m: map<int, UsbgStrs>, lang: int): UsbgStrs
  {
    if lang in m then m[lang] else UsbgStrs("", "", "")
  }

  class ConfigFs {
    var attrs: UsbgAttrs
    var strs: map<int, UsbgStrs>
    var funcs: seq<FuncKey>
    var configs: map<int, LiveConfig>
    var enabled: bool
    var dirs: set<string>
    var mounts: map<string, string>
    var sockets: set<string>
    ghost var journal: seq<Event>

    /** Configuration ids are positive, each function directory exists once,
        and every binding targets an existing function. */
    predicate Valid()
      reads this
    {
      && (forall id :: id in configs ==> id >= 1)
      && NoDup(funcs)
      && (forall id, k :: id in configs && k in configs[id].bindings ==> k in funcs)
    }

    /** `usbg_set_gadget_attrs`. */
    method SetGadgetAttrs(a: UsbgAttrs) returns (ret: int)
      modifies this`attrs, this`journal
      ensures ret <= 0
      ensures attrs == (if ret == 0 then a else old(attrs))
      ensures journal == old(journal) + [Event(SetAttrs, ret == 0)]
    {
      var ok: bool :| true;
      if ok {
        attrs := a;
        ret := 0;
      } else {
        ret :| ret < 0;
      }
      journal := journal + [Event(SetAttrs, ok)];
    }

    /** `usbg_set_gadget_str`: creates the LANGID directory when needed. */
    method SetGadgetStr(which: StrId, lang: int, text: string) returns (ret: int)
      modifies this`strs, this`journal
      ensures ret <= 0
      ensures strs == (if ret == 0 then old(strs)[lang := WithStr(StrsOf(old(strs), lang), which, text)] else old(strs))
      ensures journal == old(journal) + [Event(SetStr(lang, which), ret == 0)]
    {
      var ok: bool :| true;
      if ok {
        strs := strs[lang := WithStr(StrsOf(strs, lang), which, text)];
        ret := 0;
      } else {
        ret :| ret < 0;
      }
      journal := journal + [Event(SetStr(lang, which), ok)];
    }

    /** `usbg_rm_config` with USBG_RM_RECURSE: the configuration goes with
        its strings and bindings; the bound functions stay. */
    method RemoveConfig(id: int) returns (ret: int)
      modifies this`configs, this`journal
      ensures ret <= 0
      ensures configs == (if ret == 0 then old(configs) - {id} else old(configs))
      ensures journal == old(journal) + [Event(RmConfig(id), ret == 0)]
    {
      var ok: bool :| true;
      if ok {
        configs := configs - {id};
        ret := 0;
      } else {
        ret :| ret < 0;
      }
      journal := journal + [Event(RmConfig(id), ok)];
    }

    /** `usbg_create_config`: fails when the id is taken. */
    method CreateConfig(id: int, name: string, bmAttributes: u8, bMaxPower: u8) returns (ret: int)
      modifies this`configs, this`journal
      ensures ret <= 0
      ensures id in old(configs) ==> ret != 0
      ensures configs == (if ret == 0 then old(configs)[id := LiveConfig(name, bmAttributes, bMaxPower, map[], [])] else old(configs))
      ensures journal == old(journal) + [Event(Op.CreateConfig(id), ret == 0)]
    {
      var ok: bool :| id !in configs || !ok;
      if ok {
        configs := configs[id := LiveConfig(name, bmAttributes, bMaxPower, map[], [])];
        ret := 0;
      } else {
        ret :| ret < 0;
      }
      journal := journal + [Event(Op.CreateConfig(id), ok)];
    }

    /** `usbg_set_config_string`. */
    method SetConfigString(id: int, lang: int, text: string) returns (ret: int)
      requires id in configs
      modifies this`configs, this`journal
      ensures ret <= 0
      ensures configs == (if ret == 0 then old(configs)[id := old(configs)[id].(strs := old(configs)[id].strs[lang := text])] else old(configs))
      ensures journal == old(journal) + [Event(SetConfigStr(id, lang), ret == 0)]
    {
      var ok: bool :| true;
      if ok {
        configs := configs[id := configs[id].(strs := configs[id].strs[lang := text])];
        ret := 0;
      } else {
        ret :| ret < 0;
      }
      journal := journal + [Event(SetConfigStr(id, lang), ok)];
    }

    /** `usbg_create_function`: fails when the function exists. */
    method CreateFunction(key: FuncKey) returns (ret: int)
      modifies this`funcs, this`journal
      ensures ret <= 0
      ensures key in old(funcs) ==> ret != 0
      ensures funcs == (if ret == 0 then old(funcs) + [key] else old(funcs))
      ensures journal == old(journal) + [Event(Op.CreateFunction(key), ret == 0)]
    {
      var ok: bool :| key !in funcs || !ok;
      if ok {
        funcs := funcs + [key];
        ret := 0;
      } else {
        ret :| ret < 0;
      }
      journal := journal + [Event(Op.CreateFunction(key), ok)];
    }

    /** `usbg_add_config_function`. */
    method AddConfigFunction(id: int, key: FuncKey) returns (ret: int)
      requires id in configs
      modifies this`configs, this`journal
      ensures ret <= 0
      ensures configs == (if ret == 0 then old(configs)[id := old(configs)[id].(bindings := old(configs)[id].bindings + [key])] else old(configs))
      ensures journal == old(journal) + [Event(Bind(id, key), ret == 0)]
    {
      var ok: bool :| true;
      if ok {
        configs := configs[id := configs[id].(bindings := configs[id].bindings + [key])];
        ret := 0;
      } else {
        ret :| ret < 0;
      }
      journal := journal + [Event(Bind(id, key), ok)];
    }

    /** `usbg_enable_gadget`: binds the gadget to the UDC. */
    method EnableGadget() returns (ret: int)
      modifies this`enabled, this`journal
      ensures ret <= 0
      ensures enabled == (if ret == 0 then true else old(enabled))
      ensures journal == old(journal) + [Event(Enable, ret == 0)]
    {
      var ok: bool :| true;
      if ok {
        enabled := true;
        ret := 0;
      } else {
        ret :| ret < 0;
      }
      journal := journal + [Event(Enable, ok)];
    }

    /** `mkdir`: -1 with `errno`; an existing directory gives EEXIST. */
    method MakeDir(path: string) returns (ret: int, errno: int)
      modifies this`dirs, this`journal
      ensures ret == 0 || ret == -1
      ensures ret == -1 ==> errno > 0
      ensures path in old(dirs) ==> ret == -1
      ensures ret == -1 ==> (errno == EEXIST <==> path in old(dirs))
      ensures dirs == (if ret == 0 then old(dirs) + {path} else old(dirs))
      ensures journal == old(journal) + [Event(MkDir(path), ret == 0)]
    {
      var ok: bool :| path !in dirs || !ok;
      errno := 0;
      if ok {
        dirs := dirs + {path};
        ret := 0;
      } else {
        ret := -1;
        if path in dirs {
          errno := EEXIST;
        } else {
          errno :| errno > 0 && errno != EEXIST;
        }
      }
      journal := journal + [Event(MkDir(path), ok)];
    }

    /** `mount` of a FunctionFS instance: -1 on failure. */
    method MountFfs(dev: string, path: string) returns (ret: int)
      modifies this`mounts, this`journal
      ensures ret == 0 || ret == -1
      ensures mounts == (if ret == 0 then old(mounts)[path := dev] else old(mounts))
      ensures journal == old(journal) + [Event(Mount(path), ret == 0)]
    {
      var ok: bool :| true;
      if ok {
        mounts := mounts[path := dev];
        ret := 0;
      } else {
        ret := -1;
      }
      journal := journal + [Event(Mount(path), ok)];
    }

    /** `umount`: -1 on failure, and then the mount stays. */
    method Unmount(path: string) returns (ret: int)
      modifies this`mounts, this`journal
      ensures ret == 0 || ret == -1
      ensures mounts == (if ret == 0 then old(mounts) - {path} else old(mounts))
      ensures journal == old(journal) + [Event(Umount(path), ret == 0)]
    {
      var ok: bool :| true;
      if ok {
        mounts := mounts - {path};
        ret := 0;
      } else {
        ret := -1;
      }
      journal := journal + [Event(Umount(path), ok)];
    }

    /** `systemd_start_socket`: a negative value on failure. */
    method StartSocket(name: string) returns (ret: int)
      modifies this`sockets, this`journal
      ensures ret <= 0
      ensures sockets == (if ret == 0 then old(sockets) + {name} else old(sockets))
      ensures journal == old(journal) + [Event(Op.StartSocket(name), ret == 0)]
    {
      var ok: bool :| true;
      if ok {
        sockets := sockets + {name};
        ret := 0;
      } else {
        ret :| ret < 0;
      }
      journal := journal + [Event(Op.StartSocket(name), ok)];
    }
  }
}
