/** The configfs apply engine: writes a gadget description into the backend
    (attributes, strings, configurations 1..N with their functions), binds the
    gadget to the UDC and deletes configurations left above N. The first
    failing call ends the run and nothing is rolled back. */
module CfsApply {
  import opened Base
  import opened Descriptor
  import opened CfsFunctions
  import opened CfsBackend

  const ConfigLabel: string := "hal-config"
  const MaxInstanceLen: nat := 512
  const UsbFuncsPath: string := "/dev/usb-funcs/"
  const PathMax: nat := 4096
  const LangUsEng: int := 0x409

  // ---------------------------------------------------------------------------
  // The journal of a run

  /** The stage of the apply sequence a call belongs to, for a gadget with
      `n` configurations: attributes, strings, configurations, enable,
      removal of the configurations above `n`. */
  function Phase(op: Op, n: int): nat
  {
    match op
    case SetAttrs => 0
    case SetStr(_, _) => 1
    case Enable => 3
    case RmConfig(id) => if id > n then 4 else 2
    case _ => 2
  }

  /** A failure that ends the run: every failed call except `mkdir`. */
  predicate Stops(e: Event)
  {
    !e.ok && !e.op.MkDir?
  }

  /** A segment of the journal is a well-formed run: the stages of its calls
      lie in `lo..hi` and never go back; after a failure that ends the run
      only unmounts follow; `succeeded` means there is no such failure. */
  predicate Segment(es: seq<Event>, lo: nat, hi: nat, n: int, succeeded: bool)
    decreases |es|
  {
    if es == [] then true
    else
      var e := es[|es| - 1];
      && lo <= Phase(e.op, n) <= hi
      && (succeeded ==> !Stops(e))
      && Segment(es[..|es| - 1], lo, Phase(e.op, n), n, succeeded || !e.op.Umount?)
  }

  /** The calls made between journal `before` and journal `after`. */
  predicate Run(before: seq<Event>, after: seq<Event>, lo: nat, hi: nat, n: int, succeeded: bool)
  {
    |before| <= |after| && after[..|before|] == before && Segment(after[|before|..], lo, hi, n, succeeded)
  }

  /** What a well-formed segment means, call by call. */
  lemma {:induction false} SegmentMeans(es: seq<Event>, lo: nat, hi: nat, n: int, succeeded: bool)
    requires Segment(es, lo, hi, n, succeeded)
    ensures forall i :: 0 <= i < |es| ==> lo <= Phase(es[i].op, n) <= hi
    ensures forall a, b :: 0 <= a < b < |es| ==> Phase(es[a].op, n) <= Phase(es[b].op, n)
    ensures forall a, b :: 0 <= a < b < |es| && Stops(es[a]) ==> es[b].op.Umount?
    ensures succeeded ==> forall i :: 0 <= i < |es| ==> !Stops(es[i])
    decreases |es|
  {
    if es != [] {
      var init := es[..|es| - 1];
      var e := es[|es| - 1];
      SegmentMeans(init, lo, Phase(e.op, n), n, succeeded || !e.op.Umount?);
      forall a, b | 0 <= a < b < |es|
        ensures Phase(es[a].op, n) <= Phase(es[b].op, n)
      {
        if b < |es| - 1 {
          assert es[a] == init[a] && es[b] == init[b];
        } else {
          assert es[a] == init[a];
        }
      }
      forall a, b | 0 <= a < b < |es| && Stops(es[a])
        ensures es[b].op.Umount?
      {
        assert es[a] == init[a];
        if b < |es| - 1 {
          assert es[b] == init[b];
        }
      }
      forall i | 0 <= i < |es| - 1
        ensures lo <= Phase(es[i].op, n) <= hi
      {
        assert es[i] == init[i];
      }
    }
  }

  lemma {:induction false} SegmentWeaken(es: seq<Event>, lo: nat, hi: nat, lo2: nat, hi2: nat, n: int, succeeded: bool)
    requires Segment(es, lo, hi, n, succeeded) && lo2 <= lo && hi <= hi2
    ensures Segment(es, lo2, hi2, n, succeeded)
    decreases |es|
  {
    if es != [] {
      var e := es[|es| - 1];
      SegmentWeaken(es[..|es| - 1], lo, Phase(e.op, n), lo2, Phase(e.op, n), n, succeeded || !e.op.Umount?);
    }
  }

  /** A failure-free segment followed by a segment of later stages. */
  lemma {:induction false} SegmentConcat(xs: seq<Event>, ys: seq<Event>, lo: nat, mid: nat, mid2: nat, hi: nat, n: int, succeeded: bool)
    requires Segment(xs, lo, mid, n, true) && Segment(ys, mid2, hi, n, succeeded)
    requires lo <= mid <= mid2 <= hi
    ensures Segment(xs + ys, lo, hi, n, succeeded)
    decreases |ys|
  {
    if ys == [] {
      assert xs + ys == xs;
      SegmentWeaken(xs, lo, mid, lo, hi, n, true);
      SegmentTrue(xs, lo, hi, n, succeeded);
    } else {
      var e := ys[|ys| - 1];
      var init := ys[..|ys| - 1];
      assert (xs + ys)[..|xs + ys| - 1] == xs + init;
      if init == [] {
        SegmentWeaken(xs, lo, mid, lo, Phase(e.op, n), n, true);
        SegmentTrue(xs, lo, Phase(e.op, n), n, succeeded || !e.op.Umount?);
        assert xs + init == xs;
      } else {
        SegmentConcat(xs, init, lo, mid, mid2, Phase(e.op, n), n, succeeded || !e.op.Umount?);
      }
    }
  }

  /** A failure-free segment is a segment whatever `succeeded` asks. */
  lemma {:induction false} SegmentTrue(es: seq<Event>, lo: nat, hi: nat, n: int, succeeded: bool)
    requires Segment(es, lo, hi, n, true)
    ensures Segment(es, lo, hi, n, succeeded)
    decreases |es|
  {
    if es != [] {
      var e := es[|es| - 1];
      SegmentTrue(es[..|es| - 1], lo, Phase(e.op, n), n, succeeded || !e.op.Umount?);
    }
  }

  lemma RunEmpty(j: seq<Event>, p: nat, n: int)
    ensures Run(j, j, p, p, n, true)
  {
    assert j[|j|..] == [];
  }

  /** One more call of stage `p`, after a run that has not failed, or an
      unmount after one that has. */
  lemma RunAppend(before: seq<Event>, after: seq<Event>, e: Event, lo: nat, p: nat, n: int, succeeded: bool)
    requires Run(before, after, lo, p, n, succeeded)
    requires succeeded || e.op.Umount?
    requires lo <= Phase(e.op, n) == p
    ensures Run(before, after + [e], lo, p, n, succeeded && !Stops(e))
  {
    var es := (after + [e])[|before|..];
    assert es[..|es| - 1] == after[|before|..];
    assert (after + [e])[..|before|] == before;
    if succeeded {
      SegmentTrue(after[|before|..], lo, p, n, !Stops(e) || !e.op.Umount?);
    }
  }

  /** Two runs one after the other, the first one without failure. */
  lemma RunCompose(a: seq<Event>, b: seq<Event>, c: seq<Event>, lo: nat, mid: nat, mid2: nat, hi: nat, n: int, succeeded: bool)
    requires Run(a, b, lo, mid, n, true) && Run(b, c, mid2, hi, n, succeeded)
    requires lo <= mid <= mid2 <= hi
    ensures Run(a, c, lo, hi, n, succeeded)
  {
    assert c[..|b|] == b;
    assert c[..|a|] == b[..|a|];
    assert c[|a|..] == b[|a|..] + c[|b|..];
    SegmentConcat(b[|a|..], c[|b|..], lo, mid, mid2, hi, n, succeeded);
  }

  /** A run without failure is a run whatever `succeeded` asks. */
  lemma RunTrue(a: seq<Event>, b: seq<Event>, lo: nat, hi: nat, n: int, succeeded: bool)
    requires Run(a, b, lo, hi, n, true)
    ensures Run(a, b, lo, hi, n, succeeded)
  {
    SegmentTrue(b[|a|..], lo, hi, n, succeeded);
  }

  lemma RunWeaken(a: seq<Event>, b: seq<Event>, lo: nat, hi: nat, lo2: nat, hi2: nat, n: int, succeeded: bool)
    requires Run(a, b, lo, hi, n, succeeded) && lo2 <= lo && hi <= hi2
    ensures Run(a, b, lo2, hi2, n, succeeded)
  {
    SegmentWeaken(b[|a|..], lo, hi, lo2, hi2, n, succeeded);
  }

  // ---------------------------------------------------------------------------
  // Attributes and strings

  /** `cfs_set_gadget_attrs`: the device fields are replaced, bcdUSB and
      bMaxPacketSize0 are kept as read. */
  method SetAttrs(fs: ConfigFs, a: Attrs) returns (ret: int)
    modifies fs`attrs, fs`journal
    ensures ret <= 0
    ensures fs.attrs == (if ret == 0 then old(fs.attrs).(device := a) else old(fs.attrs))
    ensures fs.journal == old(fs.journal) + [Event(Op.SetAttrs, ret == 0)]
  {
    var current := fs.attrs;
    ret := fs.SetGadgetAttrs(current.(device := a));
  }

  /** The string directories after the non-NULL strings of `s` are written. */
  function StrsAfter(m: map<int, UsbgStrs>, s: Strings): map<int, UsbgStrs>
  {
    var m1 := if s.manufacturer.Some? then m[s.lang := WithStr(StrsOf(m, s.lang), Manufacturer, s.manufacturer.value)] else m;
    var m2 := if s.product.Some? then m1[s.lang := WithStr(StrsOf(m1, s.lang), Product, s.product.value)] else m1;
    if s.serial.Some? then m2[s.lang := WithStr(StrsOf(m2, s.lang), Serial, s.serial.value)] else m2
  }

  /** Writing a string set touches its own LANGID only; there every present
      string is the one written and every absent one keeps its old value. */
  lemma StrsAfterReads(m: map<int, UsbgStrs>, s: Strings)
    ensures forall lang :: lang != s.lang ==> (lang in StrsAfter(m, s) <==> lang in m)
    ensures forall lang :: lang != s.lang && lang in m ==> StrsAfter(m, s)[lang] == m[lang]
    ensures var r := StrsOf(StrsAfter(m, s), s.lang);
      && r.manufacturer == (if s.manufacturer.Some? then s.manufacturer.value else StrsOf(m, s.lang).manufacturer)
      && r.product == (if s.product.Some? then s.product.value else StrsOf(m, s.lang).product)
      && r.serial == (if s.serial.Some? then s.serial.value else StrsOf(m, s.lang).serial)
  {
  }

  /** `cfs_set_gadget_strs`: manufacturer, product and serial, each only when
      present, in that order. */
  method SetStrs(fs: ConfigFs, s: Strings, ghost n: int) returns (ret: int)
    modifies fs`strs, fs`journal
    ensures ret <= 0
    ensures ret == 0 ==> fs.strs == StrsAfter(old(fs.strs), s)
    ensures Run(old(fs.journal), fs.journal, 1, 1, n, ret == 0)
  {
    ghost var j0 := fs.journal;
    ghost var m := fs.strs;
    RunEmpty(j0, 1, n);
    ret := 0;
    if s.manufacturer.Some? {
      ret := fs.SetGadgetStr(Manufacturer, s.lang, s.manufacturer.value);
      RunAppend(j0, j0, Event(SetStr(s.lang, Manufacturer), ret == 0), 1, 1, n, true);
      if ret != 0 {
        return;
      }
    }
    ghost var m1 := fs.strs;
    assert m1 == if s.manufacturer.Some? then m[s.lang := WithStr(StrsOf(m, s.lang), Manufacturer, s.manufacturer.value)] else m;
    ghost var j1 := fs.journal;
    if s.product.Some? {
      ret := fs.SetGadgetStr(Product, s.lang, s.product.value);
      RunAppend(j0, j1, Event(SetStr(s.lang, Product), ret == 0), 1, 1, n, true);
      if ret != 0 {
        return;
      }
    }
    ghost var m2 := fs.strs;
    assert m2 == if s.product.Some? then m1[s.lang := WithStr(StrsOf(m1, s.lang), Product, s.product.value)] else m1;
    ghost var j2 := fs.journal;
    if s.serial.Some? {
      ret := fs.SetGadgetStr(Serial, s.lang, s.serial.value);
      RunAppend(j0, j2, Event(SetStr(s.lang, Serial), ret == 0), 1, 1, n, true);
      if ret != 0 {
        return;
      }
    }
  }

  // ---------------------------------------------------------------------------
  // FunctionFS preparation

  /** `cfs_ensure_dir`: `mkdir`, with EEXIST counted as success and any other
      failure returned as the positive errno. */
  method EnsureDir(fs: ConfigFs, path: string) returns (ret: int)
    modifies fs`dirs, fs`journal
    ensures ret >= 0
    ensures path in old(fs.dirs) ==> ret == 0
    ensures fs.dirs == (if ret == 0 then old(fs.dirs) + {path} else old(fs.dirs))
    ensures fs.journal == old(fs.journal) + [Event(MkDir(path), ret == 0 && path !in old(fs.dirs))]
  {
    var errno: int;
    ret, errno := fs.MakeDir(path);
    if ret < 0 {
      ret := if errno == EEXIST then 0 else errno;
    }
  }

  /** The directory of a FunctionFS service and its mount point. The base
      path already ends in a slash, so the joined path has two in a row. */
  function FfsDir(name: string): string
  {
    UsbFuncsPath + "/" + name
  }

  function FfsMountPoint(name: string, instance: string): string
  {
    FfsDir(name) + "/" + instance
  }

  /** How a FunctionFS mount that did not end with a started socket left
      the mounts `m0` as `m`, told apart by the last events of the journal
      `j`: a failed mount changes nothing; a socket that did not start is
      followed by an unmount, which removes the mount point when it succeeds
      and leaves the instance mounted when it fails. */
  ghost predicate MountFailed(j: seq<Event>, m0: map<string, string>, m: map<string, string>, path: string, dev: string, socket: string)
  {
    || (|j| >= 1 && j[|j| - 1] == Event(Mount(path), false) && m == m0)
    || (|j| >= 3 && j[|j| - 3..] == [Event(Mount(path), true), Event(Op.StartSocket(socket), false), Event(Umount(path), true)]
        && m == m0 - {path})
    || (|j| >= 3 && j[|j| - 3..] == [Event(Mount(path), true), Event(Op.StartSocket(socket), false), Event(Umount(path), false)]
        && m == m0[path := dev])
  }

  /** `cfs_prep_ffs_service`: creates the base, name and instance
      directories, mounts FunctionFS instance `dev` on the last one and starts
      the service's socket; when the socket does not start the instance is
      unmounted again, and an unmount that fails leaves it mounted. */
  method PrepFfsService(fs: ConfigFs, name: string, instance: string, dev: string, socket: string, ghost n: int) returns (ret: int)
    modifies fs`dirs, fs`mounts, fs`sockets, fs`journal
    ensures ret <= 0
    ensures |FfsMountPoint(name, instance)| >= PathMax ==>
      ret == -ENAMETOOLONG && fs.mounts == old(fs.mounts) && fs.sockets == old(fs.sockets)
    ensures ret == 0 ==>
      && |FfsMountPoint(name, instance)| < PathMax
      && fs.mounts == old(fs.mounts)[FfsMountPoint(name, instance) := dev]
      && fs.sockets == old(fs.sockets) + {socket}
    ensures ret != 0 ==>
      && fs.sockets == old(fs.sockets)
      && (|| fs.mounts == old(fs.mounts)
          || fs.mounts == old(fs.mounts) - {FfsMountPoint(name, instance)}
          || fs.mounts == old(fs.mounts)[FfsMountPoint(name, instance) := dev])
    ensures ret != 0 && |FfsMountPoint(name, instance)| < PathMax ==>
      MountFailed(fs.journal, old(fs.mounts), fs.mounts, FfsMountPoint(name, instance), dev, socket)
    ensures old(fs.dirs) <= fs.dirs <= old(fs.dirs) + {UsbFuncsPath, FfsDir(name), FfsMountPoint(name, instance)}
    ensures Run(old(fs.journal), fs.journal, 2, 2, n, ret == 0)
  {
    ghost var j0 := fs.journal;
    var path;
    ret, path := MakeFfsDirs(fs, name, instance, n);
    if ret != 0 {
      RunTrue(j0, fs.journal, 2, 2, n, false);
      return;
    }
    ghost var j1 := fs.journal;
    ret := MountService(fs, path, dev, socket, n);
    RunCompose(j0, j1, fs.journal, 2, 2, 2, 2, n, ret == 0);
  }

  /** The directories of `cfs_prep_ffs_service`, built up in a PATH_MAX
      buffer: a path that does not fit is refused with -ENAMETOOLONG. A
      directory that cannot be created is not noticed: `cfs_ensure_dir`
      reports it as a positive value, which the `< 0` tests after each call
      never see, so those branches are left out. */
  method MakeFfsDirs(fs: ConfigFs, name: string, instance: string, ghost n: int) returns (ret: int, path: string)
    modifies fs`dirs, fs`journal
    ensures ret == 0 || ret == -ENAMETOOLONG
    ensures ret == 0 <==> |FfsMountPoint(name, instance)| < PathMax
    ensures ret == 0 ==> path == FfsMountPoint(name, instance)
    ensures old(fs.dirs) <= fs.dirs <= old(fs.dirs) + {UsbFuncsPath, FfsDir(name), FfsMountPoint(name, instance)}
    ensures Run(old(fs.journal), fs.journal, 2, 2, n, true)
  {
    ghost var j0 := fs.journal;
    RunEmpty(j0, 2, n);
    var left: int := PathMax;
    // the base path always fits
    path := UsbFuncsPath;
    left := left - |UsbFuncsPath|;
    ghost var d := fs.dirs;
    var _ := EnsureDir(fs, path);
    RunAppend(j0, j0, Event(MkDir(path), path in fs.dirs && path !in d), 2, 2, n, true);
    ghost var j1 := fs.journal;

    if 1 + |name| >= left {
      return -ENAMETOOLONG, path;
    }
    path := path + "/" + name;
    left := left - (1 + |name|);
    d := fs.dirs;
    var _ := EnsureDir(fs, path);
    RunAppend(j0, j1, Event(MkDir(path), path in fs.dirs && path !in d), 2, 2, n, true);
    ghost var j2 := fs.journal;

    if 1 + |instance| >= left {
      return -ENAMETOOLONG, path;
    }
    path := path + "/" + instance;
    d := fs.dirs;
    var _ := EnsureDir(fs, path);
    RunAppend(j0, j2, Event(MkDir(path), path in fs.dirs && path !in d), 2, 2, n, true);
    ret := 0;
  }

  /** The end of `cfs_prep_ffs_service`: FunctionFS instance `dev` is mounted
      on `path`, then the socket is started; when it does not start, `path`
      is unmounted and the socket's error returned. The unmount's own result
      is not looked at: when it fails, `path` stays mounted. */
  method MountService(fs: ConfigFs, path: string, dev: string, socket: string, ghost n: int) returns (ret: int)
    modifies fs`mounts, fs`sockets, fs`journal
    ensures ret <= 0
    ensures ret == 0 ==> fs.mounts == old(fs.mounts)[path := dev] && fs.sockets == old(fs.sockets) + {socket}
    ensures ret != 0 ==>
      && fs.sockets == old(fs.sockets)
      && (|| fs.mounts == old(fs.mounts)
          || fs.mounts == old(fs.mounts) - {path}
          || fs.mounts == old(fs.mounts)[path := dev])
    ensures ret != 0 ==> MountFailed(fs.journal, old(fs.mounts), fs.mounts, path, dev, socket)
    ensures Run(old(fs.journal), fs.journal, 2, 2, n, ret == 0)
  {
    ghost var j0 := fs.journal;
    RunEmpty(j0, 2, n);
    ghost var m0 := fs.mounts;
    ret := fs.MountFfs(dev, path);
    RunAppend(j0, j0, Event(Mount(path), ret == 0), 2, 2, n, true);
    if ret < 0 {
      return;
    }
    ghost var j1 := fs.journal;

    ret := fs.StartSocket(socket);
    RunAppend(j0, j1, Event(Op.StartSocket(socket), ret == 0), 2, 2, n, true);
    if ret < 0 {
      ghost var j2 := fs.journal;
      var unmounted := fs.Unmount(path);
      RunAppend(j0, j2, Event(Umount(path), unmounted == 0), 2, 2, n, false);
      assert fs.journal[|fs.journal| - 3..] == [Event(Mount(path), true), Event(Op.StartSocket(socket), false), Event(Umount(path), unmounted == 0)];
      if unmounted == 0 {
        assert fs.mounts == m0[path := dev] - {path} == m0 - {path};
      }
      return;
    }
  }

  // ---------------------------------------------------------------------------
  // One configuration

  /** C's `/` on int truncates toward zero. */
  function HalfTowardZero(x: int): int
  {
    if x >= 0 then x / 2 else -((-x) / 2)
  }

  /** The bMaxPower written for a configuration: MaxPower (in mA) halved to
      the 2 mA units of section 9.6.3 of the USB 2.0 specification, then
      stored into libusbg's 8-bit field. */
  function MaxPowerByte(maxPower: int): (b: u8)
    ensures 0 <= maxPower < 512 ==> b as int == maxPower / 2
  {
    (HalfTowardZero(maxPower) % 0x100) as u8
  }

  /** The configuration strings after `cs` is written in order over `m`. */
  function StrMapAfter(m: map<int, string>, cs: seq<ConfigString>): map<int, string>
    decreases |cs|
  {
    if cs == [] then m
    else StrMapAfter(m, cs[..|cs| - 1])[cs[|cs| - 1].lang := cs[|cs| - 1].text]
  }

  /** Written strings are exactly those of the LANGIDs of `cs` (added to `m`);
      for each, the last entry with that LANGID wins. */
  lemma {:induction false} StrMapAfterReads(m: map<int, string>, cs: seq<ConfigString>)
    ensures forall lang :: lang in StrMapAfter(m, cs) <==> lang in m || exists i :: 0 <= i < |cs| && cs[i].lang == lang
    ensures forall i :: 0 <= i < |cs| && (forall k :: i < k < |cs| ==> cs[k].lang != cs[i].lang) ==>
      StrMapAfter(m, cs)[cs[i].lang] == cs[i].text
    ensures forall lang :: lang in m && (forall i :: 0 <= i < |cs| ==> cs[i].lang != lang) ==>
      StrMapAfter(m, cs)[lang] == m[lang]
    decreases |cs|
  {
    if cs != [] {
      var init := cs[..|cs| - 1];
      StrMapAfterReads(m, init);
      forall lang | lang in StrMapAfter(m, cs)
        ensures lang in m || exists i :: 0 <= i < |cs| && cs[i].lang == lang
      {
        if lang != cs[|cs| - 1].lang && lang !in m {
          var i :| 0 <= i < |init| && init[i].lang == lang;
          assert cs[i] == init[i];
        }
      }
      forall lang | lang in m || exists i :: 0 <= i < |cs| && cs[i].lang == lang
        ensures lang in StrMapAfter(m, cs)
      {
        if lang !in m && lang != cs[|cs| - 1].lang {
          var i :| 0 <= i < |cs| && cs[i].lang == lang;
          assert init[i] == cs[i];
        }
      }
      forall i | 0 <= i < |cs| && (forall k :: i < k < |cs| ==> cs[k].lang != cs[i].lang)
        ensures StrMapAfter(m, cs)[cs[i].lang] == cs[i].text
      {
        if i < |cs| - 1 {
          assert init[i] == cs[i];
          forall k | i < k < |init|
            ensures init[k].lang != init[i].lang
          {
            assert init[k] == cs[k];
          }
        }
      }
      forall lang | lang in m && (forall i :: 0 <= i < |cs| ==> cs[i].lang != lang)
        ensures StrMapAfter(m, cs)[lang] == m[lang]
      {
        forall i | 0 <= i < |init|
          ensures init[i].lang != lang
        {
          assert init[i] == cs[i];
        }
      }
    }
  }

  /** The strings a configuration carries: the entries before the zero
      LANGID terminator. */
  function ConfigStrTable(c: Config): seq<ConfigString>
  {
    if c.strs.Some? then c.strs.value[..LiveConfigStrings(c.strs.value)] else []
  }

  /** Whether the configfs name of a function fits the MAX_INSTANCE_LEN
      buffer, terminator included. */
  predicate NameFits(f: Function)
  {
    match f.group
    case Simple => |f.instance| < MaxInstanceLen
    case WithService(_) => |ServiceInstance(f)| < MaxInstanceLen
  }

  /** Every reference names one of `count` functions. */
  predicate RefsBelow(refs: seq<nat>, count: nat)
  {
    forall i :: 0 <= i < |refs| ==> refs[i] < count
  }

  /** The configfs names of the functions a configuration references. */
  function Keys(gfuncs: seq<Function>, refs: seq<nat>): (ks: seq<FuncKey>)
    requires RefsBelow(refs, |gfuncs|)
    ensures |ks| == |refs|
    ensures forall i :: 0 <= i < |refs| ==> ks[i] == KeyFor(gfuncs[refs[i]])
  {
    seq(|refs|, i requires 0 <= i < |refs| => KeyFor(gfuncs[refs[i]]))
  }

  /** The configuration directory that `cfs_set_gadget_config` leaves. */
  function Written(gfuncs: seq<Function>, c: Config): LiveConfig
    requires RefsBelow(RefList(c), |gfuncs|)
  {
    LiveConfig(ConfigLabel, c.attrs.bmAttributes, MaxPowerByte(c.attrs.maxPower),
               StrMapAfter(map[], ConfigStrTable(c)), Keys(gfuncs, RefList(c)))
  }

  /** Every configuration other than `id` is as it was. */
  ghost predicate OthersKept(before: map<int, LiveConfig>, after: map<int, LiveConfig>, id: int)
  {
    forall k :: k != id ==> (k in after <==> k in before) && (k in after ==> after[k] == before[k])
  }

  /** The configuration-string loop of `cfs_set_gadget_config`: the entries
      in order, stopping at the first failure. Only the strings of
      configuration `id` change. */
  method SetConfigStrings(fs: ConfigFs, id: int, cs: seq<ConfigString>, ghost n: int) returns (ret: int)
    requires id in fs.configs
    modifies fs`configs, fs`journal
    ensures ret <= 0
    ensures id in fs.configs
    ensures fs.configs == old(fs.configs)[id := old(fs.configs)[id].(strs := fs.configs[id].strs)]
    ensures ret == 0 ==> fs.configs[id].strs == StrMapAfter(old(fs.configs)[id].strs, cs)
    ensures Run(old(fs.journal), fs.journal, 2, 2, n, ret == 0)
  {
    ghost var j0 := fs.journal;
    ghost var c0 := fs.configs;
    RunEmpty(j0, 2, n);
    ret := 0;
    for i := 0 to |cs|
      invariant id in fs.configs
      invariant fs.configs == c0[id := c0[id].(strs := StrMapAfter(c0[id].strs, cs[..i]))]
      invariant Run(j0, fs.journal, 2, 2, n, true)
    {
      ghost var ji := fs.journal;
      ret := fs.SetConfigString(id, cs[i].lang, cs[i].text);
      RunAppend(j0, ji, Event(SetConfigStr(id, cs[i].lang), ret == 0), 2, 2, n, true);
      if ret != 0 {
        return;
      }
      assert cs[..i + 1][..i] == cs[..i];
    }
    assert cs[..|cs|] == cs;
  }

  /** One function of `cfs_set_gadget_config`: its configfs name is checked
      against MAX_INSTANCE_LEN; the function is created (and, for a
      FunctionFS function, its service prepared) only when configfs does
      not have it yet; then it is bound into configuration `id`. */
  method BindFunction(fs: ConfigFs, id: int, f: Function, ghost n: int) returns (ret: int)
    requires fs.Valid() && id in fs.configs
    modifies fs`configs, fs`funcs, fs`dirs, fs`mounts, fs`sockets, fs`journal
    ensures fs.Valid()
    ensures ret <= 0
    ensures !NameFits(f) ==> ret == -ENAMETOOLONG && fs.journal == old(fs.journal)
    ensures ret == 0 ==> NameFits(f) && KeyFor(f) in fs.funcs
    ensures fs.configs == (if ret == 0 then old(fs.configs)[id := old(fs.configs)[id].(bindings := old(fs.configs)[id].bindings + [KeyFor(f)])] else old(fs.configs))
    ensures fs.funcs == old(fs.funcs) || (KeyFor(f) !in old(fs.funcs) && fs.funcs == old(fs.funcs) + [KeyFor(f)])
    ensures KeyFor(f) in old(fs.funcs) ==> fs.dirs == old(fs.dirs) && fs.mounts == old(fs.mounts) && fs.sockets == old(fs.sockets)
    ensures ret == 0 && f.group.WithService? && KeyFor(f) !in old(fs.funcs) ==>
      && fs.mounts == old(fs.mounts)[FfsMountPoint(f.name, f.instance) := ServiceInstance(f)]
      && fs.sockets == old(fs.sockets) + {f.group.service}
    ensures Run(old(fs.journal), fs.journal, 2, 2, n, ret == 0)
  {
    ghost var j0 := fs.journal;
    RunEmpty(j0, 2, n);
    if !NameFits(f) {
      RunTrue(j0, j0, 2, 2, n, false);
      return -ENAMETOOLONG;
    }
    var key := KeyFor(f);
    if key !in fs.funcs {
      ret := fs.CreateFunction(key);
      RunAppend(j0, j0, Event(Op.CreateFunction(key), ret == 0), 2, 2, n, true);
      if ret != 0 {
        return;
      }
      if f.group.WithService? {
        ghost var j1 := fs.journal;
        ret := PrepFfsService(fs, f.name, f.instance, ServiceInstance(f), f.group.service, n);
        RunCompose(j0, j1, fs.journal, 2, 2, 2, 2, n, ret == 0);
        if ret != 0 {
          return;
        }
      }
    }
    ghost var j2 := fs.journal;
    ret := fs.AddConfigFunction(id, key);
    RunAppend(j0, j2, Event(Bind(id, key), ret == 0), 2, 2, n, true);
  }

  /** `cfs_set_gadget_config`: configuration `id` is rebuilt from `c` —
      an empty function list is refused first; a configuration already at
      `id` is removed with everything in it; the new one is created with
      the configuration label, its strings are set, and its functions are
      bound in order. The first failure ends it. */
  method SetGadgetConfig(fs: ConfigFs, gfuncs: seq<Function>, id: int, c: Config, ghost n: int) returns (ret: int)
    requires fs.Valid() && 1 <= id <= n && RefsBelow(RefList(c), |gfuncs|)
    modifies fs`configs, fs`funcs, fs`dirs, fs`mounts, fs`sockets, fs`journal
    ensures fs.Valid()
    ensures ret <= 0
    ensures RefList(c) == [] ==> ret == -EINVAL && unchanged(fs)
    ensures ret == 0 ==>
      && RefList(c) != []
      && (forall i :: 0 <= i < |RefList(c)| ==> NameFits(gfuncs[RefList(c)[i]]))
      && id in fs.configs && fs.configs[id] == Written(gfuncs, c)
    ensures OthersKept(old(fs.configs), fs.configs, id)
    ensures |old(fs.funcs)| <= |fs.funcs| && fs.funcs[..|old(fs.funcs)|] == old(fs.funcs)
    ensures forall k :: k in fs.funcs ==> k in old(fs.funcs) || k in Keys(gfuncs, RefList(c))
    ensures Run(old(fs.journal), fs.journal, 2, 2, n, ret == 0)
  {
    ghost var j0 := fs.journal;
    RunEmpty(j0, 2, n);
    if c.funcs.None? || |c.funcs.value| == 0 {
      RunTrue(j0, j0, 2, 2, n, false);
      return -EINVAL;
    }
    ret := MakeConfig(fs, id, c, n);
    if ret != 0 {
      return;
    }
    ghost var j1 := fs.journal;
    ret := BindFunctions(fs, gfuncs, id, c.funcs.value, n);
    RunCompose(j0, j1, fs.journal, 2, 2, 2, 2, n, ret == 0);
  }

  /** The first part of `cfs_set_gadget_config`: an existing configuration
      `id` is removed, then created afresh with the attributes and strings
      of `c` and no bindings. */
  method MakeConfig(fs: ConfigFs, id: int, c: Config, ghost n: int) returns (ret: int)
    requires fs.Valid() && 1 <= id <= n
    modifies fs`configs, fs`journal
    ensures fs.Valid()
    ensures ret <= 0
    ensures ret == 0 ==>
      && id in fs.configs
      && fs.configs[id] == LiveConfig(ConfigLabel, c.attrs.bmAttributes, MaxPowerByte(c.attrs.maxPower),
                                      StrMapAfter(map[], ConfigStrTable(c)), [])
    ensures OthersKept(old(fs.configs), fs.configs, id)
    ensures Run(old(fs.journal), fs.journal, 2, 2, n, ret == 0)
  {
    ghost var j0 := fs.journal;
    RunEmpty(j0, 2, n);
    if id in fs.configs {
      ret := fs.RemoveConfig(id);
      RunAppend(j0, j0, Event(RmConfig(id), ret == 0), 2, 2, n, true);
      if ret != 0 {
        return;
      }
    }
    ghost var j1 := fs.journal;
    ret := fs.CreateConfig(id, ConfigLabel, c.attrs.bmAttributes, MaxPowerByte(c.attrs.maxPower));
    RunAppend(j0, j1, Event(Op.CreateConfig(id), ret == 0), 2, 2, n, true);
    if ret != 0 {
      return;
    }
    ghost var j2 := fs.journal;
    ret := SetConfigStrings(fs, id, ConfigStrTable(c), n);
    RunCompose(j0, j2, fs.journal, 2, 2, 2, 2, n, ret == 0);
  }

  /** The function loop of `cfs_set_gadget_config`: the referenced
      functions, in order, each through `BindFunction`. */
  method BindFunctions(fs: ConfigFs, gfuncs: seq<Function>, id: int, refs: seq<nat>, ghost n: int) returns (ret: int)
    requires fs.Valid() && id in fs.configs && RefsBelow(refs, |gfuncs|)
    modifies fs`configs, fs`funcs, fs`dirs, fs`mounts, fs`sockets, fs`journal
    ensures fs.Valid()
    ensures ret <= 0
    ensures id in fs.configs && fs.configs[id] == old(fs.configs)[id].(bindings := fs.configs[id].bindings)
    ensures ret == 0 ==>
      && fs.configs[id].bindings == old(fs.configs)[id].bindings + Keys(gfuncs, refs)
      && (forall i :: 0 <= i < |refs| ==> NameFits(gfuncs[refs[i]]))
    ensures OthersKept(old(fs.configs), fs.configs, id)
    ensures |old(fs.funcs)| <= |fs.funcs| && fs.funcs[..|old(fs.funcs)|] == old(fs.funcs)
    ensures forall k :: k in fs.funcs ==> k in old(fs.funcs) || k in Keys(gfuncs, refs)
    ensures Run(old(fs.journal), fs.journal, 2, 2, n, ret == 0)
  {
    ghost var j0 := fs.journal;
    ghost var funcs0 := fs.funcs;
    ghost var configs0 := fs.configs;
    ghost var keys := Keys(gfuncs, refs);
    RunEmpty(j0, 2, n);
    ret := 0;
    for i := 0 to |refs|
      invariant ret == 0
      invariant fs.Valid()
      invariant id in fs.configs && fs.configs[id] == configs0[id].(bindings := configs0[id].bindings + keys[..i])
      invariant OthersKept(configs0, fs.configs, id)
      invariant |funcs0| <= |fs.funcs| && fs.funcs[..|funcs0|] == funcs0
      invariant forall k :: k in fs.funcs ==> k in funcs0 || k in keys
      invariant forall m :: 0 <= m < i ==> NameFits(gfuncs[refs[m]])
      invariant Run(j0, fs.journal, 2, 2, n, true)
    {
      ghost var ji := fs.journal;
      ret := BindFunction(fs, id, gfuncs[refs[i]], n);
      RunCompose(j0, ji, fs.journal, 2, 2, 2, 2, n, ret == 0);
      if ret != 0 {
        return;
      }
      assert keys[..i + 1] == keys[..i] + [keys[i]];
    }
    assert keys[..|refs|] == keys;
  }

  // ---------------------------------------------------------------------------
  // Stale configurations

  /** A member of a non-empty set of ids. */
  lemma SomeId(ids: set<int>) returns (x: int)
    requires ids != {}
    ensures x in ids
  {
    if forall z :: z !in ids {
      assert false;
    }
    x :| x in ids;
  }

  /** A finite non-empty set of ids has a least element. */
  lemma {:induction false} LeastId(ids: set<int>) returns (least: int)
    requires ids != {}
    ensures least in ids && forall y :: y in ids ==> least <= y
    decreases |ids|
  {
    var x := SomeId(ids);
    var rest := ids - {x};
    if rest == {} {
      assert ids == {x};
      least := x;
    } else {
      var m := LeastId(rest);
      least := if x < m then x else m;
      forall y | y in ids
        ensures least <= y
      {
        if y != x {
          assert y in rest;
        }
      }
    }
  }

  /** `cfs_cleanup_left_configs`: when configuration `last` exists, the
      configuration after it is removed again and again, until none is left
      after it or a removal fails. Configurations are taken in ascending id
      order. */
  method CleanupLeftConfigs(fs: ConfigFs, last: int) returns (ret: int)
    requires fs.Valid()
    modifies fs`configs, fs`journal
    ensures fs.Valid()
    ensures ret <= 0
    ensures last !in old(fs.configs) ==> ret == 0 && fs.configs == old(fs.configs) && fs.journal == old(fs.journal)
    ensures forall id :: id in fs.configs ==> id in old(fs.configs) && fs.configs[id] == old(fs.configs)[id]
    ensures forall id :: id in old(fs.configs) && id <= last ==> id in fs.configs
    ensures ret == 0 && last in old(fs.configs) ==> forall id :: id in fs.configs ==> id <= last
    ensures Run(old(fs.journal), fs.journal, 4, 4, last, ret == 0)
  {
    ghost var j0 := fs.journal;
    ghost var configs0 := fs.configs;
    RunEmpty(j0, 4, last);
    ret := 0;
    if last !in fs.configs {
      return;
    }
    var after := set id | id in fs.configs && id > last;
    while after != {}
      invariant after == set id | id in fs.configs && id > last
      invariant forall id :: id in fs.configs && id > last ==> id in after
      invariant fs.Valid()
      invariant forall id :: id in fs.configs ==> id in configs0 && fs.configs[id] == configs0[id]
      invariant forall id :: id in configs0 && id <= last ==> id in fs.configs
      invariant ret == 0
      invariant Run(j0, fs.journal, 4, 4, last, true)
      decreases |after|
    {
      ghost var least := LeastId(after);
      var next :| next in after && forall y :: y in after ==> next <= y;
      ghost var ji := fs.journal;
      ret := fs.RemoveConfig(next);
      RunAppend(j0, ji, Event(RmConfig(next), ret == 0), 4, 4, last, true);
      if ret != 0 {
        return;
      }
      var rest := set id | id in fs.configs && id > last;
      assert rest == after - {next};
      after := rest;
    }
  }

  // ---------------------------------------------------------------------------
  // Reconfiguration

  /** Number of string sets before the first one whose LANGID is not
      positive. */
  function PositiveLangs(ss: seq<Strings>): (k: nat)
    ensures k <= |ss|
    ensures forall i :: 0 <= i < k ==> ss[i].lang > 0
    ensures k < |ss| ==> ss[k].lang <= 0
  {
    if ss == [] || ss[0].lang <= 0 then 0 else 1 + PositiveLangs(ss[1..])
  }

  /** The string sets `cfs_reconfigure_gadget` writes. */
  function StrTable(g: Gadget): seq<Strings>
  {
    if g.strs.Some? then g.strs.value[..PositiveLangs(g.strs.value)] else []
  }

  /** The string directories after each set of `ss` is written in order. */
  function StrsAfterAll(m: map<int, UsbgStrs>, ss: seq<Strings>): map<int, UsbgStrs>
    decreases |ss|
  {
    if ss == [] then m else StrsAfter(StrsAfterAll(m, ss[..|ss| - 1]), ss[|ss| - 1])
  }

  /** A LANGID that no string set names keeps its strings. */
  lemma {:induction false} StrsAfterAllOther(m: map<int, UsbgStrs>, ss: seq<Strings>, lang: int)
    requires forall i :: 0 <= i < |ss| ==> ss[i].lang != lang
    ensures lang in StrsAfterAll(m, ss) <==> lang in m
    ensures lang in m ==> StrsAfterAll(m, ss)[lang] == m[lang]
    decreases |ss|
  {
    if ss != [] {
      StrsAfterAllOther(m, ss[..|ss| - 1], lang);
      StrsAfterReads(StrsAfterAll(m, ss[..|ss| - 1]), ss[|ss| - 1]);
    }
  }

  /** `cfs_reconfigure_gadget`: a gadget the client does not support is
      refused before anything is written. Otherwise the attributes, the
      string sets with a positive LANGID, and configurations 1..N are
      written, the gadget is bound to the UDC, and the configurations after
      N are removed. The first failure ends the run; what was written stays. */
  method ReconfigureGadget(fs: ConfigFs, types: seq<string>, g: Option<Gadget>) returns (ret: int)
    requires fs.Valid()
    requires g.Some? ==> RefsInRange(g.value)
    modifies fs`attrs, fs`strs, fs`configs, fs`funcs, fs`enabled, fs`dirs, fs`mounts, fs`sockets, fs`journal
    ensures fs.Valid()
    ensures ret <= 0
    ensures !Supported(types, g) ==> ret == -EINVAL && unchanged(fs)
    ensures Supported(types, g) ==> Run(old(fs.journal), fs.journal, 0, 4, |ConfigList(g.value)|, ret == 0)
    ensures ret == 0 ==> Supported(types, g) && Applied(fs, old(fs.attrs), old(fs.strs), g.value)
    ensures |old(fs.funcs)| <= |fs.funcs| && fs.funcs[..|old(fs.funcs)|] == old(fs.funcs)
  {
    var supported := IsGadgetSupported(types, g);
    if !supported {
      return -EINVAL;
    }
    ret := ApplyGadget(fs, g.value);
  }

  /** The backend holds gadget `g` as written over attributes `attrs0` and
      strings `strs0`: its device attributes, its string sets, exactly the
      configurations 1..N written from its configurations, bound to the UDC. */
  ghost predicate Applied(fs: ConfigFs, attrs0: UsbgAttrs, strs0: map<int, UsbgStrs>, g: Gadget)
    reads fs
  {
    && fs.attrs == attrs0.(device := g.attrs)
    && fs.strs == StrsAfterAll(strs0, StrTable(g))
    && ConfigsApplied(fs, g)
  }

  /** Exactly the configurations 1..N of `g` are written and the gadget is
      bound to the UDC. */
  ghost predicate ConfigsApplied(fs: ConfigFs, g: Gadget)
    reads fs
  {
    && (forall id :: id in fs.configs <==> 1 <= id <= |ConfigList(g)|)
    && (forall k :: 1 <= k <= |ConfigList(g)| ==>
          RefsBelow(RefList(ConfigList(g)[k - 1]), |FuncList(g)|)
          && fs.configs[k] == Written(FuncList(g), ConfigList(g)[k - 1]))
    && fs.enabled
  }

  /** `cfs_reconfigure_gadget` past the support check. */
  method ApplyGadget(fs: ConfigFs, g: Gadget) returns (ret: int)
    requires fs.Valid() && RefsInRange(g)
    requires g.configs.Some? && |g.configs.value| > 0
    modifies fs`attrs, fs`strs, fs`configs, fs`funcs, fs`enabled, fs`dirs, fs`mounts, fs`sockets, fs`journal
    ensures fs.Valid()
    ensures ret <= 0
    ensures Run(old(fs.journal), fs.journal, 0, 4, |ConfigList(g)|, ret == 0)
    ensures ret == 0 ==> Applied(fs, old(fs.attrs), old(fs.strs), g)
    ensures |old(fs.funcs)| <= |fs.funcs| && fs.funcs[..|old(fs.funcs)|] == old(fs.funcs)
  {
    ghost var n := |ConfigList(g)|;
    ghost var j0 := fs.journal;
    ret := ApplyHead(fs, g);
    if ret != 0 {
      RunWeaken(j0, fs.journal, 0, 1, 0, 4, n, false);
      return;
    }
    ghost var j2 := fs.journal;
    ret := ApplyConfigs(fs, g);
    RunCompose(j0, j2, fs.journal, 0, 1, 2, 4, n, ret == 0);
  }

  /** The start of `cfs_reconfigure_gadget`: the device attributes, then
      the string sets with a positive LANGID. */
  method ApplyHead(fs: ConfigFs, g: Gadget) returns (ret: int)
    modifies fs`attrs, fs`strs, fs`journal
    ensures ret <= 0
    ensures Run(old(fs.journal), fs.journal, 0, 1, |ConfigList(g)|, ret == 0)
    ensures ret == 0 ==> fs.attrs == old(fs.attrs).(device := g.attrs) && fs.strs == StrsAfterAll(old(fs.strs), StrTable(g))
  {
    ghost var n := |ConfigList(g)|;
    ghost var j0 := fs.journal;
    RunEmpty(j0, 0, n);

    ret := SetAttrs(fs, g.attrs);
    RunAppend(j0, j0, Event(Op.SetAttrs, ret == 0), 0, 0, n, true);
    if ret != 0 {
      RunWeaken(j0, fs.journal, 0, 0, 0, 1, n, false);
      return;
    }
    RunWeaken(j0, fs.journal, 0, 0, 0, 1, n, true);

    ghost var j1 := fs.journal;
    var ss := if g.strs.Some? then g.strs.value else [];
    ret := SetStrTable(fs, ss, n);
    RunCompose(j0, j1, fs.journal, 0, 1, 1, 1, n, ret == 0);
    assert StrTable(g) == ss[..PositiveLangs(ss)];
  }

  /** The configuration loop and the end of `cfs_reconfigure_gadget`:
      configuration `k` is written at id `k`, the gadget is bound to the UDC
      and the configurations after N are removed. */
  method ApplyConfigs(fs: ConfigFs, g: Gadget) returns (ret: int)
    requires fs.Valid() && RefsInRange(g)
    requires g.configs.Some? && |g.configs.value| > 0
    modifies fs`configs, fs`funcs, fs`enabled, fs`dirs, fs`mounts, fs`sockets, fs`journal
    ensures fs.Valid()
    ensures ret <= 0
    ensures Run(old(fs.journal), fs.journal, 2, 4, |ConfigList(g)|, ret == 0)
    ensures ret == 0 ==> ConfigsApplied(fs, g)
    ensures |old(fs.funcs)| <= |fs.funcs| && fs.funcs[..|old(fs.funcs)|] == old(fs.funcs)
  {
    var configs := g.configs.value;
    var funcs := FuncList(g);
    ghost var n := |configs|;
    ghost var j0 := fs.journal;
    assert ConfigList(g) == configs;
    forall j | 0 <= j < |configs|
      ensures RefsBelow(RefList(configs[j]), |funcs|)
    {
      assert ConfigList(g)[j] == configs[j];
    }
    ret := SetConfigs(fs, funcs, configs, n);
    if ret != 0 {
      RunWeaken(j0, fs.journal, 2, 2, 2, 4, n, false);
      return;
    }
    RunWeaken(j0, fs.journal, 2, 2, 2, 3, n, true);
    assert RefsBelow(RefList(configs[n - 1]), |funcs|) && n in fs.configs;

    ghost var j3 := fs.journal;
    ghost var written := fs.configs;
    ret := EnableAndCleanup(fs, |configs|);
    RunCompose(j0, j3, fs.journal, 2, 3, 3, 4, n, ret == 0);
    if ret == 0 {
      forall k | 1 <= k <= n
        ensures RefsBelow(RefList(ConfigList(g)[k - 1]), |FuncList(g)|)
        ensures k in fs.configs && fs.configs[k] == Written(FuncList(g), ConfigList(g)[k - 1])
      {
        assert RefsBelow(RefList(configs[k - 1]), |funcs|) && k in written;
      }
    }
  }

  /** The end of `cfs_reconfigure_gadget`: the gadget is bound to the UDC,
      then the configurations after `last` are removed. */
  method EnableAndCleanup(fs: ConfigFs, last: int) returns (ret: int)
    requires fs.Valid() && last in fs.configs
    modifies fs`configs, fs`enabled, fs`journal
    ensures fs.Valid()
    ensures ret <= 0
    ensures ret == 0 ==> fs.enabled && forall id :: id in fs.configs <==> id in old(fs.configs) && id <= last
    ensures forall id :: id in fs.configs ==> id in old(fs.configs) && fs.configs[id] == old(fs.configs)[id]
    ensures Run(old(fs.journal), fs.journal, 3, 4, last, ret == 0)
  {
    ghost var j0 := fs.journal;
    RunEmpty(j0, 3, last);
    ret := fs.EnableGadget();
    RunAppend(j0, j0, Event(Enable, ret == 0), 3, 3, last, true);
    if ret != 0 {
      RunWeaken(j0, fs.journal, 3, 3, 3, 4, last, false);
      return;
    }
    ghost var j1 := fs.journal;
    ret := CleanupLeftConfigs(fs, last);
    RunCompose(j0, j1, fs.journal, 3, 3, 4, 4, last, ret == 0);
  }

  /** The string loop of `cfs_reconfigure_gadget`: the string sets before
      the first non-positive LANGID, in order. */
  method SetStrTable(fs: ConfigFs, ss: seq<Strings>, ghost n: int) returns (ret: int)
    modifies fs`strs, fs`journal
    ensures ret <= 0
    ensures ret == 0 ==> fs.strs == StrsAfterAll(old(fs.strs), ss[..PositiveLangs(ss)])
    ensures Run(old(fs.journal), fs.journal, 1, 1, n, ret == 0)
  {
    ghost var j0 := fs.journal;
    ghost var strs0 := fs.strs;
    RunEmpty(j0, 1, n);
    ret := 0;
    var count := PositiveLangs(ss);
    for i := 0 to count
      invariant ret == 0
      invariant fs.strs == StrsAfterAll(strs0, ss[..i])
      invariant Run(j0, fs.journal, 1, 1, n, true)
    {
      ghost var ji := fs.journal;
      ret := SetStrs(fs, ss[i], n);
      RunCompose(j0, ji, fs.journal, 1, 1, 1, 1, n, ret == 0);
      if ret != 0 {
        return;
      }
      assert ss[..i + 1][..i] == ss[..i];
    }
  }

  /** Configurations 1..`i` hold the first `i` configurations as written. */
  ghost predicate WrittenUpTo(m: map<int, LiveConfig>, funcs: seq<Function>, configs: seq<Config>, i: nat)
    requires i <= |configs|
  {
    forall j :: 0 <= j < i ==>
      RefsBelow(RefList(configs[j]), |funcs|) && j + 1 in m && m[j + 1] == Written(funcs, configs[j])
  }

  /** Writing configuration `i + 1` and keeping the others extends the
      written prefix by one. */
  lemma WrittenUpToStep(before: map<int, LiveConfig>, after: map<int, LiveConfig>, funcs: seq<Function>, configs: seq<Config>, i: nat)
    requires i < |configs| && WrittenUpTo(before, funcs, configs, i)
    requires OthersKept(before, after, i + 1)
    requires RefsBelow(RefList(configs[i]), |funcs|)
    requires i + 1 in after && after[i + 1] == Written(funcs, configs[i])
    ensures WrittenUpTo(after, funcs, configs, i + 1)
  {
    forall j | 0 <= j < i + 1
      ensures RefsBelow(RefList(configs[j]), |funcs|) && j + 1 in after && after[j + 1] == Written(funcs, configs[j])
    {
      if j < i {
        assert RefsBelow(RefList(configs[j]), |funcs|) && j + 1 in before && before[j + 1] == Written(funcs, configs[j]);
        assert j + 1 != i + 1;
        assert j + 1 in after && after[j + 1] == before[j + 1];
      }
    }
  }

  /** The configuration loop of `cfs_reconfigure_gadget`: configuration
      `k` is written at id `k + 1`. */
  method SetConfigs(fs: ConfigFs, funcs: seq<Function>, configs: seq<Config>, ghost n: int) returns (ret: int)
    requires fs.Valid() && |configs| <= n
    requires forall j :: 0 <= j < |configs| ==> RefsBelow(RefList(configs[j]), |funcs|)
    modifies fs`configs, fs`funcs, fs`dirs, fs`mounts, fs`sockets, fs`journal
    ensures fs.Valid()
    ensures ret <= 0
    ensures ret == 0 ==> WrittenUpTo(fs.configs, funcs, configs, |configs|)
    ensures |old(fs.funcs)| <= |fs.funcs| && fs.funcs[..|old(fs.funcs)|] == old(fs.funcs)
    ensures Run(old(fs.journal), fs.journal, 2, 2, n, ret == 0)
  {
    ghost var j0 := fs.journal;
    ghost var funcs0 := fs.funcs;
    RunEmpty(j0, 2, n);
    ret := 0;
    for i := 0 to |configs|
      invariant ret == 0
      invariant fs.Valid()
      invariant WrittenUpTo(fs.configs, funcs, configs, i)
      invariant |funcs0| <= |fs.funcs| && fs.funcs[..|funcs0|] == funcs0
      invariant Run(j0, fs.journal, 2, 2, n, true)
    {
      ghost var ji := fs.journal;
      ghost var fsi := fs.funcs;
      ghost var ci := fs.configs;
      ret := SetGadgetConfig(fs, funcs, i + 1, configs[i], n);
      RunCompose(j0, ji, fs.journal, 2, 2, 2, 2, n, ret == 0);
      assert fs.funcs[..|funcs0|] == fs.funcs[..|fsi|][..|funcs0|];
      if ret != 0 {
        return;
      }
      WrittenUpToStep(ci, fs.configs, funcs, configs, i);
    }
  }
}
