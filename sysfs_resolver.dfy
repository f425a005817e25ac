/** The sysfs resolvers of the PCI utilities: from an interface name to its PCI address
    and function role, from a PCI address to its interface name, MAC address,
    virtual-function index and vendor/product ids. The sysfs tree is a value handed to
    each resolver, so every resolver is a total function of the tree; a path the tree
    does not hold is the OSError or IOError the real file operation would raise. */
module SysfsResolver {
  import opened Wrappers
  import opened Text
  import opened PciAddress

  /** A snapshot of sysfs: symbolic links and their targets, directories and their
      listings (in the order os.listdir returns them), and files and their contents. */
  datatype Sysfs = Sysfs(links: map<string, string>, dirs: map<string, seq<string>>,
                         files: map<string, string>)

  /** The errors the resolvers raise. */
  datatype ResolveError =
    | PciDeviceNotFoundById(id: string)  // the device or its interface cannot be resolved
    | OsError(path: string)              // an uncaught failure of os.readlink
    | ValueFormatError(path: string)     // the ValueError of the id readers

  /** os.readlink(p) */
  function ReadLink(fs: Sysfs, p: string): Option<string> {
    if p in fs.links then Some(fs.links[p]) else None
  }

  /** os.path.isdir(p) */
  predicate IsDir(fs: Sysfs, p: string) {
    p in fs.dirs
  }

  /** os.listdir(p) */
  function ListDir(fs: Sysfs, p: string): Option<seq<string>> {
    if p in fs.dirs then Some(fs.dirs[p]) else None
  }

  /** open(p).read() */
  function ReadFile(fs: Sysfs, p: string): Option<string> {
    if p in fs.files then Some(fs.files[p]) else None
  }

  /** The sysfs directory of a PCI device. */
  function DevicePath(addr: string): string {
    "/sys/bus/pci/devices/" + addr
  }

  /** The directory listing a device's network interfaces: its own, or those of its
      physical function (reached through the physfn link) when pfInterface is set. */
  function NetDevPath(addr: string, pfInterface: bool): string {
    DevicePath(addr) + (if pfInterface then "/physfn/net" else "/net")
  }

  /** The device link of a network interface. */
  function InterfaceDevicePath(ifname: string): string {
    "/sys/class/net/" + ifname + "/device"
  }

  /** The file holding the number of virtual functions a physical function supports. */
  const SriovTotalVfs: string := "sriov_totalvfs"

  /** The role probe on the content of sriov_totalvfs: int(content) > 0, where content
      that is not a number (the ValueError) counts as not physical. */
  predicate TotalVfsPositive(content: string) {
    var n := ParseInt(content);
    n.Some? && n.value > 0
  }

  /** The role probe on a sriov_totalvfs path: the file reads and holds a positive count;
      a failure to read it (the IOError) counts as not physical. */
  predicate ProbesPhysical(fs: Sysfs, totalVfsPath: string) {
    var c := ReadFile(fs, totalVfsPath);
    c.Some? && TotalVfsPositive(c.value)
  }

  /** The characters readlink(...).strip("./") removes from both ends of a link target. */
  const LinkTrim: set<char> := {'.', '/'}

  /** get_function_by_ifname: (None, False) when the interface has no device directory;
      otherwise the device link's target with the surrounding '.' and '/' cut off (the
      whole rest of the target, not only its last component), not validated as an
      address, together with the role probe on the interface's sriov_totalvfs. A device
      directory whose link cannot be read raises OSError. */
  function FunctionByIfname(fs: Sysfs, ifname: string): (r: Result<(Option<string>, bool), ResolveError>)
    ensures !IsDir(fs, InterfaceDevicePath(ifname)) ==> r == Ok((None, false))
    ensures r.Err? <==> IsDir(fs, InterfaceDevicePath(ifname)) && ReadLink(fs, InterfaceDevicePath(ifname)).None?
    ensures r.Err? ==> r.error == OsError(InterfaceDevicePath(ifname))
    ensures IsDir(fs, InterfaceDevicePath(ifname)) && ReadLink(fs, InterfaceDevicePath(ifname)).Some? ==>
              r.Ok? && r.value.0.Some?
    ensures r.Ok? && r.value.0.Some? ==>
      && IsDir(fs, InterfaceDevicePath(ifname))
      && IsStripOf(ReadLink(fs, InterfaceDevicePath(ifname)).value, r.value.0.value, LinkTrim)
    ensures r.Ok? && r.value.0.Some? ==>
      (r.value.1 <==> ProbesPhysical(fs, InterfaceDevicePath(ifname) + "/" + SriovTotalVfs))
    ensures r.Ok? && r.value.0.None? ==> !r.value.1
  {
    var dev := InterfaceDevicePath(ifname);
    if !IsDir(fs, dev) then Ok((None, false))
    else
      match ReadLink(fs, dev)
      case None => Err(OsError(dev))
      case Some(target) =>
        var addr := StripChars(target, LinkTrim);
        StripCharsIsStripOf(target, LinkTrim, addr);
        Ok((Some(addr), ProbesPhysical(fs, dev + "/" + SriovTotalVfs)))
  }

  /** A relative link target "../../../<addr>" yields exactly addr, whatever its format,
      as long as addr neither starts nor ends with '.' or '/'. */
  lemma LinkTargetAddress(fs: Sysfs, ifname: string, up: string, addr: string)
    requires forall i :: 0 <= i < |up| ==> up[i] in LinkTrim
    requires addr != [] && addr[0] !in LinkTrim && addr[|addr| - 1] !in LinkTrim
    requires IsDir(fs, InterfaceDevicePath(ifname))
    requires ReadLink(fs, InterfaceDevicePath(ifname)) == Some(up + addr)
    ensures FunctionByIfname(fs, ifname).Ok?
    ensures FunctionByIfname(fs, ifname).value.0 == Some(addr)
  {
    StripKnown(up, addr, [], LinkTrim);
    assert up + addr + [] == up + addr;
  }

  /** is_physical_function: the device directory of domain:bus:slot.function exists and
      its sriov_totalvfs reads as a positive count. Never raises: a missing directory,
      a missing or unreadable file and content that is not a number all give False. */
  function IsPhysicalFunction(fs: Sysfs, a: Address): (r: bool)
    ensures r <==> IsDir(fs, DevicePath(Render(a))) && ProbesPhysical(fs, DevicePath(Render(a)) + "/" + SriovTotalVfs)
    ensures ReadFile(fs, DevicePath(Render(a)) + "/" + SriovTotalVfs).None? ==> !r
  {
    var dev := DevicePath(Render(a));
    IsDir(fs, dev) && ProbesPhysical(fs, dev + "/" + SriovTotalVfs)
  }

  /** Both routes to a device classify it alike: when an interface's device link leads to
      the address of a PCI device whose directory exists and the two sriov_totalvfs paths
      hold the same content, get_function_by_ifname names that address and reports the
      role is_physical_function reports. */
  lemma RoleAgrees(fs: Sysfs, ifname: string, up: string, a: Address)
    requires ValidFields(a)
    requires forall i :: 0 <= i < |up| ==> up[i] in LinkTrim
    requires IsDir(fs, InterfaceDevicePath(ifname))
    requires ReadLink(fs, InterfaceDevicePath(ifname)) == Some(up + Render(a))
    requires IsDir(fs, DevicePath(Render(a)))
    requires ReadFile(fs, InterfaceDevicePath(ifname) + "/" + SriovTotalVfs)
          == ReadFile(fs, DevicePath(Render(a)) + "/" + SriovTotalVfs)
    ensures FunctionByIfname(fs, ifname) == Ok((Some(Render(a)), IsPhysicalFunction(fs, a)))
  {
    var s := Render(a);
    assert s[0] == a.domain[0] && IsHexDigit(s[0]);
    assert s[|s| - 1] == a.func[0] && IsHexDigit(s[|s| - 1]);
    LinkTargetAddress(fs, ifname, up, s);
  }

  /** get_ifname_by_pci_address: the last entry of the device's (or its physical
      function's) net listing; a listing that fails, or is empty, raises
      PciDeviceNotFoundById. */
  function IfnameByPciAddress(fs: Sysfs, addr: string, pfInterface: bool): (r: Result<string, ResolveError>)
    ensures r.Ok? <==> ListDir(fs, NetDevPath(addr, pfInterface)).Some? && ListDir(fs, NetDevPath(addr, pfInterface)).value != []
    ensures r.Ok? ==> var l := ListDir(fs, NetDevPath(addr, pfInterface)).value;
                      r.value in l && r.value == l[|l| - 1]
    ensures r.Err? ==> r.error == PciDeviceNotFoundById(addr)
  {
    match ListDir(fs, NetDevPath(addr, pfInterface))
    case None => Err(PciDeviceNotFoundById(addr))
    case Some(entries) =>
      if entries == [] then Err(PciDeviceNotFoundById(addr)) else Ok(entries[|entries| - 1])
  }

  /** The address file of an interface of a device. */
  function AddressFilePath(addr: string, pfInterface: bool, ifname: string): string {
    NetDevPath(addr, pfInterface) + "/" + ifname + "/address"
  }

  /** get_mac_by_pci_address: the first line of the interface's address file with its
      surrounding whitespace removed. The interface must resolve, the file must read
      and the line must not be blank; otherwise PciDeviceNotFoundById. */
  function MacByPciAddress(fs: Sysfs, addr: string, pfInterface: bool): (r: Result<string, ResolveError>)
    ensures r.Ok? ==> && IfnameByPciAddress(fs, addr, pfInterface).Ok?
                      && r.value != [] && r.value[0] !in Whitespace && r.value[|r.value| - 1] !in Whitespace
                      && '\n' !in r.value
    ensures r.Ok? ==> ReadFile(fs, AddressFilePath(addr, pfInterface, IfnameByPciAddress(fs, addr, pfInterface).value)).Some?
    ensures IfnameByPciAddress(fs, addr, pfInterface).Err? ==> r.Err?
    ensures IfnameByPciAddress(fs, addr, pfInterface).Ok? &&
            ReadFile(fs, AddressFilePath(addr, pfInterface, IfnameByPciAddress(fs, addr, pfInterface).value)).None?
            ==> r.Err?
    ensures r.Err? ==> r.error == PciDeviceNotFoundById(addr)
  {
    var ifname := IfnameByPciAddress(fs, addr, pfInterface);
    if ifname.Err? then Err(ifname.error)
    else
      var content := ReadFile(fs, AddressFilePath(addr, pfInterface, ifname.value));
      if content.None? then Err(PciDeviceNotFoundById(addr))
      else
        var mac := StripLine(content.value);
        StripLineEnds(content.value);
        if mac == [] then Err(PciDeviceNotFoundById(addr)) else Ok(mac)
  }

  /** The MAC is what strip() leaves of the address file's first line: the call succeeds
      exactly when the interface resolves, the file reads and that line is not all
      whitespace. */
  lemma MacOfAddressFile(fs: Sysfs, addr: string, pfInterface: bool)
    ensures var r := MacByPciAddress(fs, addr, pfInterface);
            var ifname := IfnameByPciAddress(fs, addr, pfInterface);
            var content := if ifname.Ok? then ReadFile(fs, AddressFilePath(addr, pfInterface, ifname.value)) else None;
            && (r.Ok? <==> content.Some? && !AllIn(FirstLine(content.value), Whitespace))
            && (r.Ok? ==> IsStripOf(FirstLine(content.value), r.value, Whitespace))
  {
    var ifname := IfnameByPciAddress(fs, addr, pfInterface);
    if ifname.Ok? {
      var content := ReadFile(fs, AddressFilePath(addr, pfInterface, ifname.value));
      if content.Some? {
        StripLineIsStripOf(content.value);
        assert MacByPciAddress(fs, addr, pfInterface)
            == if StripLine(content.value) == [] then Err(PciDeviceNotFoundById(addr))
               else Ok(StripLine(content.value));
      }
    }
  }

  /** An address file whose first line is a MAC, with or without whitespace around it
      and with or without a newline after it, yields exactly that MAC. */
  lemma MacFromAddressFile(fs: Sysfs, addr: string, pfInterface: bool, ws1: string, mac: string,
                           ws2: string, rest: string)
    requires IfnameByPciAddress(fs, addr, pfInterface).Ok?
    requires AllIn(ws1, Whitespace) && AllIn(ws2, Whitespace) && '\n' !in ws1 && '\n' !in ws2
    requires mac != [] && '\n' !in mac && mac[0] !in Whitespace && mac[|mac| - 1] !in Whitespace
    requires rest == [] || rest[0] == '\n'
    requires ReadFile(fs, AddressFilePath(addr, pfInterface, IfnameByPciAddress(fs, addr, pfInterface).value))
          == Some(ws1 + mac + ws2 + rest)
    ensures MacByPciAddress(fs, addr, pfInterface) == Ok(mac)
  {
    StripLineOf(ws1, mac, ws2, rest);
  }

  lemma MacFromEmptyFile(fs: Sysfs, addr: string, pfInterface: bool)
    requires IfnameByPciAddress(fs, addr, pfInterface).Ok?
    requires ReadFile(fs, AddressFilePath(addr, pfInterface, IfnameByPciAddress(fs, addr, pfInterface).value)) == Some("")
    ensures MacByPciAddress(fs, addr, pfInterface) == Err(PciDeviceNotFoundById(addr))
  {
  }

  /** The directory whose virtfn* links name the virtual functions of a device's
      physical function. */
  function PhysfnPath(addr: string): string {
    DevicePath(addr) + "/physfn"
  }

  /** glob.iglob(".../physfn/virtfn*"): the entries of the physfn directory whose names
      start with "virtfn", in listing order; nothing when the directory is absent. */
  function VirtfnEntries(fs: Sysfs, addr: string): (r: seq<string>)
    ensures forall i :: 0 <= i < |r| ==> IsPrefix("virtfn", r[i])
  {
    match ListDir(fs, PhysfnPath(addr))
    case None => []
    case Some(entries) => FilterPrefix(entries, "virtfn")
  }

  /** The strings of xs that start with p, in order. */
  function FilterPrefix(xs: seq<string>, p: string): (r: seq<string>)
    ensures forall i :: 0 <= i < |r| ==> IsPrefix(p, r[i]) && r[i] in xs
    ensures forall x :: x in xs && IsPrefix(p, x) ==> x in r
  {
    if xs == [] then []
    else (if IsPrefix(p, xs[0]) then [xs[0]] else []) + FilterPrefix(xs[1..], p)
  }

  /** The longest run of decimal digits at the start of s. */
  function LeadingDigits(s: string): (r: string)
    ensures IsPrefix(r, s) && AllDecDigits(r)
    ensures r == s || !IsDecDigit(s[|r|])
  {
    if s == [] || !IsDecDigit(s[0]) then [] else [s[0]] + LeadingDigits(s[1..])
  }

  /** The number N of a "virtfnN..." entry (the first match of virtfn(\d+)); None when
      no digit follows "virtfn". */
  function VirtfnIndex(entry: string): (r: Option<nat>)
    ensures r.Some? ==> IsPrefix("virtfn", entry)
  {
    if !IsPrefix("virtfn", entry) then None
    else
      var d := LeadingDigits(entry[6..]);
      if d == [] then None else Some(DigitsValue(d))
  }

  /** The link of a virtfn entry reads and points at the queried address. */
  predicate PointsAt(fs: Sysfs, addr: string, entry: string) {
    var t := ReadLink(fs, PhysfnPath(addr) + "/" + entry);
    t.Some? && Basename(t.value) == addr
  }

  /** The link of a virtfn entry reads and points elsewhere. */
  predicate PointsElsewhere(fs: Sysfs, addr: string, entry: string) {
    var t := ReadLink(fs, PhysfnPath(addr) + "/" + entry);
    t.Some? && Basename(t.value) != addr
  }

  /** The scan of get_vf_num_by_pci_address over the virtfn entries, in order: the first
      entry whose link points at the address gives the result, and any failure on the
      way (a link that does not read, an entry without a number) ends it with
      PciDeviceNotFoundById, as does running out of entries. */
  function VfNumOfEntries(fs: Sysfs, addr: string, entries: seq<string>): (r: Result<nat, ResolveError>)
    ensures r.Err? ==> r.error == PciDeviceNotFoundById(addr)
  {
    if entries == [] then Err(PciDeviceNotFoundById(addr))
    else
      var t := ReadLink(fs, PhysfnPath(addr) + "/" + entries[0]);
      if t.None? then Err(PciDeviceNotFoundById(addr))
      else if Basename(t.value) == addr then
        match VirtfnIndex(entries[0])
        case None => Err(PciDeviceNotFoundById(addr))
        case Some(n) => Ok(n)
      else VfNumOfEntries(fs, addr, entries[1..])
  }

  /** Entry i is the one the scan stops at: its link points at the address and the
      links of all entries before it read and point elsewhere. */
  predicate FirstPointingAt(fs: Sysfs, addr: string, entries: seq<string>, i: int) {
    && 0 <= i < |entries| && PointsAt(fs, addr, entries[i])
    && forall j :: 0 <= j < i ==> PointsElsewhere(fs, addr, entries[j])
  }

  /** The scan returns n exactly when some entry is the first to point at the address
      and is named virtfn<n>. */
  lemma {:induction false} VfNumFound(fs: Sysfs, addr: string, entries: seq<string>, n: nat)
    ensures VfNumOfEntries(fs, addr, entries) == Ok(n) <==>
            exists i :: FirstPointingAt(fs, addr, entries, i) && VirtfnIndex(entries[i]) == Some(n)
  {
    if entries != [] {
      var tail := entries[1..];
      VfNumFound(fs, addr, tail, n);
      if PointsElsewhere(fs, addr, entries[0]) {
        assert VfNumOfEntries(fs, addr, entries) == VfNumOfEntries(fs, addr, tail);
        FoundPastElsewhere(fs, addr, entries, n);
      } else if PointsAt(fs, addr, entries[0]) {
        FoundAtHead(fs, addr, entries, n);
      } else {
        assert VfNumOfEntries(fs, addr, entries).Err?;
        assert forall i :: 0 <= i < |entries| ==> !FirstPointingAt(fs, addr, entries, i);
      }
    }
  }

  /** When the first entry points at the address, it is the one the scan stops at. */
  lemma FoundAtHead(fs: Sysfs, addr: string, entries: seq<string>, n: nat)
    requires entries != [] && PointsAt(fs, addr, entries[0])
    ensures (exists i :: FirstPointingAt(fs, addr, entries, i) && VirtfnIndex(entries[i]) == Some(n))
            <==> VirtfnIndex(entries[0]) == Some(n)
  {
    assert FirstPointingAt(fs, addr, entries, 0);
    assert forall i :: FirstPointingAt(fs, addr, entries, i) ==> i == 0;
  }

  /** Past a first entry that points elsewhere, the scan's target is the tail's. */
  lemma FoundPastElsewhere(fs: Sysfs, addr: string, entries: seq<string>, n: nat)
    requires entries != [] && PointsElsewhere(fs, addr, entries[0])
    ensures (exists i :: FirstPointingAt(fs, addr, entries, i) && VirtfnIndex(entries[i]) == Some(n))
            <==> (exists i :: FirstPointingAt(fs, addr, entries[1..], i) && VirtfnIndex(entries[1..][i]) == Some(n))
  {
    var tail := entries[1..];
    if exists i :: FirstPointingAt(fs, addr, entries, i) && VirtfnIndex(entries[i]) == Some(n) {
      var i :| FirstPointingAt(fs, addr, entries, i) && VirtfnIndex(entries[i]) == Some(n);
      assert i != 0;
      FirstPointingTail(fs, addr, entries, i - 1);
      assert FirstPointingAt(fs, addr, tail, i - 1) && VirtfnIndex(tail[i - 1]) == Some(n);
    }
    if exists i :: FirstPointingAt(fs, addr, tail, i) && VirtfnIndex(tail[i]) == Some(n) {
      var i :| FirstPointingAt(fs, addr, tail, i) && VirtfnIndex(tail[i]) == Some(n);
      FirstPointingTail(fs, addr, entries, i);
      assert FirstPointingAt(fs, addr, entries, i + 1) && VirtfnIndex(entries[i + 1]) == Some(n);
    }
  }

  /** Past a first entry that points elsewhere, the first entry pointing at the address
      is found one place further on. */
  lemma FirstPointingTail(fs: Sysfs, addr: string, entries: seq<string>, i: int)
    requires entries != [] && PointsElsewhere(fs, addr, entries[0]) && 0 <= i
    ensures FirstPointingAt(fs, addr, entries, i + 1) <==> FirstPointingAt(fs, addr, entries[1..], i)
    ensures i + 1 < |entries| ==> entries[i + 1] == entries[1..][i]
  {
    var tail := entries[1..];
    if FirstPointingAt(fs, addr, entries, i + 1) {
      forall j | 0 <= j < i ensures PointsElsewhere(fs, addr, tail[j]) {
        assert tail[j] == entries[j + 1];
      }
    }
    if FirstPointingAt(fs, addr, tail, i) {
      forall j | 0 <= j < i + 1 ensures PointsElsewhere(fs, addr, entries[j]) {
        if j > 0 {
          assert entries[j] == tail[j - 1];
        }
      }
    }
  }

  /** When no virtfn link points at the address the scan raises PciDeviceNotFoundById. */
  lemma {:induction false} VfNumNotFound(fs: Sysfs, addr: string, entries: seq<string>)
    requires forall i :: 0 <= i < |entries| ==> !PointsAt(fs, addr, entries[i])
    ensures VfNumOfEntries(fs, addr, entries) == Err(PciDeviceNotFoundById(addr))
  {
    if entries != [] {
      var tail := entries[1..];
      forall i | 0 <= i < |tail| ensures !PointsAt(fs, addr, tail[i]) {
        assert tail[i] == entries[i + 1];
      }
      VfNumNotFound(fs, addr, tail);
    }
  }

  /** get_vf_num_by_pci_address: walks the virtfn entries of the address's physical
      function and returns the number of the one whose link points back at the address. */
  method VfNumByPciAddress(fs: Sysfs, addr: string) returns (r: Result<nat, ResolveError>)
    ensures r == VfNumOfEntries(fs, addr, VirtfnEntries(fs, addr))
  {
    var entries := VirtfnEntries(fs, addr);
    var i := 0;
    while i < |entries|
      invariant 0 <= i <= |entries|
      invariant VfNumOfEntries(fs, addr, entries[i..]) == VfNumOfEntries(fs, addr, entries)
    {
      assert entries[i..][1..] == entries[i + 1..];
      var link := ReadLink(fs, PhysfnPath(addr) + "/" + entries[i]);
      if link.None? {
        return Err(PciDeviceNotFoundById(addr));
      }
      if Basename(link.value) == addr {
        var n := VirtfnIndex(entries[i]);
        if n.None? {
          return Err(PciDeviceNotFoundById(addr));
        }
        return Ok(n.value);
      }
      i := i + 1;
    }
    return Err(PciDeviceNotFoundById(addr));
  }

  /** The number read back from "virtfn" + str(n) is n. */
  lemma VirtfnIndexOfName(n: nat)
    ensures VirtfnIndex("virtfn" + NatToString(n)) == Some(n)
  {
    var e := "virtfn" + NatToString(n);
    assert IsPrefix("virtfn", e);
    assert e[6..] == NatToString(n);
    LeadingDigitsAll(NatToString(n));
    NatToStringValue(n);
  }

  lemma {:induction false} LeadingDigitsAll(s: string)
    requires AllDecDigits(s)
    ensures LeadingDigits(s) == s
  {
    if s != [] {
      LeadingDigitsAll(s[1..]);
      assert s == [s[0]] + s[1..];
    }
  }

  /** The file sriov_vf_device of a physical function. */
  function VfDevicePath(pfAddr: string): string {
    DevicePath(pfAddr) + "/sriov_vf_device"
  }

  /** get_vf_product_id_by_pf_addr: the first line of sriov_vf_device, stripped. A file
      that does not read, or a blank line, raises ValueError. */
  function VfProductIdByPfAddr(fs: Sysfs, pfAddr: string): (r: Result<string, ResolveError>)
    ensures ReadFile(fs, VfDevicePath(pfAddr)).None? ==> r.Err?
    ensures r.Ok? ==> r.value != [] && r.value[0] !in Whitespace && r.value[|r.value| - 1] !in Whitespace
                      && '\n' !in r.value
    ensures r.Err? ==> r.error == ValueFormatError(VfDevicePath(pfAddr))
  {
    var path := VfDevicePath(pfAddr);
    var content := ReadFile(fs, path);
    if content.None? then Err(ValueFormatError(path))
    else
      var id := StripLine(content.value);
      StripLineEnds(content.value);
      if id == [] then Err(ValueFormatError(path)) else Ok(id)
  }

  /** The product id is what strip() leaves of the first line of sriov_vf_device: the
      call succeeds exactly when the file reads and that line is not all whitespace. */
  lemma VfProductIdOfFile(fs: Sysfs, pfAddr: string)
    ensures var r := VfProductIdByPfAddr(fs, pfAddr);
            var content := ReadFile(fs, VfDevicePath(pfAddr));
            && (r.Ok? <==> content.Some? && !AllIn(FirstLine(content.value), Whitespace))
            && (r.Ok? ==> IsStripOf(FirstLine(content.value), r.value, Whitespace))
  {
    var content := ReadFile(fs, VfDevicePath(pfAddr));
    if content.Some? {
      StripLineIsStripOf(content.value);
      assert VfProductIdByPfAddr(fs, pfAddr)
          == if StripLine(content.value) == [] then Err(ValueFormatError(VfDevicePath(pfAddr)))
             else Ok(StripLine(content.value));
    }
  }

  /** A sriov_vf_device whose first line is an id, with or without whitespace around it
      and with or without a newline after it, reads as that id. */
  lemma VfProductIdFromFile(fs: Sysfs, pfAddr: string, ws1: string, id: string, ws2: string,
                            rest: string)
    requires AllIn(ws1, Whitespace) && AllIn(ws2, Whitespace) && '\n' !in ws1 && '\n' !in ws2
    requires id != [] && '\n' !in id && id[0] !in Whitespace && id[|id| - 1] !in Whitespace
    requires rest == [] || rest[0] == '\n'
    requires ReadFile(fs, VfDevicePath(pfAddr)) == Some(ws1 + id + ws2 + rest)
    ensures VfProductIdByPfAddr(fs, pfAddr) == Ok(id)
  {
    StripLineOf(ws1, id, ws2, rest);
  }

  lemma VfProductIdFromEmptyFile(fs: Sysfs, pfAddr: string)
    requires ReadFile(fs, VfDevicePath(pfAddr)) == Some("")
    ensures VfProductIdByPfAddr(fs, pfAddr) == Err(ValueFormatError(VfDevicePath(pfAddr)))
  {
  }

  /** One id file of a device ("vendor" or "product"). */
  function IdFilePath(addr: string, name: string): string {
    DevicePath(addr) + "/" + name
  }

  /** One id of get_pci_ids_by_pci_addr: the first line of the file, stripped, with every
      "0x" removed. A file that does not read, or a blank line, raises ValueError naming
      the file. */
  function ReadPciId(fs: Sysfs, addr: string, name: string): (r: Result<string, ResolveError>)
    ensures r.Err? ==> r.error == ValueFormatError(IdFilePath(addr, name))
  {
    var path := IdFilePath(addr, name);
    var content := ReadFile(fs, path);
    if content.None? then Err(ValueFormatError(path))
    else
      var line := StripLine(content.value);
      if line == [] then Err(ValueFormatError(path)) else Ok(RemoveAll(line, "0x"))
  }

  /** An id reads exactly when its file reads and its stripped first line is not blank. */
  lemma ReadPciIdSucceeds(fs: Sysfs, addr: string, name: string)
    ensures ReadPciId(fs, addr, name).Ok? <==>
              && ReadFile(fs, IdFilePath(addr, name)).Some?
              && StripLine(ReadFile(fs, IdFilePath(addr, name)).value) != []
  {
  }

  /** An id file holding "0x" and hex digits on its first line reads as those digits. */
  lemma PciIdFromFile(fs: Sysfs, addr: string, name: string, hex: string, rest: string)
    requires hex != [] && AllHexDigits(hex)
    requires ReadFile(fs, IdFilePath(addr, name)) == Some("0x" + hex + "\n" + rest)
    ensures ReadPciId(fs, addr, name) == Ok(hex)
  {
    var m := "0x" + hex;
    HexNoNewlineNoX(hex);
    assert '\n' !in m;
    assert m[|m| - 1] == hex[|hex| - 1];
    assert [] + m + [] + ("\n" + rest) == "0x" + hex + "\n" + rest;
    StripLineOf([], m, [], "\n" + rest);
    PrefixedIdRemoval(hex);
  }

  lemma HexNoNewlineNoX(hex: string)
    requires AllHexDigits(hex)
    ensures '\n' !in hex && 'x' !in hex
    ensures hex != [] ==> hex[|hex| - 1] !in Whitespace
  {
    forall i | 0 <= i < |hex| ensures hex[i] != '\n' && hex[i] != 'x' {
      assert IsHexDigit(hex[i]);
    }
    if hex != [] {
      assert IsHexDigit(hex[|hex| - 1]);
    }
  }

  lemma PrefixedIdRemoval(hex: string)
    requires 'x' !in hex
    ensures RemoveAll("0x" + hex, "0x") == hex
  {
    var m := "0x" + hex;
    assert IsPrefix("0x", m);
    assert m[2..] == hex;
    RemoveAllAbsent(hex, "0x", 'x');
  }

  /** get_pci_ids_by_pci_addr as one value: the vendor id and then the product id, the
      first file that fails raising its ValueError. */
  function PciIds(fs: Sysfs, addr: string): Result<(string, string), ResolveError> {
    var vendor :- ReadPciId(fs, addr, "vendor");
    var product :- ReadPciId(fs, addr, "product");
    Ok((vendor, product))
  }

  /** get_pci_ids_by_pci_addr: reads the files of names in order, and returns the ids
      only when every one of them reads. */
  method PciIdsByPciAddr(fs: Sysfs, addr: string) returns (r: Result<(string, string), ResolveError>)
    ensures r == PciIds(fs, addr)
  {
    var names := ["vendor", "product"];
    var ids: seq<string> := [];
    for k := 0 to |names|
      invariant |ids| == k
      invariant forall j :: 0 <= j < k ==> ReadPciId(fs, addr, names[j]) == Ok(ids[j])
    {
      var id := ReadPciId(fs, addr, names[k]);
      if id.Err? {
        assert k == 1 ==> ReadPciId(fs, addr, names[0]) == Ok(ids[0]);
        return Err(id.error);
      }
      var next := ids + [id.value];
      forall j | 0 <= j < k + 1 ensures ReadPciId(fs, addr, names[j]) == Ok(next[j]) {
        if j < k {
          assert next[j] == ids[j];
        }
      }
      ids := next;
    }
    return Ok((ids[0], ids[1]));
  }

  /** The vendor file is read first: when it fails, its error is raised whatever the
      product file holds. */
  lemma PciIdsVendorFirst(fs: Sysfs, addr: string)
    requires ReadPciId(fs, addr, "vendor").Err?
    ensures PciIds(fs, addr) == Err(ValueFormatError(IdFilePath(addr, "vendor")))
  {
  }

  /** Id files holding "0x" and hex digits read as the digits, as a pair. */
  lemma PciIdsFromFiles(fs: Sysfs, addr: string, vendor: string, product: string)
    requires vendor != [] && AllHexDigits(vendor) && product != [] && AllHexDigits(product)
    requires ReadFile(fs, IdFilePath(addr, "vendor")) == Some("0x" + vendor + "\n")
    requires ReadFile(fs, IdFilePath(addr, "product")) == Some("0x" + product + "\n")
    ensures PciIds(fs, addr) == Ok((vendor, product))
  {
    assert "0x" + vendor + "\n" == "0x" + vendor + "\n" + "";
    assert "0x" + product + "\n" == "0x" + product + "\n" + "";
    PciIdFromFile(fs, addr, "vendor", vendor, "");
    PciIdFromFile(fs, addr, "product", product, "");
  }

  /** The virtual function of the unit tests: "virtfn3" links back to the queried
      address and gives 3. */
  lemma VfNumFoundExample(fs: Sysfs)
    requires ListDir(fs, PhysfnPath("0000:00:00.1")) == Some(["virtfn3"])
    requires ReadLink(fs, PhysfnPath("0000:00:00.1") + "/virtfn3") == Some("../../0000:00:00.1")
    ensures VfNumOfEntries(fs, "0000:00:00.1", VirtfnEntries(fs, "0000:00:00.1")) == Ok(3)
  {
    VirtfnEntriesExample(fs, "0000:00:00.1");
    assert PhysfnPath("0000:00:00.1") + "/" + "virtfn3" == PhysfnPath("0000:00:00.1") + "/virtfn3";
    assert "../.." + "/" + "0000:00:00.1" == "../../0000:00:00.1";
    LinkBack(fs, "0000:00:00.1", "virtfn3");
    VirtfnIndexOfName(3);
    assert "virtfn" + NatToString(3) == "virtfn3";
    VfNumOfFirstEntry(fs, "0000:00:00.1", "virtfn3", 3);
  }

  /** A link "../../<addr>" points back at the address. */
  lemma LinkBack(fs: Sysfs, addr: string, entry: string)
    requires '/' !in addr
    requires ReadLink(fs, PhysfnPath(addr) + "/" + entry) == Some("../.." + "/" + addr)
    ensures PointsAt(fs, addr, entry)
  {
    BasenameOf("../..", addr);
  }

  /** A link "../../<other>" does not point at the address. */
  lemma LinkAway(fs: Sysfs, addr: string, other: string, entry: string)
    requires '/' !in other && other != addr
    requires ReadLink(fs, PhysfnPath(addr) + "/" + entry) == Some("../.." + "/" + other)
    ensures !PointsAt(fs, addr, entry)
  {
    BasenameOf("../..", other);
  }

  lemma VfNumOfFirstEntry(fs: Sysfs, addr: string, entry: string, n: nat)
    requires PointsAt(fs, addr, entry) && VirtfnIndex(entry) == Some(n)
    ensures VfNumOfEntries(fs, addr, [entry]) == Ok(n)
  {
  }

  /** The same link pointing at another address gives PciDeviceNotFoundById. */
  lemma VfNumNotFoundExample(fs: Sysfs)
    requires ListDir(fs, PhysfnPath("0000:00:00.1")) == Some(["virtfn3"])
    requires ReadLink(fs, PhysfnPath("0000:00:00.1") + "/virtfn3") == Some("../../0000:00:00.2")
    ensures VfNumOfEntries(fs, "0000:00:00.1", VirtfnEntries(fs, "0000:00:00.1")) == Err(PciDeviceNotFoundById("0000:00:00.1"))
  {
    var addr := "0000:00:00.1";
    VirtfnEntriesExample(fs, addr);
    assert PhysfnPath(addr) + "/" + "virtfn3" == PhysfnPath(addr) + "/virtfn3";
    assert "../.." + "/" + "0000:00:00.2" == "../../0000:00:00.2";
    assert "0000:00:00.2"[11] != addr[11];
    LinkAway(fs, addr, "0000:00:00.2", "virtfn3");
    VfNumNotFound(fs, addr, ["virtfn3"]);
  }

  lemma VirtfnEntriesExample(fs: Sysfs, addr: string)
    requires ListDir(fs, PhysfnPath(addr)) == Some(["virtfn3"])
    ensures VirtfnEntries(fs, addr) == ["virtfn3"]
  {
    assert IsPrefix("virtfn", "virtfn3");
    assert FilterPrefix(["virtfn3"], "virtfn") == ["virtfn3"];
  }

  /** The interface listing of the unit tests: ["foo", "bar"] resolves to "bar"; a
      listing that fails raises PciDeviceNotFoundById. */
  lemma IfnameExamples(fs: Sysfs, addr: string, pfInterface: bool)
    ensures ListDir(fs, NetDevPath(addr, pfInterface)) == Some(["foo", "bar"]) ==>
              IfnameByPciAddress(fs, addr, pfInterface) == Ok("bar")
    ensures ListDir(fs, NetDevPath(addr, pfInterface)).None? ==>
              IfnameByPciAddress(fs, addr, pfInterface) == Err(PciDeviceNotFoundById(addr))
  {
  }

  /** A sriov_totalvfs holding "4" makes a physical function. */
  lemma TotalVfsFour()
    ensures TotalVfsPositive("4")
  {
    ParseIntOfNat(4);
    assert NatToString(4) == "4";
  }

  /** The prefix "../../../" of the unit tests' links is cut off by strip("./"). */
  lemma UpDirsTrimmed()
    ensures forall i :: 0 <= i < |"../../../"| ==> "../../../"[i] in LinkTrim
  {
  }

  /** The interfaces of the unit tests: a link "../../../0000.00.00.1" is reported as
      the address "0000.00.00.1", unvalidated, and as a virtual function when
      sriov_totalvfs does not read. */
  lemma FunctionByIfnameVirtual(fs: Sysfs)
    requires IsDir(fs, InterfaceDevicePath("eth0"))
    requires ReadLink(fs, InterfaceDevicePath("eth0")) == Some("../../../0000.00.00.1")
    requires ReadFile(fs, InterfaceDevicePath("eth0") + "/" + SriovTotalVfs).None?
    ensures FunctionByIfname(fs, "eth0") == Ok((Some("0000.00.00.1"), false))
  {
    UpDirsTrimmed();
    assert "../../../" + "0000.00.00.1" == "../../../0000.00.00.1";
    LinkTargetAddress(fs, "eth0", "../../../", "0000.00.00.1");
  }

  /** "../../../0000:00:00.1" with a count of 4 is a physical function. */
  lemma FunctionByIfnamePhysical(fs: Sysfs)
    requires IsDir(fs, InterfaceDevicePath("eth0"))
    requires ReadLink(fs, InterfaceDevicePath("eth0")) == Some("../../../0000:00:00.1")
    requires ReadFile(fs, InterfaceDevicePath("eth0") + "/" + SriovTotalVfs) == Some("4")
    ensures FunctionByIfname(fs, "eth0") == Ok((Some("0000:00:00.1"), true))
  {
    UpDirsTrimmed();
    assert "../../../" + "0000:00:00.1" == "../../../0000:00:00.1";
    LinkTargetAddress(fs, "eth0", "../../../", "0000:00:00.1");
    TotalVfsFour();
  }

  /** An interface without a device directory gives (None, False). */
  lemma FunctionByIfnameAbsent(fs: Sysfs)
    requires !IsDir(fs, InterfaceDevicePath("lo"))
    ensures FunctionByIfname(fs, "lo") == Ok((None, false))
  {
  }

  /** is_physical_function on 0000:00:00.1 of the unit tests: True with a count of 4,
      False when sriov_totalvfs does not read or the device directory is absent. */
  lemma IsPhysicalFunctionExamples(fs: Sysfs)
    ensures var a := Address("0000", "00", "00", "1");
            && (IsDir(fs, DevicePath(Render(a))) && ReadFile(fs, DevicePath(Render(a)) + "/" + SriovTotalVfs) == Some("4")
                ==> IsPhysicalFunction(fs, a))
            && (ReadFile(fs, DevicePath(Render(a)) + "/" + SriovTotalVfs).None? ==> !IsPhysicalFunction(fs, a))
            && (!IsDir(fs, DevicePath(Render(a))) ==> !IsPhysicalFunction(fs, a))
  {
    TotalVfsFour();
  }
}
