/** The pure parts of nova's Cyborg client: requester ids of device profile groups,
    the device amount of a profile, its translation into request groups, matching
    accelerator requests (ARQs) to resource providers, the binding patch, the
    only_resolved filter and the parameters of a delete. Each call to Cyborg is
    replaced by its outcome, given as a parameter. */
module Cyborg {
  import opened Wrappers
  import opened Text
  import opened PciAddress
  import opened RequestGroups

  /** The exceptions the client raises, and the Python errors that escape it. */
  datatype CyborgError =
    | DeviceProfileError(name: string, msg: string)
    | AcceleratorRequestOpFailed(op: string, msg: string)
    | AcceleratorRequestBindingFailed(arqs: seq<string>, msg: string)
    | KeyError(key: string)
    | IndexError
    | ValueError(text: string)

  // ---------------------------------------------------------------------------
  // Requester ids

  /** get_device_profile_group_requester_id: "device_profile_" + str(group id), followed
      by the owner when there is one. */
  function RequesterId(groupId: nat, owner: Option<string>): string {
    "device_profile_" + NatToString(groupId) + (if Truthy(owner) then owner.value else [])
  }

  /** For one owner, different groups get different requester ids. */
  lemma RequesterIdInjective(g1: nat, g2: nat, owner: Option<string>)
    requires RequesterId(g1, owner) == RequesterId(g2, owner)
    ensures g1 == g2
  {
    var pre := "device_profile_";
    var suf := if Truthy(owner) then owner.value else [];
    var s1 := NatToString(g1);
    var s2 := NatToString(g2);
    assert pre + s1 + suf == pre + s2 + suf;
    assert |s1| == |s2|;
    assert s1 == (pre + s1 + suf)[|pre|..|pre| + |s1|];
    assert s2 == (pre + s2 + suf)[|pre|..|pre| + |s2|];
    NatToStringInjective(g1, g2);
  }

  /** Without an owner the requester id is "device_profile_<group id>". */
  lemma RequesterIdExamples()
    ensures RequesterId(0, None) == "device_profile_0"
    ensures RequesterId(1, None) == "device_profile_1"
    ensures RequesterId(0, Some("")) == "device_profile_0"
  {
    assert NatToString(0) == "0";
    assert NatToString(1) == "1";
  }

  // ---------------------------------------------------------------------------
  // Device amount of a device profile

  /** What one entry adds to the device amount: int(value) for a key the pattern reads
      as "resources...", nothing for any other key; a value int() rejects raises
      ValueError. */
  function EntryAmount(e: Entry): Result<int, CyborgError> {
    var k := ParseExtraSpecKey(e.0);
    if k.None? || k.value.prefix != Resources then Ok(0)
    else
      var n := ParseInt(e.1);
      if n.None? then Err(ValueError(e.1)) else Ok(n.value)
  }

  /** The amount of each entry of a group, in order. */
  function EntryAmounts(g: seq<Entry>): (r: seq<Result<int, CyborgError>>)
    ensures |r| == |g| && forall i :: 0 <= i < |g| ==> r[i] == EntryAmount(g[i])
  {
    if g == [] then [] else [EntryAmount(g[0])] + EntryAmounts(g[1..])
  }

  /** The amounts of two lists of entries, one after the other. */
  lemma {:induction false} EntryAmountsAppend(g: seq<Entry>, h: seq<Entry>)
    ensures EntryAmounts(g + h) == EntryAmounts(g) + EntryAmounts(h)
  {
    if g == [] {
      assert g + h == h;
    } else {
      assert (g + h)[1..] == g[1..] + h;
      EntryAmountsAppend(g[1..], h);
    }
  }

  /** Amounts added up from the left, stopping at the first failure. */
  function Total(rs: seq<Result<int, CyborgError>>): Result<int, CyborgError> {
    if rs == [] then Ok(0)
    else if rs[0].Err? then Err(rs[0].error)
    else
      var rest := Total(rs[1..]);
      if rest.Err? then Err(rest.error) else Ok(rs[0].value + rest.value)
  }

  /** The amounts of a group's entries added up, stopping at the first int() failure. */
  function GroupAmount(g: seq<Entry>): Result<int, CyborgError> {
    Total(EntryAmounts(g))
  }

  /** A total is defined exactly when every amount is, and otherwise fails with the
      first failure. */
  lemma {:induction false} TotalErrors(rs: seq<Result<int, CyborgError>>)
    ensures Total(rs).Ok? <==> forall i :: 0 <= i < |rs| ==> rs[i].Ok?
    ensures Total(rs).Err? ==> exists i :: && 0 <= i < |rs| && rs[i] == Err(Total(rs).error)
                                           && forall j :: 0 <= j < i ==> rs[j].Ok?
    decreases |rs|
  {
    if rs != [] {
      TotalErrors(rs[1..]);
      assert forall i :: 1 <= i < |rs| ==> rs[1..][i - 1] == rs[i];
      if rs[0].Ok? && Total(rs[1..]).Err? {
        var k :| && 0 <= k < |rs[1..]| && rs[1..][k] == Err(Total(rs[1..]).error)
                 && forall j :: 0 <= j < k ==> rs[1..][j].Ok?;
        assert rs[k + 1] == Err(Total(rs).error);
        forall j | 0 <= j < k + 1 ensures rs[j].Ok? {
          if j > 0 {
            assert rs[j] == rs[1..][j - 1];
          }
        }
      }
    }
  }

  /** The total of two lists of amounts is the sum of their totals. */
  lemma {:induction false} TotalAppend(a: seq<Result<int, CyborgError>>, b: seq<Result<int, CyborgError>>)
    requires Total(a).Ok? && Total(b).Ok?
    ensures Total(a + b) == Ok(Total(a).value + Total(b).value)
  {
    if a != [] {
      assert (a + b)[1..] == a[1..] + b;
      assert (a + b)[0] == a[0];
      TotalAppend(a[1..], b);
    } else {
      assert a + b == b;
    }
  }

  /** A group's amount is defined exactly when int() accepts every resource amount of
      it, and otherwise fails with the error of the first entry int() rejects. */
  lemma GroupAmountErrors(g: seq<Entry>)
    ensures GroupAmount(g).Ok? <==> forall i :: 0 <= i < |g| ==> EntryAmount(g[i]).Ok?
    ensures GroupAmount(g).Err? ==> exists i :: && 0 <= i < |g| && EntryAmount(g[i]) == Err(GroupAmount(g).error)
                                                && forall j :: 0 <= j < i ==> EntryAmount(g[j]).Ok?
  {
    TotalErrors(EntryAmounts(g));
  }

  /** Adding entries to a group adds their amounts. */
  lemma GroupAmountAppend(g: seq<Entry>, h: seq<Entry>)
    requires GroupAmount(g).Ok? && GroupAmount(h).Ok?
    ensures GroupAmount(g + h) == Ok(GroupAmount(g).value + GroupAmount(h).value)
  {
    EntryAmountsAppend(g, h);
    TotalAppend(EntryAmounts(g), EntryAmounts(h));
  }

  /** Entries whose key is not a "resources" key (traits, "accel:..." keys) add nothing. */
  lemma NonResourceEntryIgnored(g: seq<Entry>, e: Entry)
    requires ParseExtraSpecKey(e.0).None? || ParseExtraSpecKey(e.0).value.prefix == Trait
    ensures GroupAmount([e] + g) == GroupAmount(g)
  {
    assert ([e] + g)[1..] == g;
  }

  /** get_device_amount_of_dp_groups: the sum over all groups of their resource amounts. */
  function DeviceAmountOfDpGroups(groups: seq<seq<Entry>>): Result<int, CyborgError> {
    Total(GroupAmounts(groups))
  }

  /** The amount of each group, in order. */
  function GroupAmounts(groups: seq<seq<Entry>>): (r: seq<Result<int, CyborgError>>)
    ensures |r| == |groups| && forall i :: 0 <= i < |groups| ==> r[i] == GroupAmount(groups[i])
  {
    if groups == [] then [] else [GroupAmount(groups[0])] + GroupAmounts(groups[1..])
  }

  /** The amounts of two lists of groups, one after the other. */
  lemma {:induction false} GroupAmountsAppend(a: seq<seq<Entry>>, b: seq<seq<Entry>>)
    ensures GroupAmounts(a + b) == GroupAmounts(a) + GroupAmounts(b)
  {
    if a == [] {
      assert a + b == b;
    } else {
      assert (a + b)[1..] == a[1..] + b;
      GroupAmountsAppend(a[1..], b);
    }
  }

  /** The device amount is defined exactly when every group's amount is, and otherwise
      fails with the first failure. */
  lemma DeviceAmountErrors(groups: seq<seq<Entry>>)
    ensures DeviceAmountOfDpGroups(groups).Ok? <==> forall i :: 0 <= i < |groups| ==> GroupAmount(groups[i]).Ok?
    ensures DeviceAmountOfDpGroups(groups).Err? ==>
              exists i :: && 0 <= i < |groups| && GroupAmount(groups[i]) == Err(DeviceAmountOfDpGroups(groups).error)
                          && forall j :: 0 <= j < i ==> GroupAmount(groups[j]).Ok?
  {
    TotalErrors(GroupAmounts(groups));
  }

  /** The amount of a list of groups is the sum of the amounts of its two parts. */
  lemma DeviceAmountAppend(a: seq<seq<Entry>>, b: seq<seq<Entry>>)
    requires DeviceAmountOfDpGroups(a).Ok? && DeviceAmountOfDpGroups(b).Ok?
    ensures DeviceAmountOfDpGroups(a + b) ==
              Ok(DeviceAmountOfDpGroups(a).value + DeviceAmountOfDpGroups(b).value)
  {
    GroupAmountsAppend(a, b);
    TotalAppend(GroupAmounts(a), GroupAmounts(b));
  }

  /** The device profile group of the unit tests: one FPGA and a required FPGA card. */
  function FpgaGroup(amount: string): seq<Entry> {
    [("resources:FPGA", amount), ("trait:CUSTOM_FPGA_CARD", "required")]
  }

  lemma FpgaKeys()
    ensures ParseExtraSpecKey("resources:FPGA") == Some(SpecKey(Resources, "", "FPGA"))
    ensures ParseExtraSpecKey("trait:CUSTOM_FPGA_CARD") == Some(SpecKey(Trait, "", "CUSTOM_FPGA_CARD"))
  {
    FpgaResourceKey();
    FpgaTraitKey();
  }

  lemma FpgaResourceKey()
    ensures ParseExtraSpecKey("resources:FPGA") == Some(SpecKey(Resources, "", "FPGA"))
  {
    assert KeyText(SpecKey(Resources, "", "FPGA")) == "resources:FPGA";
    ParseKeyText(SpecKey(Resources, "", "FPGA"));
  }

  lemma FpgaTraitKey()
    ensures ParseExtraSpecKey("trait:CUSTOM_FPGA_CARD") == Some(SpecKey(Trait, "", "CUSTOM_FPGA_CARD"))
  {
    assert KeyText(SpecKey(Trait, "", "CUSTOM_FPGA_CARD")) == "trait:CUSTOM_FPGA_CARD";
    ParseKeyText(SpecKey(Trait, "", "CUSTOM_FPGA_CARD"));
  }

  lemma ResourceEntryAmount(e: Entry, k: SpecKey, n: int)
    requires ParseExtraSpecKey(e.0) == Some(k) && k.prefix == Resources
    requires ParseInt(e.1) == Some(n)
    ensures EntryAmount(e) == Ok(n)
  {
  }

  lemma TraitEntryAmount(e: Entry, k: SpecKey)
    requires ParseExtraSpecKey(e.0) == Some(k) && k.prefix == Trait
    ensures EntryAmount(e) == Ok(0)
  {
  }

  lemma TotalCons(x: Result<int, CyborgError>, rs: seq<Result<int, CyborgError>>)
    ensures Total([x] + rs) ==
              if x.Err? then Err(x.error)
              else if Total(rs).Err? then Err(Total(rs).error)
              else Ok(x.value + Total(rs).value)
  {
    var xs := [x] + rs;
    assert xs[0] == x && xs[1..] == rs;
    TotalStep(xs);
  }

  lemma TotalStep(xs: seq<Result<int, CyborgError>>)
    requires xs != []
    ensures Total(xs) ==
              if xs[0].Err? then Err(xs[0].error)
              else if Total(xs[1..]).Err? then Err(Total(xs[1..]).error)
              else Ok(xs[0].value + Total(xs[1..]).value)
  {
  }

  lemma FpgaGroupAmount(n: nat)
    ensures GroupAmount(FpgaGroup(NatToString(n))) == Ok(n)
  {
    var g := FpgaGroup(NatToString(n));
    FpgaKeys();
    ParseIntOfNat(n);
    ResourceEntryAmount(g[0], SpecKey(Resources, "", "FPGA"), n);
    TraitEntryAmount(g[1], SpecKey(Trait, "", "CUSTOM_FPGA_CARD"));
    var x, y := EntryAmount(g[0]), EntryAmount(g[1]);
    assert g[1..] == [g[1]] && g[1..][1..] == [];
    assert EntryAmounts(g) == [x] + ([y] + []);
    TotalCons(y, []);
    TotalCons(x, [y] + []);
  }

  lemma SingleGroupAmount(g: seq<Entry>, n: int)
    requires GroupAmount(g) == Ok(n)
    ensures DeviceAmountOfDpGroups([g]) == Ok(n)
  {
    var r: Result<int, CyborgError> := Ok(n);
    assert GroupAmounts([g]) == [r] + [];
    TotalCons(r, []);
  }

  /** [group1] gives 1, [group2] gives 2 and [group1, group2] gives 3. */
  lemma DeviceAmountExamples()
    ensures DeviceAmountOfDpGroups([FpgaGroup("1")]) == Ok(1)
    ensures DeviceAmountOfDpGroups([FpgaGroup("2")]) == Ok(2)
    ensures DeviceAmountOfDpGroups([FpgaGroup("1"), FpgaGroup("2")]) == Ok(3)
  {
    assert GroupAmount(FpgaGroup("1")) == Ok(1) by {
      assert NatToString(1) == "1";
      FpgaGroupAmount(1);
    }
    assert GroupAmount(FpgaGroup("2")) == Ok(2) by {
      assert NatToString(2) == "2";
      FpgaGroupAmount(2);
    }
    SingleGroupAmount(FpgaGroup("1"), 1);
    SingleGroupAmount(FpgaGroup("2"), 2);
    GroupAmountsPair(FpgaGroup("1"), FpgaGroup("2"));
    TotalPair(GroupAmount(FpgaGroup("1")), GroupAmount(FpgaGroup("2")));
  }

  /** The amounts of two groups, in order. */
  lemma GroupAmountsPair(g1: seq<Entry>, g2: seq<Entry>)
    ensures GroupAmounts([g1, g2]) == [GroupAmount(g1), GroupAmount(g2)]
  {
    var r := GroupAmounts([g1, g2]);
    assert r[0] == GroupAmount(g1) && r[1] == GroupAmount(g2);
  }

  /** Two defined amounts add up. */
  lemma TotalPair(r1: Result<int, CyborgError>, r2: Result<int, CyborgError>)
    requires r1.Ok? && r2.Ok?
    ensures Total([r1, r2]) == Ok(r1.value + r2.value)
  {
    assert [r1, r2] == [r1] + ([r2] + []);
    TotalCons(r2, []);
    TotalCons(r1, [r2] + []);
  }

  // ---------------------------------------------------------------------------
  // Device profiles and request groups

  /** A device profile as Cyborg lists it. */
  datatype DeviceProfile = DeviceProfile(name: string, uuid: string, groups: seq<seq<Entry>>)

  /** get_device_profile_groups: the groups of the one profile the list must hold; an
      empty or missing list, or one with several profiles, raises DeviceProfileError. */
  function DeviceProfileGroups(dpList: Option<seq<DeviceProfile>>, dpName: string): (r: Result<seq<seq<Entry>>, CyborgError>)
    ensures r.Ok? <==> dpList.Some? && |dpList.value| == 1
    ensures r.Ok? ==> r.value == dpList.value[0].groups
    ensures (dpList.None? || dpList.value == []) ==>
              r == Err(DeviceProfileError(dpName, "Expected 1 device profile but got nothing."))
    ensures dpList.Some? && |dpList.value| > 1 ==>
              r == Err(DeviceProfileError(dpName, "Expected 1 device profile but got " +
                                                  NatToString(|dpList.value|) + "."))
  {
    if dpList.None? || dpList.value == [] then
      Err(DeviceProfileError(dpName, "Expected 1 device profile but got nothing."))
    else if |dpList.value| != 1 then
      Err(DeviceProfileError(dpName, "Expected 1 device profile but got " + NatToString(|dpList.value|) + "."))
    else Ok(dpList.value[0].groups)
  }

  /** get_device_request_groups: one request group per profile group, in order, the i-th
      with the requester id of group i and the group's entries applied to it. */
  function DeviceRequestGroups(groups: seq<seq<Entry>>, owner: Option<string>, standards: set<string>): (r: seq<RequestGroup>)
    ensures |r| == |groups|
    ensures forall i :: 0 <= i < |r| ==> r[i].requesterId == RequesterId(i, owner)
    ensures forall i, j :: 0 <= i < j < |r| ==> r[i].requesterId != r[j].requesterId
  {
    var r := seq(|groups|, i requires 0 <= i < |groups| =>
                 ApplyEntries(NewRequestGroup(RequesterId(i, owner)), groups[i], standards));
    forall i, j | 0 <= i < j < |r| ensures r[i].requesterId != r[j].requesterId {
      if r[i].requesterId == r[j].requesterId {
        RequesterIdInjective(i, j, owner);
      }
    }
    r
  }

  /** Group i of the translation requires exactly the traits its entries mark "required",
      forbids those marked "forbidden", and has an amount for exactly the classes an
      entry validly sets, the last such entry's amount. */
  lemma DeviceRequestGroupContents(groups: seq<seq<Entry>>, owner: Option<string>, standards: set<string>,
                                   i: nat, t: string, rclass: string)
    requires i < |groups|
    ensures var rg := DeviceRequestGroups(groups, owner, standards)[i];
            var acts := Actions(groups[i], standards);
            && (t in rg.requiredTraits <==> Require(t) in acts)
            && (t in rg.forbiddenTraits <==> Forbid(t) in acts)
            && (rclass in rg.resources <==> SetsClass(acts, rclass))
            && (SetsClass(acts, rclass) ==>
                  exists k :: LastSetting(acts, rclass, k) && rg.resources[rclass] == acts[k].amount)
  {
    var start := NewRequestGroup(RequesterId(i, owner));
    TraitsOfEntries(start, groups[i], standards, t);
    ResourcesOfEntries(start, groups[i], standards, rclass);
  }

  /** The profile "mydp" of the unit tests. */
  function MyDp(): DeviceProfile {
    DeviceProfile("mydp", "307076c2-5aed-4f72-81e8-1b42f9aa2ec6", [FpgaGroup("1")])
  }

  lemma ResourceEntryAction(e: Entry, k: SpecKey, n: int, standards: set<string>)
    requires ParseExtraSpecKey(e.0) == Some(k) && k.prefix == Resources
    requires ValidResourceClass(k.name, standards)
    requires ParseInt(e.1) == Some(n) && n >= 0
    ensures EntryAction(e, standards) == SetAmount(k.name, n)
  {
  }

  lemma RequiredEntryAction(e: Entry, k: SpecKey, standards: set<string>)
    requires ParseExtraSpecKey(e.0) == Some(k) && k.prefix == Trait && e.1 == "required"
    ensures EntryAction(e, standards) == Require(k.name)
  {
  }

  lemma FpgaActions(standards: set<string>)
    requires "FPGA" in standards
    ensures Actions(FpgaGroup("1"), standards) == [SetAmount("FPGA", 1), Require("CUSTOM_FPGA_CARD")]
  {
    var g := FpgaGroup("1");
    FpgaKeys();
    ParseIntOfNat(1);
    assert NatToString(1) == "1";
    ResourceEntryAction(g[0], SpecKey(Resources, "", "FPGA"), 1, standards);
    RequiredEntryAction(g[1], SpecKey(Trait, "", "CUSTOM_FPGA_CARD"), standards);
    TwoActions(g[0], g[1], SetAmount("FPGA", 1), Require("CUSTOM_FPGA_CARD"), standards);
  }

  lemma TwoActions(e1: Entry, e2: Entry, a1: Action, a2: Action, standards: set<string>)
    requires EntryAction(e1, standards) == a1 && EntryAction(e2, standards) == a2
    ensures Actions([e1, e2], standards) == [a1, a2]
  {
    var r := Actions([e1, e2], standards);
    assert r[0] == a1 && r[1] == a2;
  }

  lemma PerformFpga(start: RequestGroup)
    requires start.resources == map[] && start.requiredTraits == {} && start.forbiddenTraits == {}
    ensures PerformAll(start, [SetAmount("FPGA", 1), Require("CUSTOM_FPGA_CARD")]) ==
              start.(resources := map["FPGA" := 1], requiredTraits := {"CUSTOM_FPGA_CARD"})
  {
    var acts := [SetAmount("FPGA", 1), Require("CUSTOM_FPGA_CARD")];
    assert acts[..1] == [SetAmount("FPGA", 1)];
    assert acts[..1][..0] == [];
  }

  /** The profile "mydp" holds the one FPGA group. */
  lemma DeviceProfileGroupsExample()
    ensures DeviceProfileGroups(Some([MyDp()]), "mydp") == Ok([FpgaGroup("1")])
  {
  }

  /** The group translates to one request group for FPGA with amount 1 and the required
      trait CUSTOM_FPGA_CARD, with or without an owner. */
  lemma DeviceRequestGroupsExample(owner: Option<string>, standards: set<string>)
    requires "FPGA" in standards
    ensures DeviceRequestGroups([FpgaGroup("1")], owner, standards) ==
              [RequestGroup(RequesterId(0, owner), map["FPGA" := 1], {"CUSTOM_FPGA_CARD"}, {})]
  {
    var start := NewRequestGroup(RequesterId(0, owner));
    var acts := [SetAmount("FPGA", 1), Require("CUSTOM_FPGA_CARD")];
    assert ApplyEntries(start, FpgaGroup("1"), standards) == PerformAll(start, acts) by {
      FpgaActions(standards);
      ApplyEntriesPerforms(start, FpgaGroup("1"), standards);
    }
    PerformFpga(start);
  }

  /** No profile, or two, raise DeviceProfileError. */
  lemma DeviceProfileGroupsErrors(p1: DeviceProfile, p2: DeviceProfile)
    ensures DeviceProfileGroups(None, "mydp").Err?
    ensures DeviceProfileGroups(Some([p1, p2]), "mydp") ==
              Err(DeviceProfileError("mydp", "Expected 1 device profile but got 2."))
  {
    assert |[p1, p2]| == 2;
    assert NatToString(2) == "2";
    assert "Expected 1 device profile but got " + "2" + "." == "Expected 1 device profile but got 2.";
  }

  // ---------------------------------------------------------------------------
  // Accelerator requests

  /** An accelerator request, with the fields the client reads and writes. */
  datatype Arq = Arq(uuid: string, deviceProfileName: string, groupId: nat, state: string,
                     deviceRpUuid: string, hostname: string, instanceUuid: string,
                     attachHandleInfo: map<string, string>)

  /** The keys get_arq_pci_device_profile reads from attach_handle_info, in order. */
  const HandleKeys: seq<string> := ["physical_network", "domain", "bus", "device", "function"]

  /** The PCI device profile of a bound ARQ. */
  datatype PciDeviceProfile = PciDeviceProfile(physicalNetwork: string, pciSlot: string, arqUuid: string)

  /** The first of the keys the map lacks, if any. */
  function FirstMissing(h: map<string, string>, keys: seq<string>): (r: Option<string>)
    ensures r.None? <==> forall i :: 0 <= i < |keys| ==> keys[i] in h
    ensures r.Some? ==> exists i :: && 0 <= i < |keys| && keys[i] == r.value && keys[i] !in h
                                   && forall j :: 0 <= j < i ==> keys[j] in h
  {
    if keys == [] then None
    else if keys[0] !in h then
      assert keys[0] == keys[0];
      Some(keys[0])
    else
      var rest := FirstMissing(h, keys[1..]);
      assert forall i :: 1 <= i < |keys| ==> keys[1..][i - 1] == keys[i];
      if rest.Some? then
        var k :| && 0 <= k < |keys[1..]| && keys[1..][k] == rest.value && keys[1..][k] !in h
                 && forall j :: 0 <= j < k ==> keys[1..][j] in h;
        assert keys[k + 1] == rest.value;
        assert forall j :: 0 <= j < k + 1 ==> keys[j] in h by {
          forall j | 0 <= j < k + 1 ensures keys[j] in h {
            if j > 0 {
              assert keys[j] == keys[1..][j - 1];
            }
          }
        }
        rest
      else rest
  }

  /** The handle has every key get_arq_pci_device_profile reads. */
  predicate HasHandleKeys(h: map<string, string>) {
    "physical_network" in h && "domain" in h && "bus" in h && "device" in h && "function" in h
  }

  lemma HandleKeysComplete(h: map<string, string>)
    ensures (forall i :: 0 <= i < |HandleKeys| ==> HandleKeys[i] in h) <==> HasHandleKeys(h)
  {
    if HasHandleKeys(h) {
      forall i | 0 <= i < |HandleKeys| ensures HandleKeys[i] in h {
      }
    }
    if forall i :: 0 <= i < |HandleKeys| ==> HandleKeys[i] in h {
      assert HandleKeys[0] in h && HandleKeys[1] in h && HandleKeys[2] in h;
      assert HandleKeys[3] in h && HandleKeys[4] in h;
    }
  }

  /** get_arq_pci_device_profile: the physical network, the pci_slot
      "<domain>:<bus>:<device>.<function>" of the attach handle and the ARQ's uuid; the
      first key the handle lacks, in the order physical_network, domain, bus, device,
      function, raises KeyError. */
  function ArqPciDeviceProfile(arq: Arq): (r: Result<PciDeviceProfile, CyborgError>)
    ensures r.Ok? <==> HasHandleKeys(arq.attachHandleInfo)
    ensures r.Err? ==> exists i :: && 0 <= i < |HandleKeys| && r.error == KeyError(HandleKeys[i])
                                  && HandleKeys[i] !in arq.attachHandleInfo
                                  && forall j :: 0 <= j < i ==> HandleKeys[j] in arq.attachHandleInfo
    ensures r.Ok? ==> r.value.physicalNetwork == arq.attachHandleInfo["physical_network"]
    ensures r.Ok? ==> r.value.arqUuid == arq.uuid
    ensures r.Ok? ==> r.value.pciSlot == Render(HandleAddress(arq.attachHandleInfo))
  {
    var h := arq.attachHandleInfo;
    var missing := FirstMissing(h, HandleKeys);
    HandleKeysComplete(h);
    if missing.Some? then Err(KeyError(missing.value))
    else Ok(PciDeviceProfile(h["physical_network"], h["domain"] + ":" + h["bus"] + ":" + h["device"] + "." + h["function"], arq.uuid))
  }

  /** The four address fields of an attach handle. */
  function HandleAddress(h: map<string, string>): Address
    requires HasHandleKeys(h)
  {
    Address(h["domain"], h["bus"], h["device"], h["function"])
  }

  /** The pci_slot splits back into the handle's fields when the domain, bus and device
      have no ':' or '.'; with fields of the standard widths it is a well-formed PCI
      address that parse_address reads back. */
  lemma PciSlotFields(arq: Arq)
    requires ArqPciDeviceProfile(arq).Ok?
    ensures var a := HandleAddress(arq.attachHandleInfo);
            var slot := ArqPciDeviceProfile(arq).value.pciSlot;
            && (':' !in a.domain + a.bus + a.slot && '.' !in a.domain + a.bus + a.slot ==>
                  PciAddressFields(slot) == Ok(a))
            && (ValidFields(a) ==> ParseAddress(slot) == Ok(a))
  {
    var a := HandleAddress(arq.attachHandleInfo);
    if ':' !in a.domain + a.bus + a.slot && '.' !in a.domain + a.bus + a.slot {
      RenderFields(a);
    }
    if ValidFields(a) {
      ParseRender(a);
    }
  }

  /** get_pci_address_fields splits a rendered address back into its fields when the
      first three hold no ':' or '.'. */
  lemma RenderFields(a: Address)
    requires ':' !in a.domain + a.bus + a.slot && '.' !in a.domain + a.bus + a.slot
    ensures PciAddressFields(Render(a)) == Ok(a)
  {
    var dbs := a.domain + a.bus + a.slot;
    assert forall c :: c in a.domain || c in a.bus || c in a.slot ==> c in dbs;
    var head := a.domain + ":" + a.bus + ":" + a.slot;
    assert '.' !in head;
    assert Render(a) == head + "." + a.func;
    PartitionAt(head, '.', a.func);
    var parts := [a.domain, a.bus, a.slot];
    Join3(parts, ':');
    assert head == Join(parts, ':');
    SplitJoin(parts, ':');
  }

  /** The attach handle of the unit tests gives pci_slot "0000:0c:0.0". */
  lemma ArqPciDeviceProfileExample(uuid: string)
    ensures ArqPciDeviceProfile(Arq(uuid, "smart_nic", 5, "Bound", "rp", "host_nodename", "instance",
              map["bus" := "0c", "device" := "0", "domain" := "0000", "function" := "0",
                  "physical_network" := "physicalnet1"]))
            == Ok(PciDeviceProfile("physicalnet1", "0000:0c:0.0", uuid))
  {
    var h := map["bus" := "0c", "device" := "0", "domain" := "0000", "function" := "0",
                 "physical_network" := "physicalnet1"];
    assert HasHandleKeys(h);
    assert Render(HandleAddress(h)) == "0000:0c:0.0";
  }

  /** get_arq_device_rp_uuid: the first resource provider listed for the ARQ's requester
      id; a requester id missing from the map raises KeyError, an empty list IndexError. */
  function ArqDeviceRpUuid(arq: Arq, rgRpMap: map<string, seq<string>>, owner: Option<string>): (r: Result<string, CyborgError>)
    ensures var id := RequesterId(arq.groupId, owner);
            && (r.Ok? <==> id in rgRpMap && rgRpMap[id] != [])
            && (r.Ok? ==> r.value == rgRpMap[id][0])
            && (id !in rgRpMap ==> r == Err(KeyError(id)))
            && (id in rgRpMap && rgRpMap[id] == [] ==> r == Err(IndexError))
  {
    var id := RequesterId(arq.groupId, owner);
    if id !in rgRpMap then Err(KeyError(id))
    else if rgRpMap[id] == [] then Err(IndexError)
    else Ok(rgRpMap[id][0])
  }

  /** The ARQ with its device_rp_uuid set to rp; nothing else changes. */
  function WithRp(arq: Arq, rp: string): Arq {
    arq.(deviceRpUuid := rp)
  }

  /** The ARQs, each with its resource provider from the map, in order; the first ARQ
      whose lookup fails gives its error. */
  function MatchResourceProviders(arqs: seq<Arq>, rgRpMap: map<string, seq<string>>): (r: Result<seq<Arq>, CyborgError>)
    ensures r.Ok? <==> forall i :: 0 <= i < |arqs| ==> ArqDeviceRpUuid(arqs[i], rgRpMap, None).Ok?
    ensures r.Ok? ==> (&& |r.value| == |arqs|
                       && forall i :: 0 <= i < |arqs| ==>
                            r.value[i] == WithRp(arqs[i], ArqDeviceRpUuid(arqs[i], rgRpMap, None).value))
    ensures r.Err? ==> exists i :: && 0 <= i < |arqs| && ArqDeviceRpUuid(arqs[i], rgRpMap, None) == Err(r.error)
                                  && forall j :: 0 <= j < i ==> ArqDeviceRpUuid(arqs[j], rgRpMap, None).Ok?
  {
    if arqs == [] then Ok([])
    else
      var rp := ArqDeviceRpUuid(arqs[0], rgRpMap, None);
      var rest := MatchResourceProviders(arqs[1..], rgRpMap);
      assert forall i :: 1 <= i < |arqs| ==> arqs[1..][i - 1] == arqs[i];
      if rp.Err? then Err(rp.error)
      else if rest.Err? then
        assert exists i :: && 1 <= i < |arqs| && ArqDeviceRpUuid(arqs[i], rgRpMap, None) == Err(rest.error)
                           && forall j :: 1 <= j < i ==> ArqDeviceRpUuid(arqs[j], rgRpMap, None).Ok? by {
          var k :| && 0 <= k < |arqs[1..]| && ArqDeviceRpUuid(arqs[1..][k], rgRpMap, None) == Err(rest.error)
                   && forall j :: 0 <= j < k ==> ArqDeviceRpUuid(arqs[1..][j], rgRpMap, None).Ok?;
          assert ArqDeviceRpUuid(arqs[k + 1], rgRpMap, None) == Err(rest.error);
          forall j | 1 <= j < k + 1 ensures ArqDeviceRpUuid(arqs[j], rgRpMap, None).Ok? {
            assert arqs[j] == arqs[1..][j - 1];
          }
        }
        Err(rest.error)
      else Ok([WithRp(arqs[0], rp.value)] + rest.value)
  }

  /** create_arqs followed by the matching: no ARQs created (None or an empty list)
      raises AcceleratorRequestOpFailed. */
  function CreatedAndMatched(created: Option<seq<Arq>>, dpName: string, rgRpMap: map<string, seq<string>>): Result<seq<Arq>, CyborgError> {
    if created.None? || created.value == [] then
      Err(AcceleratorRequestOpFailed("create", "device profile name " + dpName))
    else MatchResourceProviders(created.value, rgRpMap)
  }

  /** create_arqs_and_match_resource_providers: sets device_rp_uuid into each ARQ of the
      created list, in order, and returns the list; created is what _create_arqs
      returned for the profile. */
  method CreateArqsAndMatchResourceProviders(created: Option<seq<Arq>>, dpName: string, rgRpMap: map<string, seq<string>>)
    returns (r: Result<seq<Arq>, CyborgError>)
    ensures r == CreatedAndMatched(created, dpName, rgRpMap)
  {
    if created.None? || created.value == [] {
      return Err(AcceleratorRequestOpFailed("create", "device profile name " + dpName));
    }
    var arqs := created.value;
    var i := 0;
    while i < |arqs|
      invariant 0 <= i <= |arqs| == |created.value|
      invariant arqs[i..] == created.value[i..]
      invariant forall j :: 0 <= j < i ==> ArqDeviceRpUuid(created.value[j], rgRpMap, None).Ok?
      invariant forall j :: 0 <= j < i ==>
                  arqs[j] == WithRp(created.value[j], ArqDeviceRpUuid(created.value[j], rgRpMap, None).value)
    {
      assert arqs[i] == created.value[i];
      var rp := ArqDeviceRpUuid(arqs[i], rgRpMap, None);
      if rp.Err? {
        return Err(rp.error);
      }
      arqs := arqs[i := WithRp(arqs[i], rp.value)];
      i := i + 1;
    }
    var m := MatchResourceProviders(created.value, rgRpMap);
    assert m.Ok? && |m.value| == |arqs|;
    assert arqs == m.value;
    return Ok(arqs);
  }

  /** The device_rp_uuid of each ARQ, in order. */
  function RpUuids(arqs: seq<Arq>): (r: seq<string>)
    ensures |r| == |arqs| && forall i :: 0 <= i < |arqs| ==> r[i] == arqs[i].deviceRpUuid
  {
    seq(|arqs|, i requires 0 <= i < |arqs| => arqs[i].deviceRpUuid)
  }

  /** Some key of a non-empty map. */
  ghost function PickKey(m: map<string, seq<string>>): string
    requires m != map[]
    ensures PickKey(m) in m
  {
    var k :| k in m; k
  }

  /** All the values of the map, concatenated into one multiset. */
  ghost function FlatValues(m: map<string, seq<string>>): multiset<string>
    decreases |m|
  {
    if m == map[] then multiset{}
    else
      var k := PickKey(m);
      assert |m - {k}| < |m| by { assert m.Keys - {k} < m.Keys; }
      multiset(m[k]) + FlatValues(m - {k})
  }

  /** The flattening does not depend on which key is taken out first. */
  lemma {:induction false} FlatValuesRemove(m: map<string, seq<string>>, k: string)
    requires k in m
    ensures FlatValues(m) == multiset(m[k]) + FlatValues(m - {k})
    decreases |m|
  {
    var k' := PickKey(m);
    assert |m - {k'}| < |m| by { assert m.Keys - {k'} < m.Keys; }
    if k' != k {
      var a, b := m - {k'}, m - {k};
      assert |b| < |m| by { assert m.Keys - {k} < m.Keys; }
      FlatValuesRemove(a, k);
      FlatValuesRemove(b, k');
      assert a - {k} == b - {k'};
      assert a[k] == m[k] && b[k'] == m[k'];
      assert FlatValues(m) == multiset(m[k']) + FlatValues(a);
    }
  }

  /** The first resource provider of each id, in order. */
  function FirstRps(ids: seq<string>, m: map<string, seq<string>>): seq<string>
    requires forall i :: 0 <= i < |ids| ==> ids[i] in m && m[ids[i]] != []
  {
    seq(|ids|, i requires 0 <= i < |ids| => m[ids[i]][0])
  }

  /** Taking the first provider of each of a list of distinct ids that are exactly the
      map's keys gives all the map's values, when each key lists one provider. */
  lemma {:induction false} FirstRpsPermutation(ids: seq<string>, m: map<string, seq<string>>)
    requires forall i, j :: 0 <= i < j < |ids| ==> ids[i] != ids[j]
    requires forall k :: k in m <==> k in ids
    requires forall k :: k in m ==> |m[k]| == 1
    ensures multiset(FirstRps(ids, m)) == FlatValues(m)
    decreases |ids|
  {
    if ids == [] {
      assert forall k :: k !in m.Keys;
      assert m.Keys == {};
      assert m == map[];
    } else {
      var n := |ids|;
      var init := ids[..n - 1];
      var k := ids[n - 1];
      var m' := m - {k};
      DropLastKeyPreserves(ids, m);
      FirstRpsPermutation(init, m');
      FirstRpsSnoc(ids, m);
      FlatValuesRemove(m, k);
      var v := m[k][0];
      assert m[k] == [v];
      assert multiset(FirstRps(ids, m)) == multiset(FirstRps(init, m')) + multiset{v};
    }
  }

  /** Dropping the last id and its key keeps the ids distinct and exactly the keys. */
  lemma DropLastKeyPreserves(ids: seq<string>, m: map<string, seq<string>>)
    requires ids != []
    requires forall i, j :: 0 <= i < j < |ids| ==> ids[i] != ids[j]
    requires forall k :: k in m <==> k in ids
    ensures var init := ids[..|ids| - 1];
            && (forall i, j :: 0 <= i < j < |init| ==> init[i] != init[j])
            && (forall x :: x in m - {ids[|ids| - 1]} <==> x in init)
  {
    var init := ids[..|ids| - 1];
    DropLastKey(ids, m);
    forall i, j | 0 <= i < j < |init| ensures init[i] != init[j] {
      assert init[i] == ids[i] && init[j] == ids[j];
    }
  }

  /** Without the last id's key, the map's keys are the other ids. */
  lemma DropLastKey(ids: seq<string>, m: map<string, seq<string>>)
    requires ids != []
    requires forall i, j :: 0 <= i < j < |ids| ==> ids[i] != ids[j]
    requires forall k :: k in m <==> k in ids
    ensures forall x :: x in ids[..|ids| - 1] <==> x in m && x != ids[|ids| - 1]
  {
    var n := |ids|;
    var init := ids[..n - 1];
    var k := ids[n - 1];
    forall x ensures x in init <==> x in m && x != k {
      if x in init {
        var i :| 0 <= i < |init| && init[i] == x;
        assert ids[i] == x;
      }
      if x in m && x != k {
        var i :| 0 <= i < n && ids[i] == x;
        assert i != n - 1;
        assert init[i] == x;
      }
    }
  }

  /** The first providers of the ids are those of all but the last, then the last's. */
  lemma FirstRpsSnoc(ids: seq<string>, m: map<string, seq<string>>)
    requires ids != []
    requires forall i, j :: 0 <= i < j < |ids| ==> ids[i] != ids[j]
    requires forall i :: 0 <= i < |ids| ==> ids[i] in m && m[ids[i]] != []
    ensures var init := ids[..|ids| - 1];
            var k := ids[|ids| - 1];
            FirstRps(ids, m) == FirstRps(init, m - {k}) + [m[k][0]]
  {
    var n := |ids|;
    var init := ids[..n - 1];
    var k := ids[n - 1];
    var front := FirstRps(init, m - {k});
    forall i | 0 <= i < n - 1 ensures FirstRps(ids, m)[i] == front[i] {
      assert init[i] == ids[i] && ids[i] != k;
    }
  }

  /** The requester id of each ARQ's group, without an owner, in order. */
  function RequesterIds(arqs: seq<Arq>): (r: seq<string>)
    ensures |r| == |arqs| && forall i :: 0 <= i < |arqs| ==> r[i] == RequesterId(arqs[i].groupId, None)
  {
    seq(|arqs|, i requires 0 <= i < |arqs| => RequesterId(arqs[i].groupId, None))
  }

  /** After the matching, when the ARQs are of distinct groups whose requester ids are
      exactly the keys of the map and each key lists one provider, the ARQs' providers
      are all of the map's values, each once, in some order. */
  lemma MatchedRpsArePermutation(arqs: seq<Arq>, rgRpMap: map<string, seq<string>>)
    requires forall i, j :: 0 <= i < j < |arqs| ==> arqs[i].groupId != arqs[j].groupId
    requires forall k :: k in rgRpMap <==> k in RequesterIds(arqs)
    requires forall k :: k in rgRpMap ==> |rgRpMap[k]| == 1
    ensures MatchResourceProviders(arqs, rgRpMap).Ok?
    ensures multiset(RpUuids(MatchResourceProviders(arqs, rgRpMap).value)) == FlatValues(rgRpMap)
  {
    var ids := RequesterIds(arqs);
    forall i, j | 0 <= i < j < |ids| ensures ids[i] != ids[j] {
      if ids[i] == ids[j] {
        RequesterIdInjective(arqs[i].groupId, arqs[j].groupId, None);
      }
    }
    forall i | 0 <= i < |arqs| ensures ArqDeviceRpUuid(arqs[i], rgRpMap, None).Ok? {
      assert ids[i] in ids;
    }
    FirstRpsPermutation(ids, rgRpMap);
    var matched := MatchResourceProviders(arqs, rgRpMap).value;
    forall i | 0 <= i < |arqs| ensures RpUuids(matched)[i] == FirstRps(ids, rgRpMap)[i] {
    }
    assert RpUuids(matched) == FirstRps(ids, rgRpMap);
  }

  /** The ARQs of the unit tests, before binding. */
  function InitialArq(groupId: nat, uuid: string): Arq {
    Arq(uuid, "noprog-dp", groupId, "Initial", "", "", "", map[])
  }

  /** With two ARQs of groups 0 and 1 and one provider for each, the ARQ of group 0 gets
      the provider of "device_profile_0" and that of group 1 the one of
      "device_profile_1"; no ARQs created raises AcceleratorRequestOpFailed. */
  lemma MatchExample(rp0: string, rp1: string, u0: string, u1: string)
    ensures var m := map["device_profile_0" := [rp0], "device_profile_1" := [rp1]];
            && CreatedAndMatched(Some([InitialArq(0, u0), InitialArq(1, u1)]), "noprog-dp", m)
                 == Ok([WithRp(InitialArq(0, u0), rp0), WithRp(InitialArq(1, u1), rp1)])
            && CreatedAndMatched(None, "noprog-dp", m).Err?
            && CreatedAndMatched(None, "noprog-dp", m).error.AcceleratorRequestOpFailed?
  {
    RequesterIdExamples();
    var m := map["device_profile_0" := [rp0], "device_profile_1" := [rp1]];
    var arqs := [InitialArq(0, u0), InitialArq(1, u1)];
    assert ArqDeviceRpUuid(arqs[0], m, None) == Ok(rp0);
    assert ArqDeviceRpUuid(arqs[1], m, None) == Ok(rp1);
    var r := MatchResourceProviders(arqs, m);
    assert r.Ok? && |r.value| == 2;
    assert r.value[0] == WithRp(arqs[0], rp0) && r.value[1] == WithRp(arqs[1], rp1);
    assert r.value == [WithRp(arqs[0], rp0), WithRp(arqs[1], rp1)];
  }

  // ---------------------------------------------------------------------------
  // Binding: a JSON Patch per ARQ

  /** One field of a binding: its name and value. */
  type Field = (string, string)

  /** One JSON Patch operation. */
  datatype PatchOp = PatchOp(path: string, op: string, value: string)

  /** The patch of one binding: an "add" of "/<field>" for each field, in order. */
  function BindPatch(binding: seq<Field>): (r: seq<PatchOp>)
    ensures |r| == |binding|
    ensures forall i :: 0 <= i < |r| ==> r[i].op == "add" && r[i].value == binding[i].1 &&
                                         r[i].path == "/" + binding[i].0
  {
    seq(|binding|, i requires 0 <= i < |binding| => PatchOp("/" + binding[i].0, "add", binding[i].1))
  }

  /** The first components of a list of pairs, in order: the uuids of the bindings, the
      names of a binding's fields. */
  function Firsts<A, B>(ps: seq<(A, B)>): (r: seq<A>)
    ensures |r| == |ps| && forall i :: 0 <= i < |r| ==> r[i] == ps[i].0
  {
    seq(|ps|, i requires 0 <= i < |ps| => ps[i].0)
  }

  /** The bindings come from a dict: no uuid occurs twice. */
  predicate DistinctUuids(bindings: seq<(string, seq<Field>)>) {
    forall i, j :: 0 <= i < j < |bindings| ==> bindings[i].0 != bindings[j].0
  }

  /** The patch list sent to Cyborg: each ARQ uuid mapped to the patch of its binding. */
  function BindPatchList(bindings: seq<(string, seq<Field>)>): (r: map<string, seq<PatchOp>>)
    requires DistinctUuids(bindings)
    ensures forall u :: u in r <==> u in Firsts(bindings)
    ensures forall i :: 0 <= i < |bindings| ==> r[bindings[i].0] == BindPatch(bindings[i].1)
    decreases |bindings|
  {
    if bindings == [] then map[]
    else
      var n := |bindings|;
      var init := BindPatchList(bindings[..n - 1]);
      BindPatchListStep(bindings, init);
      init[bindings[n - 1].0 := BindPatch(bindings[n - 1].1)]
  }

  /** Adding the last binding's patch to the list of the others gives the whole list. */
  lemma BindPatchListStep(bindings: seq<(string, seq<Field>)>, init: map<string, seq<PatchOp>>)
    requires bindings != [] && DistinctUuids(bindings)
    requires forall u :: u in init <==> u in Firsts(bindings[..|bindings| - 1])
    requires forall i :: 0 <= i < |bindings| - 1 ==> init[bindings[i].0] == BindPatch(bindings[i].1)
    ensures var n := |bindings|;
            var r := init[bindings[n - 1].0 := BindPatch(bindings[n - 1].1)];
            && (forall u :: u in r <==> u in Firsts(bindings))
            && (forall i :: 0 <= i < n ==> r[bindings[i].0] == BindPatch(bindings[i].1))
  {
    var n := |bindings|;
    var last := bindings[n - 1].0;
    var r := init[last := BindPatch(bindings[n - 1].1)];
    var front := Firsts(bindings[..n - 1]);
    var all := Firsts(bindings);
    forall u ensures u in r <==> u in all {
      if u in front {
        var i :| 0 <= i < |front| && front[i] == u;
        assert all[i] == u;
      }
      if u in all && u != last {
        var i :| 0 <= i < n && all[i] == u;
        assert i < n - 1 && front[i] == u;
      }
      assert all[n - 1] == last;
    }
    forall i | 0 <= i < n ensures r[bindings[i].0] == BindPatch(bindings[i].1) {
      if i < n - 1 {
        assert bindings[i].0 != last;
        assert front[i] == bindings[i].0;
      }
    }
  }

  /** What bind_arqs does: the patch list it sends and, when the call fails, the
      AcceleratorRequestBindingFailed it raises. The ARQs are not deleted either way. */
  datatype BindOutcome = BindOutcome(patchList: map<string, seq<PatchOp>>, failure: Option<CyborgError>)

  /** bind_arqs, with callError the error message of the call to Cyborg. */
  function BindArqs(bindings: seq<(string, seq<Field>)>, callError: Option<string>): (r: BindOutcome)
    requires DistinctUuids(bindings)
    ensures r.patchList == BindPatchList(bindings)
    ensures r.failure.Some? <==> Truthy(callError)
    ensures Truthy(callError) ==>
              r.failure == Some(AcceleratorRequestBindingFailed(Firsts(bindings),
                                  callError.value + " Binding failed for ARQ UUIDs: " + Join(Firsts(bindings), ',')))
  {
    var uuids := Firsts(bindings);
    BindOutcome(BindPatchList(bindings),
                if Truthy(callError)
                then Some(AcceleratorRequestBindingFailed(uuids, callError.value + " Binding failed for ARQ UUIDs: " + Join(uuids, ',')))
                else None)
  }

  /** A JSON object whose members are strings, as an ARQ is to a binding patch. */
  type JsonObject = map<string, string>

  datatype PatchError = UnsupportedOp(op: string) | InvalidPointer(path: string)

  /** The reference token of a JSON Pointer with "~1" read as '/' and "~0" as '~'
      (section 4 of RFC 6901); any other '~' makes the pointer invalid. */
  function Unescape(s: string): Option<string>
    decreases |s|
  {
    if s == [] then Some([])
    else if s[0] != '~' then
      var rest := Unescape(s[1..]);
      if rest.None? then None else Some([s[0]] + rest.value)
    else if |s| >= 2 && (s[1] == '0' || s[1] == '1') then
      var rest := Unescape(s[2..]);
      if rest.None? then None else Some([if s[1] == '0' then '~' else '/'] + rest.value)
    else None
  }

  /** Without '~' nothing is unescaped. */
  lemma {:induction false} UnescapePlain(s: string)
    requires '~' !in s
    ensures Unescape(s) == Some(s)
    decreases |s|
  {
    if s != [] {
      UnescapePlain(s[1..]);
      assert s == [s[0]] + s[1..];
    }
  }

  /** The member a one-token pointer "/<token>" names in the root object. */
  function MemberOf(path: string): Option<string> {
    if path == [] || path[0] != '/' || '/' in path[1..] then None
    else Unescape(path[1..])
  }

  /** The "add" operation on a member of the root object (section 4.1 of RFC 6902): the
      member is added, or its value replaced when it exists. */
  function ApplyOp(obj: JsonObject, p: PatchOp): Result<JsonObject, PatchError> {
    if p.op != "add" then Err(UnsupportedOp(p.op))
    else
      var name := MemberOf(p.path);
      if name.None? then Err(InvalidPointer(p.path))
      else Ok(obj[name.value := p.value])
  }

  /** The operations applied in order; the first failing one stops the patch (section 3
      of RFC 6902). */
  function ApplyPatch(obj: JsonObject, ops: seq<PatchOp>): Result<JsonObject, PatchError>
    decreases |ops|
  {
    if ops == [] then Ok(obj)
    else
      var o := ApplyOp(obj, ops[0]);
      if o.Err? then Err(o.error) else ApplyPatch(o.value, ops[1..])
  }

  /** The object a binding describes, put over obj: each field set to its value, a later
      field of the same name winning. */
  function Overlay(obj: JsonObject, binding: seq<Field>): JsonObject
    decreases |binding|
  {
    if binding == [] then obj else Overlay(obj[binding[0].0 := binding[0].1], binding[1..])
  }

  /** Applying a binding's patch to an ARQ sets exactly the binding's fields, when no
      field name holds '/' or '~' (the names are not escaped). */
  lemma {:induction false} ApplyBindPatch(obj: JsonObject, binding: seq<Field>)
    requires forall i :: 0 <= i < |binding| ==> '/' !in binding[i].0 && '~' !in binding[i].0
    ensures ApplyPatch(obj, BindPatch(binding)) == Ok(Overlay(obj, binding))
    decreases |binding|
  {
    if binding != [] {
      var f := binding[0];
      var path := "/" + f.0;
      assert path[1..] == f.0;
      UnescapePlain(f.0);
      assert MemberOf(path) == Some(f.0);
      assert BindPatch(binding)[1..] == BindPatch(binding[1..]);
      ApplyBindPatch(obj[f.0 := f.1], binding[1..]);
    }
  }

  /** After the overlay the object has its old members and the binding's fields; each
      field has its value, when the names are distinct, and the other members keep
      theirs. */
  lemma {:induction false} OverlayFields(obj: JsonObject, binding: seq<Field>)
    requires forall i, j :: 0 <= i < j < |binding| ==> binding[i].0 != binding[j].0
    ensures forall k :: k in Overlay(obj, binding) <==> k in obj || k in Firsts(binding)
    ensures forall i :: 0 <= i < |binding| ==>
              binding[i].0 in Overlay(obj, binding) && Overlay(obj, binding)[binding[i].0] == binding[i].1
    ensures forall k :: k in obj && k !in Firsts(binding) ==> Overlay(obj, binding)[k] == obj[k]
    decreases |binding|
  {
    if binding != [] {
      var f := binding[0];
      var rest := binding[1..];
      OverlayFields(obj[f.0 := f.1], rest);
      var names := Firsts(binding);
      var restNames := Firsts(rest);
      forall k ensures k in names <==> k == f.0 || k in restNames {
        if k in names {
          var i :| 0 <= i < |names| && names[i] == k;
          if i > 0 {
            assert restNames[i - 1] == k;
          }
        }
        if k in restNames {
          var i :| 0 <= i < |restNames| && restNames[i] == k;
          assert names[i + 1] == k;
        }
        assert names[0] == f.0;
      }
      forall i | 0 <= i < |binding|
        ensures binding[i].0 in Overlay(obj, binding) && Overlay(obj, binding)[binding[i].0] == binding[i].1 {
        if i > 0 {
          assert binding[i] == rest[i - 1];
        } else {
          forall j | 0 <= j < |rest| ensures restNames[j] != f.0 {
            assert rest[j] == binding[j + 1];
          }
        }
      }
    }
  }

  /** The bindings of the unit tests (host_name, instance_uuid and device_rp_uuid) give
      one "add" per field. */
  lemma BindPatchListExample(host: string, instance: string, rp: string, uuid: string)
    ensures BindPatchList([(uuid, [("host_name", host), ("instance_uuid", instance), ("device_rp_uuid", rp)])])
            == map[uuid := [PatchOp("/host_name", "add", host), PatchOp("/instance_uuid", "add", instance),
                            PatchOp("/device_rp_uuid", "add", rp)]]
  {
    var fields := [("host_name", host), ("instance_uuid", instance), ("device_rp_uuid", rp)];
    var bs := [(uuid, fields)];
    var patch := [PatchOp("/host_name", "add", host), PatchOp("/instance_uuid", "add", instance),
                  PatchOp("/device_rp_uuid", "add", rp)];
    var bp := BindPatch(fields);
    assert "/" + fields[0].0 == "/host_name";
    assert "/" + fields[1].0 == "/instance_uuid";
    assert "/" + fields[2].0 == "/device_rp_uuid";
    assert bp[0] == patch[0] && bp[1] == patch[1] && bp[2] == patch[2];
    assert bp == patch;
    var l := BindPatchList(bs);
    assert Firsts(bs) == [uuid];
    assert l.Keys == {uuid} by {
      forall u ensures u in l <==> u == uuid {
        assert u in [uuid] <==> u == uuid;
      }
    }
    assert l[uuid] == patch;
  }

  /** A failed binding call raises BindingFailed naming the ARQ uuids. */
  lemma BindFailureExample(uuid: string)
    ensures BindArqs([(uuid, [])], Some("Some error")).failure ==
              Some(AcceleratorRequestBindingFailed([uuid], "Some error Binding failed for ARQ UUIDs: " + uuid))
  {
    assert Firsts<string, seq<Field>>([(uuid, [])]) == [uuid];
    assert Join([uuid], ',') == uuid;
    assert "Some error" + " Binding failed for ARQ UUIDs: " == "Some error Binding failed for ARQ UUIDs: ";
  }

  // ---------------------------------------------------------------------------
  // Listing the ARQs of an instance

  /** The states in which an ARQ has finished binding, successfully or not. */
  const ResolvedStates: set<string> := {"Bound", "BindFailed", "Deleting"}

  /** The only_resolved filter: the resolved ARQs, in their order. */
  function OnlyResolved(arqs: seq<Arq>): (r: seq<Arq>)
    ensures |r| <= |arqs|
    ensures forall a :: a in r <==> a in arqs && a.state in ResolvedStates
  {
    if arqs == [] then []
    else
      var rest := OnlyResolved(arqs[1..]);
      assert forall a :: a in arqs <==> a == arqs[0] || a in arqs[1..];
      if arqs[0].state in ResolvedStates then [arqs[0]] + rest else rest
  }

  /** When every ARQ is resolved the filter keeps the whole list. */
  lemma {:induction false} OnlyResolvedAll(arqs: seq<Arq>)
    requires forall i :: 0 <= i < |arqs| ==> arqs[i].state in ResolvedStates
    ensures OnlyResolved(arqs) == arqs
  {
    if arqs != [] {
      OnlyResolvedAll(arqs[1..]);
      assert arqs == [arqs[0]] + arqs[1..];
    }
  }

  /** The filter works element by element: it distributes over concatenation. */
  lemma {:induction false} OnlyResolvedAppend(a: seq<Arq>, b: seq<Arq>)
    ensures OnlyResolved(a + b) == OnlyResolved(a) + OnlyResolved(b)
  {
    if a != [] {
      assert (a + b)[0] == a[0];
      assert (a + b)[1..] == a[1..] + b;
      OnlyResolvedAppend(a[1..], b);
    } else {
      assert a + b == b;
    }
  }

  /** What the call to Cyborg gave: an error message, or the "arqs" member of the reply
      (None when the reply has none). */
  datatype ArqsReply = CallFailed(errMsg: string) | Replied(arqs: Option<seq<Arq>>)

  /** get_arqs_for_instance: a failed call raises AcceleratorRequestOpFailed with the
      instance appended to the message, so does a reply without ARQs; otherwise the
      ARQs, only the resolved ones when onlyResolved is set. */
  function GetArqsForInstance(instanceUuid: string, reply: ArqsReply, onlyResolved: bool): (r: Result<seq<Arq>, CyborgError>)
    ensures r.Ok? <==> reply.Replied? && reply.arqs.Some? && reply.arqs.value != []
    ensures r.Ok? && !onlyResolved ==> r.value == reply.arqs.value
    ensures r.Ok? && onlyResolved ==> r.value == OnlyResolved(reply.arqs.value)
    ensures reply.CallFailed? ==>
              r == Err(AcceleratorRequestOpFailed("get", reply.errMsg + " Instance " + instanceUuid))
    ensures reply.Replied? && !r.Ok? ==>
              r == Err(AcceleratorRequestOpFailed("get", "Cyborg returned no accelerator requests for instance " + instanceUuid))
  {
    if reply.CallFailed? then
      Err(AcceleratorRequestOpFailed("get", reply.errMsg + " Instance " + instanceUuid))
    else if reply.arqs.None? || reply.arqs.value == [] then
      Err(AcceleratorRequestOpFailed("get", "Cyborg returned no accelerator requests for instance " + instanceUuid))
    else if onlyResolved then Ok(OnlyResolved(reply.arqs.value))
    else Ok(reply.arqs.value)
  }

  /** A bound ARQ of the unit tests. */
  function BoundArq(groupId: nat, uuid: string, rp: string, func: string): Arq {
    Arq(uuid, "noprog-dp", groupId, "Bound", rp, "myhost", "15d3acf8-df76-400b-bfc9-484a5208daa1",
        map["bus" := "01", "device" := "00", "domain" := "0000", "function" := func])
  }

  /** All bound: the whole list; one unbound and one bound: only the bound one; a reply
      without ARQs raises. */
  lemma GetArqsExamples(inst: string, u0: string, u1: string, rp0: string, rp1: string)
    ensures var bound := [BoundArq(0, u0, rp0, "0"), BoundArq(1, u1, rp1, "1")];
            && GetArqsForInstance(inst, Replied(Some(bound)), false) == Ok(bound)
            && GetArqsForInstance(inst, Replied(Some(bound)), true) == Ok(bound)
            && GetArqsForInstance(inst, Replied(Some([InitialArq(0, u0), bound[0]])), true) == Ok([bound[0]])
            && GetArqsForInstance(inst, Replied(None), false).Err?
  {
    var bound := [BoundArq(0, u0, rp0, "0"), BoundArq(1, u1, rp1, "1")];
    OnlyResolvedAll(bound);
    var mixed := [InitialArq(0, u0), bound[0]];
    assert mixed == [InitialArq(0, u0)] + [bound[0]];
    OnlyResolvedAppend([InitialArq(0, u0)], [bound[0]]);
    assert [InitialArq(0, u0)][1..] == [];
    assert OnlyResolved([InitialArq(0, u0)]) == [];
    OnlyResolvedAll([bound[0]]);
  }

  // ---------------------------------------------------------------------------
  // Deleting ARQs by uuid

  /** What delete_arqs_by_uuid does: the query parameters it sends and the error it
      logs, if any; it never raises. */
  datatype DeleteOutcome = DeleteOutcome(params: map<string, string>, logged: Option<(string, string)>)

  /** delete_arqs_by_uuid, with callError the error message of the call to Cyborg: the
      uuids joined with ',' as the "arqs" parameter; a failure is logged as
      ("Failed to delete ARQs %s", the joined uuids). */
  function DeleteArqsByUuid(uuids: seq<string>, callError: Option<string>): (r: DeleteOutcome)
    ensures r.params.Keys == {"arqs"}
    ensures uuids != [] && (forall i :: 0 <= i < |uuids| ==> ',' !in uuids[i]) ==>
              Split(r.params["arqs"], ',') == uuids
    ensures r.logged.Some? <==> Truthy(callError)
    ensures r.logged.Some? ==> r.logged.value == ("Failed to delete ARQs %s", r.params["arqs"])
  {
    var joined := Join(uuids, ',');
    UuidsSplitBack(uuids);
    DeleteOutcome(map["arqs" := joined],
                  if Truthy(callError) then Some(("Failed to delete ARQs %s", joined)) else None)
  }

  /** The joined uuids split back into the list, when none holds a ','. */
  lemma UuidsSplitBack(uuids: seq<string>)
    ensures uuids != [] && (forall i :: 0 <= i < |uuids| ==> ',' !in uuids[i]) ==>
              Split(Join(uuids, ','), ',') == uuids
  {
    if uuids != [] && (forall i :: 0 <= i < |uuids| ==> ',' !in uuids[i]) {
      SplitJoin(uuids, ',');
    }
  }
}
