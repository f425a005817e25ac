# nova PCI utilities, Cyborg helpers and instance update notifications

A Dafny model of three pieces of OpenStack nova, as their unit tests pin them down:

- **PCI utilities** (`nova.pci.utils`): `parse_address` and `get_pci_address_fields`
  (module `PciAddress`), `pci_device_prop_match` (module `PciMatch`) and the sysfs
  resolvers `get_function_by_ifname`, `is_physical_function`, `get_ifname_by_pci_address`,
  `get_mac_by_pci_address`, `get_vf_num_by_pci_address`, `get_vf_product_id_by_pf_addr`
  and `get_pci_ids_by_pci_addr` (module `SysfsResolver`). The sysfs tree is a value
  (`Sysfs`: symbolic links, directory listings and file contents); a path the tree does
  not hold is the `OSError`/`IOError` the real call would raise, so every resolver is a
  total function whose errors are stated exactly. `get_vf_num_by_pci_address` and
  `get_pci_ids_by_pci_addr` walk their entries with a loop and are methods proved equal
  to a specification function.
- **Cyborg client helpers** (`nova.accelerator.cyborg`, module `Cyborg`, with the
  extra-spec key pattern and `RequestGroup.add_resource`/`add_trait` in module
  `RequestGroups`): requester ids, `get_device_amount_of_dp_groups`,
  `get_device_profile_groups`, `get_device_request_groups`, `get_arq_pci_device_profile`,
  `get_arq_device_rp_uuid`, `create_arqs_and_match_resource_providers` (a method that
  sets `device_rp_uuid` into each ARQ in turn), the JSON Patch of `bind_arqs`
  (section 4.1 of RFC 6902, with a small patch interpreter to state what the patch does),
  the `only_resolved` filter of `get_arqs_for_instance` and the parameters of
  `delete_arqs_by_uuid`. Each call to Cyborg is replaced by its outcome, given as a
  parameter.
- **Instance update notifications** (`nova.notifications.base`, module `Notifications`):
  the `notify_on_state_change` gate of `send_update` and `send_update_with_states`,
  `_compute_states_payload`, the legacy and versioned publisher ids, the null-safe
  fields of `info_from_instance`, the monthly audit period and `strtime`, and the
  swallowing of exceptions raised while sending. The notifier is a class `Notifier`
  whose `notifications`, `versionedNotifications` and `log` lists the sends extend.

Python string operations (`strip`, `readline`, `lower`, `int()`, `str()`, `join`,
`split`, `partition`, `replace`, `os.path.basename`) are modelled in module `Text`;
`Option`/`Result` in module `Wrappers` stand for `None` and raised exceptions.

Modelling choices where the tests leave room:

- `get_ifname_by_pci_address` returns the LAST entry of the `net` listing (the tests
  expect `'bar'` from `['foo', 'bar']`), not the first; an empty listing raises
  `PciDeviceNotFoundById` like a failed one.
- `parse_address` keeps the fields as spelled; it does not fold their case.
- `get_mac_by_pci_address` strips the first line of the `address` file and does not
  lower its case. It raises `PciDeviceNotFoundById` for a missing file, an empty file,
  and a first line that is blank once stripped.
- `get_vf_product_id_by_pf_addr` and the vendor and product reads of
  `get_pci_ids_by_pci_addr` raise `ValueError` when the first line is blank once
  stripped, so a file holding only "\n" is an error and not an empty id.
- `get_function_by_ifname` cuts the surrounding runs of '.' and '/' off the device
  link's target with `strip("./")`. It keeps any inner path components, so the address
  it returns is everything between those runs, not only the last component.
- The extra-spec key pattern bounds the group suffix at 64 characters
  (`[a-zA-Z0-9_-]{1,64}`, optional); a key with a longer suffix is not recognised.
- A spec with no keys matches every device (vacuous AND), an empty spec list none.
- `is_physical_function` and `get_function_by_ifname` read `sriov_totalvfs` as
  `int(content) > 0`; content that is not a number counts as "not physical".
- The role probe of `get_function_by_ifname` reads the interface's own
  `/sys/class/net/<if>/device/sriov_totalvfs`; a device directory whose link cannot
  be read raises `OSError`.
- `get_vf_num_by_pci_address` returns the number of the first `virtfnN` entry whose
  link's basename is the queried address; a link that cannot be read stops the scan
  with `PciDeviceNotFoundById`.
- The `only_resolved` filter keeps the ARQs in the resolved states `Bound`,
  `BindFailed` and `Deleting`; the tests exercise only `Bound` against `Initial`.
- `add_resource` accepts a custom class (`CUSTOM_...`) or one of the standard classes,
  which are a parameter, and an amount `int()` reads as non-negative; anything else is
  skipped.

## Model

| member | source | states |
|---|---|---|
| PciAddress.ParseAddress | nova/tests/unit/pci/test_utils.py:77-88 | parses exactly the strings of the form 4 hex ':' 2 hex ':' 2 hex '.' 1 hex, the fields rendering back to the input; anything else raises PciDeviceWrongAddressFormat |
| PciAddress.ParseRender | nova/tests/unit/pci/test_utils.py:78-80 | rendering valid fields and parsing gives the fields back (round trip) |
| PciAddress.PciAddressFields | nova/tests/unit/pci/test_utils.py:124-126 | the lenient split succeeds exactly when the text before the first '.' has three ':'-separated parts; its fields render back to the input (with a '.' appended when the input had none) |
| PciAddress.FieldsAgreeWithParse | nova/tests/unit/pci/test_utils.py:124-126 | on a well-formed address the lenient split and parse_address agree |
| PciAddress.ParseExamples | nova/tests/unit/pci/test_utils.py:77-88 | "0000:04:12.6" gives ('0000','04','12','6'); "0000:04.12:6" and "0000:h4.12:6" raise |
| PciMatch.PciDevicePropMatch | nova/tests/unit/pci/test_utils.py:35-56 | a device matches exactly when some spec of the list matches it (OR over specs) |
| PciMatch.SpecMatchesIff | nova/tests/unit/pci/test_utils.py:35-74 | a spec matches exactly when each of its keys is in the device, lists are included in the device's list and strings equal ignoring case |
| PciMatch.FieldMatchesCases | nova/tests/unit/pci/test_utils.py:58-74 | two lists match by inclusion of item sets, two strings by case-insensitive equality, a list against a string or a missing key never |
| PciMatch.ListOrderIrrelevant | nova/tests/unit/pci/test_utils.py:58-65 | the order and repetition of a list-valued spec do not change the result |
| PciMatch.PropMatchAppend | nova/tests/unit/pci/test_utils.py:41-51 | matching against concatenated spec lists is the OR of matching against each |
| PciMatch.VacuousCases | nova/tests/unit/pci/test_utils.py:47-51 | an empty spec list matches nothing; a spec without keys matches every device |
| PciMatch.ExtraKeyFails | nova/tests/unit/pci/test_utils.py:53-56 | a spec key the device lacks makes the spec fail |
| PciMatch.ExtraDeviceKeyIgnored | nova/tests/unit/pci/test_utils.py:35-40 | device properties a spec does not mention do not affect the spec |
| PciMatch.ExampleCaseInsensitive | nova/tests/unit/pci/test_utils.py:35-39 | "V1"/"D1" match "v1"/"d1" |
| PciMatch.ExampleSecondSpec | nova/tests/unit/pci/test_utils.py:41-45 | a match on the second spec counts |
| PciMatch.ExampleMismatch | nova/tests/unit/pci/test_utils.py:47-51 | no matching spec gives False |
| PciMatch.ExampleExtraKey | nova/tests/unit/pci/test_utils.py:53-56 | the spec with wrong_key gives False |
| PciMatch.ExampleListSubset | nova/tests/unit/pci/test_utils.py:58-65 | ['cap3','cap1'] matches ['cap1','cap2','cap3'] |
| PciMatch.ExampleListNoMatch | nova/tests/unit/pci/test_utils.py:67-70 | ['cap1','cap33'] does not match |
| PciMatch.ExampleListWrongType | nova/tests/unit/pci/test_utils.py:72-74 | a list spec against a string device value gives False, without an error |
| SysfsResolver.FunctionByIfname | nova/tests/unit/pci/test_utils.py:91-119 | (None, False) without a device directory; else exactly what strip("./") leaves of the link target (the text between its leading and trailing runs of '.' and '/', inner components kept), unvalidated, and PF iff sriov_totalvfs reads as a positive count; an unreadable link raises OSError |
| SysfsResolver.LinkTargetAddress | nova/tests/unit/pci/test_utils.py:95-111 | a link made of '.' and '/' characters followed by addr yields exactly addr, for any addr that neither starts nor ends with '.' or '/' (the address itself is not validated) |
| SysfsResolver.IsPhysicalFunction | nova/tests/unit/pci/test_utils.py:122-140 | True exactly when the device directory exists and sriov_totalvfs reads as a positive count; an unreadable file or a missing directory gives False |
| SysfsResolver.RoleAgrees | nova/tests/unit/pci/test_utils.py:102-136 | an interface leading to a device and is_physical_function on that device agree on its address and role |
| SysfsResolver.IfnameByPciAddress | nova/tests/unit/pci/test_utils.py:143-170 | the last entry of the device's (or its PF's) net listing; a failed or empty listing raises PciDeviceNotFoundById |
| SysfsResolver.MacByPciAddress | nova/tests/unit/pci/test_utils.py:173-224 | the stripped first line of net/<if>/address (physfn/net with pf_interface); an unresolved interface, a missing file or a blank line raise PciDeviceNotFoundById |
| SysfsResolver.MacOfAddressFile | nova/tests/unit/pci/test_utils.py:173-224 | for every sysfs tree: the MAC is returned exactly when the interface resolves, the address file reads and its first line is not all whitespace, and it is then what strip() leaves of that line |
| SysfsResolver.MacFromAddressFile | nova/tests/unit/pci/test_utils.py:181-192 | an address file whose first line is a MAC with optional whitespace around it (as "a0:36:9f:72:00:00\n") yields exactly that MAC |
| SysfsResolver.MacFromEmptyFile | nova/tests/unit/pci/test_utils.py:204-213 | an empty address file raises PciDeviceNotFoundById |
| SysfsResolver.VfNumFound | nova/tests/unit/pci/test_utils.py:236-242 | the scan returns n exactly when the first virtfn entry whose link points at the address is virtfn<n> |
| SysfsResolver.VfNumNotFound | nova/tests/unit/pci/test_utils.py:244-253 | when no virtfn link points at the address the scan raises PciDeviceNotFoundById |
| SysfsResolver.VfNumByPciAddress | nova/tests/unit/pci/test_utils.py:227-253 | the loop over the virtfn entries returns what the scan specification gives |
| SysfsResolver.VirtfnIndexOfName | nova/tests/unit/pci/test_utils.py:236-242 | the number read back from "virtfn" + str(n) is n |
| SysfsResolver.VfNumFoundExample | nova/tests/unit/pci/test_utils.py:236-242 | virtfn3 linking to the address gives 3 |
| SysfsResolver.VfNumNotFoundExample | nova/tests/unit/pci/test_utils.py:244-253 | virtfn3 linking to another address raises PciDeviceNotFoundById |
| SysfsResolver.LinkBack | nova/tests/unit/pci/test_utils.py:236-242 | a virtfn link "../../<address>" points back at the address |
| SysfsResolver.LinkAway | nova/tests/unit/pci/test_utils.py:244-253 | a virtfn link "../../<other address>" does not point at the address |
| SysfsResolver.VfProductIdByPfAddr | nova/tests/unit/pci/test_utils.py:256-316 | the stripped first line of sriov_vf_device, never blank; an unreadable file or a blank line raise ValueError |
| SysfsResolver.VfProductIdOfFile | nova/tests/unit/pci/test_utils.py:256-316 | for every sysfs tree: an id is returned exactly when sriov_vf_device reads and its first line is not all whitespace, and it is then what strip() leaves of that line |
| SysfsResolver.VfProductIdFromFile | nova/tests/unit/pci/test_utils.py:261-276 | a first line holding an id with optional whitespace around it (as "101e\n") reads as that id |
| SysfsResolver.VfProductIdFromEmptyFile | nova/tests/unit/pci/test_utils.py:278-296 | an empty sriov_vf_device raises ValueError |
| SysfsResolver.ReadPciId | nova/tests/unit/pci/test_utils.py:346-430 | a failing vendor or product file raises ValueError naming that file |
| SysfsResolver.ReadPciIdSucceeds | nova/tests/unit/pci/test_utils.py:346-430 | an id reads exactly when its file reads and its stripped first line is not blank (a line that is blank once stripped raises ValueError) |
| SysfsResolver.PciIdFromFile | nova/tests/unit/pci/test_utils.py:324-344 | "0x<hex>\n" reads as <hex> |
| SysfsResolver.PciIdsByPciAddr | nova/tests/unit/pci/test_utils.py:319-430 | the loop over vendor and product returns the pair exactly when both read, else the first failure |
| SysfsResolver.PciIdsVendorFirst | nova/tests/unit/pci/test_utils.py:389-406 | a failing vendor file raises its ValueError whatever the product file holds |
| SysfsResolver.PciIdsFromFiles | nova/tests/unit/pci/test_utils.py:324-344 | "0x15b3\n" and "0x101e\n" give ("15b3", "101e") |
| SysfsResolver.IfnameExamples | nova/tests/unit/pci/test_utils.py:149-170 | ['foo','bar'] gives 'bar' for both pf_interface values; a failed listing raises |
| SysfsResolver.FunctionByIfnameVirtual | nova/tests/unit/pci/test_utils.py:93-100 | "../../../0000.00.00.1" without sriov_totalvfs gives ('0000.00.00.1', False) |
| SysfsResolver.FunctionByIfnamePhysical | nova/tests/unit/pci/test_utils.py:102-113 | "../../../0000:00:00.1" with a count of 4 gives ('0000:00:00.1', True) |
| SysfsResolver.FunctionByIfnameAbsent | nova/tests/unit/pci/test_utils.py:115-119 | no device directory gives (None, False) |
| SysfsResolver.IsPhysicalFunctionExamples | nova/tests/unit/pci/test_utils.py:128-140 | a count of 4 gives True; an unreadable file or no directory give False |
| Text.StripLineOf | nova/tests/unit/pci/test_utils.py:179-181 | readline().strip() of a file whose first line is m between whitespace runs gives m |
| Text.StripCharsIsStripOf | nova/tests/unit/pci/test_utils.py:93-113 | strip(cs) returns v exactly when v lies between two runs of characters of cs and neither starts nor ends with one (both directions) |
| Text.StripLineIsStripOf | nova/tests/unit/pci/test_utils.py:173-224 | readline().strip() is what strip() leaves of the first line, and is empty exactly when that line is all whitespace |
| Text.StripCharsSpec | nova/tests/unit/pci/test_utils.py:173-224 | strip() keeps a contiguous slice of the text, cuts only stripped characters from either end, and is empty exactly when every character is stripped |
| Text.StripLineEnds | nova/tests/unit/pci/test_utils.py:173-224 | readline().strip() holds no newline and neither starts nor ends with whitespace |
| Text.ParseIntOfNat | nova/tests/unit/accelerator/test_cyborg.py:513-529 | int(str(n)) == n |
| Text.SplitJoin | nova/tests/unit/accelerator/test_cyborg.py:407-416 | splitting a join gives the parts back when none holds the separator |
| Cyborg.RequesterIdInjective | nova/tests/unit/accelerator/test_cyborg.py:112-113 | for one owner, different groups get different requester ids |
| Cyborg.RequesterIdExamples | nova/tests/unit/accelerator/test_cyborg.py:166-169 | groups 0 and 1 without owner are "device_profile_0" and "device_profile_1" |
| Cyborg.GroupAmountErrors | nova/tests/unit/accelerator/test_cyborg.py:513-529 | a group's amount is defined iff int() accepts every resource amount, else the first failure |
| Cyborg.NonResourceEntryIgnored | nova/tests/unit/accelerator/test_cyborg.py:514-517 | trait entries add nothing to the amount |
| Cyborg.GroupAmountAppend | nova/tests/unit/accelerator/test_cyborg.py:513-521 | amounts of concatenated entry lists add up |
| Cyborg.DeviceAmountErrors | nova/tests/unit/accelerator/test_cyborg.py:513-529 | the device amount is defined iff every group's amount is, else the first failure |
| Cyborg.DeviceAmountAppend | nova/tests/unit/accelerator/test_cyborg.py:522-529 | the amount of concatenated group lists is the sum of their amounts |
| Cyborg.DeviceAmountExamples | nova/tests/unit/accelerator/test_cyborg.py:513-529 | [g1] gives 1, [g2] gives 2, [g1, g2] gives 3 |
| Cyborg.DeviceProfileGroups | nova/tests/unit/accelerator/test_cyborg.py:132-148 | the groups of the one listed profile; zero or several profiles raise DeviceProfileError |
| Cyborg.DeviceProfileGroupsErrors | nova/tests/unit/accelerator/test_cyborg.py:132-148 | None and a list of two raise DeviceProfileError |
| Cyborg.DeviceProfileGroupsExample | nova/tests/unit/accelerator/test_cyborg.py:104-119 | the profile mydp yields its FPGA group |
| Cyborg.DeviceRequestGroups | nova/tests/unit/accelerator/test_cyborg.py:112-124 | one request group per profile group, the i-th with requester id of group i, all ids distinct |
| Cyborg.DeviceRequestGroupContents | nova/tests/unit/accelerator/test_cyborg.py:114-116 | a group requires/forbids exactly the traits its entries mark so and has the last valid amount of each class its entries set |
| Cyborg.DeviceRequestGroupsExample | nova/tests/unit/accelerator/test_cyborg.py:101-130 | the FPGA group becomes resource FPGA=1 and required CUSTOM_FPGA_CARD, with or without owner |
| RequestGroups.ParseExtraSpecKey | nova/tests/unit/accelerator/test_cyborg.py:105-107 | a recognised key is prefix, a suffix run of at most 64 characters, ':' and a name without newline (allowing one final newline) |
| RequestGroups.LongSuffixRejected | nova/tests/unit/accelerator/test_cyborg.py:105-107 | a key whose group suffix is longer than 64 characters is not recognised |
| RequestGroups.ParseKeyText | nova/tests/unit/accelerator/test_cyborg.py:105-107 | every key of the pattern (suffix of at most 64 characters, name without newline) is recognised with its parts (round trip) |
| RequestGroups.UnprefixedKeySkipped | nova/tests/unit/accelerator/test_cyborg.py:105-107 | keys not starting with resources or trait are not recognised |
| RequestGroups.AddResource | nova/tests/unit/accelerator/test_cyborg.py:115 | a valid class and amount set the class's amount, anything else leaves the group unchanged |
| RequestGroups.AddTrait | nova/tests/unit/accelerator/test_cyborg.py:116 | 'required'/'forbidden' add the trait to that set, other values change nothing |
| RequestGroups.TraitsOfEntries | nova/tests/unit/accelerator/test_cyborg.py:114-116 | the translated group requires (forbids) exactly the traits some entry marks required (forbidden) |
| RequestGroups.ResourcesOfEntries | nova/tests/unit/accelerator/test_cyborg.py:114-116 | a class has an amount iff some entry validly sets it, the last such amount |
| Cyborg.ArqPciDeviceProfile | nova/tests/unit/accelerator/test_cyborg.py:489-511 | {physical_network, pci_slot "domain:bus:device.function", arq_uuid}; the first missing handle key raises KeyError |
| Cyborg.PciSlotFields | nova/tests/unit/accelerator/test_cyborg.py:505-511 | the pci_slot splits back into the handle's fields, and parses when they have standard widths |
| Cyborg.ArqPciDeviceProfileExample | nova/tests/unit/accelerator/test_cyborg.py:489-511 | the test's attach handle gives pci_slot "0000:0c:0.0" |
| Cyborg.ArqDeviceRpUuid | nova/tests/unit/accelerator/test_cyborg.py:245-251 | the first RP listed under the ARQ's requester id; a missing id raises KeyError, an empty list IndexError |
| Cyborg.MatchResourceProviders | nova/tests/unit/accelerator/test_cyborg.py:214-230 | every ARQ gets its own RP and nothing else changes, or the first failing lookup's error |
| Cyborg.CreateArqsAndMatchResourceProviders | nova/tests/unit/accelerator/test_cyborg.py:214-264 | the loop setting device_rp_uuid equals the matching; no ARQs created raises AcceleratorRequestOpFailed |
| Cyborg.MatchedRpsArePermutation | nova/tests/unit/accelerator/test_cyborg.py:226-230 | with one RP per group the matched ARQs' RPs are all the map's values, each once (equal when sorted) |
| Cyborg.MatchExample | nova/tests/unit/accelerator/test_cyborg.py:214-264 | the two test ARQs get the RPs of device_profile_0 and device_profile_1; None created raises |
| Cyborg.BindPatch | nova/tests/unit/accelerator/test_cyborg.py:272-277 | one {"path": "/"+field, "op": "add", "value": v} per binding field, in order |
| Cyborg.BindPatchList | nova/tests/unit/accelerator/test_cyborg.py:266-284 | the patch list maps exactly the bound ARQ uuids, each to its binding's patch |
| Cyborg.ApplyBindPatch | nova/tests/unit/accelerator/test_cyborg.py:272-277 | applying the patch under RFC 6902 add semantics sets the binding's fields on the ARQ |
| Cyborg.OverlayFields | nova/tests/unit/accelerator/test_cyborg.py:272-277 | after the patch each field has its value and every other member keeps its own |
| Cyborg.BindArqs | nova/tests/unit/accelerator/test_cyborg.py:266-294 | sends the patch list; a failed call raises AcceleratorRequestBindingFailed naming the ARQ uuids |
| Cyborg.BindPatchListExample | nova/tests/unit/accelerator/test_cyborg.py:266-284 | the test's binding gives three add operations |
| Cyborg.BindFailureExample | nova/tests/unit/accelerator/test_cyborg.py:286-294 | a failed binding raises BindingFailed with the uuids in the message |
| Cyborg.OnlyResolved | nova/tests/unit/accelerator/test_cyborg.py:343-384 | keeps exactly the ARQs in a resolved state (Bound, BindFailed, Deleting), never more ARQs than given |
| Cyborg.OnlyResolvedAll | nova/tests/unit/accelerator/test_cyborg.py:343-363 | when all ARQs are resolved the whole list is kept |
| Cyborg.OnlyResolvedAppend | nova/tests/unit/accelerator/test_cyborg.py:365-384 | the filter distributes over concatenation, so it keeps the order of the ARQs |
| Cyborg.GetArqsForInstance | nova/tests/unit/accelerator/test_cyborg.py:296-384 | the reply's ARQs (filtered with only_resolved); a failed call or a reply without arqs raises AcceleratorRequestOpFailed |
| Cyborg.GetArqsExamples | nova/tests/unit/accelerator/test_cyborg.py:343-384 | all bound gives all; [unbound, bound0] gives [bound0]; no arqs raises |
| Cyborg.DeleteArqsByUuid | nova/tests/unit/accelerator/test_cyborg.py:407-429 | the only parameter is arqs, the uuids joined with ',' (splitting back to them); a failure is logged, never raised |
| Notifications.LastCompletedMonthEnd | nova/tests/unit/test_notifications.py:232-235 | the period boundary is the latest month start before now |
| Notifications.LastCompletedMonthWhole | nova/tests/unit/test_notifications.py:232-235 | the completed period is one whole month |
| Notifications.LastCompletedMonthErrors | nova/tests/unit/test_notifications.py:232-235 | no whole month lies before now exactly when now is in January of year 1 or at the first instant of February of year 1 |
| Notifications.AuditPeriodExamples | nova/tests/unit/test_notifications.py:232-235 | at 2017-02-02 16:45 the current period begins 2017-02-01 00:00 and ends now |
| Notifications.IsoTimeInjective | nova/tests/unit/test_notifications.py:380-392 | different datetimes format differently |
| Notifications.PadValue | nova/tests/unit/test_notifications.py:232-235 | a zero-padded number reads back as the number |
| Notifications.IsoTimeExamples | nova/tests/unit/test_notifications.py:232-235 | strtime gives "2017-02-02T16:45:00.000000" and "2017-02-01T00:00:00.000000" |
| Notifications.NullSafeIsoTime | nova/tests/unit/test_notifications.py:380-392 | "" exactly for a missing timestamp |
| Notifications.NullSafeStr | nova/tests/unit/test_notifications.py:334-346 | None becomes "", a string is kept |
| Notifications.NullSafeInt | nova/tests/unit/test_notifications.py:348-360 | None (or 0) becomes "", a nonzero progress is kept |
| Notifications.InfoSizes | nova/tests/unit/test_notifications.py:362-378 | sizes come from the flavor and disk_gb = root_gb + ephemeral_gb |
| Notifications.InfoIgnoresInstanceSizes | nova/tests/unit/test_notifications.py:362-378 | the instance's own vcpus, memory_mb, root_gb, ephemeral_gb do not matter |
| Notifications.InfoNullSafety | nova/tests/unit/test_notifications.py:334-392 | unset cell_name, progress and timestamps become "", set ones are kept |
| Notifications.InfoExamples | nova/tests/unit/test_notifications.py:334-392 | the test values: "" cell and progress, 10/20/30/40 and disk 60, timestamps formatted, deleted_at "" |
| Notifications.StatesDefault | nova/tests/unit/test_notifications.py:504-511 | with nothing given, state and old_state are vm_state, both task states task_state |
| Notifications.StatesGivenKept | nova/tests/unit/test_notifications.py:513-535 | each given state overrides only its own field |
| Notifications.StatesFixedPoint | nova/tests/unit/test_notifications.py:504-535 | passing the payload's states back gives the same payload |
| Notifications.StatesExamples | nova/tests/unit/test_notifications.py:504-535 | the three calls of test_state_computation |
| Notifications.VersionedSourceIdempotent | nova/tests/unit/test_notifications.py:285-305 | the "nova-" prefixing is idempotent and keeps a nova- service |
| Notifications.LegacyPublisherIdParts | nova/tests/unit/test_notifications.py:158-176 | the legacy id is "<service>.<host>", host the given one or the configured one |
| Notifications.VersionedPublisherIdParts | nova/tests/unit/test_notifications.py:278-319 | the versioned id is "<source>:<host>", where the source is the service with "nova-" prepended unless it already starts with "nova-" |
| Notifications.PublisherIdExamples | nova/tests/unit/test_notifications.py:278-319 | compute.testhost, nova-compute:testhost, nova-compute.testhost, compute.someotherhost, nova-compute:someotherhost |
| Notifications.Notifier.constructor | nova/tests/unit/test_notifications.py:49 | a notifier starts with no notifications and no log |
| Notifications.Notifier.TrySendInstanceUpdate | nova/tests/unit/test_notifications.py:459-496 | appends one legacy and one versioned notification, or only a log entry when the send raises |
| Notifications.Notifier.SendUpdateWithStates | nova/tests/unit/test_notifications.py:89-156 | appends what the notify_on_state_change / verify_states gate lets through |
| Notifications.Notifier.SendUpdate | nova/tests/unit/test_notifications.py:89-190 | with a state change sends the states, otherwise sends with the old display name |
| Notifications.DisabledDoesNothing | nova/tests/unit/test_notifications.py:89-108 | with the option unset neither call does anything |
| Notifications.VerifiedUnchangedDoesNothing | nova/tests/unit/test_notifications.py:143-156 | verified unchanged states (or a task change under vm_state) send nothing |
| Notifications.EnabledSends | nova/tests/unit/test_notifications.py:192-208 | when enabled a vm change, or a task change under vm_and_task_state, is sent |
| Notifications.UpdateAlwaysAttempts | nova/tests/unit/test_notifications.py:448-457 | send_update attempts a send even for an unchanged instance |
| Notifications.FailuresAreSwallowed | nova/tests/unit/test_notifications.py:459-467 | a raising send emits nothing; InstanceNotFound is logged at debug, others as exceptions |
| Notifications.NotFoundIsQuiet | nova/tests/unit/test_notifications.py:469-496 | InstanceNotFound leaves no notification and no exception log |
| Notifications.DeliveredSends | nova/tests/unit/test_notifications.py:158-176 | a delivered send emits one of each kind under their event types and publisher ids |
| Notifications.SentNotificationsAgree | nova/tests/unit/test_notifications.py:210-247 | both notifications carry the same states, names, host, node and old display name |
| Notifications.WithStatesSends | nova/tests/unit/test_notifications.py:200-247 | a verified state change with all four states given, delivered, sends both notifications with those states, the instance's names and access ips, and the audit period ending now |
| Notifications.SentAuditPeriod | nova/tests/unit/test_notifications.py:232-235 | the audit period runs from the last month start until now |
| Notifications.UpdateReportsRename | nova/tests/unit/test_notifications.py:405-421 | without a state change the old display name is reported exactly when it changed |
| Notifications.UpdateReportsStates | nova/tests/unit/test_notifications.py:178-190 | with a state change the old and new states are sent |
| Notifications.VmUpdateWithStatesExample | nova/tests/unit/test_notifications.py:200-247 | the building-to-active update carries the test's states, names and audit period |
| Notifications.TaskNotificationScenario | nova/tests/unit/test_notifications.py:110-141 | under vm_state a task change sends nothing; under vm_and_task_state one of each |
| Notifications.DisabledScenario | nova/tests/unit/test_notifications.py:89-108 | with the option unset nothing is emitted |
| Notifications.InstanceNotFoundScenario | nova/tests/unit/test_notifications.py:469-496 | nothing emitted, only debug log entries |

## Left out

- Real file system calls (`os.readlink`, `os.listdir`, `os.path.isdir`, `glob.iglob`,
  `open`): the sysfs tree is the `Sysfs` value; glob order is the listing order.
- The warnings and debug lines the PCI resolvers log.
- The Cyborg HTTP client: `get_client`, `_call_cyborg`, `_get_device_profile_list`,
  `_create_arqs`, `create_arqs`, `get_arq_by_uuid`, `get_arq_uuids_for_instance` and
  `delete_arqs_for_instance` are network calls; their outcomes are parameters of the
  modelled helpers.
- The standard resource classes (`os_resource_classes`) are a parameter of
  `RequestGroups.AddResource`.
- The oslo notifier transport, the notification fixture, oslo config loading and the
  database-backed instances, flavors and tag lists; the configuration is a value and
  instances are records.
- Versioned-object serialisation (`nova_object.data`), network info and IP address
  payloads, fixed IPs, image uuid, tags and action-initiator fields of the payload.
- Audit periods other than the month unit without offset; time zones.
- PciMatch.PciDevicePropMatch: case-insensitive comparison lowers ASCII letters only,
  not the whole Unicode range Python's `lower()` covers.
- Text.ParseInt: `int()` accepts only ASCII decimal digits here (no underscores, no
  other Unicode digits).
