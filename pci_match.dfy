/** pci_device_prop_match: does a PCI device satisfy a list of property
    specifications? The list is read as an OR of specs, each spec as an AND over
    its keys. Scalar values compare without regard to ASCII case; list values
    (the network capabilities) match when the spec's items all occur in the
    device's list, in any order. */
module PciMatch {
  import opened Wrappers
  import opened Text

  /** A property value: a string, or a list of strings such as capabilities_network. */
  datatype PropValue = Str(s: string) | StrList(items: seq<string>)

  /** A device's properties, or one spec: property name to value. */
  type Props = map<string, PropValue>

  /** dict.get(key): the device's value for a key, None when it has none. */
  function Get(dev: Props, key: string): Option<PropValue> {
    if key in dev then Some(dev[key]) else None
  }

  /** The value as compared in the scalar branch: strings are lowered, lists kept. */
  function Normalize(v: PropValue): PropValue {
    if v.Str? then Str(Lower(v.s)) else v
  }

  /** One key of a spec: when both values are lists, every item the spec lists must be
      in the device's list; otherwise the lowered values must be equal (a missing key
      is None, which equals nothing). */
  predicate FieldMatches(want: PropValue, have: Option<PropValue>) {
    if want.StrList? && have.Some? && have.value.StrList? then
      forall x :: x in want.items ==> x in have.value.items
    else
      have.Some? && Normalize(have.value) == Normalize(want)
  }

  /** One spec matches when every one of its keys matches. */
  predicate SpecMatches(dev: Props, spec: Props) {
    forall k :: k in spec ==> FieldMatches(spec[k], Get(dev, k))
  }

  /** pci_device_prop_match: any(spec matches for spec in specs). */
  function PciDevicePropMatch(dev: Props, specs: seq<Props>): (r: bool)
    ensures r <==> exists i :: 0 <= i < |specs| && SpecMatches(dev, specs[i])
  {
    if specs == [] then false
    else if SpecMatches(dev, specs[0]) then true
    else
      var rest := PciDevicePropMatch(dev, specs[1..]);
      assert forall i :: 1 <= i < |specs| ==> specs[i] == specs[1..][i - 1];
      rest
  }

  /** The three cases of one key: two lists match by inclusion of their item sets, two
      strings by case-insensitive equality, and any other pairing (a list against a
      string, either way round, or a key the device lacks) never matches. */
  lemma FieldMatchesCases(want: PropValue, have: Option<PropValue>)
    ensures want.StrList? && have.Some? && have.value.StrList? ==>
      (FieldMatches(want, have) <==> (set x | x in want.items) <= (set x | x in have.value.items))
    ensures want.Str? && have.Some? && have.value.Str? ==>
      (FieldMatches(want, have) <==> Lower(want.s) == Lower(have.value.s))
    ensures want.StrList? && have.Some? && have.value.Str? ==> !FieldMatches(want, have)
    ensures want.Str? && have.Some? && have.value.StrList? ==> !FieldMatches(want, have)
    ensures have.None? ==> !FieldMatches(want, have)
  {
    if want.StrList? && have.Some? && have.value.StrList? {
      var w := set x | x in want.items;
      var h := set x | x in have.value.items;
      if FieldMatches(want, have) {
        forall x | x in w ensures x in h {
          assert x in want.items;
        }
      }
      if w <= h {
        forall x | x in want.items ensures x in have.value.items {
          assert x in w;
        }
      }
    }
  }

  /** A spec matches exactly when each of its keys is present in the device and the
      values agree (inclusion for two lists, case-insensitive equality for two strings). */
  lemma SpecMatchesIff(dev: Props, spec: Props)
    ensures SpecMatches(dev, spec) <==>
      forall k :: k in spec ==>
        && k in dev
        && (spec[k].StrList? ==>
              (dev[k].StrList? && forall x :: x in spec[k].items ==> x in dev[k].items))
        && (spec[k].Str? ==> dev[k].Str? && Lower(spec[k].s) == Lower(dev[k].s))
  {
  }

  /** Reordering (or repeating) the items of a list-valued spec key changes nothing. */
  lemma ListOrderIrrelevant(w1: seq<string>, w2: seq<string>, have: Option<PropValue>)
    requires (set x | x in w1) == (set x | x in w2)
    ensures FieldMatches(StrList(w1), have) == FieldMatches(StrList(w2), have)
  {
    var s1 := set x | x in w1;
    var s2 := set x | x in w2;
    if have.Some? && have.value.StrList? {
      if FieldMatches(StrList(w1), have) {
        forall x | x in w2 ensures x in have.value.items {
          assert x in s2;
        }
      }
      if FieldMatches(StrList(w2), have) {
        forall x | x in w1 ensures x in have.value.items {
          assert x in s1;
        }
      }
    }
  }

  /** The OR over specs distributes over concatenating spec lists. */
  lemma {:induction false} PropMatchAppend(dev: Props, a: seq<Props>, b: seq<Props>)
    ensures PciDevicePropMatch(dev, a + b) == (PciDevicePropMatch(dev, a) || PciDevicePropMatch(dev, b))
  {
    var ab := a + b;
    if PciDevicePropMatch(dev, ab) {
      var i :| 0 <= i < |ab| && SpecMatches(dev, ab[i]);
      if i < |a| {
        assert ab[i] == a[i];
      } else {
        assert ab[i] == b[i - |a|];
      }
    }
    if PciDevicePropMatch(dev, a) {
      var i :| 0 <= i < |a| && SpecMatches(dev, a[i]);
      assert ab[i] == a[i];
    }
    if PciDevicePropMatch(dev, b) {
      var i :| 0 <= i < |b| && SpecMatches(dev, b[i]);
      assert ab[|a| + i] == b[i];
    }
  }

  /** No spec, no match; an empty spec (no keys at all) matches every device. */
  lemma VacuousCases(dev: Props, specs: seq<Props>)
    ensures !PciDevicePropMatch(dev, [])
    ensures map[] in specs ==> PciDevicePropMatch(dev, specs)
  {
    if map[] in specs {
      var i :| 0 <= i < |specs| && specs[i] == map[];
      assert SpecMatches(dev, specs[i]);
    }
  }

  /** A spec that names a key the device does not have never matches. */
  lemma ExtraKeyFails(dev: Props, spec: Props, k: string)
    requires k in spec && k !in dev
    ensures !SpecMatches(dev, spec)
  {
    assert !FieldMatches(spec[k], Get(dev, k));
  }

  /** Properties the device has and the spec does not mention are ignored. */
  lemma ExtraDeviceKeyIgnored(dev: Props, spec: Props, k: string, v: PropValue)
    requires k !in spec
    ensures SpecMatches(dev[k := v], spec) == SpecMatches(dev, spec)
  {
    forall j | j in spec ensures Get(dev[k := v], j) == Get(dev, j) {
    }
  }

  /** The device the unit tests match against. */
  function FakePci1(): Props {
    map["vendor_id" := Str("v1"), "device_id" := Str("d1"),
        "capabilities_network" := StrList(["cap1", "cap2", "cap3"])]
  }

  /** Scalar values match regardless of case: "V1" against "v1". */
  lemma ExampleCaseInsensitive()
    ensures PciDevicePropMatch(FakePci1(), [map["vendor_id" := Str("V1"), "device_id" := Str("D1")]])
  {
    var spec := map["vendor_id" := Str("V1"), "device_id" := Str("D1")];
    assert Lower("V1") == "v1" && Lower("v1") == "v1";
    assert Lower("D1") == "d1" && Lower("d1") == "d1";
    assert SpecMatches(FakePci1(), spec);
    assert [spec][0] == spec;
  }

  /** A match on the second spec of the list counts. */
  lemma ExampleSecondSpec()
    ensures PciDevicePropMatch(FakePci1(), [map["vendor_id" := Str("v4"), "device_id" := Str("d4")],
                                            map["vendor_id" := Str("v1"), "device_id" := Str("d1")]])
  {
    var s4 := map["vendor_id" := Str("v4"), "device_id" := Str("d4")];
    var sok := map["vendor_id" := Str("v1"), "device_id" := Str("d1")];
    assert Lower("v1") == "v1" && Lower("d1") == "d1";
    assert SpecMatches(FakePci1(), sok);
    assert [s4, sok][1] == sok;
  }

  /** No spec of the list matches. */
  lemma ExampleMismatch()
    ensures !PciDevicePropMatch(FakePci1(), [map["vendor_id" := Str("v4"), "device_id" := Str("d4")],
                                             map["vendor_id" := Str("v3"), "device_id" := Str("d3")]])
  {
    var dev := FakePci1();
    var s4 := map["vendor_id" := Str("v4"), "device_id" := Str("d4")];
    var s3 := map["vendor_id" := Str("v3"), "device_id" := Str("d3")];
    assert Lower("v4") == "v4" && Lower("v3") == "v3" && Lower("v1") == "v1";
    assert !FieldMatches(s4["vendor_id"], Get(dev, "vendor_id"));
    assert !FieldMatches(s3["vendor_id"], Get(dev, "vendor_id"));
    assert !SpecMatches(dev, s4);
    assert !SpecMatches(dev, s3);
    var specs := [s4, s3];
    assert forall i :: 0 <= i < |specs| ==> specs[i] == s4 || specs[i] == s3;
  }

  /** A spec key the device lacks ("wrong_key") makes the spec fail. */
  lemma ExampleExtraKey()
    ensures !PciDevicePropMatch(FakePci1(), [map["vendor_id" := Str("v1"), "device_id" := Str("d1"),
                                                 "wrong_key" := Str("k1")]])
  {
    var spec := map["vendor_id" := Str("v1"), "device_id" := Str("d1"), "wrong_key" := Str("k1")];
    ExtraKeyFails(FakePci1(), spec, "wrong_key");
    assert forall i :: 0 <= i < |[spec]| ==> [spec][i] == spec;
  }

  /** A capability list in another order, and a subset of it, match. */
  lemma ExampleListSubset()
    ensures PciDevicePropMatch(FakePci1(), [map["vendor_id" := Str("v1"), "device_id" := Str("d1"),
                                                "capabilities_network" := StrList(["cap3", "cap1"])]])
  {
    var spec := map["vendor_id" := Str("v1"), "device_id" := Str("d1"),
                    "capabilities_network" := StrList(["cap3", "cap1"])];
    assert Lower("v1") == "v1" && Lower("d1") == "d1";
    assert SpecMatches(FakePci1(), spec);
    assert [spec][0] == spec;
  }

  /** A capability the device lacks ("cap33") makes the spec fail. */
  lemma ExampleListNoMatch()
    ensures !PciDevicePropMatch(FakePci1(), [map["vendor_id" := Str("v1"), "device_id" := Str("d1"),
                                                 "capabilities_network" := StrList(["cap1", "cap33"])]])
  {
    var dev := FakePci1();
    var spec := map["vendor_id" := Str("v1"), "device_id" := Str("d1"),
                    "capabilities_network" := StrList(["cap1", "cap33"])];
    assert "cap33" in ["cap1", "cap33"];
    assert "cap33" !in ["cap1", "cap2", "cap3"];
    assert !FieldMatches(spec["capabilities_network"], Get(dev, "capabilities_network"));
    assert !SpecMatches(dev, spec);
    assert forall i :: 0 <= i < |[spec]| ==> [spec][i] == spec;
  }

  /** A list spec value against a scalar device value fails, without an error. */
  lemma ExampleListWrongType()
    ensures !PciDevicePropMatch(FakePci1(), [map["vendor_id" := Str("v1"), "device_id" := StrList(["d1"])]])
  {
    var dev := FakePci1();
    var spec := map["vendor_id" := Str("v1"), "device_id" := StrList(["d1"])];
    assert !FieldMatches(spec["device_id"], Get(dev, "device_id"));
    assert !SpecMatches(dev, spec);
    assert forall i :: 0 <= i < |[spec]| ==> [spec][i] == spec;
  }
}
