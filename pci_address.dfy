/** PCI addresses of the form "DDDD:BB:SS.F" (domain, bus, slot, function):
    parse_address, which validates, get_pci_address_fields, which only splits,
    and get_pci_address, which renders the four fields back into one string. */
module PciAddress {
  import opened Wrappers
  import opened Text

  /** The four fields of a PCI address, as the strings that spell them. */
  datatype Address = Address(domain: string, bus: string, slot: string, func: string)

  /** PciDeviceWrongAddressFormat, raised by parse_address. */
  datatype AddressError = WrongAddressFormat(address: string)

  /** get_pci_address_fields raises ValueError when the text before the dot does not
      unpack into exactly three colon-separated parts. */
  datatype FieldsError = FieldsValueError(address: string)

  /** The accepted syntax: four hex digits, ':', two hex digits, ':', two hex digits,
      '.', one hex digit, and nothing else. */
  predicate WellFormed(s: string) {
    && |s| == 12
    && AllHexDigits(s[0..4]) && s[4] == ':'
    && AllHexDigits(s[5..7]) && s[7] == ':'
    && AllHexDigits(s[8..10]) && s[10] == '.'
    && IsHexDigit(s[11])
  }

  /** Fields of the widths WellFormed demands. */
  predicate ValidFields(a: Address) {
    && |a.domain| == 4 && AllHexDigits(a.domain)
    && |a.bus| == 2 && AllHexDigits(a.bus)
    && |a.slot| == 2 && AllHexDigits(a.slot)
    && |a.func| == 1 && AllHexDigits(a.func)
  }

  /** get_pci_address: "%s:%s:%s.%s" of the four fields. */
  function Render(a: Address): (s: string)
    ensures |s| == |a.domain| + |a.bus| + |a.slot| + |a.func| + 3
  {
    a.domain + ":" + a.bus + ":" + a.slot + "." + a.func
  }

  /** parse_address: the four fields of a well-formed address, which render back to the
      very same string; any other string raises PciDeviceWrongAddressFormat. */
  function ParseAddress(s: string): (r: Result<Address, AddressError>)
    ensures r.Ok? <==> WellFormed(s)
    ensures r.Ok? ==> ValidFields(r.value) && Render(r.value) == s
    ensures r.Err? ==> r.error == WrongAddressFormat(s)
  {
    if WellFormed(s) then
      var a := Address(s[0..4], s[5..7], s[8..10], s[11..12]);
      assert Render(a) == s;
      Ok(a)
    else
      Err(WrongAddressFormat(s))
  }

  /** Rendering valid fields and parsing the result gives the same fields back. */
  lemma ParseRender(a: Address)
    requires ValidFields(a)
    ensures ParseAddress(Render(a)) == Ok(a)
  {
    var s := Render(a);
    assert s[0..4] == a.domain && s[5..7] == a.bus && s[8..10] == a.slot && s[11..12] == a.func;
    assert WellFormed(s);
  }

  /** get_pci_address_fields: partition at the first '.', split what precedes it at ':'
      and unpack exactly three parts; the fields are not checked. The fields render back
      to the input, with a '.' added when the input had none. */
  function PciAddressFields(s: string): (r: Result<Address, FieldsError>)
    ensures r.Ok? <==> |Split(Partition(s, '.').0, ':')| == 3
    ensures r.Ok? && '.' in s ==> Render(r.value) == s
    ensures r.Ok? && '.' !in s ==> Render(r.value) == s + "." && r.value.func == []
    ensures r.Err? ==> r.error == FieldsValueError(s)
  {
    var p := Partition(s, '.');
    var parts := Split(p.0, ':');
    if |parts| != 3 then Err(FieldsValueError(s))
    else
      var a := Address(parts[0], parts[1], parts[2], p.2);
      FieldsRender(s, a);
      Ok(a)
  }

  lemma FieldsRender(s: string, a: Address)
    requires |Split(Partition(s, '.').0, ':')| == 3
    requires a.func == Partition(s, '.').2
    requires [a.domain, a.bus, a.slot] == Split(Partition(s, '.').0, ':')
    ensures '.' in s ==> Render(a) == s
    ensures '.' !in s ==> Render(a) == s + "." && a.func == []
  {
    var p := Partition(s, '.');
    var parts := Split(p.0, ':');
    JoinSplit(p.0, ':');
    Join3(parts, ':');
    var j := a.domain + ":" + a.bus + ":" + a.slot;
    assert j == parts[0] + [':'] + (parts[1] + [':'] + parts[2]);
    assert j == p.0;
    assert Render(a) == j + "." + a.func;
    if p.1 {
      assert s == p.0 + ['.'] + p.2;
      assert '.' in s;
    } else {
      assert s == p.0;
    }
  }

  lemma Join3(xs: seq<string>, sep: char)
    requires |xs| == 3
    ensures Join(xs, sep) == xs[0] + [sep] + (xs[1] + [sep] + xs[2])
  {
    var tail := xs[1..];
    assert tail[1..] == [xs[2]];
    assert Join(tail, sep) == xs[1] + [sep] + xs[2];
  }

  /** Joining the pieces of a split restores the string. */
  lemma {:induction false} JoinSplit(s: string, sep: char)
    ensures Join(Split(s, sep), sep) == s
    decreases |s|
  {
    var k := IndexFrom(s, sep, 0);
    if k < |s| {
      var rest := Split(s[k + 1..], sep);
      JoinSplit(s[k + 1..], sep);
      assert Split(s, sep) == [s[..k]] + rest;
      assert s == s[..k] + [sep] + s[k + 1..];
    }
  }

  /** On a well-formed address the lenient field extraction agrees with parse_address. */
  lemma FieldsAgreeWithParse(s: string)
    requires WellFormed(s)
    ensures PciAddressFields(s) == Ok(ParseAddress(s).value)
  {
    var a := ParseAddress(s).value;
    forall i | 0 <= i < 10 ensures s[i] != '.' {
      assert IsHexDigit(s[i]) || s[i] == ':';
    }
    IndexFromAt(s, '.', 0, 10);
    var p := Partition(s, '.');
    assert p.0 == s[..10];
    assert p.2 == a.func;
    var parts := [a.domain, a.bus, a.slot];
    Join3(parts, ':');
    assert p.0 == Join(parts, ':');
    forall i | 0 <= i < 3 ensures ':' !in parts[i] {
      assert AllHexDigits(parts[i]);
    }
    SplitJoin(parts, ':');
  }

  /** The addresses the unit tests parse and reject. */
  lemma ParseExamples()
    ensures ParseAddress("0000:04:12.6") == Ok(Address("0000", "04", "12", "6"))
    ensures ParseAddress("0000:04.12:6") == Err(WrongAddressFormat("0000:04.12:6"))
    ensures ParseAddress("0000:h4.12:6") == Err(WrongAddressFormat("0000:h4.12:6"))
  {
    var s := "0000:04:12.6";
    assert s[0..4] == "0000" && s[5..7] == "04" && s[8..10] == "12" && s[11..12] == "6";
    assert !WellFormed("0000:04.12:6") by { assert "0000:04.12:6"[7] == '.'; }
    assert !WellFormed("0000:h4.12:6") by { assert !IsHexDigit("0000:h4.12:6"[5]); }
  }
}
