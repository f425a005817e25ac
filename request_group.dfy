/** The request groups a device profile group becomes: extra-spec style keys
    "resources<suffix>:<class>" and "trait<suffix>:<name>" are recognised by the key
    pattern ^(resources|trait)([a-zA-Z0-9_-]{1,64})?:(.*)$, resource entries become
    resource amounts and trait entries required or forbidden traits of one RequestGroup. */
module RequestGroups {
  import opened Wrappers
  import opened Text

  /** The first group of the key pattern. */
  datatype Prefix = Resources | Trait

  function PrefixText(p: Prefix): string {
    match p
    case Resources => "resources"
    case Trait => "trait"
  }

  /** A key the pattern accepts: its prefix, the group suffix and the name after ':'. */
  datatype SpecKey = SpecKey(prefix: Prefix, suffix: string, name: string)

  /** The key a SpecKey spells. */
  function KeyText(k: SpecKey): string {
    PrefixText(k.prefix) + k.suffix + ":" + k.name
  }

  /** The characters of [a-zA-Z0-9_-]. */
  predicate IsSuffixChar(c: char) {
    'a' <= c <= 'z' || 'A' <= c <= 'Z' || '0' <= c <= '9' || c == '_' || c == '-'
  }

  /** The longest group suffix the key pattern admits. */
  const MaxSuffixLen := 64

  predicate AllSuffixChars(s: string) {
    forall i :: 0 <= i < |s| ==> IsSuffixChar(s[i])
  }

  /** The length of the longest run of suffix characters at the start of s. */
  function SuffixLen(s: string): (n: nat)
    ensures n <= |s| && AllSuffixChars(s[..n])
    ensures n == |s| || !IsSuffixChar(s[n])
  {
    if s == [] || !IsSuffixChar(s[0]) then 0
    else
      var m := SuffixLen(s[1..]);
      assert s[..m + 1] == [s[0]] + s[1..][..m];
      m + 1
  }

  /** XS_KEYPAT.match(key): a prefix, a run of at most 64 suffix characters, ':' and a
      name without a newline; '$' also accepts a single newline ending the key. A longer
      run cannot be followed by ':' however the regex backtracks, so it does not match. */
  function ParseExtraSpecKey(key: string): (r: Option<SpecKey>)
    ensures r.Some? ==> key == KeyText(r.value) || key == KeyText(r.value) + "\n"
    ensures r.Some? ==> AllSuffixChars(r.value.suffix) && |r.value.suffix| <= MaxSuffixLen
    ensures r.Some? ==> '\n' !in r.value.name
  {
    if IsPrefix("resources", key) then ParseAfterPrefix(Resources, key)
    else if IsPrefix("trait", key) then ParseAfterPrefix(Trait, key)
    else None
  }

  /** The rest of the pattern once the prefix p has matched. */
  function ParseAfterPrefix(p: Prefix, key: string): (r: Option<SpecKey>)
    requires IsPrefix(PrefixText(p), key)
    ensures r.Some? ==> r.value.prefix == p
    ensures r.Some? ==> key == KeyText(r.value) || key == KeyText(r.value) + "\n"
    ensures r.Some? ==> AllSuffixChars(r.value.suffix) && |r.value.suffix| <= MaxSuffixLen
    ensures r.Some? ==> '\n' !in r.value.name
  {
    var pre := PrefixText(p);
    var rest := key[|pre|..];
    var n := SuffixLen(rest);
    if n > MaxSuffixLen || n == |rest| || rest[n] != ':' then None
    else
      var tail := rest[n + 1..];
      var name := NameOf(tail);
      if name.None? then None
      else
        var k := SpecKey(p, rest[..n], name.value);
        KeyAssembly(key, pre, rest, n, name.value);
        Some(k)
  }

  /** Reassembling a key from its prefix, suffix run, ':' and name. */
  lemma KeyAssembly(key: string, pre: string, rest: string, n: nat, name: string)
    requires IsPrefix(pre, key) && rest == key[|pre|..]
    requires n < |rest| && rest[n] == ':'
    requires rest[n + 1..] == name || rest[n + 1..] == name + "\n"
    ensures key == pre + rest[..n] + ":" + name || key == pre + rest[..n] + ":" + name + "\n"
  {
    assert key == pre + rest;
    assert rest == rest[..n] + ":" + rest[n + 1..];
  }

  /** (.*)$ on the text after ':': all of it when it has no newline, all but a final
      newline when that is its only one, and no match otherwise. */
  function NameOf(tail: string): (r: Option<string>)
    ensures r.Some? ==> (tail == r.value || tail == r.value + "\n") && '\n' !in r.value
    ensures '\n' !in tail ==> r == Some(tail)
  {
    if '\n' !in tail then Some(tail)
    else if tail[|tail| - 1] == '\n' && '\n' !in tail[..|tail| - 1] then
      assert tail == tail[..|tail| - 1] + "\n";
      Some(tail[..|tail| - 1])
    else None
  }

  /** Every key the pattern describes is recognised, with its parts. */
  lemma ParseKeyText(k: SpecKey)
    requires AllSuffixChars(k.suffix) && |k.suffix| <= MaxSuffixLen && '\n' !in k.name
    ensures ParseExtraSpecKey(KeyText(k)) == Some(k)
  {
    var key := KeyText(k);
    AfterPrefixText(k);
    if k.prefix == Trait {
      assert key[0] == 't';
      assert !IsPrefix("resources", key);
    }
  }

  lemma AfterPrefixText(k: SpecKey)
    requires AllSuffixChars(k.suffix) && |k.suffix| <= MaxSuffixLen && '\n' !in k.name
    ensures IsPrefix(PrefixText(k.prefix), KeyText(k))
    ensures ParseAfterPrefix(k.prefix, KeyText(k)) == Some(k)
  {
    PrefixRest(PrefixText(k.prefix), k.suffix + ":" + k.name);
    assert KeyText(k) == PrefixText(k.prefix) + (k.suffix + ":" + k.name);
    RestParts(k.suffix, k.name);
  }

  /** A key whose suffix is longer than 64 characters is not recognised. */
  lemma LongSuffixRejected(k: SpecKey)
    requires AllSuffixChars(k.suffix) && |k.suffix| > MaxSuffixLen
    ensures ParseExtraSpecKey(KeyText(k)) == None
  {
    var key := KeyText(k);
    LongAfterPrefix(k);
    if k.prefix == Trait {
      assert key[0] == 't';
      assert !IsPrefix("resources", key);
    }
  }

  lemma LongAfterPrefix(k: SpecKey)
    requires AllSuffixChars(k.suffix) && |k.suffix| > MaxSuffixLen
    ensures IsPrefix(PrefixText(k.prefix), KeyText(k))
    ensures ParseAfterPrefix(k.prefix, KeyText(k)) == None
  {
    PrefixRest(PrefixText(k.prefix), k.suffix + ":" + k.name);
    assert KeyText(k) == PrefixText(k.prefix) + (k.suffix + ":" + k.name);
    RestParts(k.suffix, k.name);
  }

  /** What follows a prefix is the rest of the key. */
  lemma PrefixRest(pre: string, rest: string)
    ensures IsPrefix(pre, pre + rest) && (pre + rest)[|pre|..] == rest
  {
    assert (pre + rest)[..|pre|] == pre;
  }

  /** The text after the prefix splits into the suffix run, ':' and the name. */
  lemma RestParts(suffix: string, name: string)
    requires AllSuffixChars(suffix)
    ensures var rest := suffix + ":" + name;
            && SuffixLen(rest) == |suffix| && rest[|suffix|] == ':'
            && rest[|suffix| + 1..] == name && rest[..|suffix|] == suffix
  {
    var rest := suffix + ":" + name;
    SuffixLenAt(suffix, ":" + name);
    assert suffix + ":" + name == suffix + (":" + name);
    assert rest[|suffix| + 1..] == name;
    assert rest[..|suffix|] == suffix;
  }

  lemma {:induction false} SuffixLenAt(s: string, t: string)
    requires AllSuffixChars(s) && t != [] && !IsSuffixChar(t[0])
    ensures SuffixLen(s + t) == |s|
  {
    if s != [] {
      assert (s + t)[1..] == s[1..] + t;
      SuffixLenAt(s[1..], t);
    } else {
      assert s + t == t;
    }
  }

  /** A key that does not start with "resources" or "trait" is skipped. */
  lemma UnprefixedKeySkipped(key: string)
    requires !IsPrefix("resources", key) && !IsPrefix("trait", key)
    ensures ParseExtraSpecKey(key).None?
  {
  }

  /** objects.RequestGroup, with the fields device profile groups fill in. */
  datatype RequestGroup = RequestGroup(requesterId: string, resources: map<string, int>,
                                       requiredTraits: set<string>, forbiddenTraits: set<string>)

  /** RequestGroup(requester_id=...): no resources and no traits yet. */
  function NewRequestGroup(requesterId: string): RequestGroup {
    RequestGroup(requesterId, map[], {}, {})
  }

  /** A resource class add_resource accepts: a custom class or a standard one. */
  predicate ValidResourceClass(rclass: string, standards: set<string>) {
    IsPrefix("CUSTOM_", rclass) || rclass in standards
  }

  /** The amount add_resource accepts: int(amount) without error and not negative. */
  predicate ValidAmount(amount: string) {
    ParseInt(amount).Some? && ParseInt(amount).value >= 0
  }

  /** RequestGroup.add_resource: records the amount for the class, replacing an earlier
      one; an invalid class or amount is skipped (logged) and changes nothing. */
  function AddResource(rg: RequestGroup, rclass: string, amount: string, standards: set<string>): (r: RequestGroup)
    ensures r.requesterId == rg.requesterId
    ensures r.requiredTraits == rg.requiredTraits && r.forbiddenTraits == rg.forbiddenTraits
    ensures ValidResourceClass(rclass, standards) && ValidAmount(amount) ==>
              r.resources == rg.resources[rclass := ParseInt(amount).value]
    ensures !(ValidResourceClass(rclass, standards) && ValidAmount(amount)) ==> r == rg
  {
    if !ValidResourceClass(rclass, standards) then rg
    else
      var n := ParseInt(amount);
      if n.None? || n.value < 0 then rg
      else rg.(resources := rg.resources[rclass := n.value])
  }

  /** RequestGroup.add_trait: 'required' and 'forbidden' add the trait to that set; any
      other value is skipped (logged). */
  function AddTrait(rg: RequestGroup, name: string, traitType: string): (r: RequestGroup)
    ensures r.requesterId == rg.requesterId && r.resources == rg.resources
    ensures r.requiredTraits == (if traitType == "required" then rg.requiredTraits + {name} else rg.requiredTraits)
    ensures r.forbiddenTraits == (if traitType == "forbidden" then rg.forbiddenTraits + {name} else rg.forbiddenTraits)
  {
    if traitType == "required" then rg.(requiredTraits := rg.requiredTraits + {name})
    else if traitType == "forbidden" then rg.(forbiddenTraits := rg.forbiddenTraits + {name})
    else rg
  }

  /** One (key, value) entry of a device profile group, in the group's order. */
  type Entry = (string, string)

  /** The loop body of get_device_request_groups for one entry: a key the pattern
      rejects is skipped, a resources key goes to add_resource and a trait key to
      add_trait. */
  function ApplyEntry(rg: RequestGroup, e: Entry, standards: set<string>): RequestGroup {
    var k := ParseExtraSpecKey(e.0);
    if k.None? then rg
    else if k.value.prefix == Resources then AddResource(rg, k.value.name, e.1, standards)
    else AddTrait(rg, k.value.name, e.1)
  }

  /** What one entry does to a group, once its key and value have been checked. */
  datatype Action = SetAmount(rclass: string, amount: int) | Require(traitName: string) | Forbid(traitName: string) | Skip

  /** The action of an entry: the checks of the key pattern, add_resource and add_trait. */
  function EntryAction(e: Entry, standards: set<string>): Action {
    var k := ParseExtraSpecKey(e.0);
    if k.None? then Skip
    else if k.value.prefix == Resources then
      if ValidResourceClass(k.value.name, standards) && ValidAmount(e.1)
      then SetAmount(k.value.name, ParseInt(e.1).value) else Skip
    else if e.1 == "required" then Require(k.value.name)
    else if e.1 == "forbidden" then Forbid(k.value.name)
    else Skip
  }

  function Perform(rg: RequestGroup, a: Action): RequestGroup {
    match a
    case SetAmount(c, n) => rg.(resources := rg.resources[c := n])
    case Require(t) => rg.(requiredTraits := rg.requiredTraits + {t})
    case Forbid(t) => rg.(forbiddenTraits := rg.forbiddenTraits + {t})
    case Skip => rg
  }

  /** Applying an entry performs its action. */
  lemma ApplyEntryPerforms(rg: RequestGroup, e: Entry, standards: set<string>)
    ensures ApplyEntry(rg, e, standards) == Perform(rg, EntryAction(e, standards))
  {
    var k := ParseExtraSpecKey(e.0);
    if k.Some? && k.value.prefix == Resources {
      assert ApplyEntry(rg, e, standards) == AddResource(rg, k.value.name, e.1, standards);
    }
  }

  /** The entries applied to rg in order, a later amount for a class replacing an
      earlier one. */
  function ApplyEntries(rg: RequestGroup, es: seq<Entry>, standards: set<string>): (r: RequestGroup)
    ensures r.requesterId == rg.requesterId
    decreases |es|
  {
    if es == [] then rg
    else ApplyEntry(ApplyEntries(rg, es[..|es| - 1], standards), es[|es| - 1], standards)
  }

  /** The actions of the entries, in order. */
  function Actions(es: seq<Entry>, standards: set<string>): (r: seq<Action>)
    ensures |r| == |es| && forall i :: 0 <= i < |es| ==> r[i] == EntryAction(es[i], standards)
  {
    seq(|es|, i requires 0 <= i < |es| => EntryAction(es[i], standards))
  }

  /** The actions performed in order. */
  function PerformAll(rg: RequestGroup, acts: seq<Action>): (r: RequestGroup)
    ensures r.requesterId == rg.requesterId
    decreases |acts|
  {
    if acts == [] then rg
    else Perform(PerformAll(rg, acts[..|acts| - 1]), acts[|acts| - 1])
  }

  /** Applying the entries performs their actions. */
  lemma {:induction false} ApplyEntriesPerforms(rg: RequestGroup, es: seq<Entry>, standards: set<string>)
    ensures ApplyEntries(rg, es, standards) == PerformAll(rg, Actions(es, standards))
    decreases |es|
  {
    if es != [] {
      var n := |es|;
      ApplyEntriesPerforms(rg, es[..n - 1], standards);
      assert Actions(es[..n - 1], standards) == Actions(es, standards)[..n - 1];
      ApplyEntryPerforms(ApplyEntries(rg, es[..n - 1], standards), es[n - 1], standards);
    }
  }

  /** Performing actions requires (forbids) exactly the traits the group started with
      plus those some action requires (forbids). */
  lemma {:induction false} TraitsOfActions(rg: RequestGroup, acts: seq<Action>, t: string)
    ensures t in PerformAll(rg, acts).requiredTraits <==> t in rg.requiredTraits || Require(t) in acts
    ensures t in PerformAll(rg, acts).forbiddenTraits <==> t in rg.forbiddenTraits || Forbid(t) in acts
    decreases |acts|
  {
    if acts != [] {
      var init := acts[..|acts| - 1];
      TraitsOfActions(rg, init, t);
      assert acts == init + [acts[|acts| - 1]];
    }
  }

  /** A translated group requires (forbids) exactly the traits it started with plus those
      that some entry "trait...:<name>" marks "required" ("forbidden"). */
  lemma TraitsOfEntries(rg: RequestGroup, es: seq<Entry>, standards: set<string>, t: string)
    ensures t in ApplyEntries(rg, es, standards).requiredTraits <==>
            t in rg.requiredTraits || Require(t) in Actions(es, standards)
    ensures t in ApplyEntries(rg, es, standards).forbiddenTraits <==>
            t in rg.forbiddenTraits || Forbid(t) in Actions(es, standards)
  {
    ApplyEntriesPerforms(rg, es, standards);
    TraitsOfActions(rg, Actions(es, standards), t);
  }

  /** Entry i of acts is the last action that sets an amount for the class. */
  predicate LastSetting(acts: seq<Action>, rclass: string, i: int) {
    && 0 <= i < |acts| && acts[i].SetAmount? && acts[i].rclass == rclass
    && forall j :: i < j < |acts| ==> !(acts[j].SetAmount? && acts[j].rclass == rclass)
  }

  /** Some action sets an amount for the class. */
  predicate SetsClass(acts: seq<Action>, rclass: string) {
    exists i :: 0 <= i < |acts| && acts[i].SetAmount? && acts[i].rclass == rclass
  }

  /** Performing actions gives a class an amount exactly when it had one or some action
      sets one; the amount is that of the last such action. */
  lemma {:induction false} ResourcesOfActions(rg: RequestGroup, acts: seq<Action>, rclass: string)
    ensures rclass in PerformAll(rg, acts).resources <==> rclass in rg.resources || SetsClass(acts, rclass)
    ensures !SetsClass(acts, rclass) && rclass in rg.resources ==>
              PerformAll(rg, acts).resources[rclass] == rg.resources[rclass]
    ensures SetsClass(acts, rclass) ==>
              exists i :: LastSetting(acts, rclass, i) && PerformAll(rg, acts).resources[rclass] == acts[i].amount
    decreases |acts|
  {
    if acts != [] {
      var n := |acts|;
      var init := acts[..n - 1];
      var last := acts[n - 1];
      ResourcesOfActions(rg, init, rclass);
      forall i | 0 <= i < n - 1 ensures init[i] == acts[i] {
      }
      if last.SetAmount? && last.rclass == rclass {
        assert LastSetting(acts, rclass, n - 1);
      } else if SetsClass(acts, rclass) {
        var i :| 0 <= i < n && acts[i].SetAmount? && acts[i].rclass == rclass;
        assert init[i].SetAmount? && init[i].rclass == rclass;
        var k :| LastSetting(init, rclass, k) && PerformAll(rg, init).resources[rclass] == init[k].amount;
        assert LastSetting(acts, rclass, k);
      } else {
        assert !SetsClass(init, rclass) by {
          forall i | 0 <= i < n - 1 ensures !(init[i].SetAmount? && init[i].rclass == rclass) {
            assert !(acts[i].SetAmount? && acts[i].rclass == rclass);
          }
        }
      }
    }
  }

  /** A translated group has an amount for a class exactly when it started with one or an
      entry "resources...:<class>" validly asks for it; the amount is that of the last
      such entry, and a class no entry sets keeps its amount. */
  lemma ResourcesOfEntries(rg: RequestGroup, es: seq<Entry>, standards: set<string>, rclass: string)
    ensures rclass in ApplyEntries(rg, es, standards).resources <==>
            rclass in rg.resources || SetsClass(Actions(es, standards), rclass)
    ensures !SetsClass(Actions(es, standards), rclass) && rclass in rg.resources ==>
              ApplyEntries(rg, es, standards).resources[rclass] == rg.resources[rclass]
    ensures SetsClass(Actions(es, standards), rclass) ==>
              exists i :: LastSetting(Actions(es, standards), rclass, i) &&
                          ApplyEntries(rg, es, standards).resources[rclass] == Actions(es, standards)[i].amount
  {
    ApplyEntriesPerforms(rg, es, standards);
    ResourcesOfActions(rg, Actions(es, standards), rclass);
  }
}
