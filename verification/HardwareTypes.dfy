/** The merge of ironic's hardware types into interface options. Python lists are objects, so that
    what the merge does to the shared tables is part of what is proved. */
module HardwareTypes {
  import opened Text

  // ---------------------------------------------------------------- order of strings

  predicate Less(a: string, b: string) {
    b != "" && (a == "" || a[0] < b[0] || (a[0] == b[0] && Less(a[1..], b[1..])))
  }

  lemma {:induction false} LessTransitive(a: string, b: string, c: string)
    requires Less(a, b) && Less(b, c)
    ensures Less(a, c)
  {
    if a != "" && a[0] == b[0] == c[0] {
      LessTransitive(a[1..], b[1..], c[1..]);
    }
  }

  lemma {:induction false} LessTotal(a: string, b: string)
    ensures a == b || Less(a, b) || Less(b, a)
    ensures !(Less(a, b) && Less(b, a))
    ensures Less(a, b) ==> a != b
  {
    if a != "" && b != "" {
      LessTotal(a[1..], b[1..]);
      assert a == [a[0]] + a[1..] && b == [b[0]] + b[1..];
    }
  }

  function Elements(l: seq<string>): set<string> { set x | x in l }

  predicate Ascending(l: seq<string>) {
    forall i, j :: 0 <= i < j < |l| ==> Less(l[i], l[j])
  }

  predicate Distinct(l: seq<string>) {
    forall i, j :: 0 <= i < j < |l| ==> l[i] != l[j]
  }

  lemma {:induction false} LeastExists(s: set<string>) returns (m: string)
    requires s != {}
    ensures m in s && forall x :: x in s && x != m ==> Less(m, x)
    decreases |s|
  {
    m :| m in s;
    if s != {m} {
      var rest := s - {m};
      var n := LeastExists(rest);
      LessTotal(m, n);
      forall x | x in rest && Less(m, n) && x != n ensures Less(m, x) {
        LessTransitive(m, n, x);
      }
      m := if Less(m, n) then m else n;
    }
  }

  ghost predicate IsLeast(s: set<string>, m: string) {
    m in s && forall x :: x in s && x != m ==> Less(m, x)
  }

  /** The elements of a set in ascending order. */
  ghost function InOrder(s: set<string>): (l: seq<string>)
    ensures Elements(l) == s && Ascending(l)
    decreases |s|
  {
    if s == {} then []
    else
      assert exists m :: IsLeast(s, m) by { var m := LeastExists(s); assert IsLeast(s, m); }
      var m :| IsLeast(s, m);
      var rest := InOrder(s - {m});
      ElementsCons(m, rest);
      AscendingCons(m, rest);
      [m] + rest
  }

  lemma AscendingCons(m: string, rest: seq<string>)
    requires Ascending(rest) && forall x :: x in Elements(rest) ==> Less(m, x)
    ensures Ascending([m] + rest)
  {
    assert forall i :: 0 <= i < |rest| ==> rest[i] in Elements(rest);
  }

  lemma ElementsCons(x: string, l: seq<string>)
    ensures Elements([x] + l) == Elements(l) + {x}
  {
  }

  lemma NoElements(l: seq<string>)
    ensures Elements(l) == {} <==> l == []
  {
    if l != [] {
      assert l[0] in Elements(l);
    }
  }

  lemma {:induction false} AscendingIsUnique(l: seq<string>, k: seq<string>)
    requires Ascending(l) && Ascending(k) && Elements(l) == Elements(k)
    ensures l == k
  {
    NoElements(l);
    NoElements(k);
    if l != [] {
      assert l[0] in Elements(l) && k[0] in Elements(k);
      FirstIsLeast(l, k[0]);
      FirstIsLeast(k, l[0]);
      LessTotal(l[0], k[0]);
      TailElements(l);
      TailElements(k);
      AscendingIsUnique(l[1..], k[1..]);
    }
  }

  lemma FirstIsLeast(l: seq<string>, x: string)
    requires Ascending(l) && x in l
    ensures x == l[0] || Less(l[0], x)
  {
  }

  lemma TailElements(l: seq<string>)
    requires Ascending(l) && l != []
    ensures Elements(l[1..]) == Elements(l) - {l[0]} && Ascending(l[1..])
  {
    forall i | 1 <= i < |l| ensures l[i] != l[0] {
      LessTotal(l[0], l[i]);
    }
    assert l == [l[0]] + l[1..];
  }

  /** `list.sort()`. */
  function Insert(x: string, l: seq<string>): seq<string> {
    if l == [] || !Less(l[0], x) then [x] + l else [l[0]] + Insert(x, l[1..])
  }

  function SortStrings(l: seq<string>): seq<string> {
    if l == [] then [] else Insert(l[0], SortStrings(l[1..]))
  }

  lemma {:induction false} InsertAscends(x: string, l: seq<string>)
    requires Ascending(l) && x !in l
    ensures Ascending(Insert(x, l)) && Elements(Insert(x, l)) == Elements(l) + {x}
  {
    if l != [] {
      LessTotal(x, l[0]);
      assert l == [l[0]] + l[1..];
      if Less(l[0], x) {
        InsertAscends(x, l[1..]);
        var rest := Insert(x, l[1..]);
        forall i | 0 <= i < |rest| ensures Less(l[0], rest[i]) {
          assert rest[i] in Elements(rest);
        }
      } else {
        forall i | 0 <= i < |l| ensures Less(x, l[i]) {
          if i > 0 {
            LessTransitive(x, l[0], l[i]);
          }
        }
      }
    }
  }

  lemma {:induction false} SortIsInOrder(l: seq<string>)
    requires Distinct(l)
    ensures SortStrings(l) == InOrder(Elements(l))
  {
    if l != [] {
      SortIsInOrder(l[1..]);
      var rest := SortStrings(l[1..]);
      assert l == [l[0]] + l[1..];
      assert l[0] !in l[1..] && Elements(rest) == Elements(l[1..]);
      assert l[0] !in Elements(rest);
      InsertAscends(l[0], rest);
    }
    AscendingIsUnique(SortStrings(l), InOrder(Elements(l)));
  }

  // ---------------------------------------------------------------- what the configuration should be

  type OptionLists = seq<(string, seq<string>)>

  const BOOT := "enabled_boot_interfaces"

  const NOOP_INTERFACES: seq<(string, string)> := [
    ("enabled_bios_interfaces", "no-bios"),
    ("enabled_console_interfaces", "no-console"),
    ("enabled_inspect_interfaces", "no-inspect"),
    ("enabled_management_interfaces", "noop"),
    ("enabled_raid_interfaces", "no-raid"),
    ("enabled_vendor_interfaces", "no-vendor")]

  const FAKE: OptionLists := [
    ("enabled_bios_interfaces", ["fake"]), (BOOT, ["fake"]), ("enabled_console_interfaces", ["fake"]),
    ("enabled_deploy_interfaces", ["fake"]), ("enabled_hardware_types", ["fake-hardware"]),
    ("enabled_inspect_interfaces", ["fake"]), ("enabled_management_interfaces", ["fake"]),
    ("enabled_power_interfaces", ["fake"]), ("enabled_raid_interfaces", ["fake"]),
    ("enabled_vendor_interfaces", ["fake"])]

  const IPMI: OptionLists := [
    ("enabled_bios_interfaces", []), (BOOT, ["pxe"]),
    ("enabled_console_interfaces", ["ipmitool-socat", "ipmitool-shellinabox"]),
    ("enabled_deploy_interfaces", ["direct"]), ("enabled_hardware_types", ["ipmi", "intel-ipmi"]),
    ("enabled_inspect_interfaces", []), ("enabled_management_interfaces", ["ipmitool", "intel-ipmitool"]),
    ("enabled_power_interfaces", ["ipmitool"]), ("enabled_raid_interfaces", []),
    ("enabled_vendor_interfaces", ["ipmitool"])]

  const REDFISH: OptionLists := [
    (BOOT, ["pxe", "redfish-virtual-media"]), ("enabled_bios_interfaces", []), ("enabled_console_interfaces", []),
    ("enabled_deploy_interfaces", ["direct"]), ("enabled_hardware_types", ["redfish"]),
    ("enabled_inspect_interfaces", ["redfish"]), ("enabled_management_interfaces", ["redfish"]),
    ("enabled_power_interfaces", ["redfish"]), ("enabled_raid_interfaces", []), ("enabled_vendor_interfaces", [])]

  const IDRAC: OptionLists := [
    ("enabled_bios_interfaces", ["idrac-wsman"]), (BOOT, ["pxe"]), ("enabled_console_interfaces", []),
    ("enabled_deploy_interfaces", ["direct"]), ("enabled_hardware_types", ["idrac"]),
    ("enabled_inspect_interfaces", ["idrac-redfish"]), ("enabled_management_interfaces", ["idrac-redfish"]),
    ("enabled_power_interfaces", ["idrac-redfish"]), ("enabled_raid_interfaces", ["idrac-wsman"]),
    ("enabled_vendor_interfaces", ["idrac-wsman"])]

  const HW_TYPES: map<string, OptionLists> :=
    map["fake" := FAKE, "ipmi" := IPMI, "idrac" := IDRAC, "redfish" := REDFISH]

  function Entry(s: map<string, set<string>>, option: string): set<string> {
    if option in s then s[option] else {}
  }

  function AddOptions(s: map<string, set<string>>, opts: OptionLists): map<string, set<string>> {
    if opts == [] then s
    else
      var before := AddOptions(s, Front(opts));
      before[Last(opts).0 := Entry(before, Last(opts).0) + Elements(Last(opts).1)]
  }

  /** The interfaces of each option after the enabled types in their order; unknown types are skipped. */
  function Merge(table: map<string, OptionLists>, enabled: seq<string>): map<string, set<string>> {
    if enabled == [] then map[]
    else
      var before := Merge(table, Front(enabled));
      if Last(enabled) in table then AddOptions(before, table[Last(enabled)]) else before
  }

  function NoopFrom(noops: seq<(string, string)>, option: string): seq<string> {
    if noops == [] then []
    else NoopFrom(Front(noops), option) + if Last(noops).0 == option then [Last(noops).1] else []
  }

  function Ipxe(option: string, useIpxe: bool): seq<string> {
    if useIpxe && option == BOOT then ["ipxe"] else []
  }

  ghost function AllInOrder(s: map<string, set<string>>): map<string, seq<string>> {
    map o | o in s :: InOrder(s[o])
  }

  function WithSuffixes(lists: map<string, seq<string>>, noops: seq<(string, string)>, useIpxe: bool):
      map<string, seq<string>> {
    map o | o in lists :: lists[o] + Ipxe(o, useIpxe) + NoopFrom(noops, o)
  }

  function Joined(lists: map<string, seq<string>>): map<string, string> {
    map o | o in lists :: Join(lists[o], ", ")
  }

  /** Each option's interfaces in order, then the fixed suffixes; None stands for the KeyError. */
  ghost function HardwareConfig(table: map<string, OptionLists>, noops: seq<(string, string)>, enabled: seq<string>,
      useIpxe: bool): Option<map<string, string>> {
    var s := Merge(table, enabled);
    if useIpxe && BOOT !in s then None else Some(Joined(WithSuffixes(AllInOrder(s), noops, useIpxe)))
  }

  // ---------------------------------------------------------------- it is canonical

  ghost predicate HasOption(opts: OptionLists, o: string) {
    exists i :: 0 <= i < |opts| && opts[i].0 == o
  }

  ghost predicate Contributes(opts: OptionLists, o: string, x: string) {
    exists i :: 0 <= i < |opts| && opts[i].0 == o && x in opts[i].1
  }

  lemma {:induction false} AddOptionsIs(s: map<string, set<string>>, opts: OptionLists, o: string, x: string)
    ensures o in AddOptions(s, opts) <==> o in s || HasOption(opts, o)
    ensures x in Entry(AddOptions(s, opts), o) <==> x in Entry(s, o) || Contributes(opts, o, x)
  {
    if opts != [] {
      AddOptionsIs(s, Front(opts), o, x);
      FrontOrLast(opts, o, x);
    }
  }

  lemma FrontOrLast(opts: OptionLists, o: string, x: string)
    requires opts != []
    ensures HasOption(opts, o) <==> HasOption(Front(opts), o) || Last(opts).0 == o
    ensures Contributes(opts, o, x) <==> Contributes(Front(opts), o, x) || (Last(opts).0 == o && x in Last(opts).1)
  {
    if HasOption(Front(opts), o) {
      var i :| 0 <= i < |Front(opts)| && Front(opts)[i].0 == o;
      assert opts[i].0 == o;
    }
    if Contributes(Front(opts), o, x) {
      var i :| 0 <= i < |Front(opts)| && Front(opts)[i].0 == o && x in Front(opts)[i].1;
      assert opts[i].0 == o && x in opts[i].1;
    }
    if HasOption(opts, o) && Last(opts).0 != o {
      var i :| 0 <= i < |opts| && opts[i].0 == o;
      assert Front(opts)[i].0 == o;
    }
    if Contributes(opts, o, x) && !(Last(opts).0 == o && x in Last(opts).1) {
      var i :| 0 <= i < |opts| && opts[i].0 == o && x in opts[i].1;
      assert Front(opts)[i].0 == o && x in Front(opts)[i].1;
    }
  }

  ghost predicate SomeTypeHas(table: map<string, OptionLists>, enabled: seq<string>, o: string) {
    exists t :: t in enabled && t in table && HasOption(table[t], o)
  }

  ghost predicate SomeTypeLists(table: map<string, OptionLists>, enabled: seq<string>, o: string, x: string) {
    exists t :: t in enabled && t in table && Contributes(table[t], o, x)
  }

  /** An option is there exactly if an enabled type has it, with exactly the interfaces that some
      enabled type lists for it. */
  lemma {:induction false} MergeIsTheUnion(table: map<string, OptionLists>, enabled: seq<string>, o: string, x: string)
    ensures o in Merge(table, enabled) <==> SomeTypeHas(table, enabled, o)
    ensures x in Entry(Merge(table, enabled), o) <==> SomeTypeLists(table, enabled, o, x)
  {
    if enabled != [] {
      var t := Last(enabled);
      assert enabled == Front(enabled) + [t];
      MergeIsTheUnion(table, Front(enabled), o, x);
      if t in table {
        AddOptionsIs(Merge(table, Front(enabled)), table[t], o, x);
      }
    }
  }

  /** The same for any reordering or repetition of the known types, whatever unknown ones are mixed in. */
  lemma MergeIsCanonical(table: map<string, OptionLists>, noops: seq<(string, string)>, a: seq<string>, b: seq<string>,
      useIpxe: bool)
    requires forall t :: t in table ==> (t in a <==> t in b)
    ensures HardwareConfig(table, noops, a, useIpxe) == HardwareConfig(table, noops, b, useIpxe)
  {
    var m, n := Merge(table, a), Merge(table, b);
    forall o ensures o in m <==> o in n {
      MergeIsTheUnion(table, a, o, "");
      MergeIsTheUnion(table, b, o, "");
    }
    forall o | o in m ensures m[o] == n[o] {
      forall x ensures x in m[o] <==> x in n[o] {
        MergeIsTheUnion(table, a, o, x);
        MergeIsTheUnion(table, b, o, x);
      }
    }
    assert m == n;
  }

  /** `a` is `l` in text: with ", " between the elements. */
  predicate IsListed(l: seq<string>, text: string) {
    if l == [] then text == ""
    else if |l| == 1 then text == l[0]
    else StartsWith(text, l[0] + ", ") && IsListed(l[1..], text[|l[0]| + 2..])
  }

  lemma {:induction false} JoinIsListed(l: seq<string>)
    ensures IsListed(l, Join(l, ", "))
  {
    if |l| > 1 {
      JoinIsListed(l[1..]);
      var text, rest := Join(l, ", "), Join(l[1..], ", ");
      assert text == (l[0] + ", ") + rest;
      assert text[..|l[0]| + 2] == l[0] + ", " && text[|l[0]| + 2..] == rest;
    }
  }

  /** The last name of an option, after ironic's own interfaces: that of doing nothing, where there is one. */
  predicate EndsAs(end: seq<string>, noops: seq<(string, string)>, o: string) {
    && (forall i :: 0 <= i < |noops| && noops[i].0 == o ==> end == [noops[i].1])
    && ((forall i :: 0 <= i < |noops| ==> noops[i].0 != o) ==> end == [])
  }

  predicate DistinctOptions(noops: seq<(string, string)>) {
    forall i, j :: 0 <= i < j < |noops| ==> noops[i].0 != noops[j].0
  }

  lemma {:induction false} NoopIs(noops: seq<(string, string)>, o: string)
    requires DistinctOptions(noops)
    ensures EndsAs(NoopFrom(noops, o), noops, o)
  {
    if noops != [] {
      NoopIs(Front(noops), o);
      assert forall i :: 0 <= i < |noops| - 1 ==> Front(noops)[i] == noops[i];
    }
  }

  /** The interfaces `l`, then ipxe for booting if wanted, then `end`. */
  predicate IsConfigured(text: string, o: string, l: seq<string>, useIpxe: bool, end: seq<string>) {
    IsListed(if useIpxe && o == "enabled_boot_interfaces" then l + ["ipxe"] + end else l + end, text)
  }

  lemma SuffixedIs(o: string, l: seq<string>, useIpxe: bool, end: seq<string>)
    ensures IsConfigured(Join(l + Ipxe(o, useIpxe) + end, ", "), o, l, useIpxe, end)
  {
    JoinIsListed(l + Ipxe(o, useIpxe) + end);
    assert l + [] == l;
  }

  ghost predicate AreListed(l: seq<string>, table: map<string, OptionLists>, enabled: seq<string>, o: string) {
    Ascending(l) && forall x :: x in l <==> SomeTypeLists(table, enabled, o, x)
  }

  lemma InOrderIs(table: map<string, OptionLists>, enabled: seq<string>, o: string)
    requires o in Merge(table, enabled)
    ensures AreListed(InOrder(Merge(table, enabled)[o]), table, enabled, o)
  {
    var l := InOrder(Merge(table, enabled)[o]);
    forall x ensures x in l <==> SomeTypeLists(table, enabled, o, x) {
      MergeIsTheUnion(table, enabled, o, x);
      assert x in l <==> x in Elements(l);
    }
  }

  /** The configuration spelled out: every option of an enabled type, in ascending order the interfaces that
      some enabled type lists, then ipxe for booting if wanted, then the name of doing nothing. */
  lemma ConfigIs(table: map<string, OptionLists>, noops: seq<(string, string)>, enabled: seq<string>, useIpxe: bool,
      o: string)
    requires DistinctOptions(noops) && HardwareConfig(table, noops, enabled, useIpxe).Some?
    ensures var config := HardwareConfig(table, noops, enabled, useIpxe).value;
            && (o in config <==> SomeTypeHas(table, enabled, o))
            && (o in config ==> exists l, end ::
                  AreListed(l, table, enabled, o) && EndsAs(end, noops, o)
                  && IsConfigured(config[o], o, l, useIpxe, end))
  {
    MergeIsTheUnion(table, enabled, o, "");
    if o in HardwareConfig(table, noops, enabled, useIpxe).value {
      var l, end := InOrder(Merge(table, enabled)[o]), NoopFrom(noops, o);
      InOrderIs(table, enabled, o);
      NoopIs(noops, o);
      SuffixedIs(o, l, useIpxe, end);
    }
  }

  lemma EveryTypeBoots(t: string)
    requires t in HW_TYPES
    ensures HasOption(HW_TYPES[t], BOOT)
  {
    assert FAKE[1].0 == BOOT && IPMI[1].0 == BOOT && REDFISH[0].0 == BOOT && IDRAC[1].0 == BOOT;
  }

  /** With ironic's own tables the KeyError is raised exactly if ipxe is wanted and no type is known. */
  lemma KeyErrorIff(enabled: seq<string>, useIpxe: bool)
    ensures HardwareConfig(HW_TYPES, NOOP_INTERFACES, enabled, useIpxe).None? <==>
            useIpxe && forall t :: t in enabled ==> t !in HW_TYPES
  {
    MergeIsTheUnion(HW_TYPES, enabled, BOOT, "");
    forall t | t in enabled && t in HW_TYPES ensures SomeTypeHas(HW_TYPES, enabled, BOOT) {
      EveryTypeBoots(t);
    }
  }

  // ---------------------------------------------------------------- the lists as objects

  /** A Python list of strings. */
  class PyList {
    var items: seq<string>

    constructor (items: seq<string>)
      ensures this.items == items
    {
      this.items := items;
    }

    method Extend(xs: PyList)
      modifies this
      ensures items == old(items) + old(xs.items)
    {
      items := items + xs.items;
    }

    method Append(x: string)
      modifies this
      ensures items == old(items) + [x]
    {
      items := items + [x];
    }

    method Sort()
      modifies this
      ensures items == SortStrings(old(items))
    {
      items := SortStrings(items);
    }
  }

  /** `list(set(l))`: a new list of the distinct elements, in no particular order. */
  method ListOfSet(l: PyList) returns (r: PyList)
    ensures fresh(r) && Distinct(r.items) && Elements(r.items) == Elements(l.items)
  {
    var rest := Elements(l.items);
    var items: seq<string> := [];
    while rest != {}
      invariant Distinct(items) && Elements(items) !! rest && Elements(items) + rest == Elements(l.items)
      decreases |rest|
    {
      var x :| x in rest;
      assert forall i :: 0 <= i < |items| ==> items[i] in Elements(items);
      items := items + [x];
      rest := rest - {x};
    }
    r := new PyList(items);
  }

  /** The shared tables on the heap hold `table`. */
  ghost predicate Holds(lists: seq<(string, PyList)>, opts: OptionLists)
    reads set i | 0 <= i < |lists| :: lists[i].1
  {
    |lists| == |opts| && forall i :: 0 <= i < |lists| ==> lists[i].0 == opts[i].0 && lists[i].1.items == opts[i].1
  }

  ghost predicate HoldsAll(shared: map<string, seq<(string, PyList)>>, table: map<string, OptionLists>)
    reads set t, i | t in shared && 0 <= i < |shared[t]| :: shared[t][i].1
  {
    shared.Keys == table.Keys && forall t :: t in shared ==> Holds(shared[t], table[t])
  }

  /** Separate list objects holding the merged interfaces in order. */
  ghost predicate Represents(configs: map<string, PyList>, s: map<string, set<string>>)
    reads configs.Values
  {
    configs.Keys == s.Keys && forall o :: o in configs ==> configs[o].items == InOrder(s[o])
  }

  predicate Separate(configs: map<string, PyList>) {
    forall o, p :: o in configs && p in configs && o != p ==> configs[o] != configs[p]
  }

  /** `extend`, `list(set(...))` and `sort`: the old list grows, a new one holds the result. */
  method Merged(optList: PyList, interfaces: PyList) returns (r: PyList)
    modifies optList
    ensures fresh(r) && r.items == InOrder(Elements(old(optList.items)) + Elements(old(interfaces.items)))
  {
    optList.Extend(interfaces);
    assert Elements(optList.items) == Elements(old(optList.items)) + Elements(old(interfaces.items));
    r := ListOfSet(optList);
    SortIsInOrder(r.items);
    r.Sort();
  }

  /** One option of one hardware type, from `get` to the assignment. */
  method MergeOption(configs: map<string, PyList>, option: string, interfaces: PyList,
                     ghost s: map<string, set<string>>)
      returns (r: map<string, PyList>)
    requires Represents(configs, s) && Separate(configs)
    requires interfaces !in configs.Values
    modifies configs.Values
    ensures Represents(r, s[option := Entry(s, option) + Elements(old(interfaces.items))]) && Separate(r)
    ensures forall o :: o in r ==> (o in configs && r[o] == configs[o]) || fresh(r[o])
  {
    var optList: PyList;
    if option in configs {
      optList := configs[option];
    } else {
      optList := new PyList([]);
    }
    assert Elements(optList.items) == Entry(s, option);
    var merged := Merged(optList, interfaces);
    r := configs[option := merged];
  }

  method MergeType(configs: map<string, PyList>, lists: seq<(string, PyList)>, ghost opts: OptionLists,
                   ghost s: map<string, set<string>>)
      returns (r: map<string, PyList>)
    requires Represents(configs, s) && Separate(configs) && Holds(lists, opts)
    requires forall i :: 0 <= i < |lists| ==> lists[i].1 !in configs.Values
    modifies configs.Values
    ensures Represents(r, AddOptions(s, opts)) && Separate(r)
    ensures forall o :: o in r ==> r[o] in configs.Values || fresh(r[o])
  {
    r := configs;
    for i := 0 to |lists|
      invariant Holds(lists, opts)
      invariant Represents(r, AddOptions(s, opts[..i])) && Separate(r)
      invariant forall o :: o in r ==> r[o] in configs.Values || fresh(r[o])
    {
      assert Front(opts[..i + 1]) == opts[..i];
      r := MergeOption(r, lists[i].0, lists[i].1, AddOptions(s, opts[..i]));
    }
    assert opts[..|lists|] == opts;
  }

  ghost predicate Contain(configs: map<string, PyList>, lists: map<string, seq<string>>)
    reads configs.Values
  {
    configs.Keys == lists.Keys && forall o :: o in configs ==> configs[o].items == lists[o]
  }

  function Appended(lists: map<string, seq<string>>, option: string, x: string): map<string, seq<string>> {
    if option in lists then lists[option := lists[option] + [x]] else lists
  }

  function WithNoops(lists: map<string, seq<string>>, noops: seq<(string, string)>): map<string, seq<string>> {
    if noops == [] then lists else Appended(WithNoops(lists, Front(noops)), Last(noops).0, Last(noops).1)
  }

  lemma {:induction false} WithNoopsAt(lists: map<string, seq<string>>, noops: seq<(string, string)>, o: string)
    ensures WithNoops(lists, noops).Keys == lists.Keys
    ensures o in lists ==> WithNoops(lists, noops)[o] == lists[o] + NoopFrom(noops, o)
  {
    if noops == [] {
      assert o in lists ==> lists[o] + [] == lists[o];
    } else {
      WithNoopsAt(lists, Front(noops), o);
      var x := if Last(noops).0 == o then [Last(noops).1] else [];
      if o in lists {
        assert WithNoops(lists, noops)[o] == WithNoops(lists, Front(noops))[o] + x;
        assert lists[o] + NoopFrom(Front(noops), o) + x == lists[o] + (NoopFrom(Front(noops), o) + x);
      }
    }
  }

  method AppendTo(configs: map<string, PyList>, option: string, x: string, ghost lists: map<string, seq<string>>)
    requires Separate(configs) && Contain(configs, lists)
    modifies configs.Values
    ensures Contain(configs, Appended(lists, option, x))
  {
    if option in configs {
      configs[option].Append(x);
    }
  }

  method AppendNoops(configs: map<string, PyList>, noops: seq<(string, string)>, ghost lists: map<string, seq<string>>)
    requires Separate(configs) && Contain(configs, lists)
    modifies configs.Values
    ensures Contain(configs, WithNoops(lists, noops))
  {
    for i := 0 to |noops|
      invariant Contain(configs, WithNoops(lists, noops[..i]))
    {
      assert Front(noops[..i + 1]) == noops[..i];
      AppendTo(configs, noops[i].0, noops[i].1, WithNoops(lists, noops[..i]));
    }
    assert noops[..|noops|] == noops;
  }

  method JoinAll(configs: map<string, PyList>, ghost lists: map<string, seq<string>>)
      returns (joined: map<string, string>)
    requires Contain(configs, lists)
    ensures joined == Joined(lists)
  {
    joined := map[];
    var todo := configs.Keys;
    while todo != {}
      invariant todo <= configs.Keys
      invariant joined == map o | o in lists && o !in todo :: Join(lists[o], ", ")
      decreases |todo|
    {
      var o :| o in todo;
      joined := joined[o := if |configs[o].items| > 0 then Join(configs[o].items, ", ") else ""];
      todo := todo - {o};
    }
  }

  lemma SuffixesAre(lists: map<string, seq<string>>, noops: seq<(string, string)>, useIpxe: bool)
    ensures WithNoops(if useIpxe then Appended(lists, BOOT, "ipxe") else lists, noops)
            == WithSuffixes(lists, noops, useIpxe)
  {
    var boot := BOOT;
    var more := if useIpxe then Appended(lists, boot, "ipxe") else lists;
    forall o ensures o in WithNoops(more, noops) <==> o in lists {
      WithNoopsAt(more, noops, o);
    }
    forall o | o in lists ensures WithNoops(more, noops)[o] == lists[o] + Ipxe(o, useIpxe) + NoopFrom(noops, o) {
      WithNoopsAt(more, noops, o);
      assert more[o] == lists[o] + Ipxe(o, useIpxe);
    }
  }

  /** The loop over the enabled types. */
  method MergeAll(shared: map<string, seq<(string, PyList)>>, enabled: seq<string>,
                  ghost table: map<string, OptionLists>)
      returns (configs: map<string, PyList>)
    requires HoldsAll(shared, table)
    ensures Represents(configs, Merge(table, enabled)) && Separate(configs)
    ensures forall o :: o in configs ==> fresh(configs[o])
  {
    configs := map[];
    for i := 0 to |enabled|
      invariant HoldsAll(shared, table)
      invariant Represents(configs, Merge(table, enabled[..i])) && Separate(configs)
      invariant forall o :: o in configs ==> fresh(configs[o])
    {
      assert Front(enabled[..i + 1]) == enabled[..i];
      if enabled[i] in shared {
        configs := MergeType(configs, shared[enabled[i]], table[enabled[i]], Merge(table, enabled[..i]));
      }
    }
    assert enabled[..|enabled|] == enabled;
  }

  /** `ipxe` on the boot interfaces (a KeyError when there are none), then the noops. */
  method AppendSuffixes(configs: map<string, PyList>, noops: seq<(string, string)>, useIpxe: bool,
                        ghost lists: map<string, seq<string>>)
      returns (ok: bool)
    requires Separate(configs) && Contain(configs, lists)
    modifies configs.Values
    ensures ok <==> !(useIpxe && BOOT !in lists)
    ensures ok ==> Contain(configs, WithSuffixes(lists, noops, useIpxe))
  {
    SuffixesAre(lists, noops, useIpxe);
    if useIpxe {
      if BOOT !in configs {
        return false;
      }
      AppendTo(configs, BOOT, "ipxe", lists);
    }
    AppendNoops(configs, noops, if useIpxe then Appended(lists, BOOT, "ipxe") else lists);
    ok := true;
  }

  /** `_get_hardware_types_config`. It writes to no object that existed before the call, so the shared
      tables hold the same lists afterwards. */
  method GetHardwareTypesConfig(shared: map<string, seq<(string, PyList)>>, noops: seq<(string, string)>,
                                enabled: seq<string>, useIpxe: bool, ghost table: map<string, OptionLists>)
      returns (r: Option<map<string, string>>)
    requires HoldsAll(shared, table)
    ensures HoldsAll(shared, table)
    ensures r == HardwareConfig(table, noops, enabled, useIpxe)
  {
    var configs := MergeAll(shared, enabled, table);
    r := Finish(configs, noops, useIpxe, AllInOrder(Merge(table, enabled)));
  }

  /** Everything after the merge. */
  method Finish(configs: map<string, PyList>, noops: seq<(string, string)>, useIpxe: bool,
                ghost lists: map<string, seq<string>>)
      returns (r: Option<map<string, string>>)
    requires Separate(configs) && Contain(configs, lists)
    modifies configs.Values
    ensures r == if useIpxe && BOOT !in lists then None else Some(Joined(WithSuffixes(lists, noops, useIpxe)))
  {
    var ok := AppendSuffixes(configs, noops, useIpxe, lists);
    if ok {
      var joined := JoinAll(configs, WithSuffixes(lists, noops, useIpxe));
      r := Some(joined);
    } else {
      r := None;
    }
  }
}
