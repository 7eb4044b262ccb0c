/** Renaming CAN adapters into a fixed order, against a model of the kernel's interface table. */
module CanUtils {

  // ---------- Names ----------

  /** std::to_string of a non-negative number. */
  function ToString(n: nat): (s: string)
    ensures |s| > 0
  {
    if n < 10 then [Digit(n)] else ToString(n / 10) + [Digit(n % 10)]
  }

  function Digit(d: nat): char
    requires d < 10
  {
    '0' + d as char
  }

  lemma DigitInjective(a: nat, b: nat)
    requires a < 10 && b < 10 && Digit(a) == Digit(b)
    ensures a == b
  {
    assert Digit(a) as int == 48 + a && Digit(b) as int == 48 + b;
  }

  /** Different numbers have different names. */
  lemma {:induction false} ToStringInjective(a: nat, b: nat)
    requires ToString(a) == ToString(b)
    ensures a == b
  {
    var s, t := ToString(a), ToString(b);
    assert s[|s| - 1] == Digit(a % 10) && t[|t| - 1] == Digit(b % 10);
    DigitInjective(a % 10, b % 10);
    if a < 10 || b < 10 {
    } else {
      assert ToString(a / 10) == s[..|s| - 1] && ToString(b / 10) == t[..|t| - 1];
      ToStringInjective(a / 10, b / 10);
    }
  }

  lemma {:induction false} DigitsBound(n: nat, digits: nat, limit: nat)
    requires digits > 0 && limit == Pow10(digits) && n < limit
    ensures |ToString(n)| <= digits
    decreases digits
  {
    if n < 10 {
    } else {
      DigitsBound(n / 10, digits - 1, Pow10(digits - 1));
    }
  }

  function Pow10(n: nat): nat {
    if n == 0 then 1 else 10 * Pow10(n - 1)
  }

  function Numbered(prefix: string, n: nat): string {
    prefix + ToString(n)
  }

  lemma NumberedInjective(prefix: string, a: nat, b: nat)
    requires Numbered(prefix, a) == Numbered(prefix, b)
    ensures a == b
  {
    assert ToString(a) == Numbered(prefix, a)[|prefix|..];
    assert ToString(b) == Numbered(prefix, b)[|prefix|..];
    ToStringInjective(a, b);
  }

  /** The number a string of digits stands for in base ten. */
  function Value(s: string): int {
    if s == [] then 0 else 10 * Value(s[..|s| - 1]) + (s[|s| - 1] as int - '0' as int)
  }

  /** The usual way to write `n`: digits only, none of them a leading zero, standing for `n`. */
  predicate Decimal(s: string, n: nat) {
    && s != [] && (forall i :: 0 <= i < |s| ==> '0' <= s[i] <= '9')
    && (s[0] == '0' ==> |s| == 1) && Value(s) == n
  }

  /** The name is the prefix followed by `n` in the usual way. */
  predicate NamedAfter(name: string, prefix: string, n: nat) {
    prefix <= name && Decimal(name[|prefix|..], n)
  }

  lemma {:induction false} ToStringIsDecimal(n: nat)
    ensures Decimal(ToString(n), n) && (ToString(n) == "0" ==> n == 0)
  {
    var s := ToString(n);
    if n < 10 {
      assert s[..0] == [] && Value(s) == Digit(n) as int - '0' as int;
    } else {
      ToStringIsDecimal(n / 10);
      assert s[..|s| - 1] == ToString(n / 10) && s[0] == ToString(n / 10)[0];
    }
  }

  lemma {:induction false} ValueInPlace(s: string)
    requires s != [] && (forall i :: 0 <= i < |s| ==> '0' <= s[i] <= '9') && s[0] != '0'
    ensures Value(s) > 0
    decreases |s|
  {
    var n := |s| - 1;
    if n == 0 {
      assert s[..0] == [];
    } else {
      ValueInPlace(s[..n]);
    }
  }

  /** There is only one usual way. */
  lemma {:induction false} DecimalIsToString(s: string, n: nat)
    requires Decimal(s, n)
    ensures s == ToString(n)
    decreases |s|
  {
    var k := |s| - 1;
    var d := s[k] as int - '0' as int;
    assert s == s[..k] + [s[k]] && n == 10 * Value(s[..k]) + d && 0 <= d < 10;
    if k == 0 {
      assert s[..0] == [] && s[0] == Digit(n);
    } else {
      ValueInPlace(s[..k]);
      DecimalIsToString(s[..k], Value(s[..k]));
      assert n / 10 == Value(s[..k]) && n % 10 == d && s[k] == Digit(d);
    }
  }

  /** The numbered names are the prefix followed by the number. */
  lemma NumberedIff(name: string, prefix: string, n: nat)
    ensures name == Numbered(prefix, n) <==> NamedAfter(name, prefix, n)
  {
    if name == Numbered(prefix, n) {
      ToStringIsDecimal(n);
      assert name[|prefix|..] == ToString(n);
    }
    if NamedAfter(name, prefix, n) {
      DecimalIsToString(name[|prefix|..], n);
      assert name == prefix + name[|prefix|..];
    }
  }

  /** The longest interface name the kernel has room for (IFNAMSIZ - 1). */
  const MAX_NAME := 15

  /** What the rename request's fixed-size field keeps of a name. */
  function Truncated(name: string): string {
    if |name| <= MAX_NAME then name else name[..MAX_NAME]
  }

  // ---------- The kernel ----------

  /** A physical interface, whatever it is called. */
  type Device = int

  datatype Link = Link(name: string, up: bool, bitrate: int)

  /** The kernel's table. Requests name interfaces; the table knows which device answers to a name. */
  class Kernel {
    /** Never changes: which devices are plugged in. */
    const devices: set<Device>
    /** No request fails except for a reason the table shows. */
    const reliable: bool
    var links: map<Device, Link>

    /** Names are short and unique. */
    ghost predicate Valid() reads this {
      && links.Keys == devices
      && (forall d :: d in devices ==> |links[d].name| <= MAX_NAME)
      && (forall d, e :: d in devices && e in devices && links[d].name == links[e].name ==> d == e)
    }

    constructor (links: map<Device, Link>, reliable: bool)
      requires forall d :: d in links ==> |links[d].name| <= MAX_NAME
      requires forall d, e :: d in links && e in links && links[d].name == links[e].name ==> d == e
      ensures Valid() && this.links == links && this.reliable == reliable && devices == links.Keys
    {
      this.links, this.reliable, devices := links, reliable, links.Keys;
    }

    /** if_nametoindex(name) != 0 */
    predicate InUse(name: string)
      requires Valid()
      reads this
    {
      exists d :: d in devices && links[d].name == name
    }

    predicate IsDown(name: string)
      requires Valid()
      reads this
    {
      exists d :: d in devices && links[d].name == name && !links[d].up
    }

    method Exists(name: string) returns (b: bool)
      requires Valid()
      ensures b <==> InUse(name)
    {
      b := exists d :: d in devices && links[d].name == name;
    }

    method Find(name: string) returns (d: Device)
      requires Valid() && InUse(name)
      ensures d in devices && links[d].name == name
    {
      d :| d in devices && links[d].name == name;
    }

    /** Brings an interface down; an unknown name always fails. */
    method Stop(name: string) returns (ok: bool)
      requires Valid()
      modifies this
      ensures Valid()
      ensures !ok ==> links == old(links)
      ensures ok ==> old(InUse(name)) && forall d :: d in devices && old(links)[d].name == name ==>
                       links == old(links)[d := old(links)[d].(up := false)]
      ensures reliable ==> (ok <==> old(InUse(name)))
    {
      ok := Answers(name);
      if ok {
        var d := Find(name);
        links := links[d := links[d].(up := false)];
      }
    }

    method Start(name: string) returns (ok: bool)
      requires Valid()
      modifies this
      ensures Valid()
      ensures !ok ==> links == old(links)
      ensures ok ==> old(InUse(name)) && forall d :: d in devices && old(links)[d].name == name ==>
                       links == old(links)[d := old(links)[d].(up := true)]
      ensures reliable ==> (ok <==> old(InUse(name)))
    {
      ok := Answers(name);
      if ok {
        var d := Find(name);
        links := links[d := links[d].(up := true)];
      }
    }

    /** The bitrate of an interface can only be set while it is down. */
    method SetBitrate(name: string, bitrate: int) returns (ok: bool)
      requires Valid()
      modifies this
      ensures Valid()
      ensures !ok ==> links == old(links)
      ensures ok ==> old(IsDown(name)) && forall d :: d in devices && old(links)[d].name == name ==>
                       links == old(links)[d := old(links)[d].(bitrate := bitrate)]
      ensures reliable ==> (ok <==> old(IsDown(name)))
    {
      ok := Answers(name);
      if ok {
        var d := Find(name);
        ok := !links[d].up;
        if ok {
          links := links[d := links[d].(bitrate := bitrate)];
        }
      }
    }

    method Answers(name: string) returns (ok: bool)
      requires Valid()
      ensures ok ==> InUse(name)
      ensures reliable ==> (ok <==> InUse(name))
    {
      ok := Exists(name);
      var spurious: bool := *;
      if !reliable && spurious {
        ok := false;
      }
    }

    /** The kernel renames an existing interface that is down to a name nobody has. */
    predicate CanRename(from: string, to: string)
      requires Valid()
      reads this
    {
      IsDown(from) && !InUse(to)
    }

    /** The request holds both names in fixed-size fields, so a longer name is cut before the kernel sees it. */
    method Rename(from: string, to: string) returns (ok: bool)
      requires Valid()
      modifies this
      ensures Valid()
      ensures !ok ==> links == old(links)
      ensures ok ==> old(CanRename(Truncated(from), Truncated(to))) &&
                     forall d :: d in devices && old(links)[d].name == Truncated(from) ==>
                       links == old(links)[d := old(links)[d].(name := Truncated(to))]
      ensures reliable ==> (ok <==> old(CanRename(Truncated(from), Truncated(to))))
    {
      var source := Answers(Truncated(from));
      if !source {
        return false;
      }
      var taken := Exists(Truncated(to));
      var d := Find(Truncated(from));
      if taken || links[d].up {
        return false;
      }
      links := links[d := links[d].(name := Truncated(to))];
      ok := true;
    }
  }

  // ---------- Parking names ----------

  function Elements(s: seq<string>): (r: set<string>)
    ensures |r| <= |s|
    ensures forall x :: x in r <==> x in s
  {
    if s == [] then {} else {s[0]} + Elements(s[1..])
  }

  ghost function NamesOf(devices: set<Device>, links: map<Device, Link>): (r: set<string>)
    requires devices <= links.Keys
    ensures |r| <= |devices|
    ensures forall d :: d in devices ==> links[d].name in r
  {
    if exists d :: d in devices then
      var d :| d in devices;
      {links[d].name} + NamesOf(devices - {d}, links)
    else {}
  }

  /** A set that holds the first `n` numbered names has at least `n` elements. */
  lemma {:induction false} Pigeonhole(prefix: string, n: nat, taken: set<string>)
    requires forall k: nat :: k < n ==> Numbered(prefix, k) in taken
    ensures n <= |taken|
  {
    if n == 0 {
    } else {
      var last := Numbered(prefix, n - 1);
      forall k: nat | k < n - 1 ensures Numbered(prefix, k) in taken - {last} {
        if Numbered(prefix, k) == last {
          NumberedInjective(prefix, k, n - 1);
        }
      }
      Pigeonhole(prefix, n - 1, taken - {last});
    }
  }

  const PARKING := "cantmp"

  /** Ends after at most one try more than there are names to avoid. */
  method FreeTemporaryName(kernel: Kernel, targets: seq<string>) returns (name: string, ghost n: nat)
    requires kernel.Valid()
    ensures !kernel.InUse(name) && name !in targets
    ensures n <= |kernel.devices| + |targets| && name == Numbered(PARKING, n)
  {
    ghost var taken := NamesOf(kernel.devices, kernel.links) + Elements(targets);
    var tries: nat := 0;
    while true
      invariant forall k: nat :: k < tries ==> Numbered(PARKING, k) in taken
      invariant tries <= |taken|
      decreases |taken| - tries
    {
      name, n := Numbered(PARKING, tries), tries;
      var used := kernel.Exists(name);
      if !used && name !in targets {
        return;
      }
      assert name in taken;
      Pigeonhole(PARKING, tries + 1, taken);
      tries := tries + 1;
    }
  }

  // ---------- Sorting by bus ----------

  /** A listed adapter: the name it goes by and the bus it sits on. */
  datatype Port = Port(name: string, bus: int)

  predicate InBusOrder(s: seq<Port>) {
    forall i, j :: 0 <= i < j < |s| ==> s[i].bus <= s[j].bus
  }

  lemma InsertedInOrder(s: seq<Port>, k: nat, p: Port)
    requires InBusOrder(s) && k <= |s|
    requires k > 0 ==> s[k - 1].bus <= p.bus
    requires forall j :: k <= j < |s| ==> p.bus <= s[j].bus
    ensures InBusOrder(s[..k] + [p] + s[k..])
  {
    var r := s[..k] + [p] + s[k..];
    forall i, j | 0 <= i < j < |r| ensures r[i].bus <= r[j].bus {
      assert i <= k ==> r[i].bus <= p.bus;
      assert j >= k ==> p.bus <= r[j].bus;
    }
  }

  lemma InsertedElements(s: seq<Port>, k: nat, p: Port)
    requires k <= |s|
    ensures multiset(s[..k] + [p] + s[k..]) == multiset(s) + multiset{p}
  {
    assert s == s[..k] + s[k..];
  }

  method Insert(s: seq<Port>, p: Port) returns (r: seq<Port>)
    requires InBusOrder(s)
    ensures InBusOrder(r) && multiset(r) == multiset(s) + multiset{p}
  {
    var k := |s|;
    while k > 0 && s[k - 1].bus > p.bus
      invariant 0 <= k <= |s|
      invariant forall j :: k <= j < |s| ==> p.bus <= s[j].bus
    {
      k := k - 1;
    }
    InsertedInOrder(s, k, p);
    InsertedElements(s, k, p);
    r := s[..k] + [p] + s[k..];
  }

  method SortByBus(ports: seq<Port>) returns (list: seq<Port>)
    ensures InBusOrder(list) && multiset(list) == multiset(ports)
  {
    list := [];
    for i := 0 to |ports|
      invariant InBusOrder(list) && multiset(list) == multiset(ports[..i])
    {
      assert ports[..i + 1] == ports[..i] + [ports[i]];
      list := Insert(list, ports[i]);
    }
    assert ports == ports[..|ports|];
  }

  // ---------- Two-phase renaming ----------

  type Links = map<Device, Link>

  ghost function DeviceOf(links: Links, name: string): (d: Device)
    requires exists d :: d in links && links[d].name == name
    ensures d in links && links[d].name == name
  {
    var d :| d in links && links[d].name == name;
    d
  }

  /** Every listed name belongs to a device, and no adapter is listed twice. */
  ghost predicate Adapters(links: Links, list: seq<Port>) {
    && (forall i :: 0 <= i < |list| ==> exists d :: d in links && links[d].name == list[i].name)
    && (forall i, j :: 0 <= i < j < |list| ==> list[i].name != list[j].name)
  }

  /** `devices` are the devices that go by the listed names. */
  ghost predicate Identifies(links: Links, list: seq<Port>, devices: seq<Device>) {
    && |devices| == |list|
    && (forall i :: 0 <= i < |list| ==> devices[i] in links && links[devices[i]].name == list[i].name)
    && (forall i, j :: 0 <= i < j < |list| ==> devices[i] != devices[j])
  }

  ghost function DevicesOf(links: Links, list: seq<Port>): (devices: seq<Device>)
    requires Adapters(links, list)
    ensures Identifies(links, list, devices)
  {
    seq(|list|, i requires 0 <= i < |list| => DeviceOf(links, list[i].name))
  }

  function Targets(prefix: string, n: nat): (targets: seq<string>)
    ensures |targets| == n && forall i :: 0 <= i < n ==> targets[i] == Numbered(prefix, i)
  {
    seq(n, i requires 0 <= i < n => Numbered(prefix, i))
  }

  lemma TargetsDistinct(prefix: string, n: nat)
    ensures forall i, j :: 0 <= i < j < n ==> Targets(prefix, n)[i] != Targets(prefix, n)[j]
  {
    forall i: nat, j: nat | i < j < n ensures Targets(prefix, n)[i] != Targets(prefix, n)[j] {
      if Numbered(prefix, i) == Numbered(prefix, j) {
        NumberedInjective(prefix, i, j);
      }
    }
  }

  /** What is given to the i-th adapter is the prefix followed by i. */
  lemma TargetsAreNumbered(prefix: string, n: nat, i: nat)
    requires i < n
    ensures NamedAfter(Targets(prefix, n)[i], prefix, i)
  {
    NumberedIff(Targets(prefix, n)[i], prefix, i);
  }

  predicate Fits(name: string) {
    |name| <= MAX_NAME
  }

  predicate AllFit(names: seq<string>) {
    forall i :: 0 <= i < |names| ==> Fits(names[i])
  }

  /** Parking names stay within the kernel's limit up to nine digits. */
  const MAX_NAMES := 1_000_000_000

  lemma ParkingNamesFit(n: nat)
    requires n < MAX_NAMES
    ensures Fits(Numbered(PARKING, n))
  {
    assert Pow10(9) == MAX_NAMES;
    DigitsBound(n, 9, MAX_NAMES);
  }

  /** Adapters before `|current|` are down under the names in `current`; every other device is as it was. */
  ghost predicate Parked(was: Links, now: Links, list: seq<Port>, devices: seq<Device>, current: seq<string>)
    requires Identifies(was, list, devices)
  {
    && |current| <= |devices|
    && now.Keys == was.Keys
    && (forall j :: 0 <= j < |current| ==>
         now[devices[j]] == was[devices[j]].(name := current[j], up := false))
    && (forall d :: d in was && d !in devices[..|current|] ==> now[d] == was[d])
  }

  lemma NotParkedYet(was: Links, now: Links, list: seq<Port>, devices: seq<Device>, current: seq<string>)
    requires Identifies(was, list, devices) && Parked(was, now, list, devices, current) && |current| < |list|
    ensures var d := devices[|current|]; d in now && now[d] == was[d]
  {
    assert devices[|current|] !in devices[..|current|];
  }

  lemma ParkOne(was: Links, now: Links, next: Links, list: seq<Port>, devices: seq<Device>,
                current: seq<string>, name: string)
    requires Identifies(was, list, devices) && |current| < |list|
    requires Parked(was, now, list, devices, current)
    requires var d := devices[|current|]; next == now[d := was[d].(name := name, up := false)]
    ensures Parked(was, next, list, devices, current + [name])
  {
    var n := |current|;
    var d := devices[n];
    assert devices[..n + 1] == devices[..n] + [d];
    forall j | 0 <= j <= n
      ensures next[devices[j]] == was[devices[j]].(name := (current + [name])[j], up := false)
    {
      if j < n {
        assert devices[j] != d;
      }
    }
  }

  /** A name adapter `i` may go by between the two phases, and the one it must have if nothing failed. */
  predicate MidwayName(name: string, listed: string, target: string, targets: seq<string>) {
    name == listed || (listed != target && name !in targets)
  }

  predicate OutOfTheWay(name: string, target: string, targets: seq<string>) {
    name == target || name !in targets
  }

  /** Renames a stopped interface to a free temporary name; if that fails it keeps its own. */
  method Park(kernel: Kernel, iface: string, targets: seq<string>) returns (name: string)
    requires kernel.Valid()
    modifies kernel
    ensures kernel.Valid() && (name == iface || name !in targets)
    ensures |kernel.devices| + |targets| < MAX_NAMES ==>
              forall d :: d in kernel.devices && old(kernel.links)[d].name == iface ==>
                kernel.links == old(kernel.links)[d := old(kernel.links)[d].(name := name)]
    ensures |kernel.devices| + |targets| < MAX_NAMES && kernel.reliable && old(kernel.IsDown(iface)) ==>
              name !in targets
  {
    name := iface;
    var tmp, n := FreeTemporaryName(kernel, targets);
    if n < MAX_NAMES {
      ParkingNamesFit(n);
    }
    var renamed := kernel.Rename(iface, tmp);
    if renamed {
      name := tmp;
    }
  }

  /** One round of the first loop; an adapter whose rename fails keeps its name. */
  method StopAndParkOne(kernel: Kernel, iface: string, target: string, targets: seq<string>)
    returns (ok: bool, name: string)
    requires kernel.Valid()
    modifies kernel
    ensures kernel.Valid()
    ensures !ok ==> kernel.links == old(kernel.links)
    ensures MidwayName(name, iface, target, targets)
    ensures |kernel.devices| + |targets| < MAX_NAMES && ok ==>
              forall d :: d in kernel.devices && old(kernel.links)[d].name == iface ==>
                kernel.links == old(kernel.links)[d := old(kernel.links)[d].(name := name, up := false)]
    ensures |kernel.devices| + |targets| < MAX_NAMES && kernel.reliable && old(kernel.InUse(iface)) ==>
              ok && OutOfTheWay(name, target, targets)
  {
    name := iface;
    ok := kernel.Stop(iface);
    if ok && iface != target {
      name := Park(kernel, iface, targets);
    }
  }

  /** What the names given out by the first loop are good for. */
  ghost predicate NamesOutOfTheWay(list: seq<Port>, targets: seq<string>, current: seq<string>, reliable: bool) {
    && |current| <= |list| == |targets|
    && (forall j :: 0 <= j < |current| ==> MidwayName(current[j], list[j].name, targets[j], targets))
    && (reliable ==> forall j :: 0 <= j < |current| ==> OutOfTheWay(current[j], targets[j], targets))
  }

  lemma OneMoreOutOfTheWay(list: seq<Port>, targets: seq<string>, current: seq<string>, reliable: bool, name: string)
    requires NamesOutOfTheWay(list, targets, current, reliable) && |current| < |list|
    requires MidwayName(name, list[|current|].name, targets[|current|], targets)
    requires reliable ==> OutOfTheWay(name, targets[|current|], targets)
    ensures NamesOutOfTheWay(list, targets, current + [name], reliable)
  {
  }

  /** First loop: stop every adapter and park the ones whose name has to change. */
  method StopAndPark(kernel: Kernel, list: seq<Port>, targets: seq<string>, ghost devices: seq<Device>)
    returns (stopped: bool, current: seq<string>)
    requires kernel.Valid() && |targets| == |list|
    modifies kernel
    ensures kernel.Valid() && |current| <= |list| && (stopped <==> |current| == |list|)
    ensures Identifies(old(kernel.links), list, devices) && |kernel.devices| + |list| < MAX_NAMES ==>
              && Parked(old(kernel.links), kernel.links, list, devices, current)
              && NamesOutOfTheWay(list, targets, current, kernel.reliable)
              && (kernel.reliable ==> stopped)
  {
    ghost var was := kernel.links;
    ghost var good := Identifies(was, list, devices) && |kernel.devices| + |list| < MAX_NAMES;
    current := [];
    for i := 0 to |list|
      invariant kernel.Valid() && |current| == i
      invariant good ==> Parked(was, kernel.links, list, devices, current)
      invariant good ==> NamesOutOfTheWay(list, targets, current, kernel.reliable)
    {
      ghost var before := kernel.links;
      if good {
        NotParkedYet(was, before, list, devices, current);
      }
      var ok, name := StopAndParkOne(kernel, list[i].name, targets[i], targets);
      if !ok {
        return false, current;
      }
      if good {
        ParkOne(was, before, kernel.links, list, devices, current, name);
        OneMoreOutOfTheWay(list, targets, current, kernel.reliable, name);
      }
      current := current + [name];
    }
    stopped := true;
  }

  /** How `activate` ends: normally, or by throwing with the name it was working on. */
  datatype Outcome = Done | StopFailed(name: string) | BitrateFailed(name: string) | StartFailed(name: string)

  /** One round of the second loop: give the final name, set the bitrate, start. A failed rename only warns. */
  method AssignOne(kernel: Kernel, current: string, target: string, bitrate: int)
    returns (outcome: Outcome, name: string)
    requires kernel.Valid()
    modifies kernel
    ensures kernel.Valid()
    ensures !outcome.StopFailed? && (name == current || name == target)
    ensures !outcome.Done? ==> outcome.name == name
    ensures !Fits(target) && name == target ==> outcome.BitrateFailed?
    ensures forall d :: d in kernel.devices && old(kernel.links)[d].name == current ==>
              && kernel.links == old(kernel.links)[d := kernel.links[d]]
              && kernel.links[d].name == Truncated(name)
              && (outcome.Done? ==> kernel.links[d] == Link(name, true, bitrate))
    ensures Fits(target) && kernel.reliable && old(kernel.IsDown(current)) &&
            (current == target || !old(kernel.InUse(target))) ==>
              outcome.Done? && name == target
  {
    name := current;
    if name != target {
      var renamed := kernel.Rename(name, target);
      if renamed {
        name := target;
      }
    }
    var ok := kernel.SetBitrate(name, bitrate);
    if !ok {
      return BitrateFailed(name), name;
    }
    ok := kernel.Start(name);
    outcome := if ok then Done else StartFailed(name);
  }

  /**
   * The first `|final|` adapters run under their final names; devices other than the first `touched`
   * adapters are as the first loop left them.
   */
  ghost predicate Assigned(parked: Links, now: Links, devices: seq<Device>, final: seq<string>, bitrate: int,
                           touched: nat)
  {
    && |final| <= touched <= |devices|
    && now.Keys == parked.Keys
    && (forall j :: 0 <= j < |final| ==> devices[j] in now && now[devices[j]] == Link(final[j], true, bitrate))
    && (forall d :: d in parked && d !in devices[..touched] ==> now[d] == parked[d])
  }

  lemma AssignNext(was: Links, parked: Links, now: Links, next: Links, list: seq<Port>, devices: seq<Device>,
                   final: seq<string>, bitrate: int)
    requires Identifies(was, list, devices) && was.Keys == parked.Keys
    requires Assigned(parked, now, devices, final, bitrate, |final|) && |final| < |devices|
    requires devices[|final|] in next && next == now[devices[|final|] := next[devices[|final|]]]
    ensures Assigned(parked, next, devices, final, bitrate, |final| + 1)
    ensures var link := next[devices[|final|]]; link == Link(link.name, true, bitrate) ==>
              Assigned(parked, next, devices, final + [link.name], bitrate, |final| + 1)
  {
    var n := |final|;
    assert devices[..n + 1] == devices[..n] + [devices[n]];
    assert forall j :: 0 <= j < n ==> devices[j] != devices[n];
  }

  /** The next adapter is still as the first loop left it. */
  lemma NotAssignedYet(was: Links, parked: Links, now: Links, list: seq<Port>, devices: seq<Device>,
                       current: seq<string>, final: seq<string>, bitrate: int)
    requires Identifies(was, list, devices) && Parked(was, parked, list, devices, current)
    requires |current| == |list| && |final| < |list|
    requires Assigned(parked, now, devices, final, bitrate, |final|)
    ensures var d := devices[|final|]; d in now && now[d].name == current[|final|] && !now[d].up
  {
    assert devices[|final|] !in devices[..|final|];
  }

  /** Nobody but the listed adapters holds a target name. */
  ghost predicate NoOutsiderHolds(was: Links, devices: seq<Device>, targets: seq<string>) {
    forall d :: d in was && d !in devices ==> was[d].name !in targets
  }

  predicate Distinct(names: seq<string>) {
    forall j, k :: 0 <= j < k < |names| ==> names[j] != names[k]
  }

  /**
   * When its turn comes, a target name is free, or its adapter holds it already: outsiders do not hold it,
   * parked adapters are out of the way, and finished ones hold other targets.
   */
  lemma TargetIsFree(was: Links, parked: Links, now: Links, list: seq<Port>, devices: seq<Device>,
                     targets: seq<string>, current: seq<string>, bitrate: int, i: nat, d: Device)
    requires Identifies(was, list, devices) && Parked(was, parked, list, devices, current)
    requires |current| == |list| && i < |list| && NamesOutOfTheWay(list, targets, current, true)
    requires NoOutsiderHolds(was, devices, targets) && Distinct(targets)
    requires Assigned(parked, now, devices, targets[..i], bitrate, i)
    requires d in now && now[d].name == targets[i]
    ensures current[i] == targets[i]
  {
    assert devices[..|current|] == devices;
    assert d in devices;
    var j :| 0 <= j < |devices| && devices[j] == d;
    assert forall k :: 0 <= k < i ==> now[devices[k]].name == targets[k];
    assert j >= i;
    assert devices[j] !in devices[..i];
    assert current[j] == targets[i] == targets[j];
  }

  /** A name an adapter ends up with is its target, or the name it had between the phases. */
  ghost predicate NamesSettled(targets: seq<string>, current: seq<string>, final: seq<string>, ideal: bool) {
    && |final| <= |targets| == |current|
    && (forall j :: 0 <= j < |final| ==> final[j] == current[j] || final[j] == targets[j])
    && (ideal ==> final == targets[..|final|])
  }

  lemma OneMoreSettled(targets: seq<string>, current: seq<string>, final: seq<string>, ideal: bool, name: string)
    requires NamesSettled(targets, current, final, ideal) && |final| < |targets|
    requires name == current[|final|] || name == targets[|final|]
    requires ideal ==> name == targets[|final|]
    ensures NamesSettled(targets, current, final + [name], ideal)
  {
    var n := |final|;
    assert targets[..n + 1] == targets[..n] + [targets[n]];
  }

  /** What the second loop starts from. */
  ghost predicate Midway(was: Links, parked: Links, list: seq<Port>, devices: seq<Device>,
                         targets: seq<string>, current: seq<string>)
  {
    && Identifies(was, list, devices)
    && Parked(was, parked, list, devices, current)
    && |current| == |list| == |targets|
  }

  ghost predicate NothingInTheWay(was: Links, list: seq<Port>, devices: seq<Device>,
                                  targets: seq<string>, current: seq<string>)
  {
    && NamesOutOfTheWay(list, targets, current, true) && NoOutsiderHolds(was, devices, targets) && Distinct(targets)
    && AllFit(targets)
  }

  /** Second loop: give out the final names and bring the adapters up. */
  method AssignAndStart(kernel: Kernel, list: seq<Port>, targets: seq<string>, current: seq<string>, bitrate: int,
                        ghost was: Links, ghost devices: seq<Device>)
    returns (outcome: Outcome, ghost final: seq<string>)
    requires kernel.Valid() && |targets| == |list| == |current|
    modifies kernel
    ensures kernel.Valid() && |final| <= |list| && !outcome.StopFailed?
    ensures outcome.Done? <==> |final| == |list|
    ensures Midway(was, old(kernel.links), list, devices, targets, current) ==>
              var ideal := kernel.reliable && NothingInTheWay(was, list, devices, targets, current);
              && NamesSettled(targets, current, final, ideal)
              && (ideal ==> outcome.Done?)
              && Assigned(old(kernel.links), kernel.links, devices, final, bitrate,
                          if outcome.Done? then |final| else |final| + 1)
              && (!outcome.Done? ==> && devices[|final|] in kernel.links
                                     && kernel.links[devices[|final|]].name == Truncated(outcome.name)
                                     && (!Fits(outcome.name) ==> outcome.BitrateFailed? && outcome.name in targets))
  {
    ghost var parked := kernel.links;
    ghost var good := Midway(was, parked, list, devices, targets, current);
    ghost var ideal := kernel.reliable && NothingInTheWay(was, list, devices, targets, current);
    final := [];
    for i := 0 to |list|
      invariant kernel.Valid() && |final| == i
      invariant good ==> Assigned(parked, kernel.links, devices, final, bitrate, i)
      invariant good ==> NamesSettled(targets, current, final, ideal)
    {
      ghost var before := kernel.links;
      if good {
        NotAssignedYet(was, parked, before, list, devices, current, final, bitrate);
        if ideal && kernel.InUse(targets[i]) {
          var d :| d in kernel.devices && before[d].name == targets[i];
          TargetIsFree(was, parked, before, list, devices, targets, current, bitrate, i, d);
        }
      }
      var one, name := AssignOne(kernel, current[i], targets[i], bitrate);
      if good {
        AssignNext(was, parked, before, kernel.links, list, devices, final, bitrate);
      }
      if !one.Done? {
        return one, final;
      }
      if good {
        OneMoreSettled(targets, current, final, ideal, name);
      }
      final := final + [name];
    }
    outcome := Done;
  }

  ghost predicate OthersUntouched(was: Links, now: Links, devices: seq<Device>) {
    now.Keys == was.Keys && forall d :: d in was && d !in devices ==> now[d] == was[d]
  }

  /** One of the devices goes by the name. */
  ghost predicate Goes(now: Links, devices: seq<Device>, name: string) {
    exists d :: d in devices && d in now && now[d].name == name
  }

  /** Adapter `i`, in bus order, is up as target `i`. */
  ghost predicate Realised(now: Links, devices: seq<Device>, targets: seq<string>, bitrate: int)
    requires |devices| == |targets|
  {
    forall i :: 0 <= i < |devices| ==> devices[i] in now && now[devices[i]] == Link(targets[i], true, bitrate)
  }

  /** Adapter `i`, in bus order, is up at the bitrate and goes by the prefix followed by `i`. */
  ghost predicate InOrder(now: Links, devices: seq<Device>, prefix: string, bitrate: int) {
    forall i: nat :: i < |devices| ==>
      && devices[i] in now && now[devices[i]] == Link(now[devices[i]].name, true, bitrate)
      && NamedAfter(now[devices[i]].name, prefix, i)
  }

  lemma RealisedIffInOrder(now: Links, devices: seq<Device>, prefix: string, bitrate: int)
    ensures Realised(now, devices, Targets(prefix, |devices|), bitrate) <==> InOrder(now, devices, prefix, bitrate)
  {
    forall i: nat | i < |devices| && devices[i] in now
      ensures now[devices[i]].name == Numbered(prefix, i) <==> NamedAfter(now[devices[i]].name, prefix, i)
    {
      NumberedIff(now[devices[i]].name, prefix, i);
    }
  }

  /** Every adapter is up at the bitrate, under its target, its own or a parking name. */
  ghost predicate Running(now: Links, list: seq<Port>, devices: seq<Device>, targets: seq<string>, bitrate: int)
    requires |devices| == |targets| == |list|
  {
    forall i :: 0 <= i < |devices| ==>
      && devices[i] in now
      && now[devices[i]] == Link(now[devices[i]].name, true, bitrate)
      && (now[devices[i]].name == targets[i] ||
          MidwayName(now[devices[i]].name, list[i].name, targets[i], targets))
  }

  lemma BothPhases(was: Links, parked: Links, now: Links, list: seq<Port>, devices: seq<Device>,
                   targets: seq<string>, current: seq<string>, final: seq<string>, bitrate: int, touched: nat)
    requires Midway(was, parked, list, devices, targets, current)
    requires NamesOutOfTheWay(list, targets, current, false)
    requires Assigned(parked, now, devices, final, bitrate, touched)
    requires NamesSettled(targets, current, final, false)
    ensures OthersUntouched(was, now, devices)
    ensures |final| == |list| ==> Running(now, list, devices, targets, bitrate)
    ensures final == targets ==> Realised(now, devices, targets, bitrate)
  {
    forall d | d in was && d !in devices ensures now[d] == was[d] {
      assert d !in devices[..|current|] && d !in devices[..touched];
    }
  }

  lemma LongNamesAreNobodys(kernel: Kernel, devices: seq<Device>, name: string)
    requires kernel.Valid() && !Fits(name)
    ensures !Goes(kernel.links, devices, name)
  {
    forall d | d in devices && d in kernel.links ensures kernel.links[d].name != name {
      assert d in kernel.devices && |kernel.links[d].name| <= MAX_NAME;
    }
  }

  /** The kernel cannot hold a longer name, so such a target is never given. */
  lemma LongTargetsAreNotRealised(kernel: Kernel, devices: seq<Device>, targets: seq<string>, bitrate: int)
    requires kernel.Valid() && |devices| == |targets| && Realised(kernel.links, devices, targets, bitrate)
    ensures forall i :: 0 <= i < |targets| ==> Fits(targets[i])
  {
    forall i | 0 <= i < |targets| ensures Fits(targets[i]) {
      var d := devices[i];
      assert kernel.links[d] == Link(targets[i], true, bitrate);
      assert d in kernel.devices && |kernel.links[d].name| <= MAX_NAME;
    }
  }

  /**
   * Renames the listed adapters, in bus order, to prefix0, prefix1, ... and brings them up.
   *
   * With distinct adapters, no outsider holding a target and a kernel that does what it is asked, this works,
   * whatever cycles the names form, exactly when every target is short enough. Whatever requests fail and however
   * long the targets are, outsiders are not touched and a normal end leaves every adapter running. A name thrown is
   * a listed adapter's real name exactly when it fits; one that does not is a target the kernel has cut.
   */
  method Activate(kernel: Kernel, ports: seq<Port>, prefix: string, bitrate: int)
    returns (outcome: Outcome, list: seq<Port>)
    requires kernel.Valid()
    modifies kernel
    ensures kernel.Valid()
    ensures InBusOrder(list) && multiset(list) == multiset(ports)
    ensures Adapters(old(kernel.links), list) && |kernel.devices| + |list| < MAX_NAMES ==>
              var was, targets := old(kernel.links), Targets(prefix, |list|);
              var devices := DevicesOf(was, list);
              && (kernel.reliable && NoOutsiderHolds(was, devices, targets) ==>
                   ((outcome.Done? && InOrder(kernel.links, devices, prefix, bitrate)) <==>
                    AllFit(targets)))
              && OthersUntouched(was, kernel.links, devices)
              && (outcome.Done? ==> Running(kernel.links, list, devices, targets, bitrate))
              && (!outcome.Done? ==>
                   && (Goes(kernel.links, devices, outcome.name) <==> Fits(outcome.name))
                   && (!Fits(outcome.name) ==> && outcome.BitrateFailed? && outcome.name in targets
                                               && Goes(kernel.links, devices, Truncated(outcome.name))))
  {
    list := SortByBus(ports);
    var targets := Targets(prefix, |list|);
    TargetsDistinct(prefix, |list|);
    ghost var was := kernel.links;
    ghost var known := Adapters(was, list) && |kernel.devices| + |list| < MAX_NAMES;
    ghost var devices := if known then DevicesOf(was, list) else [];
    var stopped, current := StopAndPark(kernel, list, targets, devices);
    if !stopped {
      outcome := StopFailed(list[|current|].name);
      if known {
        NotParkedYet(was, kernel.links, list, devices, current);
        assert devices[|current|] in devices;
        assert forall d :: d in was && d !in devices ==> d !in devices[..|current|];
        assert Goes(kernel.links, devices, outcome.name);
      }
      return;
    }
    ghost var parked := kernel.links;
    ghost var final;
    outcome, final := AssignAndStart(kernel, list, targets, current, bitrate, was, devices);
    if known && kernel.reliable && outcome.Done? && Realised(kernel.links, devices, targets, bitrate) {
      LongTargetsAreNotRealised(kernel, devices, targets, bitrate);
    }
    if known {
      RealisedIffInOrder(kernel.links, devices, prefix, bitrate);
      assert Midway(was, parked, list, devices, targets, current);
      BothPhases(was, parked, kernel.links, list, devices, targets, current, final, bitrate,
                 if outcome.Done? then |final| else |final| + 1);
      if !outcome.Done? {
        assert devices[|final|] in devices && Goes(kernel.links, devices, Truncated(outcome.name));
        if !Fits(outcome.name) {
          LongNamesAreNobodys(kernel, devices, outcome.name);
        }
      }
    }
  }
}
