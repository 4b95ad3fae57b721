/** The endpoint index of src/adapter/ConfigDB.cpp: devices grouped by (ip, port), ranked inside
    each group, and found again by the address of a peer. */
module Routing {
  import opened Common
  import opened DeviceModel

  // ---------------------------------------------------------------- keys

  function Digit(n: nat): char
    requires n < 10
  {
    "0123456789"[n]
  }

  /** std::to_string of an unsigned number. */
  function Decimal(n: nat): string {
    if n < 10 then [Digit(n)] else Decimal(n / 10) + [Digit(n % 10)]
  }

  function DigitValue(c: char): nat { if c >= '0' then (c as nat) - ('0' as nat) else 0 }

  function Number(s: string): nat {
    if s == [] then 0 else 10 * Number(s[..|s| - 1]) + DigitValue(s[|s| - 1])
  }

  lemma DigitFacts(n: nat)
    requires n < 10
    ensures DigitValue(Digit(n)) == n && Digit(n) != ':' && Digit(n) != '#'
  {
  }

  lemma {:induction false} DecimalReads(n: nat)
    ensures Decimal(n) != [] && Number(Decimal(n)) == n && ':' !in Decimal(n) && '#' !in Decimal(n)
  {
    DigitFacts(n % 10);
    if n < 10 {
      assert Number([Digit(n)]) == 10 * Number([Digit(n)][..0]) + DigitValue(Digit(n));
      assert [Digit(n)][..0] == [];
    } else {
      DecimalReads(n / 10);
      assert Decimal(n)[..|Decimal(n)| - 1] == Decimal(n / 10);
    }
  }

  lemma DecimalInjective(m: nat, n: nat)
    requires Decimal(m) == Decimal(n)
    ensures m == n
  {
    DecimalReads(m);
    DecimalReads(n);
  }

  function EndpointKey(ip: string, port: nat): string { ip + ":" + Decimal(port) }

  function StandaloneKey(ip: string, i: nat): string { ip + ":0#" + Decimal(i) }

  lemma ColonInTail(a: string, s: string, i: nat)
    requires i < |a + ":" + s| && ':' !in s
    ensures i > |a| ==> (a + ":" + s)[i] != ':'
  {
    var x := a + ":" + s;
    if i > |a| { assert x[i] == s[i - |a| - 1]; }
  }

  /** Two strings with a colon-free tail after a colon agree in both parts. */
  lemma SplitAtLastColon(a: string, s: string, b: string, t: string)
    requires a + ":" + s == b + ":" + t && ':' !in s && ':' !in t
    ensures a == b && s == t
  {
    var x := a + ":" + s;
    assert x[|a|] == ':' && x[|b|] == ':';
    ColonInTail(a, s, |b|);
    ColonInTail(b, t, |a|);
    assert x[..|a|] == a && x[..|b|] == b && x[|a| + 1..] == s && x[|b| + 1..] == t;
  }

  /** A key determines its endpoint, whatever the ip looks like. */
  lemma KeyInjective(ip: string, port: nat, ip2: string, port2: nat)
    requires EndpointKey(ip, port) == EndpointKey(ip2, port2)
    ensures ip == ip2 && port == port2
  {
    DecimalReads(port);
    DecimalReads(port2);
    SplitAtLastColon(ip, Decimal(port), ip2, Decimal(port2));
    DecimalInjective(port, port2);
  }

  /** substr(0, find(':')): the whole string when there is no colon. */
  function UpToColon(s: string): string {
    if s == [] || s[0] == ':' then [] else [s[0]] + UpToColon(s[1..])
  }

  lemma {:induction false} UpToColonOfKey(ip: string, rest: string)
    ensures UpToColon(ip + ":" + rest) == UpToColon(ip)
  {
    if ip != [] && ip[0] != ':' {
      assert (ip + ":" + rest)[1..] == ip[1..] + ":" + rest;
      UpToColonOfKey(ip[1..], rest);
    }
  }

  lemma {:induction false} UpToColonPlain(s: string)
    ensures ':' !in UpToColon(s) && (':' !in s ==> UpToColon(s) == s)
  {
    if s != [] && s[0] != ':' {
      UpToColonPlain(s[1..]);
    }
  }

  // ---------------------------------------------------------------- groups

  /** A DeviceGroup; members are positions in the device list. */
  datatype DeviceGroup = DeviceGroup(key: string, members: seq<nat>)

  function KeyOf(devices: seq<DeviceDesc>, i: nat): string
    requires i < |devices|
  {
    if devices[i].devicePort != 0 then EndpointKey(devices[i].ip, devices[i].devicePort)
    else StandaloneKey(devices[i].ip, i)
  }

  /** Two rows are one endpoint: the same row, or the same ip and non-zero port. */
  predicate SameEndpoint(devices: seq<DeviceDesc>, i: nat, j: nat)
    requires i < |devices| && j < |devices|
  {
    || i == j
    || (devices[i].devicePort != 0 && devices[i].ip == devices[j].ip && devices[i].devicePort == devices[j].devicePort)
  }

  ghost predicate InGroup(groups: seq<DeviceGroup>, g: nat, i: nat) { g < |groups| && i in groups[g].members }

  /** Every device is in exactly one group, once. home[i] is the group of device i. */
  ghost predicate Homed(groups: seq<DeviceGroup>, home: seq<nat>) {
    && (forall i | 0 <= i < |home| :: InGroup(groups, home[i], i))
    && (forall g: nat, i: nat | InGroup(groups, g, i) :: i < |home| && home[i] == g)
    && (forall g | 0 <= g < |groups| :: groups[g].members != [] && NoRepeats(groups[g].members))
  }

  ghost predicate NoRepeats(s: seq<nat>) { forall i, j | 0 <= i < j < |s| :: s[i] != s[j] }

  /** Devices share a group exactly when they share an endpoint. */
  ghost predicate OnePerEndpoint(devices: seq<DeviceDesc>, home: seq<nat>)
    requires |home| <= |devices|
  {
    forall i, j | 0 <= i < |home| && 0 <= j < |home| :: home[i] == home[j] <==> SameEndpoint(devices, i, j)
  }

  ghost predicate Keyed(devices: seq<DeviceDesc>, groups: seq<DeviceGroup>, home: seq<nat>)
    requires |home| <= |devices|
  {
    forall i | 0 <= i < |home| :: home[i] < |groups| && groups[home[i]].key == KeyOf(devices, i)
  }

  /** The first n devices are partitioned into groups, one per endpoint. */
  ghost predicate Partition(devices: seq<DeviceDesc>, n: nat, groups: seq<DeviceGroup>, home: seq<nat>) {
    |home| == n <= |devices| && Homed(groups, home) && OnePerEndpoint(devices, home) && Keyed(devices, groups, home)
  }

  predicate Indexes(devices: seq<DeviceDesc>, i: nat, k: string) {
    i < |devices| && devices[i].devicePort != 0 && EndpointKey(devices[i].ip, devices[i].devicePort) == k
  }

  /** byIpPort holds exactly the endpoints with a port. */
  ghost predicate PortIndex(devices: seq<DeviceDesc>, home: seq<nat>, byIpPort: map<string, nat>) {
    && (forall i, k | 0 <= i < |home| && Indexes(devices, i, k) :: k in byIpPort && byIpPort[k] == home[i])
    && (forall k | k in byIpPort :: exists i :: 0 <= i < |home| && Indexes(devices, i, k))
  }

  lemma NoRepeatsSnoc(s: seq<nat>, x: nat)
    requires NoRepeats(s) && x !in s
    ensures NoRepeats(s + [x])
  {
  }

  lemma JoinHomed(groups: seq<DeviceGroup>, home: seq<nat>, gi: nat)
    requires Homed(groups, home) && gi < |groups|
    ensures Homed(groups[gi := groups[gi].(members := groups[gi].members + [|home|])], home + [gi])
  {
    var n := |home|;
    assert !InGroup(groups, gi, n);
    NoRepeatsSnoc(groups[gi].members, n);
    hide NoRepeats;
    var groups2, home2 := groups[gi := groups[gi].(members := groups[gi].members + [n])], home + [gi];
    forall i | 0 <= i < |home2|
      ensures InGroup(groups2, home2[i], i)
    {
      if i < n { assert InGroup(groups, home[i], i); }
    }
    forall g: nat, i: nat | InGroup(groups2, g, i)
      ensures i < |home2| && home2[i] == g
    {
      assert i != n || g != gi ==> InGroup(groups, g, i);
    }
  }

  lemma FoundHomed(groups: seq<DeviceGroup>, home: seq<nat>, key: string)
    requires Homed(groups, home)
    ensures Homed(groups + [DeviceGroup(key, [|home|])], home + [|groups|])
  {
    var n := |home|;
    var groups2, home2 := groups + [DeviceGroup(key, [n])], home + [|groups|];
    forall i | 0 <= i < |home2|
      ensures InGroup(groups2, home2[i], i)
    {
      if i < n { assert InGroup(groups, home[i], i); }
    }
    forall g: nat, i: nat | InGroup(groups2, g, i)
      ensures i < |home2| && home2[i] == g
    {
      if g < |groups| { assert InGroup(groups, g, i); }
    }
    forall g | 0 <= g < |groups2|
      ensures groups2[g].members != [] && NoRepeats(groups2[g].members)
    {
    }
  }

  /** A home for device n that it shares with exactly the devices of its endpoint. */
  lemma ExtendEndpoints(devices: seq<DeviceDesc>, home: seq<nat>, gi: nat)
    requires |home| < |devices| && OnePerEndpoint(devices, home)
    requires forall j | 0 <= j < |home| :: home[j] == gi <==> SameEndpoint(devices, j, |home|)
    ensures OnePerEndpoint(devices, home + [gi])
  {
  }

  lemma ExtendPortIndex(devices: seq<DeviceDesc>, home: seq<nat>, byIpPort: map<string, nat>, gi: nat)
    requires |home| < |devices| && PortIndex(devices, home, byIpPort)
    requires devices[|home|].devicePort != 0 ==>
      KeyOf(devices, |home|) in byIpPort && byIpPort[KeyOf(devices, |home|)] == gi
    ensures PortIndex(devices, home + [gi], byIpPort)
  {
    hide EndpointKey;
    forall x | x in byIpPort
      ensures exists j :: 0 <= j < |home + [gi]| && Indexes(devices, j, x)
    {
      var j :| 0 <= j < |home| && Indexes(devices, j, x);
      assert 0 <= j < |home + [gi]| && Indexes(devices, j, x);
    }
  }

  lemma KnownEndpoint(devices: seq<DeviceDesc>, n: nat, home: seq<nat>, byIpPort: map<string, nat>, k: string)
    returns (i: nat)
    requires PortIndex(devices, home, byIpPort) && |home| <= n && Indexes(devices, n, k) && k in byIpPort
    ensures i < |home| && i < |devices| && home[i] == byIpPort[k]
    ensures SameEndpoint(devices, i, n) && KeyOf(devices, i) == KeyOf(devices, n)
  {
    i :| 0 <= i < |home| && Indexes(devices, i, k);
    KeyInjective(devices[i].ip, devices[i].devicePort, devices[n].ip, devices[n].devicePort);
  }

  /** A device of a known endpoint joins its group. */
  lemma JoinGroup(devices: seq<DeviceDesc>, n: nat, groups: seq<DeviceGroup>, home: seq<nat>, byIpPort: map<string,
                  nat>, k: string)
    requires Partition(devices, n, groups, home) && PortIndex(devices, home, byIpPort)
    requires Indexes(devices, n, k) && k in byIpPort
    ensures byIpPort[k] < |groups|
    ensures var gi := byIpPort[k];
      && Partition(devices, n + 1, groups[gi := groups[gi].(members := groups[gi].members + [n])], home + [gi])
      && PortIndex(devices, home + [gi], byIpPort)
  {
    hide EndpointKey, StandaloneKey, Homed, PortIndex;
    var gi := byIpPort[k];
    var i := KnownEndpoint(devices, n, home, byIpPort, k);
    JoinHomed(groups, home, gi);
    ExtendPortIndex(devices, home, byIpPort, gi);
    forall j | 0 <= j < n
      ensures home[j] == gi <==> SameEndpoint(devices, j, n)
    {
      assert home[j] == home[i] <==> SameEndpoint(devices, j, i);
    }
    ExtendEndpoints(devices, home, gi);
  }

  /** A device of a new endpoint, or without a port, founds a group. */
  lemma FoundGroup(devices: seq<DeviceDesc>, n: nat, groups: seq<DeviceGroup>, home: seq<nat>, byIpPort: map<string,
                   nat>)
    requires Partition(devices, n, groups, home) && PortIndex(devices, home, byIpPort) && n < |devices|
    requires devices[n].devicePort != 0 ==> KeyOf(devices, n) !in byIpPort
    ensures Partition(devices, n + 1, groups + [DeviceGroup(KeyOf(devices, n), [n])], home + [|groups|])
    ensures var after := if devices[n].devicePort != 0 then byIpPort[KeyOf(devices, n) := |groups|] else byIpPort;
      PortIndex(devices, home + [|groups|], after)
  {
    hide EndpointKey, StandaloneKey;
    forall j | 0 <= j < n
      ensures !SameEndpoint(devices, j, n)
    {
      if devices[j].devicePort != 0 { assert Indexes(devices, j, KeyOf(devices, j)); }
    }
    FoundHomed(groups, home, KeyOf(devices, n));
    FoundPortIndex(devices, home, byIpPort, |groups|);
    hide Homed, PortIndex;
    ExtendEndpoints(devices, home, |groups|);
  }

  lemma FoundPortIndex(devices: seq<DeviceDesc>, home: seq<nat>, byIpPort: map<string, nat>, gi: nat)
    requires |home| < |devices| && PortIndex(devices, home, byIpPort)
    requires devices[|home|].devicePort != 0 ==> KeyOf(devices, |home|) !in byIpPort
    ensures var n := |home|;
      var after := if devices[n].devicePort != 0 then byIpPort[KeyOf(devices, n) := gi] else byIpPort;
      PortIndex(devices, home + [gi], after)
  {
    hide EndpointKey;
    var n := |home|;
    var after := if devices[n].devicePort != 0 then byIpPort[KeyOf(devices, n) := gi] else byIpPort;
    forall x | x in after
      ensures exists j :: 0 <= j < |home + [gi]| && Indexes(devices, j, x)
    {
      if x in byIpPort {
        var j :| 0 <= j < |home| && Indexes(devices, j, x);
        assert 0 <= j < |home + [gi]| && Indexes(devices, j, x);
      } else {
        assert Indexes(devices, n, x);
      }
    }
  }

  // ---------------------------------------------------------------- rank

  /** Lexicographic order of strings. */
  predicate TextLess(s: string, t: string) {
    t != [] && (s == [] || s[0] < t[0] || (s[0] == t[0] && TextLess(s[1..], t[1..])))
  }

  predicate RankLess(a: DeviceDesc, b: DeviceDesc) {
    if a.dataProtoId != b.dataProtoId then a.dataProtoId < b.dataProtoId else TextLess(a.deviceId, b.deviceId)
  }

  lemma {:induction false} TextOrder(s: string, t: string, u: string)
    ensures !(TextLess(s, t) && TextLess(t, s))
    ensures !TextLess(t, s) && !TextLess(u, t) ==> !TextLess(u, s)
    decreases |s|
  {
    if s != [] {
      TextOrder(s[1..], if t == [] then [] else t[1..], if u == [] then [] else u[1..]);
    }
  }

  lemma RankOrder(a: DeviceDesc, b: DeviceDesc, c: DeviceDesc)
    ensures !(RankLess(a, b) && RankLess(b, a))
    ensures !RankLess(b, a) && !RankLess(c, b) ==> !RankLess(c, a)
  {
    TextOrder(a.deviceId, b.deviceId, c.deviceId);
  }

  predicate Within(s: seq<nat>, n: nat) { forall k | 0 <= k < |s| :: s[k] < n }

  ghost predicate Ranked(devices: seq<DeviceDesc>, s: seq<nat>)
    requires Within(s, |devices|)
  {
    forall j, k | 0 <= j < k < |s| :: !RankLess(devices[s[k]], devices[s[j]])
  }

  /** std::sort by (data_proto_id, device_id): some ranked permutation. */
  method SortMembers(devices: seq<DeviceDesc>, members: seq<nat>) returns (sorted: seq<nat>)
    requires Within(members, |devices|)
    ensures Within(sorted, |devices|) && multiset(sorted) == multiset(members) && Ranked(devices, sorted)
    ensures forall j, k | 0 <= j < k < |sorted| :: InOrder(devices[sorted[j]], devices[sorted[k]])
  {
    hide InOrder;
    sorted := [];
    for i := 0 to |members|
      invariant Within(sorted, |devices|) && multiset(sorted) == multiset(members[..i]) && Ranked(devices, sorted)
    {
      assert members[..i + 1] == members[..i] + [members[i]];
      sorted := InsertMember(devices, sorted, members[i]);
    }
    assert members[..|members|] == members;
    forall j, k | 0 <= j < k < |sorted|
      ensures InOrder(devices[sorted[j]], devices[sorted[k]])
    {
      RankedInOrder(devices, sorted, j, k);
    }
  }

  method InsertMember(devices: seq<DeviceDesc>, sorted: seq<nat>, m: nat) returns (r: seq<nat>)
    requires Within(sorted, |devices|) && m < |devices| && Ranked(devices, sorted)
    ensures Within(r, |devices|) && multiset(r) == multiset(sorted) + multiset{m} && Ranked(devices, r)
  {
    hide RankLess;
    var k := |sorted|;
    while k > 0 && RankLess(devices[m], devices[sorted[k - 1]])
      invariant 0 <= k <= |sorted|
      invariant forall j | k <= j < |sorted| :: RankLess(devices[m], devices[sorted[j]])
    {
      k := k - 1;
    }
    r := sorted[..k] + [m] + sorted[k..];
    assert sorted == sorted[..k] + sorted[k..];
    InsertRanked(devices, sorted, m, k);
  }

  lemma InsertRanked(devices: seq<DeviceDesc>, sorted: seq<nat>, m: nat, k: nat)
    requires Within(sorted, |devices|) && m < |devices| && Ranked(devices, sorted) && k <= |sorted|
    requires forall j | k <= j < |sorted| :: RankLess(devices[m], devices[sorted[j]])
    requires k > 0 ==> !RankLess(devices[m], devices[sorted[k - 1]])
    ensures var r := sorted[..k] + [m] + sorted[k..]; Within(r, |devices|) && Ranked(devices, r)
  {
    hide RankLess;
    forall j | 0 <= j < k
      ensures !RankLess(devices[m], devices[sorted[j]])
    {
      if j < k - 1 { RankOrder(devices[sorted[j]], devices[sorted[k - 1]], devices[m]); }
    }
    forall j | k <= j < |sorted|
      ensures !RankLess(devices[sorted[j]], devices[m])
    {
      RankOrder(devices[m], devices[sorted[j]], devices[m]);
    }
    var r := sorted[..k] + [m] + sorted[k..];
    assert forall i | 0 <= i < |r| :: r[i] == if i < k then sorted[i] else if i == k then m else sorted[i - 1];
  }

  lemma {:induction false} OnceEach(s: seq<nat>, x: nat)
    requires NoRepeats(s)
    ensures multiset(s)[x] <= 1
  {
    if s != [] {
      var n := |s| - 1;
      assert s == s[..n] + [s[n]];
      OnceEach(s[..n], x);
      if x == s[n] { assert x !in s[..n]; }
    }
  }

  lemma {:induction false} PositionCounts(s: seq<nat>, i: nat, j: nat)
    requires i < j < |s| && s[i] == s[j]
    ensures multiset(s)[s[i]] >= 2
  {
    assert s == s[..j] + s[j..];
    assert s[i] in s[..j] && s[j] in s[j..];
    assert multiset(s) == multiset(s[..j]) + multiset(s[j..]);
  }

  lemma PermNoRepeats(s: seq<nat>, t: seq<nat>)
    requires multiset(s) == multiset(t) && NoRepeats(t)
    ensures NoRepeats(s) && |s| == |t| && forall x :: x in s <==> x in t
  {
    forall i, j | 0 <= i < j < |s|
      ensures s[i] != s[j]
    {
      if s[i] == s[j] {
        PositionCounts(s, i, j);
        OnceEach(t, s[i]);
      }
    }
    assert |s| == |multiset(s)| && |t| == |multiset(t)|;
    forall x
      ensures x in s <==> x in t
    {
      assert x in s <==> x in multiset(s);
      assert x in t <==> x in multiset(t);
    }
  }

  lemma PermHomed(groups: seq<DeviceGroup>, home: seq<nat>, g: nat, sorted: seq<nat>)
    requires Homed(groups, home) && g < |groups| && multiset(sorted) == multiset(groups[g].members)
    ensures Homed(groups[g := groups[g].(members := sorted)], home)
  {
    PermNoRepeats(sorted, groups[g].members);
    hide NoRepeats;
    var groups2 := groups[g := groups[g].(members := sorted)];
    forall i | 0 <= i < |home|
      ensures InGroup(groups2, home[i], i)
    {
      assert InGroup(groups, home[i], i);
    }
    forall h: nat, i: nat | InGroup(groups2, h, i)
      ensures i < |home| && home[i] == h
    {
      assert InGroup(groups, h, i);
    }
    assert sorted != [] by { assert |sorted| == |groups[g].members|; }
  }

  // ---------------------------------------------------------------- roles

  /** The role of the k-th ranked member: the first one is the status device. */
  function WithRole(d: DeviceDesc, k: nat, baseProto: int): DeviceDesc {
    d.(isEvent := k > 0, eventType := if k > 0 then d.dataProtoId - baseProto else 0,
       immediateFlush := k == 0 && d.connProto == CONN_CUSTOM_DATA)
  }

  predicate HasRole(d: DeviceDesc, k: nat, baseProto: int) { d == WithRole(d, k, baseProto) }

  /** Only the role of a device changes. */
  predicate SameButRole(d: DeviceDesc, e: DeviceDesc) {
    e == d.(isEvent := e.isEvent, eventType := e.eventType, immediateFlush := e.immediateFlush)
  }

  ghost predicate SameRouting(ds: seq<DeviceDesc>, es: seq<DeviceDesc>) {
    |ds| == |es| && forall i | 0 <= i < |ds| :: SameButRole(ds[i], es[i])
  }

  /** Ranked members, each with the role of its rank: exactly one status device, of least rank. */
  ghost predicate Marked(devices: seq<DeviceDesc>, members: seq<nat>) {
    && members != [] && Within(members, |devices|) && Ranked(devices, members)
    && forall k | 0 <= k < |members| :: HasRole(devices[members[k]], k, devices[members[0]].dataProtoId)
  }

  method MarkGroup(devices: seq<DeviceDesc>, members: seq<nat>) returns (r: seq<DeviceDesc>)
    requires members != [] && Within(members, |devices|) && NoRepeats(members) && Ranked(devices, members)
    ensures SameRouting(devices, r) && Marked(r, members)
    ensures forall i | 0 <= i < |devices| && i !in members :: r[i] == devices[i]
  {
    r := devices;
    var baseProto := devices[members[0]].dataProtoId;
    hide RankLess;
    for k := 0 to |members|
      invariant SameRouting(devices, r)
      invariant forall j | 0 <= j < k :: HasRole(r[members[j]], j, baseProto)
      invariant forall i | 0 <= i < |devices| && i !in members :: r[i] == devices[i]
    {
      r := r[members[k] := WithRole(r[members[k]], k, baseProto)];
    }
    RankedKept(devices, r, members);
  }

  lemma RankedKept(ds: seq<DeviceDesc>, es: seq<DeviceDesc>, members: seq<nat>)
    requires SameRouting(ds, es) && Within(members, |ds|) && Ranked(ds, members)
    ensures Ranked(es, members)
  {
  }

  lemma KeysKept(ds: seq<DeviceDesc>, es: seq<DeviceDesc>, i: nat)
    requires SameRouting(ds, es) && i < |ds|
    ensures KeyOf(ds, i) == KeyOf(es, i) && ds[i].ip == es[i].ip && ds[i].devicePort == es[i].devicePort
  {
  }

  lemma PartitionKept(ds: seq<DeviceDesc>, es: seq<DeviceDesc>, n: nat, groups: seq<DeviceGroup>, home: seq<nat>,
                      byIpPort: map<string, nat>)
    requires SameRouting(ds, es) && Partition(ds, n, groups, home) && PortIndex(ds, home, byIpPort)
    ensures Partition(es, n, groups, home) && PortIndex(es, home, byIpPort)
  {
    hide EndpointKey, StandaloneKey, Homed;
    forall i | 0 <= i < |ds|
      ensures KeyOf(ds, i) == KeyOf(es, i) && ds[i].ip == es[i].ip && ds[i].devicePort == es[i].devicePort
    {
      KeysKept(ds, es, i);
    }
    hide SameRouting;
    assert forall i: nat, k :: Indexes(ds, i, k) <==> Indexes(es, i, k);
  }

  // ---------------------------------------------------------------- the ip-only fallback

  predicate HasIp(g: DeviceGroup, ip: string) { UpToColon(g.key) == ip }

  /** How many groups use an ip. */
  function CountIp(groups: seq<DeviceGroup>, ip: string): nat {
    if groups == [] then 0
    else CountIp(groups[..|groups| - 1], ip) + (if HasIp(groups[|groups| - 1], ip) then 1 else 0)
  }

  lemma {:induction false} CountPositive(groups: seq<DeviceGroup>, ip: string, g: nat)
    requires g < |groups| && HasIp(groups[g], ip)
    ensures CountIp(groups, ip) >= 1
  {
    if g < |groups| - 1 { CountPositive(groups[..|groups| - 1], ip, g); }
  }

  lemma {:induction false} CountTwo(groups: seq<DeviceGroup>, ip: string, g: nat, h: nat)
    requires g < h < |groups| && HasIp(groups[g], ip) && HasIp(groups[h], ip)
    ensures CountIp(groups, ip) >= 2
  {
    if h < |groups| - 1 { CountTwo(groups[..|groups| - 1], ip, g, h); } else { CountPositive(groups[..h], ip, g); }
  }

  lemma {:induction false} CountZero(groups: seq<DeviceGroup>, ip: string)
    requires forall g | 0 <= g < |groups| :: !HasIp(groups[g], ip)
    ensures CountIp(groups, ip) == 0
  {
    if groups != [] { CountZero(groups[..|groups| - 1], ip); }
  }

  /** A single group with an ip counts one. */
  lemma {:induction false} CountOne(groups: seq<DeviceGroup>, ip: string, g: nat)
    requires g < |groups| && HasIp(groups[g], ip) && forall h | 0 <= h < |groups| && h != g :: !HasIp(groups[h], ip)
    ensures CountIp(groups, ip) == 1
  {
    var n := |groups| - 1;
    if g < n { CountOne(groups[..n], ip, g); } else { CountZero(groups[..n], ip); }
  }

  /** byIpUnique holds exactly the ips that one group uses. */
  ghost predicate IpIndex(groups: seq<DeviceGroup>, byIpUnique: map<string, nat>) {
    && (forall ip | ip in byIpUnique ::
      byIpUnique[ip] < |groups| && HasIp(groups[byIpUnique[ip]], ip) && CountIp(groups, ip) == 1)
    && (forall g, ip | 0 <= g < |groups| && HasIp(groups[g], ip) && CountIp(groups, ip) == 1 :: ip in byIpUnique)
  }

  method IndexIps(groups: seq<DeviceGroup>) returns (byIpUnique: map<string, nat>)
    ensures IpIndex(groups, byIpUnique)
  {
    var uses: map<string, nat> := map[];
    for g := 0 to |groups|
      invariant forall ip :: (if ip in uses then uses[ip] else 0) == CountIp(groups[..g], ip)
    {
      assert groups[..g + 1][..g] == groups[..g];
      var ip := UpToColon(groups[g].key);
      uses := uses[ip := (if ip in uses then uses[ip] else 0) + 1];
    }
    assert groups[..|groups|] == groups;
    byIpUnique := map[];
    for g := 0 to |groups|
      invariant forall ip | ip in byIpUnique ::
        byIpUnique[ip] < |groups| && HasIp(groups[byIpUnique[ip]], ip) && CountIp(groups, ip) == 1
      invariant forall h, ip | 0 <= h < g && HasIp(groups[h], ip) && CountIp(groups, ip) == 1 :: ip in byIpUnique
    {
      var ip := UpToColon(groups[g].key);
      CountPositive(groups, ip, g);
      if uses[ip] == 1 { byIpUnique := byIpUnique[ip := g]; }
    }
  }

  // ---------------------------------------------------------------- matching, by linear scan

  /** The rows with exactly this endpoint. */
  ghost function Exact(devices: seq<DeviceDesc>, ip: string, port: nat): set<nat> {
    set i: nat | i < |devices| && port != 0 && devices[i].ip == ip && devices[i].devicePort == port
  }

  /** The rows whose ip, up to a colon, is this one. */
  ghost function WithIp(devices: seq<DeviceDesc>, ip: string): set<nat> {
    set i: nat | i < |devices| && UpToColon(devices[i].ip) == ip
  }

  ghost predicate OneEndpoint(devices: seq<DeviceDesc>, rows: set<nat>)
    requires forall i | i in rows :: i < |devices|
  {
    forall i, j | i in rows && j in rows :: SameEndpoint(devices, i, j)
  }

  ghost function MemberSet(g: DeviceGroup): set<nat> { set i | i in g.members }

  /** An answer by the rows of the exact endpoint, else by the rows of the ip if they are one
      endpoint, else none. */
  ghost predicate Answers(devices: seq<DeviceDesc>, groups: seq<DeviceGroup>, exact: set<nat>, rows: set<nat>,
                          r: Option<nat>)
    requires forall i | i in rows :: i < |devices|
  {
    if exact != {} then r.Some? && r.value < |groups| && MemberSet(groups[r.value]) == exact
    else if rows != {} && OneEndpoint(devices, rows) then
      r.Some? && r.value < |groups| && MemberSet(groups[r.value]) == rows
    else r == None
  }

  /** What matchGroup returns, said of the device rows alone. */
  ghost predicate Matches(devices: seq<DeviceDesc>, groups: seq<DeviceGroup>, ip: string, port: nat, r: Option<nat>) {
    Answers(devices, groups, Exact(devices, ip, port), WithIp(devices, ip), r)
  }

  ghost predicate Indexed(devices: seq<DeviceDesc>, groups: seq<DeviceGroup>, home: seq<nat>,
                          byIpPort: map<string, nat>, byIpUnique: map<string, nat>) {
    && Partition(devices, |devices|, groups, home) && PortIndex(devices, home, byIpPort) && IpIndex(groups, byIpUnique)
    && forall g | 0 <= g < |groups| :: Marked(devices, groups[g].members)
  }

  /** An indexed endpoint is found, with exactly its rows. */
  lemma ExactFound(devices: seq<DeviceDesc>, groups: seq<DeviceGroup>, home: seq<nat>, byIpPort: map<string, nat>,
                   ip: string, port: nat)
    requires Partition(devices, |devices|, groups, home) && PortIndex(devices, home, byIpPort)
    ensures EndpointKey(ip, port) in byIpPort <==> Exact(devices, ip, port) != {}
    ensures EndpointKey(ip, port) in byIpPort ==>
      var g := byIpPort[EndpointKey(ip, port)];
      g < |groups| && MemberSet(groups[g]) == Exact(devices, ip, port)
  {
    var k := EndpointKey(ip, port);
    if k in byIpPort {
      var i :| 0 <= i < |home| && Indexes(devices, i, k);
      KeyInjective(devices[i].ip, devices[i].devicePort, ip, port);
      assert i in Exact(devices, ip, port);
      hide EndpointKey, KeyOf, Keyed, PortIndex;
      GroupIsEndpoint(devices, groups, home, i);
    } else {
      assert forall i | i in Exact(devices, ip, port) :: Indexes(devices, i, k);
    }
  }

  lemma GroupIsEndpoint(devices: seq<DeviceDesc>, groups: seq<DeviceGroup>, home: seq<nat>, i: nat)
    requires |home| == |devices| && Homed(groups, home) && OnePerEndpoint(devices, home) && i < |devices|
    ensures home[i] < |groups|
    ensures forall j: nat :: j in groups[home[i]].members <==> j < |devices| && SameEndpoint(devices, i, j)
  {
    assert InGroup(groups, home[i], i);
    forall j: nat
      ensures j in groups[home[i]].members <==> j < |devices| && SameEndpoint(devices, i, j)
    {
      if j in groups[home[i]].members {
        assert InGroup(groups, home[i], j);
      } else if j < |devices| {
        assert InGroup(groups, home[j], j);
      }
    }
  }

  lemma GroupIp(devices: seq<DeviceDesc>, groups: seq<DeviceGroup>, home: seq<nat>, i: nat)
    requires |home| == |devices| && Keyed(devices, groups, home) && i < |devices|
    ensures home[i] < |groups| && UpToColon(groups[home[i]].key) == UpToColon(devices[i].ip)
  {
    var d := devices[i];
    if d.devicePort != 0 {
      UpToColonOfKey(d.ip, Decimal(d.devicePort));
    } else {
      assert StandaloneKey(d.ip, i) == d.ip + ":" + ("0#" + Decimal(i));
      UpToColonOfKey(d.ip, "0#" + Decimal(i));
    }
  }

  /** The fallback finds a group exactly when all rows of the ip are one endpoint. */
  lemma FallbackFound(devices: seq<DeviceDesc>, groups: seq<DeviceGroup>, home: seq<nat>, byIpUnique: map<string,
                      nat>, ip: string)
    requires Partition(devices, |devices|, groups, home) && IpIndex(groups, byIpUnique)
    ensures ip in byIpUnique <==> WithIp(devices, ip) != {} && OneEndpoint(devices, WithIp(devices, ip))
    ensures ip in byIpUnique ==> byIpUnique[ip] < |groups| && MemberSet(groups[byIpUnique[ip]]) == WithIp(devices, ip)
  {
    hide KeyOf, UpToColon, SameEndpoint;
    forall i: nat | i < |devices|
      ensures home[i] < |groups| && (HasIp(groups[home[i]], ip) <==> i in WithIp(devices, ip))
    {
      GroupIp(devices, groups, home, i);
    }
    hide Keyed;
    if ip in byIpUnique {
      var g := byIpUnique[ip];
      OnlyGroup(devices, groups, home, ip, g);
    } else if WithIp(devices, ip) != {} && OneEndpoint(devices, WithIp(devices, ip)) {
      var i :| i in WithIp(devices, ip);
      var g := home[i];
      forall h | 0 <= h < |groups| && h != g
        ensures !HasIp(groups[h], ip)
      {
        var j := groups[h].members[0];
        assert InGroup(groups, h, j);
      }
      CountOne(groups, ip, g);
    }
  }

  lemma OnlyGroup(devices: seq<DeviceDesc>, groups: seq<DeviceGroup>, home: seq<nat>, ip: string, g: nat)
    requires |home| == |devices| && Homed(groups, home) && OnePerEndpoint(devices, home)
    requires g < |groups| && HasIp(groups[g], ip) && CountIp(groups, ip) == 1
    requires forall i | 0 <= i < |devices| ::
      home[i] < |groups| && (HasIp(groups[home[i]], ip) <==> i in WithIp(devices, ip))
    ensures MemberSet(groups[g]) == WithIp(devices, ip) != {} && OneEndpoint(devices, WithIp(devices, ip))
  {
    hide HasIp, SameEndpoint, CountIp;
    forall i: nat | i in WithIp(devices, ip)
      ensures home[i] == g && i in groups[g].members
    {
      if home[i] < g { CountTwo(groups, ip, home[i], g); }
      if g < home[i] { CountTwo(groups, ip, g, home[i]); }
      assert InGroup(groups, home[i], i);
    }
    forall i: nat | i in groups[g].members
      ensures i in WithIp(devices, ip)
    {
      assert InGroup(groups, g, i);
    }
    assert groups[g].members[0] in MemberSet(groups[g]);
  }

  // ---------------------------------------------------------------- the configuration

  class ConfigDB {
    var devices: seq<DeviceDesc>
    var groups: seq<DeviceGroup>
    var byIpPort: map<string, nat>
    var byIpUnique: map<string, nat>
    ghost var home: seq<nat>

    ghost predicate Valid()
      reads this
    {
      Indexed(devices, groups, home, byIpPort, byIpUnique)
    }

    constructor (ds: seq<DeviceDesc>)
      ensures devices == ds
    {
      devices, groups, byIpPort, byIpUnique, home := ds, [], map[], map[], [];
    }

    /** rebuildIndexes: groups are the endpoints, ranked and marked; both lookups are exact. */
    method RebuildIndexes()
      modifies this
      ensures Valid() && SameRouting(old(devices), devices)
    {
      GroupDevices();
      RankMembers();
      byIpUnique := IndexIps(groups);
    }

    method GroupDevices()
      modifies this`groups, this`byIpPort, this`home
      ensures Partition(devices, |devices|, groups, home) && PortIndex(devices, home, byIpPort)
    {
      groups, byIpPort, home := [], map[], [];
      hide EndpointKey, StandaloneKey, Homed, Keyed, OnePerEndpoint, PortIndex;
      NothingGrouped(devices);
      for i := 0 to |devices|
        invariant Partition(devices, i, groups, home) && PortIndex(devices, home, byIpPort)
      {
        var d := devices[i];
        if d.devicePort != 0 {
          var key := EndpointKey(d.ip, d.devicePort);
          if key in byIpPort {
            JoinGroup(devices, i, groups, home, byIpPort, key);
            var gi := byIpPort[key];
            groups := groups[gi := groups[gi].(members := groups[gi].members + [i])];
            home := home + [gi];
          } else {
            FoundGroup(devices, i, groups, home, byIpPort);
            byIpPort, home := byIpPort[key := |groups|], home + [|groups|];
            groups := groups + [DeviceGroup(key, [i])];
          }
        } else {
          FoundGroup(devices, i, groups, home, byIpPort);
          home := home + [|groups|];
          groups := groups + [DeviceGroup(StandaloneKey(d.ip, i), [i])];
        }
      }
    }

    method RankMembers()
      requires Partition(devices, |devices|, groups, home) && PortIndex(devices, home, byIpPort)
      modifies this`devices, this`groups
      ensures Partition(devices, |devices|, groups, home) && PortIndex(devices, home, byIpPort)
      ensures SameRouting(old(devices), devices) && forall g | 0 <= g < |groups| :: Marked(devices, groups[g].members)
    {
      hide KeyOf, PortIndex, Homed, OnePerEndpoint, NoRepeats, Marked;
      for g := 0 to |groups|
        invariant |groups| == |old(groups)| && SameRouting(old(devices), devices)
        invariant Partition(devices, |devices|, groups, home) && PortIndex(devices, home, byIpPort)
        invariant forall h | 0 <= h < g :: Marked(devices, groups[h].members)
      {
        RankGroup(g);
      }
    }

    method RankGroup(g: nat)
      requires Partition(devices, |devices|, groups, home) && PortIndex(devices, home, byIpPort) && g < |groups|
      requires forall h | 0 <= h < g :: Marked(devices, groups[h].members)
      modifies this`devices, this`groups
      ensures Partition(devices, |devices|, groups, home) && PortIndex(devices, home, byIpPort)
      ensures SameRouting(old(devices), devices) && |groups| == |old(groups)|
      ensures forall h | 0 <= h <= g :: Marked(devices, groups[h].members)
    {
      hide KeyOf, PortIndex, OnePerEndpoint, Marked, Ranked;
      GroupWithin(devices, groups, home, g);
      var sorted := SortMembers(devices, groups[g].members);
      PermNoRepeats(sorted, groups[g].members);
      PermHomed(groups, home, g, sorted);
      var marked := MarkGroup(devices, sorted);
      forall h | 0 <= h < g
        ensures Marked(marked, groups[h].members)
      {
        OtherGroup(devices, marked, groups, home, g, h);
      }
      groups := groups[g := groups[g].(members := sorted)];
      hide Homed;
      PartitionKept(devices, marked, |devices|, groups, home, byIpPort);
      devices := marked;
    }

    /** matchGroup: the exact endpoint, else the only endpoint of the rows whose ip is the peer's up
        to a colon, else none. */
    method MatchGroup(ip: string, port: nat) returns (r: Option<nat>)
      requires Valid()
      ensures Matches(devices, groups, ip, port, r)
    {
      ExactFound(devices, groups, home, byIpPort, ip, port);
      FallbackFound(devices, groups, home, byIpUnique, ip);
      hide Partition, PortIndex, IpIndex, Exact, WithIp, OneEndpoint, MemberSet, EndpointKey, Marked;
      var key := EndpointKey(ip, port);
      if key in byIpPort { return Some(byIpPort[key]); }
      if ip in byIpUnique { return Some(byIpUnique[ip]); }
      return None;
    }
  }

  lemma NothingGrouped(devices: seq<DeviceDesc>)
    ensures Partition(devices, 0, [], []) && PortIndex(devices, [], map[])
  {
  }

  lemma GroupWithin(devices: seq<DeviceDesc>, groups: seq<DeviceGroup>, home: seq<nat>, g: nat)
    requires Homed(groups, home) && |home| == |devices| && g < |groups|
    ensures groups[g].members != [] && Within(groups[g].members, |devices|) && NoRepeats(groups[g].members)
  {
    forall k | 0 <= k < |groups[g].members|
      ensures groups[g].members[k] < |devices|
    {
      assert InGroup(groups, g, groups[g].members[k]);
    }
  }

  /** Marking one group leaves the marks of another alone. */
  lemma OtherGroup(ds: seq<DeviceDesc>, es: seq<DeviceDesc>, groups: seq<DeviceGroup>, home: seq<nat>, g: nat, h: nat)
    requires Homed(groups, home) && |home| == |ds| && g < |groups| && h < |groups| && g != h
    requires SameRouting(ds, es) && Marked(ds, groups[h].members)
    requires forall i | 0 <= i < |ds| && i !in groups[g].members :: es[i] == ds[i]
    ensures Marked(es, groups[h].members)
  {
    hide RankLess, NoRepeats;
    var members := groups[h].members;
    forall k | 0 <= k < |members|
      ensures es[members[k]] == ds[members[k]]
    {
      assert InGroup(groups, h, members[k]);
      assert members[k] in groups[g].members ==> InGroup(groups, g, members[k]);
    }
  }

  // ---------------------------------------------------------------- what routing means

  /** s comes before t or equals it: a prefix of it, or smaller at the first character that differs. */
  ghost predicate TextAtMost(s: string, t: string) {
    s <= t || exists i: nat :: i < |s| && i < |t| && s[..i] == t[..i] && s[i] < t[i]
  }

  lemma {:induction false} NotAfter(s: string, t: string)
    requires !TextLess(t, s)
    ensures TextAtMost(s, t)
    decreases |s|
  {
    if s != [] {
      if s[0] == t[0] {
        NotAfter(s[1..], t[1..]);
        if s[1..] <= t[1..] {
          assert s == [s[0]] + s[1..] && t == [t[0]] + t[1..];
        } else {
          var i: nat :| i < |s[1..]| && i < |t[1..]| && s[1..][..i] == t[1..][..i] && s[1..][i] < t[1..][i];
          assert s[..i + 1] == [s[0]] + s[1..][..i] && t[..i + 1] == [t[0]] + t[1..][..i];
          assert s[i + 1] < t[i + 1];
        }
      } else {
        assert s[..0] == t[..0] && s[0] < t[0];
      }
    }
  }

  /** Members are in order of their data_proto_id, and of their device id where that is the same. */
  ghost predicate InOrder(a: DeviceDesc, b: DeviceDesc) {
    a.dataProtoId < b.dataProtoId || (a.dataProtoId == b.dataProtoId && TextAtMost(a.deviceId, b.deviceId))
  }

  lemma RankedInOrder(devices: seq<DeviceDesc>, ms: seq<nat>, j: nat, k: nat)
    requires Within(ms, |devices|) && Ranked(devices, ms) && j < k < |ms|
    ensures InOrder(devices[ms[j]], devices[ms[k]])
  {
    var a, b := devices[ms[j]], devices[ms[k]];
    assert !RankLess(b, a);
    if a.dataProtoId == b.dataProtoId { NotAfter(a.deviceId, b.deviceId); }
  }

  /** Each group has exactly one status device, with the least data_proto_id and, among equals, the
      first device id; an event device's type is its distance from it. */
  lemma OneStatusDevice(devices: seq<DeviceDesc>, groups: seq<DeviceGroup>, home: seq<nat>,
                        byIpPort: map<string, nat>, byIpUnique: map<string, nat>, g: nat)
    requires Indexed(devices, groups, home, byIpPort, byIpUnique) && g < |groups|
    ensures var ms := groups[g].members;
      && ms != [] && Within(ms, |devices|)
      && (forall k | 0 <= k < |ms| :: !devices[ms[k]].isEvent <==> k == 0)
      && (forall j, k | 0 <= j < k < |ms| :: InOrder(devices[ms[j]], devices[ms[k]]))
      && (forall k | 0 <= k < |ms| ::
            devices[ms[k]].eventType == devices[ms[k]].dataProtoId - devices[ms[0]].dataProtoId >= 0)
      && (forall k | 0 <= k < |ms| :: devices[ms[k]].immediateFlush
           <==> !devices[ms[k]].isEvent && devices[ms[k]].connProto == CONN_CUSTOM_DATA)
  {
    hide RankLess, InOrder, Ranked;
    var ms := groups[g].members;
    assert Marked(devices, ms);
    var base := devices[ms[0]].dataProtoId;
    assert forall k | 0 <= k < |ms| :: HasRole(devices[ms[k]], k, base);
    forall j, k | 0 <= j < k < |ms|
      ensures InOrder(devices[ms[j]], devices[ms[k]])
    {
      RankedInOrder(devices, ms, j, k);
    }
    forall k | 0 < k < |ms|
      ensures base <= devices[ms[k]].dataProtoId
    {
      assert InOrder(devices[ms[0]], devices[ms[k]]);
      LeastProto(devices[ms[0]], devices[ms[k]]);
    }
  }

  lemma LeastProto(a: DeviceDesc, b: DeviceDesc)
    requires InOrder(a, b)
    ensures a.dataProtoId <= b.dataProtoId
  {
  }

  /** The rows with exactly this ip. */
  ghost function ByIp(devices: seq<DeviceDesc>, ip: string): set<nat> {
    set i: nat | i < |devices| && devices[i].ip == ip
  }

  /** An ip with a colon is never matched by the fallback, and the rows it considers are those of
      the ip exactly when no row with a colon has that ip, whole or up to its colon. */
  lemma FallbackIps(devices: seq<DeviceDesc>, ip: string)
    ensures ':' in ip ==> WithIp(devices, ip) == {}
    ensures WithIp(devices, ip) == ByIp(devices, ip) <==> ColonRows(devices, ip) == {}
    ensures ':' in ip ==> PlainRows(devices, ip) == {} && ColonRows(devices, ip) == ByIp(devices, ip)
    ensures ':' !in ip ==>
      && PlainRows(devices, ip) == ByIp(devices, ip)
      && WithIp(devices, ip) == PlainRows(devices, ip) + ColonRows(devices, ip)
  {
    UpToColonPlain(ip);
    forall i: nat | i < |devices|
      ensures ':' in ip ==> UpToColon(devices[i].ip) != ip
      ensures ':' !in devices[i].ip ==> UpToColon(devices[i].ip) == devices[i].ip
    {
      UpToColonPlain(devices[i].ip);
    }
    hide UpToColon;
    if ColonRows(devices, ip) != {} {
      var i :| i in ColonRows(devices, ip);
      assert i in WithIp(devices, ip) <==> i !in ByIp(devices, ip);
    } else {
      assert forall i: nat | i < |devices| && ':' in devices[i].ip :: i !in ColonRows(devices, ip);
    }
  }

  /** Rows whose ip has a colon and is this ip, whole or up to the colon. */
  ghost function ColonRows(devices: seq<DeviceDesc>, ip: string): set<nat> {
    set i: nat | i < |devices| && ':' in devices[i].ip && (devices[i].ip == ip || UpToColon(devices[i].ip) == ip)
  }

  ghost function PlainRows(devices: seq<DeviceDesc>, ip: string): set<nat> {
    set i: nat | i < |devices| && ':' !in devices[i].ip && devices[i].ip == ip
  }

  /** A scan by equality of ips: the exact endpoint, else the only endpoint of the ip, else none. */
  ghost predicate MatchesByIp(devices: seq<DeviceDesc>, groups: seq<DeviceGroup>, ip: string, port: nat,
                              r: Option<nat>) {
    Answers(devices, groups, Exact(devices, ip, port), ByIp(devices, ip), r)
  }

  /** A colon stands in the way: the fallback is asked for, a row with a colon is mistaken for the
      ip or overlooked, and the rows that would decide are one endpoint. */
  ghost predicate Misled(devices: seq<DeviceDesc>, ip: string, port: nat) {
    && Exact(devices, ip, port) == {} && ColonRows(devices, ip) != {}
    && if PlainRows(devices, ip) == {} then OneEndpoint(devices, ColonRows(devices, ip))
       else OneEndpoint(devices, PlainRows(devices, ip))
  }

  /** matchGroup answers as the scan by equality of ips does, exactly when no colon stands in the way. */
  lemma FallbackAnswer(devices: seq<DeviceDesc>, groups: seq<DeviceGroup>, ip: string, port: nat, r: Option<nat>)
    requires Matches(devices, groups, ip, port, r)
    ensures MatchesByIp(devices, groups, ip, port, r) <==> !Misled(devices, ip, port)
  {
    FallbackIps(devices, ip);
    var plain, colon := PlainRows(devices, ip), ColonRows(devices, ip);
    if plain != {} && colon != {} { MixedRows(devices, ip); }
    hide SameEndpoint, UpToColon;
    if Exact(devices, ip, port) == {} && ':' !in ip && plain == {} {
      assert WithIp(devices, ip) == colon;
    }
  }

  /** Rows with and without a colon are never one endpoint. */
  lemma MixedRows(devices: seq<DeviceDesc>, ip: string)
    requires PlainRows(devices, ip) != {} && ColonRows(devices, ip) != {}
    ensures !OneEndpoint(devices, PlainRows(devices, ip) + ColonRows(devices, ip))
  {
    var i :| i in PlainRows(devices, ip);
    var j :| j in ColonRows(devices, ip);
    assert !SameEndpoint(devices, i, j);
  }

  /** A peer whose ip has one configured endpoint, and a colon, is not found on another port. */
  method ColonPeerOverlooked(d: DeviceDesc) returns (r: Option<nat>)
    requires d.ip == "fe80::1" && d.devicePort == 5000
    ensures r == None && ByIp([d], "fe80::1") == {0} && OneEndpoint([d], {0})
  {
    var db := new ConfigDB([d]);
    db.RebuildIndexes();
    r := db.MatchGroup("fe80::1", 6000);
    FallbackIps(db.devices, "fe80::1");
    assert Exact(db.devices, "fe80::1", 6000) == {};
  }

  /** A peer no row has the ip of is taken for a row whose ip begins like it. */
  method ColonRowMistaken(d: DeviceDesc) returns (r: Option<nat>)
    requires d.ip == "fe80::1" && d.devicePort == 5000
    ensures r.Some? && ByIp([d], "fe80") == {}
  {
    var db := new ConfigDB([d]);
    db.RebuildIndexes();
    r := db.MatchGroup("fe80", 5000);
    assert Exact(db.devices, "fe80", 5000) == {};
    UpToColonOfKey("fe80", ":1");
    UpToColonPlain("fe80");
    assert "fe80" + ":" + ":1" == "fe80::1";
    assert WithIp(db.devices, "fe80") == {0};
  }
}
