/**
 * The launcher: it starts the portal only on the company network, judged by the Wi-Fi name,
 * the default gateway, or a local address in the gateway's /24 subnet. What the operating
 * system reports (gateway, SSID, interface addresses, the route table text) is an input.
 */
module Launcher {
  import opened Common
  import opened Strings
  import opened Collections

  /** `EXPECTED_GATEWAY || COMPANY_GATEWAY || ''`. */
  function ExpectedGateway(gateway: Option<string>, company: Option<string>): (r: string)
    ensures Truthy(gateway) ==> r == gateway.value
    ensures !Truthy(gateway) && Truthy(company) ==> r == company.value
    ensures !Truthy(gateway) && !Truthy(company) ==> r == ""
  {
    Or(Or(gateway, company), Some("")).value
  }

  /** `EXPECTED_SSID || ''`. */
  function ExpectedSsid(ssid: Option<string>): (r: string)
    ensures r == "" <==> !Truthy(ssid)
    ensures Truthy(ssid) ==> r == ssid.value
  {
    if Truthy(ssid) then ssid.value else ""
  }

  /** `ip.split('.').slice(0, 3).join('.')`. */
  function SubnetPrefix(ip: string): string {
    Join(Take(Split(ip, '.'), 3), '.')
  }

  /** `inSame24(a, b)`: both given and with the same first three dotted segments. */
  function InSame24(a: Option<string>, b: Option<string>): (r: bool)
    ensures !Truthy(a) || !Truthy(b) ==> !r
  {
    Truthy(a) && Truthy(b) && SubnetPrefix(a.value) == SubnetPrefix(b.value)
  }

  /** Two given addresses are in the same /24 exactly when their first three segments agree. */
  lemma InSame24Segments(a: string, b: string)
    requires a != "" && b != ""
    ensures InSame24(Some(a), Some(b)) <==> Take(Split(a, '.'), 3) == Take(Split(b, '.'), 3)
  {
    var x, y := Take(Split(a, '.'), 3), Take(Split(b, '.'), 3);
    assert forall i :: 0 <= i < |x| ==> '.' !in x[i] by {
      assert forall i :: 0 <= i < |x| ==> x[i] == Split(a, '.')[i];
    }
    assert forall i :: 0 <= i < |y| ==> '.' !in y[i] by {
      assert forall i :: 0 <= i < |y| ==> y[i] == Split(b, '.')[i];
    }
    if Join(x, '.') == Join(y, '.') {
      JoinInjective(x, y, '.');
    }
  }

  lemma InSame24Symmetric(a: Option<string>, b: Option<string>)
    ensures InSame24(a, b) == InSame24(b, a)
  {
  }

  lemma InSame24Reflexive(a: string)
    requires a != ""
    ensures InSame24(Some(a), Some(a))
  {
  }

  /** One non-internal IPv4 interface address. */
  datatype Address = Address(name: string, address: string)

  /** The SSID test: both names given and the detected one contains the expected one, ignoring case. */
  predicate SsidMatches(expectedSsid: string, ssidDetected: Option<string>) {
    expectedSsid != "" && Truthy(ssidDetected) && Contains(ToLower(ssidDetected.value), ToLower(expectedSsid))
  }

  /** The gateway test: a configured gateway equal to the detected one. */
  predicate GatewayMatches(expectedGateway: string, gatewayDetected: Option<string>) {
    expectedGateway != "" && Truthy(gatewayDetected) && gatewayDetected.value == expectedGateway
  }

  function SameSubnetAs(gateway: string): Address -> bool {
    (a: Address) => InSame24(Some(a.address), Some(gateway))
  }

  /** The subnet test: a configured gateway and some interface address in its /24. */
  predicate SubnetMatches(expectedGateway: string, addresses: seq<Address>) {
    expectedGateway != "" && exists i :: 0 <= i < |addresses| && SameSubnetAs(expectedGateway)(addresses[i])
  }

  predicate OnCompanyNetwork(expectedGateway: string, expectedSsid: string, gatewayDetected: Option<string>,
                             ssidDetected: Option<string>, addresses: seq<Address>) {
    || SsidMatches(expectedSsid, ssidDetected)
    || GatewayMatches(expectedGateway, gatewayDetected)
    || SubnetMatches(expectedGateway, addresses)
  }

  /** With neither a gateway nor an SSID configured, the launcher never starts the portal. */
  lemma NothingConfiguredNeverStarts(gatewayDetected: Option<string>, ssidDetected: Option<string>, addresses: seq<Address>)
    ensures !OnCompanyNetwork("", "", gatewayDetected, ssidDetected, addresses)
  {
  }

  /** The check that succeeded first. */
  datatype Reason = BySsid | ByGateway | BySubnet(index: nat) | NotConnected

  /**
   * The decision in `main`: the SSID test, then the gateway test, then the interface loop,
   * which stops at the first address in the gateway's subnet.
   */
  method Decide(expectedGateway: string, expectedSsid: string, gatewayDetected: Option<string>,
                ssidDetected: Option<string>, addresses: seq<Address>) returns (ok: bool, reason: Reason)
    ensures ok <==> OnCompanyNetwork(expectedGateway, expectedSsid, gatewayDetected, ssidDetected, addresses)
    ensures ok <==> !reason.NotConnected?
    ensures reason.BySsid? <==> SsidMatches(expectedSsid, ssidDetected)
    ensures reason.ByGateway? <==> !SsidMatches(expectedSsid, ssidDetected) && GatewayMatches(expectedGateway, gatewayDetected)
    ensures reason.BySubnet? ==>
              && !SsidMatches(expectedSsid, ssidDetected) && !GatewayMatches(expectedGateway, gatewayDetected)
              && expectedGateway != ""
              && FindIndex(addresses, SameSubnetAs(expectedGateway)) == Some(reason.index)
  {
    ok := false;
    reason := NotConnected;
    if expectedSsid != "" && Truthy(ssidDetected) && Contains(ToLower(ssidDetected.value), ToLower(expectedSsid)) {
      ok := true;
      reason := BySsid;
    }
    if !ok && expectedGateway != "" && Truthy(gatewayDetected) && gatewayDetected.value == expectedGateway {
      ok := true;
      reason := ByGateway;
    }
    if !ok && expectedGateway != "" {
      var i := 0;
      while i < |addresses|
        invariant 0 <= i <= |addresses|
        invariant !ok && reason == NotConnected
        invariant forall j :: 0 <= j < i ==> !SameSubnetAs(expectedGateway)(addresses[j])
      {
        if InSame24(Some(addresses[i].address), Some(expectedGateway)) {
          ok := true;
          reason := BySubnet(i);
          break;
        }
        i := i + 1;
      }
      if ok {
        FindIndexFirst(addresses, SameSubnetAs(expectedGateway), i);
      } else {
        assert !SubnetMatches(expectedGateway, addresses);
      }
    }
  }

  /** The first position satisfying `p` is what `FindIndex` returns. */
  lemma FindIndexFirst<T>(s: seq<T>, p: T -> bool, k: nat)
    requires k < |s| && p(s[k]) && forall j :: 0 <= j < k ==> !p(s[j])
    ensures FindIndex(s, p) == Some(k)
  {
    var r := FindIndex(s, p);
    assert r.Some?;
  }

  /** A field: text with no white space in it. */
  predicate NoSpace(f: string) {
    forall k :: 0 <= k < |f| ==> !IsSpace(f[k])
  }

  /** A separator: a run of white space. */
  predicate AllSpace(w: string) {
    forall k :: 0 <= k < |w| ==> IsSpace(w[k])
  }

  /**
   * `l.split(/\s+/)`: the pieces between runs of white space. The first field is the longest
   * white-space-free prefix of the line, and no field contains white space.
   */
  function Fields(s: string): (r: seq<string>)
    ensures |r| >= 1
    ensures forall i :: 0 <= i < |r| ==> NoSpace(r[i])
    ensures |r[0]| <= |s| && r[0] == s[..|r[0]|]
    ensures |r[0]| < |s| ==> IsSpace(s[|r[0]|])
    decreases |s|
  {
    if NoSpace(s) then [s]
    else
      var i := FirstSpace(s);
      [s[..i]] + Fields(TrimStart(s[i..]))
  }

  /** Splitting at a run of white space: the field before it, then the fields of the rest. */
  lemma FieldsOfJoin(a: string, w: string, b: string)
    requires NoSpace(a) && w != [] && AllSpace(w)
    requires b == [] || !IsSpace(b[0])
    ensures Fields(a + w + b) == [a] + Fields(b)
  {
    var s := a + (w + b);
    assert s == a + w + b;
    FirstSpaceAfter(a, w + b);
    assert s[..|a|] == a;
    assert s[|a|..] == w + b;
    TrimStartRun(w, b);
  }

  /** The first white space of `a + t` is where `t` starts, when `a` has none and `t` starts with one. */
  lemma FirstSpaceAfter(a: string, t: string)
    requires NoSpace(a) && t != [] && IsSpace(t[0])
    ensures !NoSpace(a + t) && FirstSpace(a + t) == |a|
  {
    var s := a + t;
    assert s[|a|] == t[0];
    var i := FirstSpace(s);
    assert forall k :: 0 <= k < |a| ==> s[k] == a[k];
  }

  /** Trimming the start drops exactly a leading run of white space. */
  lemma {:induction false} TrimStartRun(w: string, b: string)
    requires AllSpace(w)
    requires b == [] || !IsSpace(b[0])
    ensures TrimStart(w + b) == b
  {
    if w == [] {
      assert w + b == b;
    } else {
      assert (w + b)[1..] == w[1..] + b;
      TrimStartRun(w[1..], b);
    }
  }

  function FirstSpace(s: string): (i: nat)
    requires exists k :: 0 <= k < |s| && IsSpace(s[k])
    ensures i < |s| && IsSpace(s[i]) && forall k :: 0 <= k < i ==> !IsSpace(s[k])
  {
    if IsSpace(s[0]) then 0 else 1 + FirstSpace(s[1..])
  }

  /** `\d+\.\d+\.\d+\.\d+`, the whole of `f`. */
  predicate IsQuad(f: string) {
    var parts := Split(f, '.');
    |parts| == 4 && forall i :: 0 <= i < 4 ==> parts[i] != "" && AllDigits(parts[i])
  }

  /** `f` begins with a dotted quad. */
  predicate StartsWithQuad(f: string) {
    exists k :: 0 < k <= |f| && IsQuad(f[..k])
  }

  /**
   * The route-line pattern of `route print -4`, read field by field: two dotted quads and a
   * field starting with one. On a trimmed line this is the anchored pattern the launcher tests.
   */
  predicate IsRouteLine(l: string) {
    var f := Fields(l);
    |f| >= 3 && IsQuad(f[0]) && IsQuad(f[1]) && StartsWithQuad(f[2])
  }

  /** The default route: destination and mask both `0.0.0.0`. */
  predicate IsDefaultRoute(l: string) {
    var f := Fields(l);
    |f| >= 3 && f[0] == "0.0.0.0" && f[1] == "0.0.0.0"
  }

  function NonEmpty(l: string): bool {
    l != ""
  }

  /** A line the Windows parse keeps: non-empty and matching the route-line pattern. */
  predicate IsRouteEntry(l: string) {
    l != "" && IsRouteLine(l)
  }

  /** `stdout.split(/\r?\n/).map(trim)`; a '\r' before a line break is white space that the trim removes. */
  function TrimmedLines(stdout: string): (r: seq<string>)
    ensures |r| == |Split(stdout, '\n')|
    ensures forall i :: 0 <= i < |r| ==> r[i] == Trim(Split(stdout, '\n')[i])
  {
    var raw := Split(stdout, '\n');
    seq(|raw|, i requires 0 <= i < |raw| => Trim(raw[i]))
  }

  /** The non-empty trimmed lines that match the route-line pattern, in order. */
  function RouteLines(stdout: string): (r: seq<string>)
    ensures forall i :: 0 <= i < |r| ==> r[i] != "" && IsRouteLine(r[i])
    ensures r == Filter(TrimmedLines(stdout), IsRouteEntry)
    ensures forall l :: l in r <==> l in TrimmedLines(stdout) && l != "" && IsRouteLine(l)
  {
    var lines := TrimmedLines(stdout);
    FilterTwice(lines, NonEmpty, IsRouteLine, IsRouteEntry);
    FilterMembers(lines, IsRouteEntry);
    Filter(Filter(lines, NonEmpty), IsRouteLine)
  }

  /**
   * The Windows branch of `detectDefaultGateway`: the gateway field of the first route line
   * whose destination and mask are `0.0.0.0`, or null. `failed` is `exec`'s error.
   */
  method WindowsGateway(failed: bool, stdout: Option<string>) returns (gateway: Option<string>)
    ensures failed || !Truthy(stdout) ==> gateway.None?
    ensures !failed && Truthy(stdout) ==>
              var routes := RouteLines(stdout.value);
              match FindIndex(routes, IsDefaultRoute)
              case None => gateway.None?
              case Some(k) => gateway == Some(Fields(routes[k])[2])
  {
    if failed || !Truthy(stdout) {
      return None;
    }
    gateway := DefaultGateway(RouteLines(stdout.value));
  }

  /** The loop over the route lines: the third field of the first default route. */
  method DefaultGateway(routes: seq<string>) returns (gateway: Option<string>)
    requires forall i :: 0 <= i < |routes| ==> IsRouteLine(routes[i])
    ensures match FindIndex(routes, IsDefaultRoute)
            case None => gateway.None?
            case Some(k) => gateway == Some(Fields(routes[k])[2])
  {
    for i := 0 to |routes|
      invariant FindIndex(routes[..i], IsDefaultRoute).None?
    {
      var parts := Fields(routes[i]);
      RouteLineFields(routes, i);
      if parts[0] == "0.0.0.0" && parts[1] == "0.0.0.0" {
        DefaultRouteFound(routes, i);
        return Some(parts[2]);
      }
      FindIndexPrefixStep(routes, i, IsDefaultRoute);
    }
    assert routes[..|routes|] == routes;
    gateway := None;
  }

  lemma RouteLineFields(routes: seq<string>, i: nat)
    requires i < |routes| && IsRouteLine(routes[i])
    ensures |Fields(routes[i])| >= 3
    ensures IsDefaultRoute(routes[i]) <==> Fields(routes[i])[0] == "0.0.0.0" && Fields(routes[i])[1] == "0.0.0.0"
  {
  }

  lemma DefaultRouteFound(routes: seq<string>, i: nat)
    requires i < |routes| && IsDefaultRoute(routes[i]) && FindIndex(routes[..i], IsDefaultRoute).None?
    ensures FindIndex(routes, IsDefaultRoute) == Some(i)
  {
    assert forall j :: 0 <= j < i ==> routes[..i][j] == routes[j];
    FindIndexFirst(routes, IsDefaultRoute, i);
  }

  /** A default route found by the Windows parse names a gateway that begins with a dotted quad. */
  lemma WindowsGatewayIsAddress(stdout: string)
    ensures var routes := RouteLines(stdout);
            var k := FindIndex(routes, IsDefaultRoute);
            k.Some? ==> StartsWithQuad(Fields(routes[k.value])[2])
  {
  }
}
