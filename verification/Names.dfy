/**
 Endpoint names: how a flow's addresses are resolved to `ns/name` (pod), `ns/name/type` (service)
 or plain IP text, and how the printed key is parsed again to find metric and labels.
 */
module Names {
  import opened Text

  // ---------------------------------------------------------------- strings.SplitN(s, "/", 3)

  function SplitN3(s: string): (parts: seq<string>)
    ensures 1 <= |parts| <= 3
  {
    var i := FirstOf(s, '/');
    if i == |s| then [s]
    else
      var rest := s[i + 1..];
      var j := FirstOf(rest, '/');
      if j == |rest| then [s[..i], rest] else [s[..i], rest[..j], rest[j + 1..]]
  }

  function Joined(parts: seq<string>): string {
    if parts == [] then ""
    else if |parts| == 1 then parts[0]
    else parts[0] + "/" + Joined(parts[1..])
  }

  /** Splitting loses nothing, so it is injective on all strings. */
  lemma JoinSplit(s: string)
    ensures Joined(SplitN3(s)) == s
  {
    hide Joined;
    var i := FirstOf(s, '/');
    if i < |s| {
      var rest := s[i + 1..];
      var j := FirstOf(rest, '/');
      assert s == s[..i] + "/" + rest;
      JoinedTwo(s[..i], rest);
      if j < |rest| {
        assert rest == rest[..j] + "/" + rest[j + 1..];
        JoinedThree(s[..i], rest[..j], rest[j + 1..]);
      }
    } else {
      JoinedOne(s);
    }
  }

  lemma JoinedOne(a: string)
    ensures Joined([a]) == a
  {}

  lemma JoinedTwo(a: string, b: string)
    ensures Joined([a, b]) == a + "/" + b
  {
    assert [a, b][1..] == [b];
  }

  lemma JoinedThree(a: string, b: string, c: string)
    ensures Joined([a, b, c]) == a + "/" + (b + "/" + c)
  {
    assert [a, b, c][1..] == [b, c];
    JoinedTwo(b, c);
  }

  lemma SplitPod(ns: string, name: string)
    requires '/' !in ns && '/' !in name
    ensures SplitN3(ns + "/" + name) == [ns, name]
  {
    FirstOfAfter(ns, '/', name);
    FirstOfNone(name, '/');
    var s := ns + "/" + name;
    assert s[..|ns|] == ns && s[|ns| + 1..] == name;
  }

  lemma SplitSvc(ns: string, name: string, scope: string)
    requires '/' !in ns && '/' !in name
    ensures SplitN3(ns + "/" + name + "/" + scope) == [ns, name, scope]
  {
    var rest := name + "/" + scope;
    FirstOfAfter(ns, '/', rest);
    FirstOfAfter(name, '/', scope);
    var s := ns + "/" + name + "/" + scope;
    assert s == ns + "/" + rest;
    assert s[..|ns|] == ns && s[|ns| + 1..] == rest;
    assert rest[..|name|] == name && rest[|name| + 1..] == scope;
  }

  lemma SplitPlain(s: string)
    requires '/' !in s
    ensures SplitN3(s) == [s]
  {
    FirstOfNone(s, '/');
  }

  // ---------------------------------------------------------------- keys

  datatype PodStatsKey = PodStatsKey(ep0: string, ep1: string) {
    function Swap(): PodStatsKey { PodStatsKey(ep1, ep0) }
    /** `clear(1)`, the only index the program clears. */
    function Clear1(): PodStatsKey { PodStatsKey(ep0, "") }
  }

  /** The bit set FROM_POD_KEY | TO_POD_KEY | FROM_SVC_KEY | TO_SVC_KEY, one flag per bit. */
  datatype KeyType = KeyType(fromPod: bool, toPod: bool, fromSvc: bool, toSvc: bool) {
    function Mirror(): KeyType { KeyType(toPod, fromPod, toSvc, fromSvc) }
  }

  const FROM_POD := KeyType(true, false, false, false)
  const TO_POD := KeyType(false, true, false, false)
  const FROM_SVC := KeyType(false, false, true, false)
  const TO_SVC := KeyType(false, false, false, true)
  const POD_TO_POD := KeyType(true, true, false, false)
  const SVC_TO_SVC := KeyType(false, false, true, true)
  const POD_TO_SVC := KeyType(true, false, false, true)
  const SVC_TO_POD := KeyType(false, true, true, false)
  const NEITHER := KeyType(false, false, false, false)

  /** What `getPodStatsKey` answers for one flow. */
  datatype Target = Target(key: PodStatsKey, kind: KeyType) {
    function Mirror(): Target { Target(key.Swap(), kind.Mirror()) }
  }

  // ---------------------------------------------------------------- getPodStatsKey

  datatype SvcInfo = SvcInfo(clusterIP: string, svcType: string)

  datatype Tables = Tables(podIpToName: map<string, string>,
                           svcIpToName: map<string, string>,
                           svcInfo: map<string, SvcInfo>)

  /** A Go map read: the zero `SvcInfo` for a missing key. */
  function SvcTypeOf(t: Tables, name: string): string {
    if name in t.svcInfo then t.svcInfo[name].svcType else ""
  }

  /** The text one endpoint contributes; a service entry overrides a pod entry. */
  function EndpointText(t: Tables, ip: string): string {
    var named :=
      if ip in t.svcIpToName then t.svcIpToName[ip] + "/" + SvcTypeOf(t, t.svcIpToName[ip])
      else if ip in t.podIpToName then t.podIpToName[ip]
      else "";
    if named == "" then ip else named
  }

  function GetPodStatsKey(t: Tables, src: string, dst: string): Target {
    Target(PodStatsKey(EndpointText(t, src), EndpointText(t, dst)),
           KeyType(src in t.podIpToName, dst in t.podIpToName, src in t.svcIpToName, dst in t.svcIpToName))
  }

  // ---------------------------------------------------------------- toPromMetricsKey

  datatype MetricName = PodSvcStats | SvcPodStats | NoExplicitStats | PodStats | SvcStats | NoName

  datatype PromMetricsKey = PromMetricsKey(
    podNamespace: seq<string>, podName: seq<string>,
    svcNamespace: seq<string>, svcScope: seq<string>, svcName: seq<string>,
    metricName: MetricName)

  /** Which endpoints of a printed key read as pods and which as services. */
  function ParsedKind(key: PodStatsKey): KeyType {
    var a, b := SplitN3(key.ep0), SplitN3(key.ep1);
    KeyType(|a| == 2, |b| == 2, |a| == 3, |b| == 3)
  }

  function MetricFor(kind: KeyType): MetricName {
    if kind == POD_TO_SVC then PodSvcStats
    else if kind == SVC_TO_POD then SvcPodStats
    else if kind == SVC_TO_SVC || kind == POD_TO_POD then NoExplicitStats
    else if kind == TO_POD || kind == FROM_POD then PodStats
    else if kind == FROM_SVC || kind == TO_SVC then SvcStats
    else NoName
  }

  /** Part `j` of every endpoint that splits into `n` parts, in order, padded to two columns. */
  function Column(key: PodStatsKey, n: nat, j: nat): (column: seq<string>)
    requires j < n
    ensures |column| == 2
  {
    var a, b := SplitN3(key.ep0), SplitN3(key.ep1);
    if |a| == n && |b| == n then [a[j], b[j]]
    else if |a| == n then [a[j], ""]
    else if |b| == n then [b[j], ""]
    else ["", ""]
  }

  function PromKey(key: PodStatsKey): (prom: PromMetricsKey)
    ensures |prom.podNamespace| == |prom.podName| == 2
    ensures |prom.svcNamespace| == |prom.svcName| == |prom.svcScope| == 2
  {
    PromMetricsKey(Column(key, 2, 0), Column(key, 2, 1),
                   Column(key, 3, 0), Column(key, 3, 2), Column(key, 3, 1),
                   MetricFor(ParsedKind(key)))
  }

  /** `toPromMetricsKey`, the loop over the two endpoints with its two running indexes. */
  method ToPromMetricsKey(key: PodStatsKey) returns (prom: PromMetricsKey)
    ensures prom == PromKey(key)
  {
    hide SplitN3, MetricFor;
    var blank := ["", ""];
    prom := PromMetricsKey(blank, blank, blank, blank, blank, NoName);
    var kind := NEITHER;
    var svcCount, podCount := 0, 0;
    var endpoints := [key.ep0, key.ep1];
    for i := 0 to 2
      invariant prom.metricName == NoName
      invariant |prom.podNamespace| == |prom.podName| == 2
      invariant |prom.svcNamespace| == |prom.svcName| == |prom.svcScope| == 2
      invariant 0 <= svcCount && 0 <= podCount && svcCount + podCount <= i
      invariant i == 0 ==> kind == NEITHER && prom == PromMetricsKey(blank, blank, blank, blank, blank, NoName)
      invariant i >= 1 ==>
        var a := SplitN3(key.ep0);
        && podCount == (if |a| == 2 then 1 else 0) + (if i == 2 && |SplitN3(key.ep1)| == 2 then 1 else 0)
        && svcCount == (if |a| == 3 then 1 else 0) + (if i == 2 && |SplitN3(key.ep1)| == 3 then 1 else 0)
      invariant i == 1 ==>
        var a := SplitN3(key.ep0);
        && kind == KeyType(|a| == 2, false, |a| == 3, false)
        && prom == PromMetricsKey(
             if |a| == 2 then [a[0], ""] else blank, if |a| == 2 then [a[1], ""] else blank,
             if |a| == 3 then [a[0], ""] else blank, if |a| == 3 then [a[2], ""] else blank,
             if |a| == 3 then [a[1], ""] else blank, NoName)
      invariant i == 2 ==> kind == ParsedKind(key) && prom == PromKey(key).(metricName := NoName)
    {
      var parts := SplitN3(endpoints[i]);
      if |parts| == 3 {
        prom := prom.(svcNamespace := prom.svcNamespace[svcCount := parts[0]],
                      svcName := prom.svcName[svcCount := parts[1]],
                      svcScope := prom.svcScope[svcCount := parts[2]]);
        svcCount := svcCount + 1;
        kind := if i == 0 then kind.(fromSvc := true) else kind.(toSvc := true);
      } else if |parts| == 2 {
        prom := prom.(podNamespace := prom.podNamespace[podCount := parts[0]],
                      podName := prom.podName[podCount := parts[1]]);
        podCount := podCount + 1;
        kind := if i == 0 then kind.(fromPod := true) else kind.(toPod := true);
      }
    }
    prom := prom.(metricName := MetricFor(kind));
  }

  // ---------------------------------------------------------------- print/parse round trip

  datatype Endpoint =
    | PodEndpoint(ns: string, name: string)
    | SvcEndpoint(ns: string, name: string, scope: string)
    | Outside(text: string)
  {
    function Print(): string {
      match this
      case PodEndpoint(ns, name) => ns + "/" + name
      case SvcEndpoint(ns, name, scope) => ns + "/" + name + "/" + scope
      case Outside(text) => text
    }

    /** No slash inside a part that is followed by another part; the last part of a service is free. */
    predicate Printable() {
      match this
      case PodEndpoint(ns, name) => '/' !in ns && '/' !in name
      case SvcEndpoint(ns, name, _) => '/' !in ns && '/' !in name
      case Outside(text) => '/' !in text
    }
  }

  function ParseEndpoint(s: string): Endpoint {
    var parts := SplitN3(s);
    if |parts| == 3 then SvcEndpoint(parts[0], parts[1], parts[2])
    else if |parts| == 2 then PodEndpoint(parts[0], parts[1])
    else Outside(s)
  }

  /** Parsing inverts printing exactly on the printable endpoints, and printing always inverts parsing. */
  lemma EndpointRoundTrip(e: Endpoint, s: string)
    ensures ParseEndpoint(e.Print()) == e <==> e.Printable()
    ensures ParseEndpoint(s).Print() == s && ParseEndpoint(s).Printable()
  {
    JoinSplit(s);
    PartsSlashFree(s);
    PartsSlashFree(e.Print());
    match e
    case PodEndpoint(ns, name) => if e.Printable() { SplitPod(ns, name); }
    case SvcEndpoint(ns, name, scope) => if e.Printable() { SplitSvc(ns, name, scope); }
    case Outside(text) => if e.Printable() { SplitPlain(text); }
  }

  lemma PartsSlashFree(s: string)
    ensures var parts := SplitN3(s);
            && '/' !in parts[0]
            && (|parts| >= 2 ==> '/' !in parts[1])
            && (|parts| == 3 ==> s == parts[0] + "/" + parts[1] + "/" + parts[2])
            && (|parts| == 2 ==> s == parts[0] + "/" + parts[1])
  {
    JoinSplit(s);
    var i := FirstOf(s, '/');
    if i < |s| {
      var rest := s[i + 1..];
      assert s == s[..i] + "/" + rest;
      var j := FirstOf(rest, '/');
      if j < |rest| {
        assert rest == rest[..j] + "/" + rest[j + 1..];
        ConcatAssociates(s[..i] + "/", rest[..j] + "/", rest[j + 1..]);
        ConcatAssociates(s[..i] + "/", rest[..j], "/");
      } else {
        assert rest[..j] == rest;
      }
    } else {
      assert s[..i] == s;
    }
  }

  lemma ConcatAssociates(a: string, b: string, c: string)
    ensures a + (b + c) == a + b + c
  {}

  /** The name tables hold `ns/name` texts. */
  predicate WellNamed(t: Tables) {
    && (forall ip :: ip in t.podIpToName ==> |SplitN3(t.podIpToName[ip])| == 2)
    && (forall ip :: ip in t.svcIpToName ==> |SplitN3(t.svcIpToName[ip])| == 2)
  }

  /** What an address stands for, read from the tables without any printing. */
  function Resolve(t: Tables, ip: string): Endpoint {
    if ip in t.svcIpToName then
      var parts := SplitN3(t.svcIpToName[ip]);
      if |parts| == 2 then SvcEndpoint(parts[0], parts[1], SvcTypeOf(t, t.svcIpToName[ip])) else Outside(ip)
    else if ip in t.podIpToName then
      var parts := SplitN3(t.podIpToName[ip]);
      if |parts| == 2 then PodEndpoint(parts[0], parts[1]) else Outside(ip)
    else Outside(ip)
  }

  lemma EndpointTextPrints(t: Tables, ip: string)
    requires WellNamed(t) && '/' !in ip
    ensures EndpointText(t, ip) == Resolve(t, ip).Print()
    ensures Resolve(t, ip).Printable()
  {
    if ip in t.svcIpToName {
      PartsSlashFree(t.svcIpToName[ip]);
    } else if ip in t.podIpToName {
      PartsSlashFree(t.podIpToName[ip]);
    }
  }

  /** The key types `mergeStats` has a case for. */
  predicate Handled(kind: KeyType) {
    kind in {FROM_POD, TO_POD, FROM_SVC, TO_SVC, POD_TO_POD, SVC_TO_SVC, POD_TO_SVC, SVC_TO_POD}
  }

  /**
   A key printed by `getPodStatsKey` parses back to the same endpoints, and the parsed key type is
   the one computed from the tables exactly when no address is both a pod and a service; it is
   then nothing or one of the eight cases of `mergeStats`.
   */
  lemma KeyRoundTrip(t: Tables, src: string, dst: string)
    requires WellNamed(t) && '/' !in src && '/' !in dst
    ensures var target := GetPodStatsKey(t, src, dst);
            && ParseEndpoint(target.key.ep0) == Resolve(t, src)
            && ParseEndpoint(target.key.ep1) == Resolve(t, dst)
            && (ParsedKind(target.key) == target.kind
                <==> !(src in t.podIpToName && src in t.svcIpToName)
                     && !(dst in t.podIpToName && dst in t.svcIpToName))
            && (ParsedKind(target.key) == target.kind ==> target.kind == NEITHER || Handled(target.kind))
  {
    EndpointTextPrints(t, src);
    EndpointTextPrints(t, dst);
    EndpointRoundTrip(Resolve(t, src), src);
    EndpointRoundTrip(Resolve(t, dst), dst);
  }
}
