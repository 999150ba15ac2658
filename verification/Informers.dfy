/**
 The agent's name tables and the informer handlers that keep them.
 */
module Informers {
  import opened Statistics
  import opened Names
  import opened Gauges
  import opened NameIndex

  datatype Pod = Pod(ns: string, name: string, podIP: string, hostNetwork: bool) {
    function Key(): string { ns + "/" + name }
    /** Pods without an address or on the host network are ignored. */
    predicate Ignored() { podIP == "" || hostNetwork }
    function Updated(): Event<string> { if Ignored() then Nothing else Put(Key(), podIP, podIP) }
    function Deleted(): Event<string> { if Ignored() then Nothing else Drop(Key(), podIP) }
  }

  datatype ServiceType = ClusterIP | NodePort | LoadBalancer | ExternalName | OtherType {
    function Text(): string {
      match this
      case ClusterIP => "clusterIp"
      case NodePort => "nodePort"
      case LoadBalancer => "loadBalancer"
      case ExternalName => "externalName"
      case OtherType => ""
    }
  }

  /** `key` is what `MetaNamespaceKeyFunc` answers, `None` when it fails. */
  datatype Service = Service(key: Option<string>, clusterIP: string, kind: ServiceType) {
    predicate Ignored() { key == None || clusterIP == "None" }
    function Updated(): Event<SvcInfo> {
      if Ignored() then Nothing else Put(key.value, clusterIP, SvcInfo(clusterIP, kind.Text()))
    }
    function Deleted(): Event<SvcInfo> { if Ignored() then Nothing else Drop(key.value, clusterIP) }
  }

  class StatsAgent {
    var podInfo: map<string, string>      // pod key to PodIP
    var podIpToName: map<string, string>
    var svcInfo: map<string, SvcInfo>
    var svcIpToName: map<string, string>
    const gauges: GaugeRegistry

    constructor ()
      ensures Pods() == Replay([]) && Services() == Replay([])
      ensures fresh(gauges) && gauges.values == map[]
    {
      podInfo, podIpToName, svcInfo, svcIpToName := map[], map[], map[], map[];
      gauges := new GaugeRegistry();
    }

    function Pods(): Index<string>
      reads this`podInfo, this`podIpToName
    {
      Index(podInfo, podIpToName)
    }

    function Services(): Index<SvcInfo>
      reads this`svcInfo, this`svcIpToName
    {
      Index(svcInfo, svcIpToName)
    }

    function NameTables(): Tables
      reads this
    {
      Tables(podIpToName, svcIpToName, svcInfo)
    }

    /** `getPodStatsKey`: pod names first, service names over them, and the address text where neither is known. */
    method Classify(srcIp: string, dstIp: string) returns (key: PodStatsKey, kind: KeyType)
      ensures Target(key, kind) == GetPodStatsKey(NameTables(), srcIp, dstIp)
    {
      key, kind := PodStatsKey("", ""), NEITHER;
      if srcIp in podIpToName {
        key := key.(ep0 := podIpToName[srcIp]);
        kind := kind.(fromPod := true);
      }
      if dstIp in podIpToName {
        key := key.(ep1 := podIpToName[dstIp]);
        kind := kind.(toPod := true);
      }
      if srcIp in svcIpToName {
        var name := svcIpToName[srcIp];
        key := key.(ep0 := name + "/" + SvcTypeOf(NameTables(), name));
        kind := kind.(fromSvc := true);
      }
      if dstIp in svcIpToName {
        var name := svcIpToName[dstIp];
        key := key.(ep1 := name + "/" + SvcTypeOf(NameTables(), name));
        kind := kind.(toSvc := true);
      }
      if key.ep0 == "" {
        key := key.(ep0 := srcIp);
      }
      if key.ep1 == "" {
        key := key.(ep1 := dstIp);
      }
    }

    method PodUpdated(pod: Pod)
      modifies this`podInfo, this`podIpToName
      ensures Pods() == Apply(old(Pods()), pod.Updated())
    {
      var podKey := pod.ns + "/" + pod.name;
      if pod.podIP == "" || pod.hostNetwork {
        return;
      }
      podInfo := podInfo[podKey := pod.podIP];
      podIpToName := podIpToName[pod.podIP := podKey];
    }

    method PodDeleted(pod: Pod)
      modifies this`podInfo, this`podIpToName
      ensures Pods() == Apply(old(Pods()), pod.Deleted())
    {
      if pod.podIP == "" || pod.hostNetwork {
        return;
      }
      var podKey := pod.ns + "/" + pod.name;
      podInfo := podInfo - {podKey};
      podIpToName := podIpToName - {pod.podIP};
    }

    method ServiceUpdated(svc: Service)
      modifies this`svcInfo, this`svcIpToName
      ensures Services() == Apply(old(Services()), svc.Updated())
    {
      if svc.key == None {
        return;
      }
      var key := svc.key.value;
      if svc.clusterIP == "None" {
        return;
      }
      var info := SvcInfo(svc.clusterIP, "");
      match svc.kind {
        case ClusterIP => info := info.(svcType := "clusterIp");
        case NodePort => info := info.(svcType := "nodePort");
        case LoadBalancer => info := info.(svcType := "loadBalancer");
        case ExternalName => info := info.(svcType := "externalName");
        case OtherType =>
      }
      svcInfo := svcInfo[key := info];
      svcIpToName := svcIpToName[info.clusterIP := key];
    }

    method ServiceDeleted(svc: Service)
      modifies this`svcInfo, this`svcIpToName
      ensures Services() == Apply(old(Services()), svc.Deleted())
    {
      if svc.key == None || svc.clusterIP == "None" {
        return;
      }
      svcInfo := svcInfo - {svc.key.value};
      svcIpToName := svcIpToName - {svc.clusterIP};
    }
  }

  // ---------------------------------------------------------------- histories of pods and services

  /** What the informer reports of an object: added or updated, or deleted. */
  datatype Report<T> = Seen(item: T) | Gone(item: T)

  function PodEvent(r: Report<Pod>): Event<string> {
    match r
    case Seen(pod) => pod.Updated()
    case Gone(pod) => pod.Deleted()
  }

  function ServiceEvent(r: Report<Service>): Event<SvcInfo> {
    match r
    case Seen(svc) => svc.Updated()
    case Gone(svc) => svc.Deleted()
  }

  /** The handlers' effects one after the other. */
  function PodLog(history: seq<Report<Pod>>): (log: seq<Event<string>>)
    ensures |log| == |history| && forall i :: 0 <= i < |log| ==> log[i] == PodEvent(history[i])
  {
    seq(|history|, i requires 0 <= i < |history| => PodEvent(history[i]))
  }

  function ServiceLog(history: seq<Report<Service>>): (log: seq<Event<SvcInfo>>)
    ensures |log| == |history| && forall i :: 0 <= i < |log| ==> log[i] == ServiceEvent(history[i])
  {
    seq(|history|, i requires 0 <= i < |history| => ServiceEvent(history[i]))
  }

  /** One more report is one more call of a handler, so the tables after any calls are a replayed log. */
  lemma PodLogGrows(history: seq<Report<Pod>>, r: Report<Pod>)
    ensures Replay(PodLog(history + [r])) == Apply(Replay(PodLog(history)), PodEvent(r))
  {
    assert PodLog(history + [r])[..|history|] == PodLog(history);
  }

  lemma ServiceLogGrows(history: seq<Report<Service>>, r: Report<Service>)
    ensures Replay(ServiceLog(history + [r])) == Apply(Replay(ServiceLog(history)), ServiceEvent(r))
  {
    assert ServiceLog(history + [r])[..|history|] == ServiceLog(history);
  }

  /** The report is about a pod with an address of its own at `ip`. */
  predicate PodAt(r: Report<Pod>, ip: string) {
    r.item.podIP == ip && ip != "" && !r.item.hostNetwork
  }

  /** The report is about a pod named `name` that has an address of its own. */
  predicate PodNamed(r: Report<Pod>, name: string) {
    r.item.ns + "/" + r.item.name == name && r.item.podIP != "" && !r.item.hostNetwork
  }

  /** Report `i` is the last one at `ip`, and it is an update. */
  ghost predicate LastPodAt(history: seq<Report<Pod>>, ip: string, i: int) {
    0 <= i < |history| && history[i].Seen? && PodAt(history[i], ip) && forall j :: i < j < |history| ==> !PodAt(history[j], ip)
  }

  ghost predicate LastPodNamed(history: seq<Report<Pod>>, name: string, i: int) {
    0 <= i < |history| && history[i].Seen? && PodNamed(history[i], name) && forall j :: i < j < |history| ==> !PodNamed(history[j], name)
  }

  /**
   For every history of reports: an address is known iff the last report at it, of a pod not on the
   host network, is an update, and it then stands for the `namespace/name` of that pod.
   */
  lemma PodAddressesFollowHistory(history: seq<Report<Pod>>, ip: string)
    ensures ip in Replay(PodLog(history)).byIp <==> exists i :: LastPodAt(history, ip, i)
    ensures forall i :: LastPodAt(history, ip, i) ==>
              Replay(PodLog(history)).byIp[ip] == history[i].item.ns + "/" + history[i].item.name
  {
    var log := PodLog(history);
    OwnerIsLastWord(log, ip);
    forall i ensures LastPodAt(history, ip, i) <==> LastWordOnIp(log, ip, i) {
      if 0 <= i < |history| {
        forall j | 0 <= j < |history| ensures IsAt(log[j], ip) <==> PodAt(history[j], ip) {}
      }
    }
  }

  /** The same by name: a pod is known, with the address it was last seen with, until it is reported gone. */
  lemma PodNamesFollowHistory(history: seq<Report<Pod>>, name: string)
    ensures name in Replay(PodLog(history)).info <==> exists i :: LastPodNamed(history, name, i)
    ensures forall i :: LastPodNamed(history, name, i) ==> Replay(PodLog(history)).info[name] == history[i].item.podIP
  {
    var log := PodLog(history);
    InfoIsLastWord(log, name);
    forall i ensures LastPodNamed(history, name, i) <==> LastWordOnName(log, name, i) {
      if 0 <= i < |history| {
        forall j | 0 <= j < |history| ensures IsAbout(log[j], name) <==> PodNamed(history[j], name) {}
      }
    }
  }

  /** The report is about a service with a key, not headless, at `ip`. */
  predicate ServiceAt(r: Report<Service>, ip: string) {
    r.item.key.Some? && r.item.clusterIP == ip && ip != "None"
  }

  predicate ServiceNamed(r: Report<Service>, name: string) {
    r.item.key == Some(name) && r.item.clusterIP != "None"
  }

  ghost predicate LastServiceAt(history: seq<Report<Service>>, ip: string, i: int) {
    0 <= i < |history| && history[i].Seen? && ServiceAt(history[i], ip) && forall j :: i < j < |history| ==> !ServiceAt(history[j], ip)
  }

  ghost predicate LastServiceNamed(history: seq<Report<Service>>, name: string, i: int) {
    0 <= i < |history| && history[i].Seen? && ServiceNamed(history[i], name) && forall j :: i < j < |history| ==> !ServiceNamed(history[j], name)
  }

  lemma ServiceAddressesFollowHistory(history: seq<Report<Service>>, ip: string)
    ensures ip in Replay(ServiceLog(history)).byIp <==> exists i :: LastServiceAt(history, ip, i)
    ensures forall i :: LastServiceAt(history, ip, i) ==> history[i].item.key == Some(Replay(ServiceLog(history)).byIp[ip])
  {
    var log := ServiceLog(history);
    OwnerIsLastWord(log, ip);
    forall i ensures LastServiceAt(history, ip, i) <==> LastWordOnIp(log, ip, i) {
      if 0 <= i < |history| {
        forall j | 0 <= j < |history| ensures IsAt(log[j], ip) <==> ServiceAt(history[j], ip) {}
      }
    }
  }

  /** By name, with address and type text; a type the agent does not know leaves the text empty. */
  lemma ServiceNamesFollowHistory(history: seq<Report<Service>>, name: string)
    ensures name in Replay(ServiceLog(history)).info <==> exists i :: LastServiceNamed(history, name, i)
    ensures forall i :: LastServiceNamed(history, name, i) ==>
              var info, svc := Replay(ServiceLog(history)).info[name], history[i].item;
              && info.clusterIP == svc.clusterIP
              && (svc.kind == ClusterIP ==> info.svcType == "clusterIp")
              && (svc.kind == NodePort ==> info.svcType == "nodePort")
              && (svc.kind == LoadBalancer ==> info.svcType == "loadBalancer")
              && (svc.kind == ExternalName ==> info.svcType == "externalName")
              && (svc.kind == OtherType ==> info.svcType == "")
  {
    var log := ServiceLog(history);
    InfoIsLastWord(log, name);
    forall i ensures LastServiceNamed(history, name, i) <==> LastWordOnName(log, name, i) {
      if 0 <= i < |history| {
        forall j | 0 <= j < |history| ensures IsAbout(log[j], name) <==> ServiceNamed(history[j], name) {}
      }
    }
  }

  // ---------------------------------------------------------------- tables kept from event logs

  /** The tables `getPodStatsKey` reads after two logs of informer events. */
  function TablesFrom(pods: seq<Event<string>>, services: seq<Event<SvcInfo>>): Tables {
    Tables(Replay(pods).byIp, Replay(services).byIp, Replay(services).info)
  }

  ghost function ClusterIPOf(): SvcInfo -> string {
    (info: SvcInfo) => info.clusterIP
  }

  /**
   While service addresses were stable and unshared, the service-type lookup of `getPodStatsKey`
   always hits, and an address is printed with the type its service last announced.
   */
  lemma ServiceLookupHits(pods: seq<Event<string>>, services: seq<Event<SvcInfo>>, ip: string)
    requires WellFormed(services, ClusterIPOf()) && Steady(services, ClusterIPOf())
    requires ip in Replay(services).byIp
    ensures var t := TablesFrom(pods, services);
            var name := t.svcIpToName[ip];
            && name in t.svcInfo && t.svcInfo[name].clusterIP == ip
            && EndpointText(t, ip) == name + "/" + t.svcInfo[name].svcType
            && exists i :: LastWordOnName(services, name, i) && t.svcInfo[name] == services[i].value
  {
    InverseIffSteady(services, ClusterIPOf());
    var name := Replay(services).byIp[ip];
    InfoIsLastWord(services, name);
    var i :| LastWordOnName(services, name, i);
    assert Replay(services).info[name] == services[i].value;
    assert |name + "/" + services[i].value.svcType| > 0;
  }

  /** Every name in the log is a namespace and a name. */
  ghost predicate Qualified<V(!new)>(log: seq<Event<V>>) {
    forall i :: 0 <= i < |log| && log[i].Put? ==> |SplitN3(log[i].name)| == 2
  }

  /** So the tables hold only names that print and parse as intended. */
  lemma QualifiedLogsAreWellNamed(pods: seq<Event<string>>, services: seq<Event<SvcInfo>>)
    requires Qualified(pods) && Qualified(services)
    ensures WellNamed(TablesFrom(pods, services))
  {
    forall ip | ip in Replay(pods).byIp ensures |SplitN3(Replay(pods).byIp[ip])| == 2 {
      OwnerIsLastWord(pods, ip);
      var i :| LastWordOnIp(pods, ip, i);
      assert pods[i].name == Replay(pods).byIp[ip];
    }
    forall ip | ip in Replay(services).byIp ensures |SplitN3(Replay(services).byIp[ip])| == 2 {
      OwnerIsLastWord(services, ip);
      var i :| LastWordOnIp(services, ip, i);
      assert services[i].name == Replay(services).byIp[ip];
    }
  }

  /** Two services without a cluster address hide each other: the earlier one is no longer found by address. */
  lemma EmptyAddressesCollide(a: Service, b: Service)
    requires !a.Ignored() && !b.Ignored() && a.key != b.key && a.clusterIP == b.clusterIP == ""
    ensures var x := Replay([a.Updated(), b.Updated()]);
            a.key.value in x.info && x.byIp == map["" := b.key.value] && !Inverse(x, ClusterIPOf())
  {
    var log := [a.Updated(), b.Updated()];
    assert log[..1] == [a.Updated()] && log[..1][..0] == [];
    assert Replay(log[..1]) == Index(map[a.key.value := a.Updated().value], map["" := a.key.value]);
    var x := Replay(log);
    assert x.info[a.key.value].clusterIP == "" && x.byIp[""] != a.key.value;
  }
}
