/**
 The pair of maps the agent keeps for pods and again for services: name to information and
 address to name. What a log of informer events leaves in them, and when they are inverses.
 */
module NameIndex {

  /** An informer event as the agent reacts to it; `Nothing` for objects it ignores. */
  datatype Event<V> = Put(name: string, ip: string, value: V) | Drop(name: string, ip: string) | Nothing

  datatype Index<V> = Index(info: map<string, V>, byIp: map<string, string>)

  function Apply<V>(x: Index<V>, e: Event<V>): Index<V> {
    match e
    case Put(name, ip, value) => Index(x.info[name := value], x.byIp[ip := name])
    case Drop(name, ip) => Index(x.info - {name}, x.byIp - {ip})
    case Nothing => x
  }

  function Replay<V>(log: seq<Event<V>>): Index<V> {
    if log == [] then Index(map[], map[]) else Apply(Replay(log[..|log| - 1]), log[|log| - 1])
  }

  // ---------------------------------------------------------------- what the log left behind

  predicate IsAbout<V>(e: Event<V>, name: string) {
    !e.Nothing? && e.name == name
  }

  predicate IsAt<V>(e: Event<V>, ip: string) {
    !e.Nothing? && e.ip == ip
  }

  /** Event `i` is the last one about `name`, and it is an update. */
  ghost predicate LastWordOnName<V>(log: seq<Event<V>>, name: string, i: int) {
    0 <= i < |log| && log[i].Put? && log[i].name == name && forall j :: i < j < |log| ==> !IsAbout(log[j], name)
  }

  ghost predicate LastWordOnIp<V>(log: seq<Event<V>>, ip: string, i: int) {
    0 <= i < |log| && log[i].Put? && log[i].ip == ip && forall j :: i < j < |log| ==> !IsAt(log[j], ip)
  }

  /** The information kept under a name is that of the last update not followed by another event for it. */
  lemma {:induction false} InfoIsLastWord<V>(log: seq<Event<V>>, name: string)
    ensures name in Replay(log).info <==> exists i :: LastWordOnName(log, name, i)
    ensures forall i :: LastWordOnName(log, name, i) ==> Replay(log).info[name] == log[i].value
  {
    if log != [] {
      var n := |log| - 1;
      var front := log[..n];
      InfoIsLastWord(front, name);
      if IsAbout(log[n], name) {
        assert forall i :: LastWordOnName(log, name, i) ==> i == n;
        assert log[n].Put? ==> LastWordOnName(log, name, n);
      } else {
        assert forall i :: LastWordOnName(log, name, i) <==> LastWordOnName(front, name, i) by {
          assert forall j :: 0 <= j < n ==> front[j] == log[j];
        }
      }
    }
  }

  /** An address stands for the object of the last update not followed by another event for that address. */
  lemma {:induction false} OwnerIsLastWord<V>(log: seq<Event<V>>, ip: string)
    ensures ip in Replay(log).byIp <==> exists i :: LastWordOnIp(log, ip, i)
    ensures forall i :: LastWordOnIp(log, ip, i) ==> Replay(log).byIp[ip] == log[i].name
  {
    if log != [] {
      var n := |log| - 1;
      var front := log[..n];
      OwnerIsLastWord(front, ip);
      if IsAt(log[n], ip) {
        assert forall i :: LastWordOnIp(log, ip, i) ==> i == n;
        assert log[n].Put? ==> LastWordOnIp(log, ip, n);
      } else {
        assert forall i :: LastWordOnIp(log, ip, i) <==> LastWordOnIp(front, ip, i) by {
          assert forall j :: 0 <= j < n ==> front[j] == log[j];
        }
      }
    }
  }

  // ---------------------------------------------------------------- when the two maps are inverses

  ghost predicate Inverse<V(!new)>(x: Index<V>, ipOf: V -> string) {
    && (forall n :: n in x.info ==> ipOf(x.info[n]) in x.byIp && x.byIp[ipOf(x.info[n])] == n)
    && (forall ip :: ip in x.byIp ==> x.byIp[ip] in x.info && ipOf(x.info[x.byIp[ip]]) == ip)
  }

  /** Some object alive holds `ip`. */
  ghost predicate Held<V(!new)>(info: map<string, V>, ipOf: V -> string, ip: string) {
    exists n :: n in info && ipOf(info[n]) == ip
  }

  /**
   The event respects the objects alive: an update neither moves its object to another address nor
   takes the address of another object, and a deletion names the address its object has.
   */
  ghost predicate Respects<V(!new)>(info: map<string, V>, ipOf: V -> string, e: Event<V>) {
    match e
    case Put(name, ip, _) =>
      && (name in info ==> ipOf(info[name]) == ip)
      && (forall n :: n in info && n != name ==> ipOf(info[n]) != ip)
    case Drop(name, ip) => if name in info then ipOf(info[name]) == ip else !Held(info, ipOf, ip)
    case Nothing => true
  }

  /** One event keeps the maps inverse exactly when it respects the objects alive. */
  lemma EventKeepsInverse<V(!new)>(x: Index<V>, ipOf: V -> string, e: Event<V>)
    requires Inverse(x, ipOf) && (e.Put? ==> ipOf(e.value) == e.ip)
    ensures Inverse(Apply(x, e), ipOf) <==> Respects(x.info, ipOf, e)
  {
    match e
    case Nothing =>
    case Put(name, ip, value) => PutKeepsInverse(x, ipOf, name, ip, value);
    case Drop(name, ip) => DropKeepsInverse(x, ipOf, name, ip);
  }

  lemma PutKeepsInverse<V(!new)>(x: Index<V>, ipOf: V -> string, name: string, ip: string, value: V)
    requires Inverse(x, ipOf) && ipOf(value) == ip
    ensures Inverse(Apply(x, Put(name, ip, value)), ipOf) <==> Respects(x.info, ipOf, Put(name, ip, value))
  {
    var x' := Apply(x, Put(name, ip, value));
    if Inverse(x', ipOf) {
      if name in x.info {
        var was := ipOf(x.info[name]);
        assert x.byIp[was] == name;
        assert was in x'.byIp && x'.byIp[was] == name;
      }
      forall n | n in x.info && n != name ensures ipOf(x.info[n]) != ip {
        assert n in x'.info;
      }
    }
  }

  lemma DropKeepsInverse<V(!new)>(x: Index<V>, ipOf: V -> string, name: string, ip: string)
    requires Inverse(x, ipOf)
    ensures Inverse(Apply(x, Drop(name, ip)), ipOf) <==> Respects(x.info, ipOf, Drop(name, ip))
  {
    var x' := Apply(x, Drop(name, ip));
    if Inverse(x', ipOf) {
      if name in x.info {
        var was := ipOf(x.info[name]);
        assert x.byIp[was] == name;
        assert was != ip ==> was in x'.byIp;
      } else {
        forall n | n in x.info ensures ipOf(x.info[n]) != ip {
          assert n in x'.info;
        }
      }
    }
  }

  ghost predicate WellFormed<V(!new)>(log: seq<Event<V>>, ipOf: V -> string) {
    forall i :: 0 <= i < |log| && log[i].Put? ==> ipOf(log[i].value) == log[i].ip
  }

  /** Addresses are stable while their object lives and not shared among objects alive. */
  ghost predicate Steady<V(!new)>(log: seq<Event<V>>, ipOf: V -> string) {
    log == [] || (Steady(log[..|log| - 1], ipOf) && Respects(Replay(log[..|log| - 1]).info, ipOf, log[|log| - 1]))
  }

  /** The maps were inverses after every event so far. */
  ghost predicate AlwaysInverse<V(!new)>(log: seq<Event<V>>, ipOf: V -> string) {
    Inverse(Replay(log), ipOf) && (log == [] || AlwaysInverse(log[..|log| - 1], ipOf))
  }

  /** The two maps are inverses throughout a history if and only if addresses were stable and unshared. */
  lemma {:induction false} InverseIffSteady<V(!new)>(log: seq<Event<V>>, ipOf: V -> string)
    requires WellFormed(log, ipOf)
    ensures AlwaysInverse(log, ipOf) <==> Steady(log, ipOf)
  {
    if log != [] {
      var n := |log| - 1;
      InverseIffSteady(log[..n], ipOf);
      if Steady(log[..n], ipOf) {
        EventKeepsInverse(Replay(log[..n]), ipOf, log[n]);
      }
    }
  }

  /** An object that moved and was then deleted leaves its first address behind, naming an object that is gone. */
  lemma MovedAddressStays<V(!new)>(name: string, first: string, second: string, a: V, b: V)
    requires first != second
    ensures var log := [Put(name, first, a), Put(name, second, b), Drop(name, second)];
            Replay(log) == Index(map[], map[first := name])
  {
    var log := [Put(name, first, a), Put(name, second, b), Drop(name, second)];
    assert log[..2][..1] == [Put(name, first, a)];
    assert Replay(log[..2][..1]) == Index(map[name := a], map[first := name]);
    assert Replay(log[..2]) == Index(map[name := b], map[first := name, second := name]);
  }
}
