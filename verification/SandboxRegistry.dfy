/** The sandbox manager's two maps: live sandboxes by id, and ids by container address. Every
    change to them is one section under the manager's lock, so a run of the manager is a
    sequence of such sections in any order. */
module SandboxRegistry {

  /** The locked section of a launch, and that of a stop or a timeout. */
  datatype Event = Started(id: string, ip: string) | Ended(id: string)

  /** The address of every live sandbox, and the registry from addresses to ids. */
  datatype State = State(live: map<string, string>, registry: map<string, string>)

  const START := State(map[], map[])

  /** What containers on the host's network get as their address. */
  const HOST_ADDRESS := "host.docker.internal"

  function Step(s: State, e: Event): State {
    match e
    case Started(id, ip) =>
      State(s.live[id := ip], if ip != "" then s.registry[ip := id] else s.registry)
    case Ended(id) =>
      if id !in s.live then s
      else State(s.live - {id}, if s.live[id] != "" then s.registry - {s.live[id]} else s.registry)
  }

  function After(events: seq<Event>): State {
    if events == [] then START else Step(After(events[..|events| - 1]), events[|events| - 1])
  }

  /** Every registered address leads to a live sandbox that has this address. */
  ghost predicate Sound(s: State) {
    forall ip :: ip in s.registry ==>
      ip != "" && s.registry[ip] in s.live && s.live[s.registry[ip]] == ip
  }

  ghost predicate Registered(s: State, id: string) {
    id in s.live && s.live[id] in s.registry && s.registry[s.live[id]] == id
  }

  /** Every live sandbox with an address can be found by it. */
  ghost predicate Complete(s: State) {
    forall id :: id in s.live && s.live[id] != "" ==> Registered(s, id)
  }

  ghost predicate DistinctAddresses(s: State) {
    forall a, b :: a in s.live && b in s.live && s.live[a] == s.live[b] != "" ==> a == b
  }

  /** No launch reuses the id of a sandbox that is still live. */
  ghost predicate FreshIds(events: seq<Event>) {
    forall i :: 0 <= i < |events| && events[i].Started? ==> events[i].id !in After(events[..i]).live
  }

  lemma StepKeepsSound(s: State, e: Event)
    requires Sound(s) && (e.Started? ==> e.id !in s.live)
    ensures Sound(Step(s, e))
  {
    var t := Step(s, e);
    forall ip | ip in t.registry ensures ip != "" && t.registry[ip] in t.live && t.live[t.registry[ip]] == ip {
      if !(e.Started? && e.ip == ip) { assert ip in s.registry; }
    }
  }

  /** The registry never points to a sandbox that is gone or that has another address. */
  lemma {:induction false} RunIsSound(events: seq<Event>)
    requires FreshIds(events)
    ensures Sound(After(events))
  {
    if events == [] {
    } else {
      var n := |events| - 1;
      var before := events[..n];
      forall i | 0 <= i < n && before[i].Started? ensures before[i].id !in After(before[..i]).live {
        assert before[i] == events[i] && before[..i] == events[..i];
      }
      RunIsSound(before);
      StepKeepsSound(After(before), events[n]);
    }
  }

  /** Event j starts or ends a sandbox at this address. */
  ghost predicate Touches(events: seq<Event>, j: nat, ip: string)
    requires j < |events|
  {
    match events[j]
    case Started(_, a) => a == ip
    case Ended(id) => var live := After(events[..j]).live; id in live && live[id] == ip
  }

  /** Launch i gave this address to this sandbox, and nothing at the address happened since. */
  ghost predicate ClaimedAt(events: seq<Event>, i: nat, id: string, ip: string) {
    i < |events| && events[i] == Started(id, ip) && ip != ""
    && forall j :: i < j < |events| ==> !Touches(events, j, ip)
  }

  ghost predicate Claimed(events: seq<Event>, id: string, ip: string) {
    exists i: nat :: ClaimedAt(events, i, id, ip)
  }

  lemma TouchesBefore(events: seq<Event>, n: nat, j: nat, ip: string)
    requires j < n <= |events|
    ensures Touches(events[..n], j, ip) <==> Touches(events, j, ip)
  {
    assert events[..n][..j] == events[..j];
  }

  /** A last event elsewhere leaves every claim on this address as it was. */
  lemma ClaimStays(events: seq<Event>, id: string, ip: string)
    requires events != [] && !Touches(events, |events| - 1, ip)
    ensures Claimed(events, id, ip) <==> Claimed(events[..|events| - 1], id, ip)
  {
    var n := |events| - 1;
    var before := events[..n];
    forall j: nat | j < n ensures Touches(before, j, ip) <==> Touches(events, j, ip) {
      TouchesBefore(events, n, j, ip);
    }
    forall i: nat ensures ClaimedAt(events, i, id, ip) <==> ClaimedAt(before, i, id, ip) {
      if i < n { assert before[i] == events[i]; }
    }
  }

  /** After any run at all, the registry names the sandbox of the last launch at an address,
      unless a sandbox at that address, that one or another, ended after it. */
  lemma {:induction false} RegistryIsLastClaim(events: seq<Event>, id: string, ip: string)
    ensures var r := After(events).registry;
            ip in r && r[ip] == id <==> Claimed(events, id, ip)
  {
    if events == [] {
    } else {
      var n := |events| - 1;
      if Touches(events, n, ip) {
        assert forall i: nat :: ClaimedAt(events, i, id, ip) ==> i == n;
        assert events[n] == Started(id, ip) && ip != "" ==> ClaimedAt(events, n, id, ip);
        if ip == "" { NeverRegistersNothing(events); }
      } else {
        RegistryIsLastClaim(events[..n], id, ip);
        ClaimStays(events, id, ip);
      }
    }
  }

  lemma {:induction false} NeverRegistersNothing(events: seq<Event>)
    ensures "" !in After(events).registry
  {
    if events == [] {
    } else {
      NeverRegistersNothing(events[..|events| - 1]);
    }
  }

  /** Launch i is the last event about this sandbox. */
  ghost predicate LaunchedAt(events: seq<Event>, i: nat, id: string, ip: string) {
    i < |events| && events[i] == Started(id, ip) && forall j :: i < j < |events| ==> events[j].id != id
  }

  /** After any run at all, the live sandboxes are those whose last event was a launch. */
  lemma {:induction false} LiveIsLastLaunch(events: seq<Event>, id: string, ip: string)
    ensures var live := After(events).live;
            id in live && live[id] == ip <==> exists i: nat :: LaunchedAt(events, i, id, ip)
  {
    if events == [] {
    } else {
      var n := |events| - 1;
      var before := events[..n];
      if events[n].id == id {
        assert events[n] == Started(id, ip) ==> LaunchedAt(events, n, id, ip);
        assert forall i: nat :: LaunchedAt(events, i, id, ip) ==> i == n;
      } else {
        LiveIsLastLaunch(before, id, ip);
        forall i: nat ensures LaunchedAt(events, i, id, ip) <==> LaunchedAt(before, i, id, ip) {
          if i < n { assert before[i] == events[i]; }
          assert forall j :: 0 <= j < n ==> before[j] == events[j];
        }
      }
    }
  }

  lemma StepKeepsComplete(s: State, e: Event)
    requires Sound(s) && Complete(s) && (e.Started? ==> e.id !in s.live)
    requires DistinctAddresses(s) && DistinctAddresses(Step(s, e))
    ensures Complete(Step(s, e))
  {
    var t := Step(s, e);
    forall id | id in t.live && t.live[id] != "" ensures Registered(t, id) {
      if e == Started(id, t.live[id]) {
      } else {
        assert id in s.live && s.live[id] == t.live[id];
        assert Registered(s, id);
        assert e.Started? ==> e.id in t.live && t.live[e.id] == e.ip;
      }
    }
  }

  /** Every live sandbox is found by its address throughout a run exactly when live sandboxes
      never share an address. */
  lemma AlwaysCompleteIff(events: seq<Event>)
    requires FreshIds(events)
    ensures (forall k :: 0 <= k <= |events| ==> Complete(After(events[..k])))
        <==> forall k :: 0 <= k <= |events| ==> DistinctAddresses(After(events[..k]))
  {
    forall k | 0 <= k <= |events| && Complete(After(events[..k]))
      ensures DistinctAddresses(After(events[..k]))
    {
      var s := After(events[..k]);
      assert forall id :: id in s.live && s.live[id] != "" ==> s.registry[s.live[id]] == id;
    }
    if forall k :: 0 <= k <= |events| ==> DistinctAddresses(After(events[..k])) {
      forall k | 0 <= k <= |events| ensures Complete(After(events[..k])) {
        CompleteAfter(events, k);
      }
    }
  }

  lemma {:induction false} CompleteAfter(events: seq<Event>, k: nat)
    requires FreshIds(events) && k <= |events|
    requires forall k :: 0 <= k <= |events| ==> DistinctAddresses(After(events[..k]))
    ensures Complete(After(events[..k]))
  {
    if k == 0 {
    } else {
      CompleteAfter(events, k - 1);
      assert events[..k][..k - 1] == events[..k - 1];
      FreshPrefix(events, k - 1);
      RunIsSound(events[..k - 1]);
      StepKeepsComplete(After(events[..k - 1]), events[k - 1]);
    }
  }

  lemma FreshPrefix(events: seq<Event>, k: nat)
    requires FreshIds(events) && k <= |events|
    ensures FreshIds(events[..k])
  {
    forall i | 0 <= i < k && events[..k][i].Started?
      ensures events[..k][i].id !in After(events[..k][..i]).live
    {
      assert events[..k][..i] == events[..i];
    }
  }

  /** Two sandboxes on the host's network: ending one hides the other, which is still live. */
  lemma SharedAddressHides(a: string, b: string)
    requires a != b
    ensures var s := After([Started(a, HOST_ADDRESS), Started(b, HOST_ADDRESS), Ended(a)]);
            b in s.live && !Registered(s, b) && Sound(s)
  {
    var one := [Started(a, HOST_ADDRESS)];
    var two := one + [Started(b, HOST_ADDRESS)];
    var three := two + [Ended(a)];
    assert one[..0] == [] && two[..1] == one && three[..2] == two;
    assert After(one) == State(map[a := HOST_ADDRESS], map[HOST_ADDRESS := a]);
    assert After(two) == State(map[a := HOST_ADDRESS, b := HOST_ADDRESS], map[HOST_ADDRESS := b]);
    assert After(three) == State(map[b := HOST_ADDRESS], map[]);
    assert three == [Started(a, HOST_ADDRESS), Started(b, HOST_ADDRESS), Ended(a)];
  }

  /** What a launch returns to its caller; only the status changes later. */
  class Info {
    const id: string
    const containerIP: string
    var status: string

    constructor (id: string, containerIP: string)
      ensures this.id == id && this.containerIP == containerIP && status == "running"
    {
      this.id, this.containerIP, status := id, containerIP, "running";
    }
  }

  /** What the manager's first map says of addresses. */
  ghost function Addresses(sandboxes: map<string, Info>): map<string, string> {
    map id | id in sandboxes :: sandboxes[id].containerIP
  }

  class Manager {
    var sandboxes: map<string, Info>
    var ipRegistry: map<string, string>
    ghost var history: seq<Event>

    ghost function Abs(): State
      reads this
    {
      State(Addresses(sandboxes), ipRegistry)
    }

    ghost predicate Valid()
      reads this
    {
      FreshIds(history) && Abs() == After(history)
      && forall id :: id in sandboxes ==> sandboxes[id].id == id
    }

    constructor ()
      ensures Valid() && history == []
    {
      sandboxes, ipRegistry, history := map[], map[], [];
    }

    ghost method Log(e: Event)
      requires FreshIds(history) && (e.Started? ==> e.id !in After(history).live)
      requires Abs() == Step(After(history), e)
      modifies `history
      ensures history == old(history) + [e] && FreshIds(history) && Abs() == After(history)
    {
      FreshExtended(history, e);
      assert (history + [e])[..|history|] == history;
      history := history + [e];
    }

    /** The locked section of Run, once the container is up and inspected. */
    method Register(shortID: string, containerIP: string) returns (info: Info)
      requires Valid() && shortID !in sandboxes
      modifies this
      ensures Valid() && history == old(history) + [Started(shortID, containerIP)]
      ensures fresh(info) && info.id == shortID && info.containerIP == containerIP && info.status == "running"
      ensures sandboxes == old(sandboxes)[shortID := info]
    {
      info := new Info(shortID, containerIP);
      assert Addresses(sandboxes[shortID := info]) == Addresses(sandboxes)[shortID := containerIP];
      sandboxes := sandboxes[shortID := info];
      if containerIP != "" {
        ipRegistry := ipRegistry[containerIP := shortID];
      }
      Log(Started(shortID, containerIP));
    }

    /** The locked section of Stop; an unknown id changes nothing. */
    method Stop(id: string)
      requires Valid()
      modifies this
      ensures Valid() && history == old(history) + [Ended(id)]
      ensures sandboxes == old(sandboxes) - {id}
    {
      if id in sandboxes {
        var info := sandboxes[id];
        if info.containerIP != "" {
          ipRegistry := ipRegistry - {info.containerIP};
        }
        assert Addresses(sandboxes - {id}) == Addresses(sandboxes) - {id};
        sandboxes := sandboxes - {id};
      }
      Log(Ended(id));
    }

    /** The locked section of enforceTimeout: as a stop, and the caller's record is marked. */
    method EnforceTimeout(shortID: string)
      requires Valid()
      modifies this, if shortID in sandboxes then {sandboxes[shortID]} else {}
      ensures Valid() && history == old(history) + [Ended(shortID)]
      ensures sandboxes == old(sandboxes) - {shortID}
      ensures shortID in old(sandboxes) ==> old(sandboxes[shortID]).status == "timed_out"
    {
      if shortID in sandboxes {
        var info := sandboxes[shortID];
        info.status := "timed_out";
        if info.containerIP != "" {
          ipRegistry := ipRegistry - {info.containerIP};
        }
        assert Addresses(sandboxes - {shortID}) == Addresses(sandboxes) - {shortID};
        sandboxes := sandboxes - {shortID};
      }
      Log(Ended(shortID));
    }

    /** The second locked section of Status: the sandbox may have gone since the first. */
    method RefreshStatus(id: string, observed: string) returns (info: Info?)
      requires Valid()
      modifies if id in sandboxes then {sandboxes[id]} else {}
      ensures Valid() && Abs() == old(Abs())
      ensures if id in sandboxes then info == sandboxes[id] && info.status == observed else info == null
      ensures forall other :: other in sandboxes && other != id ==>
        sandboxes[other].status == old(sandboxes[other].status)
    {
      info := null;
      if id in sandboxes {
        info := sandboxes[id];
        info.status := observed;
      }
    }
  }

  lemma FreshExtended(events: seq<Event>, e: Event)
    requires FreshIds(events) && (e.Started? ==> e.id !in After(events).live)
    ensures FreshIds(events + [e])
  {
    var more := events + [e];
    assert more[..|events|] == events;
    forall i | 0 <= i < |more| && more[i].Started? ensures more[i].id !in After(more[..i]).live {
      if i < |events| { assert more[..i] == events[..i] && more[i] == events[i]; }
    }
  }
}
