/** The cluster and proxy registry (test/ProxyInfo.h, test/ProxyInfo.cpp). */
module Registry {
  import opened Wrappers

  datatype Master = Master(ipAddress: string, port: int, readWrite: int, alias: string, reserved: int, name: string)

  datatype Entry = Entry(key: string, port: int, proxies: seq<Master>)

  type ProxyMap = map<string, Entry>

  // ----- The simple model: for each key, a list of masters -----

  function Masters(m: ProxyMap, key: string): seq<Master> {
    if key in m then m[key].proxies else []
  }

  function Count(masters: seq<Master>, address: string): nat {
    if masters == [] then 0
    else Count(masters[..|masters| - 1], address) + if masters[|masters| - 1].ipAddress == address then 1 else 0
  }

  /** The first master with that address, or the number of masters. */
  function FirstAt(masters: seq<Master>, address: string): (k: nat)
    ensures k <= |masters|
    ensures k < |masters| ==> masters[k].ipAddress == address
    ensures forall i :: 0 <= i < k ==> masters[i].ipAddress != address
  {
    if masters == [] || masters[0].ipAddress == address then 0 else 1 + FirstAt(masters[1..], address)
  }

  function Without(masters: seq<Master>, address: string): seq<Master> {
    var k := FirstAt(masters, address);
    if k == |masters| then masters else masters[..k] + masters[k + 1..]
  }

  function Added(m: ProxyMap, key: string, port: int, master: Master): ProxyMap {
    if key in m then m[key := m[key].(proxies := m[key].proxies + [master])] else m[key := Entry(key, port, [master])]
  }

  function AddedAll(m: ProxyMap, key: string, port: int, masters: seq<Master>): ProxyMap {
    if masters == [] then m
    else Added(AddedAll(m, key, port, masters[..|masters| - 1]), key, port, masters[|masters| - 1])
  }

  function Deleted(m: ProxyMap, key: string, address: string): ProxyMap {
    if key in m then m[key := m[key].(proxies := Without(m[key].proxies, address))] else m
  }

  function Resolved(m: ProxyMap, ip: string, readWrite: int): Option<Master> {
    var masters := Masters(m, ip);
    var k := FirstAt(masters, ip);
    if k < |masters| && masters[k].readWrite == readWrite then Some(masters[k]) else None
  }

  class ProxyInfo {
    var proxies: ProxyMap

    constructor ()
      ensures proxies == map[]
    {
      proxies := map[];
    }

    /** True also when the key is not there at all. */
    method DeleteMaster(key: string, address: string) returns (done: bool)
      modifies this
      ensures proxies == Deleted(old(proxies), key, address)
      ensures done <==> key !in old(proxies) || Count(Masters(old(proxies), key), address) > 0
    {
      if key !in proxies {
        return true;
      }
      var masters := proxies[key].proxies;
      CountIsPositive(masters, address);
      var i := 0;
      while i < |masters|
        invariant i <= |masters| && proxies == old(proxies)
        invariant forall j :: 0 <= j < i ==> masters[j].ipAddress != address
      {
        if masters[i].ipAddress == address {
          proxies := proxies[key := proxies[key].(proxies := masters[..i] + masters[i + 1..])];
          assert FirstAt(masters, address) == i;
          return true;
        }
        i := i + 1;
      }
      assert FirstAt(masters, address) == |masters|;
      assert proxies == Deleted(old(proxies), key, address);
      return false;
    }

    method FindMaster(key: string, address: string) returns (found: bool)
      ensures found <==> Count(Masters(proxies, key), address) > 0
    {
      if key !in proxies {
        return false;
      }
      var masters := proxies[key].proxies;
      CountIsPositive(masters, address);
      var i := 0;
      while i < |masters|
        invariant i <= |masters|
        invariant forall j :: 0 <= j < i ==> masters[j].ipAddress != address
      {
        if masters[i].ipAddress == address {
          return true;
        }
        i := i + 1;
      }
      return false;
    }

    method AddProxy(key: string, port: int, master: Master) returns (done: bool)
      modifies this
      ensures proxies == Added(old(proxies), key, port, master) && done
    {
      if key !in proxies {
        proxies := proxies[key := Entry(key, port, [master])];
        return true;
      }
      proxies := proxies[key := proxies[key].(proxies := proxies[key].proxies + [master])];
      return true;
    }

    method AddProxyList(key: string, port: int, masters: seq<Master>) returns (done: bool)
      modifies this
      ensures proxies == AddedAll(old(proxies), key, port, masters) && done
    {
      var i := 0;
      while i < |masters|
        invariant i <= |masters| && proxies == AddedAll(old(proxies), key, port, masters[..i])
      {
        assert masters[..i + 1][..i] == masters[..i];
        var added := AddProxy(key, port, masters[i]);
        i := i + 1;
      }
      assert masters[..i] == masters;
      return true;
    }

    method Resolve(ip: string, port: int, readWrite: int) returns (master: Option<Master>)
      ensures master == Resolved(proxies, ip, readWrite)
    {
      if ip !in proxies {
        return None;
      }
      var masters := proxies[ip].proxies;
      var i := 0;
      while i < |masters|
        invariant i <= |masters|
        invariant forall j :: 0 <= j < i ==> masters[j].ipAddress != ip
      {
        if masters[i].ipAddress == ip {
          assert FirstAt(masters, ip) == i;
          if masters[i].readWrite == readWrite {
            return Some(masters[i]);
          }
          return None;
        }
        i := i + 1;
      }
      assert FirstAt(masters, ip) == |masters|;
      return None;
    }
  }

  /** The clusters hold their proxy maps by value. */
  class ClusterInfo {
    var clusters: map<string, ProxyMap>

    constructor ()
      ensures clusters == map[]
    {
      clusters := map[];
    }

    method AddCluster(name: string) returns (added: bool)
      modifies this
      ensures added <==> name !in old(clusters)
      ensures clusters == if added then old(clusters)[name := map[]] else old(clusters)
    {
      if name in clusters {
        return false;
      }
      clusters := clusters[name := map[]];
      return true;
    }

    method AddClusterNode(cluster: string, ip: string, port: int, masters: seq<Master>) returns (done: bool)
      modifies this
      ensures done
      ensures clusters ==
              var before := if cluster in old(clusters) then old(clusters)[cluster] else map[];
              old(clusters)[cluster := AddedAll(before, ip, port, masters)]
    {
      if cluster !in clusters {
        var added := AddCluster(cluster);
      }
      var other := new ProxyInfo();
      other.proxies := clusters[cluster];
      done := other.AddProxyList(ip, port, masters);
      clusters := clusters[cluster := other.proxies];
    }

    method Resolve(cluster: string, ip: string, port: int, readWrite: int) returns (master: Option<Master>)
      ensures master == if cluster in clusters then Resolved(clusters[cluster], ip, readWrite) else None
    {
      if cluster !in clusters {
        return None;
      }
      var other := new ProxyInfo();
      other.proxies := clusters[cluster];
      master := other.Resolve(ip, port, readWrite);
    }
  }

  // ----- Runs -----

  datatype Op = Add(key: string, port: int, master: Master) | AddList(key: string, port: int, masters: seq<Master>)
              | Delete(key: string, address: string)

  function Apply(m: ProxyMap, op: Op): ProxyMap {
    match op
    case Add(key, port, master) => Added(m, key, port, master)
    case AddList(key, port, masters) => AddedAll(m, key, port, masters)
    case Delete(key, address) => Deleted(m, key, address)
  }

  function After(ops: seq<Op>): ProxyMap {
    if ops == [] then map[] else Apply(After(ops[..|ops| - 1]), ops[|ops| - 1])
  }

  /** Adds counted up, deletes counted down but never below zero. */
  function Balance(ops: seq<Op>, key: string, address: string): nat {
    if ops == [] then 0
    else
      var before := Balance(ops[..|ops| - 1], key, address);
      match ops[|ops| - 1]
      case Add(k, _, master) => if k == key && master.ipAddress == address then before + 1 else before
      case AddList(k, _, masters) => if k == key then before + Count(masters, address) else before
      case Delete(k, a) => if k == key && a == address && before > 0 then before - 1 else before
  }

  lemma {:induction false} CountIsPositive(masters: seq<Master>, address: string)
    ensures Count(masters, address) > 0 <==> exists i :: 0 <= i < |masters| && masters[i].ipAddress == address
  {
    if masters != [] {
      var init := masters[..|masters| - 1];
      CountIsPositive(init, address);
      assert forall i :: 0 <= i < |init| ==> masters[i] == init[i];
      if Count(init, address) > 0 {
        var i :| 0 <= i < |init| && init[i].ipAddress == address;
        assert masters[i].ipAddress == address;
      }
    }
  }

  lemma {:induction false} CountAppend(a: seq<Master>, b: seq<Master>, address: string)
    ensures Count(a + b, address) == Count(a, address) + Count(b, address)
  {
    if b == [] {
      assert a + b == a;
    } else {
      CountAppend(a, b[..|b| - 1], address);
      assert (a + b)[..|a + b| - 1] == a + b[..|b| - 1];
    }
  }

  lemma CountWithout(masters: seq<Master>, removed: string, address: string)
    ensures Count(Without(masters, removed), address) ==
            if removed == address && Count(masters, address) > 0 then Count(masters, address) - 1
            else Count(masters, address)
  {
    var k := FirstAt(masters, removed);
    CountIsPositive(masters, removed);
    if k < |masters| {
      assert masters == masters[..k] + [masters[k]] + masters[k + 1..];
      CountAppend(masters[..k] + [masters[k]], masters[k + 1..], address);
      CountAppend(masters[..k], [masters[k]], address);
      CountAppend(masters[..k], masters[k + 1..], address);
      assert Count([masters[k]], address) == if masters[k].ipAddress == address then 1 else 0;
    }
  }

  /** Adding a list is adding its masters one by one; the port of a key is the one it was first added with. */
  lemma {:induction false} AddedAllIsFold(m: ProxyMap, key: string, port: int, masters: seq<Master>, other: string)
    ensures var after := AddedAll(m, key, port, masters);
            && Masters(after, other) == Masters(m, other) + (if other == key then masters else [])
            && (other in m ==> other in after && after[other].port == m[other].port)
            && (other !in m && other in after ==> other == key && masters != [] && after[other].port == port)
  {
    if masters != [] {
      var init := masters[..|masters| - 1];
      AddedAllIsFold(m, key, port, init, other);
      if other == key {
        assert Masters(m, key) + init + [masters[|masters| - 1]] == Masters(m, key) + (init + [masters[|masters| - 1]]);
        assert init + [masters[|masters| - 1]] == masters;
      }
    }
  }

  /**
    After any run of adds and deletes a key lists exactly as many masters of an
    address as the truncated balance says.
   */
  lemma {:induction false} CountIsBalance(ops: seq<Op>, key: string, address: string)
    ensures Count(Masters(After(ops), key), address) == Balance(ops, key, address)
  {
    if ops != [] {
      var init := ops[..|ops| - 1];
      CountIsBalance(init, key, address);
      var m := After(init);
      match ops[|ops| - 1]
      case Add(k, port, master) =>
        CountAppend(Masters(m, key), [master], address);
        assert Masters(Added(m, k, port, master), key) == Masters(m, key) + (if k == key then [master] else []);
        assert Count([master], address) == if master.ipAddress == address then 1 else 0;
      case AddList(k, port, masters) =>
        AddedAllIsFold(m, k, port, masters, key);
        CountAppend(Masters(m, key), masters, address);
        assert k != key ==> Masters(m, key) + [] == Masters(m, key);
      case Delete(k, a) =>
        CountWithout(Masters(m, key), a, address);
        if k == key && key !in m {
          assert Without([], a) == [];
        }
    }
  }

  /**
    A delete takes out one position, the first with that address, and keeps the
    order of the rest, the key with its port, and every other key.
   */
  lemma DeleteTakesFirst(m: ProxyMap, key: string, address: string)
    ensures var before, after := Masters(m, key), Masters(Deleted(m, key, address), key);
            if Count(before, address) == 0 then after == before
            else exists k :: 0 <= k < |before| && before[k].ipAddress == address
                             && (forall i :: 0 <= i < k ==> before[i].ipAddress != address)
                             && after == before[..k] + before[k + 1..]
    ensures Deleted(m, key, address).Keys == m.Keys
    ensures key in m ==> Deleted(m, key, address)[key].port == m[key].port
    ensures forall other :: other in m && other != key ==> Deleted(m, key, address)[other] == m[other]
  {
    CountIsPositive(Masters(m, key), address);
  }

  /**
    Resolving a key gives a master exactly when its first master with the key as
    address is of that kind, and then that one.
   */
  lemma ResolvedByFirst(m: ProxyMap, ip: string, readWrite: int)
    ensures var masters, master := Masters(m, ip), Resolved(m, ip, readWrite);
            && (master.Some? <==>
                exists k :: 0 <= k < |masters| && FirstWith(masters, ip, k) && masters[k].readWrite == readWrite)
            && forall k :: 0 <= k < |masters| && FirstWith(masters, ip, k) && masters[k].readWrite == readWrite ==>
                 master == Some(masters[k])
  {
    var masters := Masters(m, ip);
    var k := FirstAt(masters, ip);
    assert k < |masters| ==> FirstWith(masters, ip, k);
  }

  predicate FirstWith(masters: seq<Master>, address: string, k: nat)
    requires k < |masters|
  {
    masters[k].ipAddress == address && forall i :: 0 <= i < k ==> masters[i].ipAddress != address
  }
}
