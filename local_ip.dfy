/**
 * The address the server advertises on the local network: the first private IPv4
 * address of a non-internal interface, else the first non-internal IPv4 address,
 * else `localhost`. The interface table is an input here.
 */
module LocalIp {
  import opened Wrappers
  import opened Seqs

  /** One address entry of an interface, as the operating system reports it. */
  datatype Address = Address(address: string, family: string, internal: bool)

  /** An interface by name with its addresses; the table lists them in key order. */
  datatype NetworkInterface = NetworkInterface(name: string, addresses: seq<Address>)

  /** All address entries in scan order: interface by interface, entry by entry. */
  function Flatten(interfaces: seq<NetworkInterface>): seq<Address>
    decreases |interfaces|
  {
    if interfaces == [] then [] else Flatten(interfaces[..|interfaces| - 1]) + interfaces[|interfaces| - 1].addresses
  }

  /** A non-internal IPv4 address. */
  predicate Usable(a: Address) { !a.internal && a.family == "IPv4" }

  /** The prefixes the first pass prefers: `192.168.`, `10.` and `172.16.`. */
  predicate IsPrivate(address: string) {
    "192.168." <= address || "10." <= address || "172.16." <= address
  }

  predicate Preferred(a: Address) { Usable(a) && IsPrivate(a.address) }

  /** The address `getLocalIpAddress` picks. */
  function LocalIpAddress(interfaces: seq<NetworkInterface>): (r: string)
    ensures r == "localhost" || exists a :: a in Flatten(interfaces) && Usable(a) && a.address == r
    ensures (forall a :: a in Flatten(interfaces) ==> !Usable(a)) ==> r == "localhost"
  {
    match First(Flatten(interfaces), Preferred)
    case Some(a) => a.address
    case None =>
      match First(Flatten(interfaces), Usable)
      case Some(a) => a.address
      case None => "localhost"
  }

  /** A private address, when there is one, wins: the first in scan order. */
  lemma PrivateAddressFirst(interfaces: seq<NetworkInterface>)
    requires exists a :: a in Flatten(interfaces) && Preferred(a)
    ensures var all := Flatten(interfaces);
      exists k :: 0 <= k < |all| && Preferred(all[k]) && LocalIpAddress(interfaces) == all[k].address &&
                  forall m :: 0 <= m < k ==> !Preferred(all[m])
  {
    FirstIsEarliest(Flatten(interfaces), Preferred);
  }

  /** Without a private one, the first non-internal IPv4 address in scan order. */
  lemma FallbackAddressFirst(interfaces: seq<NetworkInterface>)
    requires forall a :: a in Flatten(interfaces) ==> !Preferred(a)
    requires exists a :: a in Flatten(interfaces) && Usable(a)
    ensures var all := Flatten(interfaces);
      exists k :: 0 <= k < |all| && Usable(all[k]) && LocalIpAddress(interfaces) == all[k].address &&
                  forall m :: 0 <= m < k ==> !Usable(all[m])
  {
    FirstIsEarliest(Flatten(interfaces), Usable);
  }

  /** The scan of the first `n` interfaces is a prefix of the whole scan. */
  lemma {:induction false} FlattenPrefix(interfaces: seq<NetworkInterface>, n: nat)
    requires n <= |interfaces|
    ensures Flatten(interfaces[..n]) + (if n < |interfaces| then interfaces[n].addresses else []) <= Flatten(interfaces)
    decreases |interfaces| - n
  {
    if n < |interfaces| {
      assert interfaces[..n + 1][..n] == interfaces[..n];
      FlattenPrefix(interfaces, n + 1);
    } else {
      assert interfaces[..n] == interfaces;
    }
  }

  /** The first match in a prefix is the first match in the whole sequence. */
  lemma FirstInPrefix<T(!new)>(a: seq<T>, s: seq<T>, p: T -> bool)
    requires a <= s && First(a, p).Some?
    ensures First(s, p) == First(a, p)
  {
    assert s == a + s[|a|..];
    FirstConcat(a, s[|a|..], p);
  }

  /** The scan of one interface more. */
  lemma FlattenStep(interfaces: seq<NetworkInterface>, i: nat)
    requires i < |interfaces|
    ensures Flatten(interfaces[..i + 1]) == Flatten(interfaces[..i]) + interfaces[i].addresses
  {
    assert interfaces[..i + 1][..i] == interfaces[..i];
  }

  /**
   * Scanning stopped at entry `j` of interface `i`, the first in scan order that
   * satisfies `p`: it is the first match of the whole scan.
   */
  lemma FoundAt(interfaces: seq<NetworkInterface>, i: nat, j: nat, p: Address -> bool)
    requires i < |interfaces| && j < |interfaces[i].addresses| && p(interfaces[i].addresses[j])
    requires First(Flatten(interfaces[..i]), p).None? && First(interfaces[i].addresses[..j], p).None?
    ensures First(Flatten(interfaces), p) == Some(interfaces[i].addresses[j])
  {
    var addrs := interfaces[i].addresses;
    var seen := Flatten(interfaces[..i]) + addrs[..j + 1];
    assert addrs[..j + 1] == addrs[..j] + [addrs[j]];
    FirstConcat(addrs[..j], [addrs[j]], p);
    FirstConcat(Flatten(interfaces[..i]), addrs[..j + 1], p);
    FlattenPrefix(interfaces, i);
    assert addrs[..j + 1] <= addrs;
    assert seen <= Flatten(interfaces[..i]) + addrs;
    FirstInPrefix(seen, Flatten(interfaces), p);
  }

  /** One entry more scanned without a match. */
  lemma NoMatchStep(addrs: seq<Address>, j: nat, p: Address -> bool)
    requires j < |addrs| && First(addrs[..j], p).None? && !p(addrs[j])
    ensures First(addrs[..j + 1], p).None?
  {
    assert addrs[..j + 1] == addrs[..j] + [addrs[j]];
    FirstConcat(addrs[..j], [addrs[j]], p);
  }

  /** One interface more scanned without a match. */
  lemma NoMatchInterface(interfaces: seq<NetworkInterface>, i: nat, p: Address -> bool)
    requires i < |interfaces| && First(Flatten(interfaces[..i]), p).None?
    requires First(interfaces[i].addresses[..|interfaces[i].addresses|], p).None?
    ensures First(Flatten(interfaces[..i + 1]), p).None?
  {
    assert interfaces[i].addresses[..|interfaces[i].addresses|] == interfaces[i].addresses;
    FlattenStep(interfaces, i);
    FirstConcat(Flatten(interfaces[..i]), interfaces[i].addresses, p);
  }

  /** `getLocalIpAddress`: the two nested scans, with `continue` and early returns. */
  method GetLocalIpAddress(interfaces: seq<NetworkInterface>) returns (ip: string)
    ensures ip == LocalIpAddress(interfaces)
  {
    for i := 0 to |interfaces|
      invariant First(Flatten(interfaces[..i]), Preferred).None?
    {
      var addrs := interfaces[i].addresses;
      for j := 0 to |addrs|
        invariant First(addrs[..j], Preferred).None?
      {
        var iface := addrs[j];
        if iface.internal {
          NoMatchStep(addrs, j, Preferred);
          continue;
        }
        if iface.family == "IPv4" {
          if "192.168." <= iface.address || "10." <= iface.address || "172.16." <= iface.address {
            FoundAt(interfaces, i, j, Preferred);
            return iface.address;
          }
        }
        NoMatchStep(addrs, j, Preferred);
      }
      NoMatchInterface(interfaces, i, Preferred);
    }
    assert interfaces[..|interfaces|] == interfaces;
    for i := 0 to |interfaces|
      invariant First(Flatten(interfaces[..i]), Usable).None?
    {
      var addrs := interfaces[i].addresses;
      for j := 0 to |addrs|
        invariant First(addrs[..j], Usable).None?
      {
        var iface := addrs[j];
        if !iface.internal && iface.family == "IPv4" {
          FoundAt(interfaces, i, j, Usable);
          return iface.address;
        }
        NoMatchStep(addrs, j, Usable);
      }
      NoMatchInterface(interfaces, i, Usable);
    }
    assert interfaces[..|interfaces|] == interfaces;
    return "localhost";
  }
}
