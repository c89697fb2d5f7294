/** Address normalisation and classification, and validation of a resolution list. */
module Addresses {
  import opened Options

  // An address by its integer value.
  datatype Address = V4(n: nat) | V6(n: nat) {
    predicate Valid() { if V4? then n < 0x1_0000_0000 else n < 0x1_00000000_00000000_00000000_00000000 }
  }

  datatype Reason =
    | CloudMetadata | Loopback | LinkLocal | Multicast | Unspecified | SharedAddressSpace | SiteLocal
    | Ipv4Compatible | Ipv4Translated | Reserved | Documentation | DiscardOnly | Private | Broadcast

  // The addresses of one version from `first`, `size` of them.
  datatype Network = Network(v4: bool, first: nat, size: nat, reason: Reason)

  const METADATA_NETWORKS: seq<Network> := [
    Network(true, 0xA9FEA9FE, 1, CloudMetadata),                                  // 169.254.169.254/32
    Network(true, 0xA9FEAA02, 1, CloudMetadata),                                  // 169.254.170.2/32
    Network(true, 0x646464C8, 1, CloudMetadata),                                  // 100.100.100.200/32
    Network(false, 0xFD000EC2_00000000_00000000_00000254, 1, CloudMetadata)]      // fd00:ec2::254/128

  const ALWAYS_FORBIDDEN: seq<Network> := [
    Network(true, 0x7F000000, 0x1000000, Loopback),                               // 127.0.0.0/8
    Network(false, 1, 1, Loopback),                                               // ::1/128
    Network(true, 0xA9FE0000, 0x10000, LinkLocal),                                // 169.254.0.0/16
    Network(false, 0xFE800000_00000000_00000000_00000000, 0x400000_00000000_00000000_00000000, LinkLocal), // fe80::/10
    Network(true, 0xE0000000, 0x10000000, Multicast),                             // 224.0.0.0/4
    Network(false, 0xFF000000_00000000_00000000_00000000, 0x1000000_00000000_00000000_00000000, Multicast),  // ff00::/8
    Network(true, 0, 0x1000000, Unspecified),                                     // 0.0.0.0/8
    Network(false, 0, 1, Unspecified),                                            // ::/128
    Network(true, 0x64400000, 0x400000, SharedAddressSpace),                      // 100.64.0.0/10
    Network(false, 0xFEC00000_00000000_00000000_00000000, 0x400000_00000000_00000000_00000000, SiteLocal), // fec0::/10
    Network(false, 0, 0x1_00000000, Ipv4Compatible),                              // ::/96
    Network(false, 0xFFFF_00000000_0000, 0x1_00000000, Ipv4Translated),           // ::ffff:0:0:0/96
    Network(true, 0xC0586300, 0x100, Reserved),                                   // 192.88.99.0/24
    Network(false, 0x20010DB8_00000000_00000000_00000000, 0x1_00000000_00000000_00000000, Documentation),
        // 2001:db8::/32
    Network(false, 0x01000000_00000000_00000000_00000000, 0x1_00000000_00000000, DiscardOnly)]               // 100::/64

  const PRIVATE_NETWORKS: seq<Network> := [
    Network(true, 0x0A000000, 0x1000000, Private),                                // 10.0.0.0/8
    Network(true, 0xAC100000, 0x100000, Private),                                 // 172.16.0.0/12
    Network(true, 0xC0A80000, 0x10000, Private),                                  // 192.168.0.0/16
    Network(false, 0xFC000000_00000000_00000000_00000000, 0x2000000_00000000_00000000_00000000, Private),    // fc00::/7
    Network(true, 0xC0000000, 0x100, Reserved),                                   // 192.0.0.0/24
    Network(true, 0xC0000200, 0x100, Reserved),                                   // 192.0.2.0/24
    Network(true, 0xC6120000, 0x20000, Reserved),                                 // 198.18.0.0/15
    Network(true, 0xC6336400, 0x100, Reserved),                                   // 198.51.100.0/24
    Network(true, 0xCB007100, 0x100, Reserved),                                   // 203.0.113.0/24
    Network(true, 0xF0000000, 0x10000000, Reserved),                              // 240.0.0.0/4
    Network(true, 0xFFFFFFFF, 1, Broadcast)]                                      // 255.255.255.255/32

  const WORD: nat := 0x1_0000_0000
  const WORD2: nat := 0x1_00000000_00000000
  const WORD3: nat := 0x1_00000000_00000000_00000000
  const BITS80: nat := 0x1_0000_00000000_00000000
  const BITS112: nat := 0x1_0000_00000000_00000000_00000000

  /** Unwrap every IPv6 form that embeds an IPv4 address, in the order the guard tries them. */
  function Normalise(ip: Address): Address {
    if ip.V4? then ip
    else if ip.n / WORD == 0xFFFF then V4(ip.n % WORD)                            // ::ffff:a.b.c.d
    else if ip.n / BITS112 == 0x2002 then V4((ip.n / BITS80) % WORD)              // 2002:a.b.c.d::
    else if ip.n / WORD3 == 0x20010000 then V4(0xFFFFFFFF - ip.n % WORD)          // Teredo client
    else if ip.n / WORD == 0x0064FF9B_00000000_00000000 then V4(ip.n % WORD)      // 64:ff9b::a.b.c.d
    else ip
  }

  predicate In(ip: Address, net: Network) {
    ip.V4? == net.v4 && net.first <= ip.n < net.first + net.size
  }

  /** The reason of the first network of `table` that holds the address. */
  function Match(ip: Address, table: seq<Network>): (r: Option<Reason>)
    ensures r.None? <==> forall net | net in table :: !In(ip, net)
    ensures r.Some? ==> exists net :: net in table && In(ip, net) && net.reason == r.value
  {
    if table == [] then None
    else if In(ip, table[0]) then Some(table[0].reason)
    else Match(ip, table[1..])
  }

  function AlwaysForbidden(ip: Address): Option<Reason> {
    var normal := Normalise(ip);
    match Match(normal, METADATA_NETWORKS)
    case Some(_) => Some(CloudMetadata)
    case None => Match(normal, ALWAYS_FORBIDDEN)
  }

  function AddressIsForbidden(ip: Address): Option<Reason> {
    var normal := Normalise(ip);
    match AlwaysForbidden(normal)
    case Some(reason) => Some(reason)
    case None => Match(normal, PRIVATE_NETWORKS)
  }

  function Classify(ip: Address, allowPrivate: bool): Option<Reason> {
    if allowPrivate then AlwaysForbidden(ip) else AddressIsForbidden(ip)
  }

  lemma NormaliseTwice(ip: Address)
    ensures Normalise(Normalise(ip)) == Normalise(ip)
    ensures ip.Valid() ==> Normalise(ip).Valid()
  {
  }

  /** The IPv6 spellings of an IPv4 address: IPv4-mapped (section 2.5.5.2 of RFC 4291), 6to4 (section 2
      of RFC 3056), Teredo (section 4 of RFC 4380) and the well-known NAT64 prefix (section 2.1 of RFC 6052). */
  datatype Spelling = Mapped | SixToFour(rest: nat) | Teredo(server: nat, middle: nat) | Nat64

  ghost predicate SpellingOk(s: Spelling) {
    match s
    case SixToFour(rest) => rest < BITS80
    case Teredo(server, middle) => server < WORD && middle < WORD
    case _ => true
  }

  function Spell(a: nat, s: Spelling): Address
    requires a < WORD
  {
    match s
    case Mapped => V6(0xFFFF * WORD + a)
    case SixToFour(rest) => V6(0x2002 * BITS112 + a * BITS80 + rest)
    case Teredo(server, middle) => V6(0x20010000 * WORD3 + server * WORD2 + middle * WORD + (0xFFFFFFFF - a))
    case Nat64 => V6(0x0064FF9B_00000000_00000000 * WORD + a)
  }

  lemma SpellingUnwraps(a: nat, s: Spelling)
    requires a < WORD && SpellingOk(s)
    ensures Spell(a, s).Valid() && Normalise(Spell(a, s)) == V4(a)
  {
    match s
    case Mapped =>
    case SixToFour(rest) =>
      var n := Spell(a, s).n;
      assert n / BITS80 == 0x2002 * WORD + a;
      assert n / BITS112 == 0x2002;
      assert n / WORD != 0xFFFF;
    case Teredo(server, middle) =>
      var n := Spell(a, s).n;
      assert n / WORD3 == 0x20010000;
      assert n / BITS112 == 0x2001;
      assert n / WORD == 0x20010000 * WORD2 + server * WORD + middle;
      assert n % WORD == 0xFFFFFFFF - a;
    case Nat64 =>
      var n := Spell(a, s).n;
      assert n / WORD == 0x0064FF9B_00000000_00000000;
      assert n / WORD3 == 0x0064FF9B;
      assert n / BITS112 == 0x0064;
      assert n % WORD == a;
  }

  /** No spelling of an IPv4 address is treated differently from the address itself. */
  lemma SpellingsClassifyAlike(a: nat, s: Spelling, allowPrivate: bool)
    requires a < WORD && SpellingOk(s)
    ensures Classify(Spell(a, s), allowPrivate) == Classify(V4(a), allowPrivate)
  {
    SpellingUnwraps(a, s);
  }

  function Blocked(allowPrivate: bool): seq<Network> {
    METADATA_NETWORKS + ALWAYS_FORBIDDEN + if allowPrivate then [] else PRIVATE_NETWORKS
  }

  /** An address passes exactly when its unwrapped form is in no blocked network. */
  lemma PassesIff(ip: Address, allowPrivate: bool)
    ensures Classify(ip, allowPrivate).None? <==> forall net | net in Blocked(allowPrivate) :: !In(Normalise(ip), net)
  {
    NormaliseTwice(ip);
  }

  /** Permitting private addresses only ever permits more, and keeps every other refusal's reason. */
  lemma PrivateOnlyPermits(ip: Address)
    ensures Classify(ip, true).Some? ==> Classify(ip, false) == Classify(ip, true)
    ensures Classify(ip, false).None? ==> Classify(ip, true).None?
  {
    NormaliseTwice(ip);
  }

  // ---------------------------------------------------------------- resolution

  datatype Refusal =
    | DnsFailed | Unparsable | Forbidden(reason: Reason) | SchemeNotAllowed | MissingHost
    | CredentialsInUrl | HostNotAllowlisted | RedirectWithoutLocation

  datatype Checked<+T> = Ok(value: T) | Refused(refusal: Refusal)

  // What the resolver returned: nothing, or entries, each an address or something else.
  type Resolution = Option<seq<Option<Address>>>

  /** What the guard says of one entry of the answer: the address to connect to, or a refusal. */
  function Verdict(entry: Option<Address>, allowPrivate: bool): Checked<Address> {
    if entry.None? then Refused(Unparsable)
    else match Classify(entry.value, allowPrivate)
      case Some(reason) => Refused(Forbidden(reason))
      case None => Ok(Normalise(entry.value))
  }

  predicate EntryPasses(entry: Option<Address>, allowPrivate: bool) {
    entry.Some? && Classify(entry.value, allowPrivate).None?
  }

  function Verdicts(entries: seq<Option<Address>>, allowPrivate: bool): (r: seq<Checked<Address>>)
    ensures |r| == |entries|
  {
    seq(|entries|, i requires 0 <= i < |entries| => Verdict(entries[i], allowPrivate))
  }

  function FirstRefusal(verdicts: seq<Checked<Address>>): (r: Option<Refusal>)
    ensures r.None? <==> forall v | v in verdicts :: v.Ok?
  {
    if verdicts == [] then None
    else if verdicts[0].Refused? then
      assert verdicts[0] in verdicts;
      Some(verdicts[0].refusal)
    else FirstRefusal(verdicts[1..])
  }

  function Vouched(resolution: Resolution, allowPrivate: bool): Checked<Address> {
    if resolution.None? || resolution.value == [] then Refused(DnsFailed)
    else
      var verdicts := Verdicts(resolution.value, allowPrivate);
      match FirstRefusal(verdicts)
      case Some(refusal) => Refused(refusal)
      case None => assert verdicts[0] in verdicts; verdicts[0]
  }

  method CheckEntry(entry: Option<Address>, allowPrivate: bool) returns (verdict: Checked<Address>)
    ensures verdict == Verdict(entry, allowPrivate)
  {
    if entry.None? {
      return Refused(Unparsable);
    }
    var ip := Normalise(entry.value);
    NormaliseTwice(entry.value);
    var forbidden := Classify(ip, allowPrivate);
    if forbidden.Some? {
      return Refused(Forbidden(forbidden.value));
    }
    verdict := Ok(ip);
  }

  lemma {:induction false} RefusedAt(verdicts: seq<Checked<Address>>, i: nat)
    requires i < |verdicts| && verdicts[i].Refused? && forall k | 0 <= k < i :: verdicts[k].Ok?
    ensures FirstRefusal(verdicts) == Some(verdicts[i].refusal)
  {
    if i > 0 {
      RefusedAt(verdicts[1..], i - 1);
    }
  }

  /** Resolve-and-validate: one bad entry refuses the whole answer. */
  method ResolveAndValidate(resolution: Resolution, allowPrivate: bool) returns (result: Checked<Address>)
    ensures result == Vouched(resolution, allowPrivate)
  {
    if resolution.None? {
      return Refused(DnsFailed);
    }
    var infos := resolution.value;
    if infos == [] {
      return Refused(DnsFailed);
    }
    ghost var verdicts := Verdicts(infos, allowPrivate);
    var addresses: seq<Address> := [];
    var i := 0;
    while i < |infos|
      invariant 0 <= i <= |infos| && |addresses| == i
      invariant forall k | 0 <= k < i :: verdicts[k] == Ok(addresses[k])
    {
      var verdict := CheckEntry(infos[i], allowPrivate);
      if verdict.Refused? {
        RefusedAt(verdicts, i);
        return verdict;
      }
      addresses := addresses + [verdict.value];
      i := i + 1;
    }
    result := Ok(addresses[0]);
  }

  /** The pinned address is one the resolver returned, in its unwrapped form; it passes on its own;
      and every other address of the answer passes too. */
  lemma PinnedAddressPasses(resolution: Resolution, allowPrivate: bool)
    ensures Vouched(resolution, allowPrivate).Ok? <==>
            resolution.Some? && resolution.value != []
                && forall e | e in resolution.value :: EntryPasses(e, allowPrivate)
    ensures Vouched(resolution, allowPrivate).Ok? ==>
              var pinned := Vouched(resolution, allowPrivate).value;
              Normalise(pinned) == pinned && Classify(pinned, allowPrivate).None?
              && pinned == Normalise(resolution.value[0].value)
  {
    if resolution.Some? && resolution.value != [] {
      var entries := resolution.value;
      VerdictsPass(entries, allowPrivate);
      if Vouched(resolution, allowPrivate).Ok? {
        assert Verdicts(entries, allowPrivate)[0] == Verdict(entries[0], allowPrivate);
        NormaliseTwice(entries[0].value);
      }
    }
  }

  lemma VerdictsPass(entries: seq<Option<Address>>, allowPrivate: bool)
    ensures (forall v | v in Verdicts(entries, allowPrivate) :: v.Ok?)
          <==> forall e | e in entries :: EntryPasses(e, allowPrivate)
  {
    var verdicts := Verdicts(entries, allowPrivate);
    forall e | e in entries
      ensures (forall v | v in verdicts :: v.Ok?) ==> EntryPasses(e, allowPrivate)
    {
      var i :| 0 <= i < |entries| && entries[i] == e;
      assert verdicts[i] in verdicts;
    }
    forall v | v in verdicts
      ensures (forall e | e in entries :: EntryPasses(e, allowPrivate)) ==> v.Ok?
    {
      var i :| 0 <= i < |verdicts| && verdicts[i] == v;
      assert entries[i] in entries;
    }
  }

  /** A refused answer is refused for its first entry that does not pass, or for being empty. */
  lemma FirstEntryRefuses(resolution: Resolution, allowPrivate: bool, i: nat)
    requires resolution.Some? && i < |resolution.value| && !EntryPasses(resolution.value[i], allowPrivate)
    requires forall k | 0 <= k < i :: EntryPasses(resolution.value[k], allowPrivate)
    ensures var entry, vouched := resolution.value[i], Vouched(resolution, allowPrivate);
            if entry.None? then vouched == Refused(Unparsable)
            else vouched == Refused(Forbidden(Classify(entry.value, allowPrivate).value))
    ensures Vouched(None, allowPrivate) == Vouched(Some([]), allowPrivate) == Refused(DnsFailed)
  {
    RefusedAt(Verdicts(resolution.value, allowPrivate), i);
  }
}
