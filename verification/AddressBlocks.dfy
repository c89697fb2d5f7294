/** Which addresses are refused and why, octet by octet and group by group. */
module AddressBlocks {
  import opened Options
  import opened Addresses

  // ---------------------------------------------------------------- IPv4

  type Octet = n: nat | n < 0x100

  function Dotted(a: Octet, b: Octet, c: Octet, d: Octet): Address {
    V4(((a * 0x100 + b) * 0x100 + c) * 0x100 + d)
  }

  /** Why a.b.c.d is refused although private addresses are permitted. */
  function AlwaysReason(a: Octet, b: Octet, c: Octet, d: Octet): Option<Reason> {
    if a == 0 then Some(Unspecified)
    else if a == 127 then Some(Loopback)
    else if 224 <= a <= 239 then Some(Multicast)
    else if a == 169 && b == 254 then
      Some(if (c == 169 && d == 254) || (c == 170 && d == 2) then CloudMetadata else LinkLocal)
    else if a == 100 && 64 <= b <= 127 then
      Some(if b == 100 && c == 100 && d == 200 then CloudMetadata else SharedAddressSpace)
    else if a == 192 && b == 88 && c == 99 then Some(Reserved)
    else None
  }

  /** Why a.b.c.d is refused when they are not. */
  function PrivateReason(a: Octet, b: Octet, c: Octet): Option<Reason> {
    if a == 10 || (a == 172 && 16 <= b <= 31) || (a == 192 && b == 168) then Some(Private)
    else if a >= 240 || (a == 192 && b == 0 && (c == 0 || c == 2)) || (a == 198 && (b == 18 || b == 19))
            || (a == 198 && b == 51 && c == 100) || (a == 203 && b == 0 && c == 113) then Some(Reserved)
    else None
  }

  function DottedReason(a: Octet, b: Octet, c: Octet, d: Octet, allowPrivate: bool): Option<Reason> {
    var always := AlwaysReason(a, b, c, d);
    if always.Some? || allowPrivate then always else PrivateReason(a, b, c)
  }

  /** The first network that holds an address decides. */
  lemma {:induction false} MatchAt(ip: Address, table: seq<Network>, k: nat)
    requires k < |table| && In(ip, table[k]) && forall j | 0 <= j < k :: !In(ip, table[j])
    ensures Match(ip, table) == Some(table[k].reason)
  {
    if k > 0 {
      assert !In(ip, table[0]);
      assert forall j | 0 <= j < k - 1 :: table[1..][j] == table[j + 1];
      MatchAt(ip, table[1..], k - 1);
    }
  }

  lemma {:induction false} MatchNowhere(ip: Address, table: seq<Network>)
    requires forall j | 0 <= j < |table| :: !In(ip, table[j])
    ensures Match(ip, table) == None
  {
  }

  // Where a table of IPv4 networks first holds a.b.c.d, or its length.
  function MetadataIndex(a: Octet, b: Octet, c: Octet, d: Octet): nat {
    if a == 169 && b == 254 && c == 169 && d == 254 then 0
    else if a == 169 && b == 254 && c == 170 && d == 2 then 1
    else if a == 100 && b == 100 && c == 100 && d == 200 then 2
    else 4
  }

  function AlwaysIndex(a: Octet, b: Octet, c: Octet): nat {
    if a == 127 then 0 else if a == 169 && b == 254 then 2 else if 224 <= a <= 239 then 4
    else if a == 0 then 6 else if a == 100 && 64 <= b <= 127 then 8
    else if a == 192 && b == 88 && c == 99 then 12 else 15
  }

  function PrivateIndex(a: Octet, b: Octet, c: Octet): nat {
    if a == 10 then 0 else if a == 172 && 16 <= b <= 31 then 1 else if a == 192 && b == 168 then 2
    else if a == 192 && b == 0 && c == 0 then 4 else if a == 192 && b == 0 && c == 2 then 5
    else if a == 198 && (b == 18 || b == 19) then 6 else if a == 198 && b == 51 && c == 100 then 7
    else if a == 203 && b == 0 && c == 113 then 8 else if a >= 240 then 9 else 11
  }

  lemma DigitsAgree(a: Octet, b: Octet, c: Octet, d: Octet, e: Octet, f: Octet, g: Octet, h: Octet)
    ensures Dotted(a, b, c, d) == Dotted(e, f, g, h) <==> a == e && b == f && c == g && d == h
  {
  }

  lemma MetadataHolds(a: Octet, b: Octet, c: Octet, d: Octet, j: nat)
    requires j < |METADATA_NETWORKS| && j <= MetadataIndex(a, b, c, d)
    ensures In(Dotted(a, b, c, d), METADATA_NETWORKS[j]) <==> j == MetadataIndex(a, b, c, d)
  {
    DigitsAgree(a, b, c, d, 169, 254, 169, 254);
    DigitsAgree(a, b, c, d, 169, 254, 170, 2);
    DigitsAgree(a, b, c, d, 100, 100, 100, 200);
  }

  lemma AlwaysHolds(a: Octet, b: Octet, c: Octet, d: Octet, j: nat)
    requires j < |ALWAYS_FORBIDDEN| && j <= AlwaysIndex(a, b, c)
    ensures In(Dotted(a, b, c, d), ALWAYS_FORBIDDEN[j]) <==> j == AlwaysIndex(a, b, c)
  {
  }

  lemma PrivateHolds(a: Octet, b: Octet, c: Octet, d: Octet, j: nat)
    requires j < |PRIVATE_NETWORKS| && j <= PrivateIndex(a, b, c)
    ensures In(Dotted(a, b, c, d), PRIVATE_NETWORKS[j]) <==> j == PrivateIndex(a, b, c)
  {
  }

  lemma MatchIn(ip: Address, table: seq<Network>, k: nat)
    requires k <= |table|
    requires forall j | 0 <= j <= k && j < |table| :: In(ip, table[j]) <==> j == k
    ensures Match(ip, table) == if k < |table| then Some(table[k].reason) else None
  {
    if k < |table| {
      MatchAt(ip, table, k);
    } else {
      MatchNowhere(ip, table);
    }
  }

  lemma MetadataMatch(a: Octet, b: Octet, c: Octet, d: Octet)
    ensures Match(Dotted(a, b, c, d), METADATA_NETWORKS).Some? <==> AlwaysReason(a, b, c, d) == Some(CloudMetadata)
  {
    var k := MetadataIndex(a, b, c, d);
    forall j | 0 <= j <= k && j < |METADATA_NETWORKS|
      ensures In(Dotted(a, b, c, d), METADATA_NETWORKS[j]) <==> j == k
    {
      MetadataHolds(a, b, c, d, j);
    }
    MatchIn(Dotted(a, b, c, d), METADATA_NETWORKS, k);
  }

  // What the second table says, and metadata hosts aside, why.
  function AlwaysTable(a: Octet, b: Octet, c: Octet): Option<Reason> {
    var k := AlwaysIndex(a, b, c);
    if k < |ALWAYS_FORBIDDEN| then Some(ALWAYS_FORBIDDEN[k].reason) else None
  }

  lemma AlwaysTableAt(a: Octet, b: Octet, c: Octet, d: Octet)
    requires AlwaysReason(a, b, c, d) != Some(CloudMetadata)
    ensures AlwaysTable(a, b, c) == AlwaysReason(a, b, c, d)
  {
    assert ALWAYS_FORBIDDEN[0].reason == Loopback && ALWAYS_FORBIDDEN[2].reason == LinkLocal;
    assert ALWAYS_FORBIDDEN[4].reason == Multicast && ALWAYS_FORBIDDEN[6].reason == Unspecified;
    assert ALWAYS_FORBIDDEN[8].reason == SharedAddressSpace && ALWAYS_FORBIDDEN[12].reason == Reserved;
  }

  lemma AlwaysMatch(a: Octet, b: Octet, c: Octet, d: Octet)
    ensures Match(Dotted(a, b, c, d), ALWAYS_FORBIDDEN) == AlwaysTable(a, b, c)
  {
    var k := AlwaysIndex(a, b, c);
    forall j | 0 <= j <= k && j < |ALWAYS_FORBIDDEN|
      ensures In(Dotted(a, b, c, d), ALWAYS_FORBIDDEN[j]) <==> j == k
    {
      AlwaysHolds(a, b, c, d, j);
    }
    MatchIn(Dotted(a, b, c, d), ALWAYS_FORBIDDEN, k);
  }

  lemma PrivateMatch(a: Octet, b: Octet, c: Octet, d: Octet)
    ensures Match(Dotted(a, b, c, d), PRIVATE_NETWORKS) == PrivateReason(a, b, c)
  {
    var k := PrivateIndex(a, b, c);
    forall j | 0 <= j <= k && j < |PRIVATE_NETWORKS|
      ensures In(Dotted(a, b, c, d), PRIVATE_NETWORKS[j]) <==> j == k
    {
      PrivateHolds(a, b, c, d, j);
    }
    MatchIn(Dotted(a, b, c, d), PRIVATE_NETWORKS, k);
  }

  /** Every IPv4 address is refused for the reason its octets give, or passes. */
  lemma OctetsDecide(a: Octet, b: Octet, c: Octet, d: Octet, allowPrivate: bool)
    ensures Classify(Dotted(a, b, c, d), allowPrivate) == DottedReason(a, b, c, d, allowPrivate)
  {
    MetadataMatch(a, b, c, d);
    if AlwaysReason(a, b, c, d) != Some(CloudMetadata) {
      AlwaysMatch(a, b, c, d);
      AlwaysTableAt(a, b, c, d);
    }
    PrivateMatch(a, b, c, d);
  }

  /** And every IPv4 address has octets. */
  lemma EveryAddressIsDotted(n: nat) returns (a: Octet, b: Octet, c: Octet, d: Octet)
    requires V4(n).Valid()
    ensures V4(n) == Dotted(a, b, c, d)
  {
    var rest := n % 0x1000000;
    a, b := n / 0x1000000, rest / 0x10000;
    c, d := rest % 0x10000 / 0x100, rest % 0x100;
    assert n == a * 0x1000000 + rest && rest == b * 0x10000 + rest % 0x10000;
  }

  // ---------------------------------------------------------------- IPv6

  type Group = n: nat | n < 0x10000

  // The eight groups of an IPv6 address.
  datatype Groups = Groups(g0: Group, g1: Group, g2: Group, g3: Group, g4: Group, g5: Group, g6: Group, g7: Group) {
    function Prefix4(): nat { ((g0 * 0x10000 + g1) * 0x10000 + g2) * 0x10000 + g3 }

    function Prefix6(): nat { (Prefix4() * 0x10000 + g4) * 0x10000 + g5 }

    function Suffix2(): nat { g6 * 0x10000 + g7 }

    function Address(): Address { V6(Prefix6() * WORD + Suffix2()) }
  }

  /** The IPv4 address inside, as its two halves. */
  function Embedded(g: Groups): Option<(Group, Group)> {
    if g.g0 == g.g1 == g.g2 == g.g3 == g.g4 == 0 && g.g5 == 0xFFFF then Some((g.g6, g.g7)) // mapped
    else if g.g0 == 0x2002 then Some((g.g1, g.g2)) // 6to4
    else if g.g0 == 0x2001 && g.g1 == 0 then Some((0xFFFF - g.g6, 0xFFFF - g.g7)) // Teredo
    else if g.g0 == 0x64 && g.g1 == 0xFF9B && g.g2 == g.g3 == g.g4 == g.g5 == 0 then Some((g.g6, g.g7)) // NAT64
    else None
  }

  predicate IsMetadataHost(g: Groups) {
    g.g0 == 0xFD00 && g.g1 == 0xEC2 && g.g2 == g.g3 == g.g4 == g.g5 == g.g6 == 0 && g.g7 == 0x254
  }

  /** Why an address with no IPv4 address inside, and no metadata host, is refused although private addresses
      are permitted. */
  function OwnAlwaysReason(g: Groups): Option<Reason> {
    if g.g0 == g.g1 == g.g2 == g.g3 == g.g4 == g.g5 == 0 then
      Some(if g.g6 == 0 && g.g7 == 1 then Loopback else if g.g6 == g.g7 == 0 then Unspecified else Ipv4Compatible)
    else if g.g0 == g.g1 == g.g2 == g.g3 == 0 && g.g4 == 0xFFFF && g.g5 == 0 then Some(Ipv4Translated)
    else if g.g0 == 0x100 && g.g1 == g.g2 == g.g3 == 0 then Some(DiscardOnly)
    else if g.g0 == 0x2001 && g.g1 == 0xDB8 then Some(Documentation)
    else if 0xFE80 <= g.g0 <= 0xFEBF then Some(LinkLocal)
    else if 0xFEC0 <= g.g0 <= 0xFEFF then Some(SiteLocal)
    else if 0xFF00 <= g.g0 then Some(Multicast)
    else None
  }

  /** Why an address with no IPv4 address inside is refused. */
  function OwnReason(g: Groups, allowPrivate: bool): Option<Reason> {
    if IsMetadataHost(g) then Some(CloudMetadata)
    else if OwnAlwaysReason(g).Some? || allowPrivate then OwnAlwaysReason(g)
    else if 0xFC00 <= g.g0 <= 0xFDFF then Some(Private)
    else None
  }

  lemma Quotients(g: Groups)
    ensures var n := g.Address().n;
            && n / WORD == g.Prefix6() && n % WORD == g.Suffix2()
            && n / WORD3 == g.g0 * 0x10000 + g.g1 && n / BITS112 == g.g0
            && (n / BITS80) % WORD == g.g1 * 0x10000 + g.g2
  {
    var n := g.Address().n;
    assert n / BITS80 == (g.g0 * 0x10000 + g.g1) * 0x10000 + g.g2;
  }

  lemma SameNumber(hi: nat, lo: Group, h: nat, l: Group)
    ensures hi * 0x10000 + lo == h * 0x10000 + l <==> hi == h && lo == l
  {
  }

  lemma SamePrefix4(g: Groups, h: Groups)
    ensures g.Prefix4() == h.Prefix4() <==> g.g0 == h.g0 && g.g1 == h.g1 && g.g2 == h.g2 && g.g3 == h.g3
  {
    var g2, h2 := g.g0 * 0x10000 + g.g1, h.g0 * 0x10000 + h.g1;
    SameNumber(g.g0, g.g1, h.g0, h.g1);
    SameNumber(g2, g.g2, h2, h.g2);
    SameNumber(g2 * 0x10000 + g.g2, g.g3, h2 * 0x10000 + h.g2, h.g3);
  }

  lemma SamePrefix6(g: Groups, h: Groups)
    ensures g.Prefix6() == h.Prefix6() <==> g.Prefix4() == h.Prefix4() && g.g4 == h.g4 && g.g5 == h.g5
  {
    SameNumber(g.Prefix4(), g.g4, h.Prefix4(), h.g4);
    SameNumber(g.Prefix4() * 0x10000 + g.g4, g.g5, h.Prefix4() * 0x10000 + h.g4, h.g5);
  }

  lemma PrefixIs(g: Groups, h: Groups, prefix: nat)
    requires h.Prefix6() == prefix
    ensures g.Prefix6() == prefix <==> g.g0 == h.g0 && g.g1 == h.g1 && g.g2 == h.g2 && g.g3 == h.g3
                                       && g.g4 == h.g4 && g.g5 == h.g5
  {
    SamePrefix6(g, h);
    SamePrefix4(g, h);
  }

  lemma PrefixDigits(g: Groups)
    ensures g.Prefix6() == 0xFFFF <==> g.g0 == g.g1 == g.g2 == g.g3 == g.g4 == 0 && g.g5 == 0xFFFF
    ensures g.Prefix6() == 0x0064FF9B_00000000_00000000
            <==> g.g0 == 0x64 && g.g1 == 0xFF9B && g.g2 == g.g3 == g.g4 == g.g5 == 0
    ensures g.g0 * 0x10000 + g.g1 == 0x20010000 <==> g.g0 == 0x2001 && g.g1 == 0
  {
    PrefixIs(g, Groups(0, 0, 0, 0, 0, 0xFFFF, 0, 0), 0xFFFF);
    PrefixIs(g, Groups(0x64, 0xFF9B, 0, 0, 0, 0, 0, 0), 0x0064FF9B_00000000_00000000);
  }

  /** What the guard classifies in place of an IPv6 address. */
  lemma GroupsUnwrap(g: Groups)
    ensures Normalise(g.Address()) ==
            match Embedded(g)
            case Some((hi, lo)) => V4(hi * 0x10000 + lo)
            case None => g.Address()
  {
    Quotients(g);
    PrefixDigits(g);
  }

  // The value by its first group, its first two, four and six.
  lemma Leading(g: Groups)
    ensures var n := g.Address().n;
            && g.g0 * BITS112 <= n < (g.g0 + 1) * BITS112
            && (g.g0 * 0x10000 + g.g1) * WORD3 <= n < (g.g0 * 0x10000 + g.g1 + 1) * WORD3
            && g.Prefix4() * WORD2 <= n < (g.Prefix4() + 1) * WORD2
            && g.Prefix6() * WORD <= n < (g.Prefix6() + 1) * WORD
  {
  }

  lemma ShortPrefixIs(g: Groups, h: Groups, prefix: nat)
    requires h.Prefix4() == prefix
    ensures g.Prefix4() == prefix <==> g.g0 == h.g0 && g.g1 == h.g1 && g.g2 == h.g2 && g.g3 == h.g3
  {
    SamePrefix4(g, h);
  }

  lemma ZeroDigits(g: Groups)
    ensures g.Prefix6() == 0 <==> g.g0 == g.g1 == g.g2 == g.g3 == g.g4 == g.g5 == 0
  {
    assert g.Prefix6() == 0 <==> g.Prefix4() == 0 && g.g4 == 0 && g.g5 == 0;
  }

  lemma TranslatedDigits(g: Groups)
    ensures g.Prefix6() == 0xFFFF_0000 <==> g.g0 == g.g1 == g.g2 == g.g3 == 0 && g.g4 == 0xFFFF && g.g5 == 0
  {
    PrefixIs(g, Groups(0, 0, 0, 0, 0xFFFF, 0, 0, 0), 0xFFFF_0000);
  }

  lemma DiscardDigits(g: Groups)
    ensures g.Prefix4() == 0x01000000_00000000 <==> g.g0 == 0x100 && g.g1 == g.g2 == g.g3 == 0
  {
    ShortPrefixIs(g, Groups(0x100, 0, 0, 0, 0, 0, 0, 0), 0x01000000_00000000);
  }

  lemma MetadataDigits(g: Groups)
    ensures g.Prefix6() == 0xFD000EC2_00000000_00000000
            <==> g.g0 == 0xFD00 && g.g1 == 0xEC2 && g.g2 == g.g3 == g.g4 == g.g5 == 0
  {
    PrefixIs(g, Groups(0xFD00, 0xEC2, 0, 0, 0, 0, 0, 0), 0xFD000EC2_00000000_00000000);
  }

  // Entry j of the second table, by leading digits.
  predicate AlwaysBlock(g: Groups, j: nat) {
    match j
    case 1 => g.Prefix6() == 0 && g.g6 == 0 && g.g7 == 1
    case 3 => 0xFE80 <= g.g0 <= 0xFEBF
    case 5 => 0xFF00 <= g.g0
    case 7 => g.Prefix6() == 0 && g.g6 == 0 && g.g7 == 0
    case 9 => 0xFEC0 <= g.g0 <= 0xFEFF
    case 10 => g.Prefix6() == 0
    case 11 => g.Prefix6() == 0xFFFF_0000
    case 13 => g.g0 == 0x2001 && g.g1 == 0xDB8
    case 14 => g.Prefix4() == 0x01000000_00000000
    case _ => false
  }

  lemma AlwaysBlockAt(g: Groups, j: nat)
    requires j < |ALWAYS_FORBIDDEN|
    ensures In(g.Address(), ALWAYS_FORBIDDEN[j]) <==> AlwaysBlock(g, j)
  {
    Leading(g);
  }

  // The same, by groups.
  predicate AlwaysGroups(g: Groups, j: nat) {
    var zeros := g.g0 == g.g1 == g.g2 == g.g3 == g.g4 == g.g5 == 0;
    match j
    case 1 => zeros && g.g6 == 0 && g.g7 == 1
    case 3 => 0xFE80 <= g.g0 <= 0xFEBF
    case 5 => 0xFF00 <= g.g0
    case 7 => zeros && g.g6 == 0 && g.g7 == 0
    case 9 => 0xFEC0 <= g.g0 <= 0xFEFF
    case 10 => zeros
    case 11 => g.g0 == g.g1 == g.g2 == g.g3 == 0 && g.g4 == 0xFFFF && g.g5 == 0
    case 13 => g.g0 == 0x2001 && g.g1 == 0xDB8
    case 14 => g.g0 == 0x100 && g.g1 == g.g2 == g.g3 == 0
    case _ => false
  }

  lemma AlwaysHoldsGroups(g: Groups, j: nat)
    requires j < |ALWAYS_FORBIDDEN|
    ensures In(g.Address(), ALWAYS_FORBIDDEN[j]) <==> AlwaysGroups(g, j)
  {
    AlwaysBlockAt(g, j);
    ZeroDigits(g);
    TranslatedDigits(g);
    DiscardDigits(g);
  }

  // The entry of the second table that decides.
  function AlwaysEntry(g: Groups): nat {
    if AlwaysGroups(g, 1) then 1 else if AlwaysGroups(g, 3) then 3 else if AlwaysGroups(g, 5) then 5
    else if AlwaysGroups(g, 7) then 7 else if AlwaysGroups(g, 9) then 9 else if AlwaysGroups(g, 10) then 10
    else if AlwaysGroups(g, 11) then 11 else if AlwaysGroups(g, 13) then 13 else if AlwaysGroups(g, 14) then 14
    else 15
  }

  lemma EntryDecides(g: Groups, j: nat)
    requires j < |ALWAYS_FORBIDDEN| && j <= AlwaysEntry(g)
    ensures AlwaysGroups(g, j) <==> j == AlwaysEntry(g)
  {
  }

  lemma EntryReason(g: Groups)
    ensures (if AlwaysEntry(g) < |ALWAYS_FORBIDDEN| then Some(ALWAYS_FORBIDDEN[AlwaysEntry(g)].reason) else None)
         == OwnAlwaysReason(g)
  {
    assert ALWAYS_FORBIDDEN[1].reason == Loopback && ALWAYS_FORBIDDEN[3].reason == LinkLocal;
    assert ALWAYS_FORBIDDEN[5].reason == Multicast && ALWAYS_FORBIDDEN[7].reason == Unspecified;
    assert ALWAYS_FORBIDDEN[9].reason == SiteLocal && ALWAYS_FORBIDDEN[10].reason == Ipv4Compatible;
    assert ALWAYS_FORBIDDEN[11].reason == Ipv4Translated && ALWAYS_FORBIDDEN[13].reason == Documentation;
    assert ALWAYS_FORBIDDEN[14].reason == DiscardOnly;
  }

  lemma OwnAlwaysMatch(g: Groups)
    ensures Match(g.Address(), ALWAYS_FORBIDDEN) == OwnAlwaysReason(g)
  {
    var k := AlwaysEntry(g);
    forall j | 0 <= j <= k && j < |ALWAYS_FORBIDDEN|
      ensures In(g.Address(), ALWAYS_FORBIDDEN[j]) <==> j == k
    {
      AlwaysHoldsGroups(g, j);
      EntryDecides(g, j);
    }
    MatchIn(g.Address(), ALWAYS_FORBIDDEN, k);
    EntryReason(g);
  }

  lemma MetadataBlockAt(g: Groups, j: nat)
    requires j < |METADATA_NETWORKS|
    ensures In(g.Address(), METADATA_NETWORKS[j])
            <==> j == 3 && g.Prefix6() == 0xFD000EC2_00000000_00000000 && g.g6 == 0 && g.g7 == 0x254
  {
    Leading(g);
  }

  lemma OwnMetadataMatch(g: Groups)
    ensures Match(g.Address(), METADATA_NETWORKS).Some? <==> IsMetadataHost(g)
  {
    var k := if IsMetadataHost(g) then 3 else 4;
    forall j | 0 <= j <= k && j < |METADATA_NETWORKS|
      ensures In(g.Address(), METADATA_NETWORKS[j]) <==> j == k
    {
      MetadataBlockAt(g, j);
      MetadataDigits(g);
    }
    MatchIn(g.Address(), METADATA_NETWORKS, k);
  }

  lemma PrivateBlockAt(g: Groups, j: nat)
    requires j < |PRIVATE_NETWORKS|
    ensures In(g.Address(), PRIVATE_NETWORKS[j]) <==> j == 3 && 0xFC00 <= g.g0 <= 0xFDFF
  {
    Leading(g);
  }

  lemma PrivateEntry()
    ensures |PRIVATE_NETWORKS| == 11 && PRIVATE_NETWORKS[3].reason == Private
  {
  }

  lemma OwnPrivateMatch(g: Groups)
    ensures Match(g.Address(), PRIVATE_NETWORKS) == if 0xFC00 <= g.g0 <= 0xFDFF then Some(Private) else None
  {
    PrivateEntry();
    var ip, table := g.Address(), PRIVATE_NETWORKS;
    forall j | 0 <= j < |table|
      ensures In(ip, table[j]) <==> j == 3 && 0xFC00 <= g.g0 <= 0xFDFF
    {
      PrivateBlockAt(g, j);
    }
    MatchIn(ip, table, if 0xFC00 <= g.g0 <= 0xFDFF then 3 else 11);
  }

  lemma TablesDecide(ip: Address, allowPrivate: bool)
    requires Normalise(ip) == ip
    ensures Classify(ip, allowPrivate) ==
            if Match(ip, METADATA_NETWORKS).Some? then Some(CloudMetadata)
            else if Match(ip, ALWAYS_FORBIDDEN).Some? || allowPrivate then Match(ip, ALWAYS_FORBIDDEN)
            else Match(ip, PRIVATE_NETWORKS)
  {
  }

  /** Every IPv6 address without an IPv4 address inside is refused for the reason its groups give, or passes. */
  lemma GroupsDecide(g: Groups, allowPrivate: bool)
    requires Embedded(g).None?
    ensures Classify(g.Address(), allowPrivate) == OwnReason(g, allowPrivate)
  {
    GroupsUnwrap(g);
    TablesDecide(g.Address(), allowPrivate);
    OwnMetadataMatch(g);
    OwnAlwaysMatch(g);
    OwnPrivateMatch(g);
  }

  /** Every other is treated as the IPv4 address inside. */
  lemma EmbeddedDecides(g: Groups, a: Octet, b: Octet, c: Octet, d: Octet, allowPrivate: bool)
    requires Embedded(g) == Some((a * 0x100 + b, c * 0x100 + d))
    ensures Classify(g.Address(), allowPrivate) == DottedReason(a, b, c, d, allowPrivate)
  {
    GroupsUnwrap(g);
    assert Normalise(g.Address()) == Dotted(a, b, c, d);
    UnwrappedAlike(g.Address(), allowPrivate);
    OctetsDecide(a, b, c, d, allowPrivate);
  }

  lemma UnwrappedAlike(ip: Address, allowPrivate: bool)
    ensures Classify(ip, allowPrivate) == Classify(Normalise(ip), allowPrivate)
  {
    NormaliseTwice(ip);
  }

  lemma TwoGroups(n: nat) returns (hi: nat, lo: Group)
    ensures n == hi * 0x10000 + lo
  {
    hi, lo := n / 0x10000, n % 0x10000;
  }

  /** And every IPv6 address has groups. */
  lemma EveryAddressHasGroups(n: nat) returns (g: Groups)
    requires V6(n).Valid()
    ensures V6(n) == g.Address()
  {
    var n6, g7 := TwoGroups(n);
    var n5, g6 := TwoGroups(n6);
    var n4, g5 := TwoGroups(n5);
    var n3, g4 := TwoGroups(n4);
    var n2, g3 := TwoGroups(n3);
    var n1, g2 := TwoGroups(n2);
    var g0, g1 := TwoGroups(n1);
    g := Groups(g0, g1, g2, g3, g4, g5, g6, g7);
  }

  lemma OctetsAreNeverBroadcast(a: Octet, b: Octet, c: Octet, d: Octet, allowPrivate: bool)
    ensures DottedReason(a, b, c, d, allowPrivate) != Some(Broadcast)
  {
  }

  lemma OwnReasonIsNeverBroadcast(g: Groups, allowPrivate: bool)
    ensures OwnReason(g, allowPrivate) != Some(Broadcast)
  {
  }

  lemma GroupsAreNeverBroadcast(n: nat, allowPrivate: bool)
    requires V6(n).Valid() && Normalise(V6(n)) == V6(n)
    ensures Classify(V6(n), allowPrivate) != Some(Broadcast)
  {
    var g := EveryAddressHasGroups(n);
    GroupsUnwrap(g);
    GroupsDecide(g, allowPrivate);
    OwnReasonIsNeverBroadcast(g, allowPrivate);
  }

  /** One reason is never given: the network 240.0.0.0/4 comes before its last address. */
  lemma BroadcastIsNeverTheReason(ip: Address, allowPrivate: bool)
    requires ip.Valid()
    ensures Classify(ip, allowPrivate) != Some(Broadcast)
  {
    var normal := Normalise(ip);
    UnwrappedAlike(ip, allowPrivate);
    NormaliseTwice(ip);
    if normal.V4? {
      var a, b, c, d := EveryAddressIsDotted(normal.n);
      OctetsDecide(a, b, c, d, allowPrivate);
      OctetsAreNeverBroadcast(a, b, c, d, allowPrivate);
    } else {
      GroupsAreNeverBroadcast(normal.n, allowPrivate);
    }
  }
}
