/** The outbound policy: the allow-list check, the checks made on one URL, and how a connector's
    configuration is combined with the operator's bounds. */
module Policy {
  import opened Options
  import opened Addresses
  import opened Ascii

  datatype OutboundPolicy = OutboundPolicy(
    allowedHosts: set<string>, allowedSchemes: seq<string>, allowPrivate: bool,
    maxRedirects: int, maxBytes: int, contentTypes: seq<string>)

  // A parsed URL; `literal` is the address its host spells, if it spells one.
  datatype Url = Url(scheme: string, host: Option<string>, credentials: bool, port: Option<nat>,
          literal: Option<Address>)

  datatype Target = Target(url: Url, scheme: string, host: string, port: nat, address: Address)

  // ---------------------------------------------------------------- host names

  // r is s without its trailing dots.
  ghost predicate Strips(s: string, r: string) {
    r <= s && (r == "" || r[|r| - 1] != '.') && forall i :: |r| <= i < |s| ==> s[i] == '.'
  }

  function Rstrip(s: string): (r: string)
    ensures Strips(s, r)
  {
    if s == "" || s[|s| - 1] != '.' then s else Rstrip(s[..|s| - 1])
  }

  function Norm(host: string): string {
    Rstrip(Lower(host))
  }

  predicate EndsWith(s: string, suffix: string) {
    |suffix| <= |s| && s[|s| - |suffix|..] == suffix
  }

  predicate StartsWithDot(s: string) {
    s != "" && s[0] == '.'
  }

  predicate Covers(entry: string, host: string) {
    Norm(host) == Norm(entry) || (StartsWithDot(Norm(entry)) && EndsWith(Norm(host), Norm(entry)))
  }

  predicate HostAllowed(hosts: set<string>, host: string) {
    exists entry :: entry in hosts && Covers(entry, host)
  }

  function Dots(k: nat): (r: string)
    ensures |r| == k && forall i :: 0 <= i < k ==> r[i] == '.'
  {
    if k == 0 then "" else "." + Dots(k - 1)
  }

  lemma RstripUnique(s: string, r: string)
    requires Strips(s, r)
    ensures r == Rstrip(s)
  {
    var q := Rstrip(s);
    assert r == s[..|r|] && q == s[..|q|];
    assert r != "" ==> s[|r| - 1] != '.';
    assert q != "" ==> s[|q| - 1] != '.';
  }

  /** Letter case and trailing dots never change what an allow-list says about a host, nor what an
      entry of it permits. */
  lemma HostSpellingIsIrrelevant(entry: string, host: string, k: nat)
    ensures Covers(entry, Lower(host) + Dots(k)) == Covers(entry, host)
    ensures Covers(Lower(entry) + Dots(k), host) == Covers(entry, host)
  {
    NormSpelling(host, k);
    NormSpelling(entry, k);
  }

  lemma NormSpelling(s: string, k: nat)
    ensures Norm(Lower(s) + Dots(k)) == Norm(s)
  {
    assert Lower(Lower(s) + Dots(k)) == Lower(s) + Dots(k);
    RstripUnique(Lower(s) + Dots(k), Rstrip(Lower(s)));
  }

  /** The same, for any two spellings of a host, or of an entry, that differ in letter case alone. */
  lemma HostCaseIsIrrelevant(entry: string, host: string, other: string)
    requires SameSpelling(host, other)
    ensures Covers(entry, host) == Covers(entry, other) && Covers(host, entry) == Covers(other, entry)
  {
    LowerIff(host, other);
  }

  // An entry of nothing but dots. It names the empty host, yet as a suffix it fits any dotted name.
  predicate BareDots(entry: string) {
    entry != "" && forall i :: 0 <= i < |entry| ==> entry[i] == '.'
  }

  lemma SuffixAt(s: string, e: string, i: nat)
    requires EndsWith(s, e) && i < |e|
    ensures s[|s| - |e| + i] == e[i]
  {
    assert s[|s| - |e|..][i] == e[i];
  }

  lemma StripsUnderSuffix(s: string, e: string, tail: string)
    requires EndsWith(s, e) && Strips(e, tail) && tail != ""
    ensures var r := s[..|s| - |e| + |tail|]; Strips(s, r) && EndsWith(r, tail)
  {
    var head := |s| - |e|;
    var r := s[..head + |tail|];
    SuffixAt(s, e, |tail| - 1);
    forall i | |r| <= i < |s| ensures s[i] == '.' {
      SuffixAt(s, e, i - head);
    }
    forall i | 0 <= i < |tail| ensures r[head + i] == tail[i] {
      SuffixAt(s, e, i);
    }
    assert r[head..] == tail;
  }

  lemma StripSuffix(s: string, e: string)
    requires EndsWith(s, e) && Rstrip(e) != ""
    ensures EndsWith(Rstrip(s), Rstrip(e))
  {
    StripsUnderSuffix(s, e, Rstrip(e));
    RstripUnique(s, s[..|s| - |e| + |Rstrip(e)|]);
  }

  /** A dotted entry permits exactly the hosts whose name ends with a dot and the domain, whatever the
      letter case and the trailing dots: every name below the domain, and not the domain itself. */
  lemma DottedEntryPermitsOnlyBelow(domain: string, host: string)
    requires Norm(domain) != ""
    ensures Covers("." + domain, host) <==> EndsWith(Norm(host), "." + Norm(domain))
    ensures !Covers("." + domain, domain)
  {
    NormDotted(domain);
  }

  /** So, in particular, any name put before it is permitted. */
  lemma NamesBelowArePermitted(domain: string, prefix: string)
    requires Norm(domain) != ""
    ensures Covers("." + domain, prefix + "." + domain)
  {
    NormDotted(domain);
    var below := prefix + "." + domain;
    assert Lower(below) == Lower(prefix) + Lower("." + domain);
    assert EndsWith(Lower(below), Lower("." + domain));
    StripSuffix(Lower(below), Lower("." + domain));
  }

  lemma NormDotted(domain: string)
    requires Norm(domain) != ""
    ensures Norm("." + domain) == "." + Norm(domain)
  {
    var s := Lower("." + domain);
    assert s == "." + Lower(domain);
    forall i | |"." + Norm(domain)| <= i < |s| ensures s[i] == '.' {
      assert s[i] == Lower(domain)[i - 1];
    }
    RstripUnique(s, "." + Norm(domain));
  }

  lemma SuffixOfSuffix(a: string, b: string, c: string)
    requires EndsWith(a, b) && EndsWith(b, c)
    ensures EndsWith(a, c)
  {
    assert a[|a| - |c|..] == a[|a| - |b|..][|b| - |c|..];
  }

  // ---------------------------------------------------------------- one URL

  function ValidateStatic(url: Url, policy: OutboundPolicy): Checked<(string, string, nat)> {
    var scheme := Lower(url.scheme);
    if scheme !in policy.allowedSchemes then Refused(SchemeNotAllowed)
    else if url.host.None? || url.host.value == "" then Refused(MissingHost)
    else if url.credentials then Refused(CredentialsInUrl)
    else if !HostAllowed(policy.allowedHosts, url.host.value) then Refused(HostNotAllowlisted)
    else if url.literal.Some? && Classify(url.literal.value, policy.allowPrivate).Some? then
      Refused(Forbidden(Classify(url.literal.value, policy.allowPrivate).value))
    else
      var port := if url.port.Some? && url.port.value != 0 then url.port.value
                  else if scheme == "https" then 443 else 80;
      Ok((scheme, url.host.value, port))
  }

  function ValidateUrl(url: Url, resolution: Resolution, policy: OutboundPolicy): Checked<Target> {
    match ValidateStatic(url, policy)
    case Refused(refusal) => Refused(refusal)
    case Ok((scheme, host, port)) =>
      match Vouched(resolution, policy.allowPrivate)
      case Refused(refusal) => Refused(refusal)
      case Ok(address) => Ok(Target(url, scheme, host, port, address))
  }

  /** A URL is accepted exactly when its scheme is allowed, in any letter case, it names a host and no
      credentials, the allow-list has the host, an address it spells out passes, and every address resolved
      passes. The target is its own port, or 443 for https and 80 otherwise, at the first address resolved. */
  lemma AcceptedIff(url: Url, resolution: Resolution, policy: OutboundPolicy)
    ensures var accepted := ValidateUrl(url, resolution, policy);
            && (accepted.Ok? <==>
                  && Lower(url.scheme) in policy.allowedSchemes
                  && url.host.Some? && url.host.value != "" && !url.credentials
                  && (exists entry :: entry in policy.allowedHosts && Covers(entry, url.host.value))
                  && (url.literal.Some? ==> EntryPasses(url.literal, policy.allowPrivate))
                  && resolution.Some? && resolution.value != []
                  && forall e | e in resolution.value :: EntryPasses(e, policy.allowPrivate))
            && (accepted.Ok? ==>
                  var target := accepted.value;
                  && target.url == url && Some(target.host) == url.host && target.scheme == Lower(url.scheme)
                  && target.address == Normalise(resolution.value[0].value)
                  && (url.port.Some? && url.port.value > 0 ==> target.port == url.port.value)
                  && (url.port.None? || url.port.value == 0 ==>
                        if SameSpelling(url.scheme, "https") then target.port == 443 else target.port == 80))
  {
    PinnedAddressPasses(resolution, policy.allowPrivate);
    assert Lower("https") == "https";
    LowerIff(url.scheme, "https");
  }

  /** The first check that fails gives the reason. */
  lemma RefusedFor(url: Url, policy: OutboundPolicy)
    ensures var checked := ValidateStatic(url, policy);
            if Lower(url.scheme) !in policy.allowedSchemes then checked == Refused(SchemeNotAllowed)
            else if url.host.None? || url.host.value == "" then checked == Refused(MissingHost)
            else if url.credentials then checked == Refused(CredentialsInUrl)
            else if forall entry | entry in policy.allowedHosts :: !Covers(entry, url.host.value) then
              checked == Refused(HostNotAllowlisted)
            else checked.Refused? ==>
              url.literal.Some? && Classify(url.literal.value, policy.allowPrivate) == Some(checked.refusal.reason)
  {
  }

  // ---------------------------------------------------------------- combining

  // The deployment's bounds. No hosts means any host.
  datatype Operator = Operator(
    hosts: set<string>, schemes: seq<string>, allowPrivate: bool,
    redirectCeiling: int, bytesCeiling: int, typeCeiling: seq<string>)

  // What a connector asks for; a bound that is not a number is None.
  datatype Config = Config(
    allowedHosts: set<string>, requestedSchemes: seq<string>,
    maxRedirects: Option<int>, maxBytes: Option<int>, contentTypes: seq<string>)

  function Keep(asked: seq<string>, allowed: seq<string>): (r: seq<string>)
    ensures forall s :: s in r <==> s in asked && s in allowed
  {
    if asked == [] then []
    else (if asked[0] in allowed then [asked[0]] else []) + Keep(asked[1..], allowed)
  }

  function KeepOrAll(asked: seq<string>, allowed: seq<string>): seq<string> {
    if Keep(asked, allowed) == [] then allowed else Keep(asked, allowed)
  }

  function Clamp(asked: Option<int>, otherwise: int, ceiling: int): int {
    var wanted := if asked.Some? && asked.value >= 0 then asked.value else otherwise;
    if wanted < ceiling then wanted else ceiling
  }

  predicate PickedBy(host: string, entry: string) {
    Norm(host) == Norm(entry) || (StartsWithDot(entry) && EndsWith(Lower(host), Lower(entry)))
  }

  function BuildPolicy(operator: Operator, config: Config, maxRedirects: int): OutboundPolicy {
    var hosts := if operator.hosts == {} then config.allowedHosts
                 else set host | host in config.allowedHosts
                                 && exists entry :: entry in operator.hosts && PickedBy(host, entry);
    OutboundPolicy(
      hosts, KeepOrAll(config.requestedSchemes, operator.schemes), operator.allowPrivate,
      Clamp(config.maxRedirects, maxRedirects, operator.redirectCeiling),
      Clamp(config.maxBytes, operator.bytesCeiling, operator.bytesCeiling),
      KeepOrAll(config.contentTypes, operator.typeCeiling))
  }

  // The operator's bounds as a policy of their own, for a given host.
  function OperatorPolicy(operator: Operator, host: string): OutboundPolicy {
    OutboundPolicy(if operator.hosts == {} then {host} else operator.hosts, operator.schemes, operator.allowPrivate,
                   operator.redirectCeiling, operator.bytesCeiling, operator.typeCeiling)
  }

  // Whatever the built policy accepts, the operator's bounds accept, with the same target.
  ghost predicate Narrows(operator: Operator, config: Config, maxRedirects: int, url: Url, resolution: Resolution) {
    var accepted := ValidateUrl(url, resolution, BuildPolicy(operator, config, maxRedirects));
    accepted.Ok? ==> ValidateUrl(url, resolution, OperatorPolicy(operator, accepted.value.host)) == accepted
  }

  lemma BoundsAreClamped(operator: Operator, config: Config, maxRedirects: int)
    ensures var built := BuildPolicy(operator, config, maxRedirects);
            && built.maxRedirects <= operator.redirectCeiling
            && built.maxBytes <= operator.bytesCeiling
            && built.allowPrivate == operator.allowPrivate
            && (forall t :: t in built.contentTypes ==> t in operator.typeCeiling)
            && (forall s :: s in built.allowedSchemes ==> s in operator.schemes)
            && built.allowedHosts <= config.allowedHosts
            && (operator.typeCeiling != [] ==> built.contentTypes != [])
  {
  }

  /** A bound within the operator's ceiling is kept as asked, a larger one is cut to the ceiling, and where none
      is asked, or a negative one, the default applies, cut to the ceiling. */
  lemma BoundsAreKept(operator: Operator, config: Config, maxRedirects: int)
    ensures var built := BuildPolicy(operator, config, maxRedirects);
            var redirects, bytes := config.maxRedirects, config.maxBytes;
            && (redirects.Some? && 0 <= redirects.value <= operator.redirectCeiling ==>
                  built.maxRedirects == redirects.value)
            && (redirects.Some? && 0 <= redirects.value && operator.redirectCeiling < redirects.value ==>
                  built.maxRedirects == operator.redirectCeiling)
            && (redirects.None? || redirects.value < 0 ==>
                  built.maxRedirects <= operator.redirectCeiling && built.maxRedirects <= maxRedirects
                  && built.maxRedirects in {operator.redirectCeiling, maxRedirects})
            && (bytes.Some? && 0 <= bytes.value <= operator.bytesCeiling ==> built.maxBytes == bytes.value)
            && (bytes.None? || bytes.value < 0 || operator.bytesCeiling < bytes.value ==>
                  built.maxBytes == operator.bytesCeiling)
  {
  }

  /** A list keeps exactly what was asked for and is allowed; if that is nothing, it is the operator's. */
  lemma ListsAreKept(operator: Operator, config: Config, maxRedirects: int, s: string)
    ensures var built := BuildPolicy(operator, config, maxRedirects);
            && (if exists asked :: asked in config.requestedSchemes && asked in operator.schemes
                then s in built.allowedSchemes <==> s in config.requestedSchemes && s in operator.schemes
                else built.allowedSchemes == operator.schemes)
            && (if exists asked :: asked in config.contentTypes && asked in operator.typeCeiling
                then s in built.contentTypes <==> s in config.contentTypes && s in operator.typeCeiling
                else built.contentTypes == operator.typeCeiling)
  {
    KeepsIff(config.requestedSchemes, operator.schemes);
    KeepsIff(config.contentTypes, operator.typeCeiling);
  }

  lemma KeepsIff(asked: seq<string>, allowed: seq<string>)
    ensures Keep(asked, allowed) != [] <==> exists s :: s in asked && s in allowed
  {
    if Keep(asked, allowed) != [] {
      assert Keep(asked, allowed)[0] in Keep(asked, allowed);
    }
  }

  /** Every host asked for is kept when the operator names none; otherwise exactly those that are an
      operator's entry in some spelling, or end with one that begins with a dot. */
  lemma HostsAreKept(operator: Operator, config: Config, maxRedirects: int, host: string)
    ensures host in BuildPolicy(operator, config, maxRedirects).allowedHosts <==>
            && host in config.allowedHosts
            && (operator.hosts == {} || exists entry :: entry in operator.hosts && PickedBy(host, entry))
    ensures forall entry, k: nat | SameSpelling(host, entry + Dots(k)) :: PickedBy(host, entry)
    ensures forall entry, prefix | entry != "" && entry[0] == '.' && SameSpelling(host, prefix + entry) ::
              PickedBy(host, entry)
  {
    forall entry, k: nat | SameSpelling(host, entry + Dots(k))
      ensures PickedBy(host, entry)
    {
      SpelledWithDots(host, entry, k);
    }
    forall entry, prefix | entry != "" && entry[0] == '.' && SameSpelling(host, prefix + entry)
      ensures PickedBy(host, entry)
    {
      SpelledBelow(host, entry, prefix);
    }
  }

  lemma SpelledWithDots(host: string, entry: string, k: nat)
    requires SameSpelling(host, entry + Dots(k))
    ensures Norm(host) == Norm(entry)
  {
    LowerIff(host, entry + Dots(k));
    assert Lower(entry + Dots(k)) == Lower(entry) + Dots(k);
    RstripUnique(Lower(entry) + Dots(k), Rstrip(Lower(entry)));
  }

  lemma SpelledBelow(host: string, entry: string, prefix: string)
    requires SameSpelling(host, prefix + entry)
    ensures EndsWith(Lower(host), Lower(entry))
  {
    LowerIff(host, prefix + entry);
    assert Lower(prefix + entry) == Lower(prefix) + Lower(entry);
  }

  /** A host permitted by an entry that an operator entry picked is permitted by that operator entry. */
  lemma PickedStaysBelow(entry: string, picked: string, host: string)
    requires PickedBy(picked, entry) && !BareDots(entry)
    requires Covers(picked, host)
    ensures Covers(entry, host)
  {
    if Norm(picked) != Norm(entry) {
      NormOfDotted(entry);
      StripSuffix(Lower(picked), Lower(entry));
      if Norm(host) != Norm(picked) {
        SuffixOfSuffix(Norm(host), Norm(picked), Norm(entry));
      }
    }
  }

  lemma NormOfDotted(entry: string)
    requires StartsWithDot(entry) && !BareDots(entry)
    ensures Norm(entry) != "" && StartsWithDot(Norm(entry))
  {
    var i :| 0 <= i < |entry| && entry[i] != '.';
    assert Lower(entry)[i] != '.';
    assert Lower(entry)[0] == '.';
  }

  lemma HostsNarrow(operator: Operator, config: Config, maxRedirects: int, host: string)
    requires forall entry :: entry in operator.hosts ==> !BareDots(entry)
    requires HostAllowed(BuildPolicy(operator, config, maxRedirects).allowedHosts, host)
    ensures HostAllowed(OperatorPolicy(operator, host).allowedHosts, host)
  {
    if operator.hosts == {} {
      assert Covers(host, host);
    } else {
      var picked :| picked in BuildPolicy(operator, config, maxRedirects).allowedHosts && Covers(picked, host);
      var entry :| entry in operator.hosts && PickedBy(picked, entry);
      PickedStaysBelow(entry, picked, host);
    }
  }

  lemma UrlNarrows(operator: Operator, config: Config, maxRedirects: int, url: Url, resolution: Resolution)
    requires forall entry :: entry in operator.hosts ==> !BareDots(entry)
    ensures Narrows(operator, config, maxRedirects, url, resolution)
  {
    if ValidateUrl(url, resolution, BuildPolicy(operator, config, maxRedirects)).Ok? {
      HostsNarrow(operator, config, maxRedirects, url.host.value);
    }
  }

  // ---------------------------------------------------------------- the one way to widen

  function Name(n: nat): (r: string)
    ensures |r| == n && forall i :: 0 <= i < n ==> r[i] == 'a'
  {
    if n == 0 then "" else "a" + Name(n - 1)
  }

  ghost function LongerThanAll(hosts: set<string>): (n: nat)
    ensures n > 0 && forall h :: h in hosts ==> |h| < n
  {
    if hosts == {} then 1
    else
      var h :| h in hosts;
      var rest := LongerThanAll(hosts - {h});
      if |h| < rest then rest else |h| + 1
  }

  lemma NormOfName(n: nat, entry: string)
    requires n > 0 && BareDots(entry)
    ensures Lower(Name(n)) == Name(n) && Norm(Name(n)) == Name(n)
    ensures Lower(entry) == entry && Lower(Name(n) + entry) == Name(n) + entry && Norm(Name(n) + entry) == Name(n)
  {
    assert Lower(Name(n)) == Name(n) && Lower(entry) == entry && Lower(Name(n) + entry) == Name(n) + entry;
    RstripUnique(Name(n), Name(n));
    RstripUnique(Name(n) + entry, Name(n));
  }

  lemma ShortEntryMissesName(n: nat, e: string)
    requires |e| < n && Norm(Name(n)) == Name(n)
    ensures !Covers(e, Name(n))
  {
    var suffix := Norm(e);
    assert |suffix| <= |e|;
    if StartsWithDot(suffix) && EndsWith(Name(n), suffix) {
      SuffixAt(Name(n), suffix, 0);
    }
  }

  /** With a bare-dots entry, a connector gets past the operator's list: it asks for a name no operator
      entry covers, with the dots appended. */
  lemma BareDotsWiden(operator: Operator, entry: string, maxRedirects: int)
    returns (config: Config, host: string)
    requires entry in operator.hosts && BareDots(entry)
    ensures host != "" && config.requestedSchemes == []
    ensures HostAllowed(BuildPolicy(operator, config, maxRedirects).allowedHosts, host)
    ensures !HostAllowed(operator.hosts, host)
  {
    var n := LongerThanAll(operator.hosts);
    host := Name(n);
    var asked := host + entry;
    config := Config({asked}, [], None, None, []);
    NormOfName(n, entry);
    assert asked[|asked| - |entry|..] == entry;
    assert PickedBy(asked, entry);
    assert asked in BuildPolicy(operator, config, maxRedirects).allowedHosts && Covers(asked, host);
    forall e | e in operator.hosts ensures !Covers(e, host) {
      ShortEntryMissesName(n, e);
    }
  }

  const PUBLIC: Address := V4(0x08080808)

  lemma PublicMissesTables()
    ensures forall i :: 0 <= i < |METADATA_NETWORKS| ==> !In(PUBLIC, METADATA_NETWORKS[i])
    ensures forall i :: 0 <= i < |ALWAYS_FORBIDDEN| ==> !In(PUBLIC, ALWAYS_FORBIDDEN[i])
    ensures forall i :: 0 <= i < |PRIVATE_NETWORKS| ==> !In(PUBLIC, PRIVATE_NETWORKS[i])
  {
  }

  lemma PublicAddressPasses(allowPrivate: bool)
    ensures Classify(PUBLIC, allowPrivate).None?
  {
    PublicMissesTables();
    assert Match(PUBLIC, METADATA_NETWORKS).None?;
    assert Match(PUBLIC, ALWAYS_FORBIDDEN).None?;
    assert Match(PUBLIC, PRIVATE_NETWORKS).None?;
  }

  lemma PublicIsVouched(allowPrivate: bool)
    ensures Vouched(Some([Some(PUBLIC)]), allowPrivate).Ok?
  {
    PublicAddressPasses(allowPrivate);
    PinnedAddressPasses(Some([Some(PUBLIC)]), allowPrivate);
  }

  // A URL that only the allow-list can refuse.
  function PlainUrl(scheme: string, host: string): Url {
    Url(scheme, Some(host), false, None, None)
  }

  lemma PlainUrlStatically(scheme: string, host: string, policy: OutboundPolicy)
    requires scheme in policy.allowedSchemes && Lower(scheme) == scheme && host != ""
    ensures ValidateStatic(PlainUrl(scheme, host), policy).Ok? <==> HostAllowed(policy.allowedHosts, host)
    ensures ValidateStatic(PlainUrl(scheme, host), policy).Ok?
          ==> ValidateStatic(PlainUrl(scheme, host), policy).value.1 == host
  {
  }

  lemma OnlyTheListDecides(scheme: string, host: string, policy: OutboundPolicy)
    requires scheme in policy.allowedSchemes && Lower(scheme) == scheme && host != ""
    ensures ValidateUrl(PlainUrl(scheme, host), Some([Some(PUBLIC)]), policy).Ok?
          <==> HostAllowed(policy.allowedHosts, host)
    ensures var r := ValidateUrl(PlainUrl(scheme, host), Some([Some(PUBLIC)]), policy); r.Ok? ==> r.value.host == host
  {
    PublicIsVouched(policy.allowPrivate);
    PlainUrlStatically(scheme, host, policy);
  }

  lemma WideningWitness(operator: Operator, entry: string, scheme: string)
    returns (config: Config, url: Url, resolution: Resolution)
    requires entry in operator.hosts && BareDots(entry)
    requires scheme in operator.schemes && Lower(scheme) == scheme
    ensures !Narrows(operator, config, 0, url, resolution)
  {
    var host;
    config, host := BareDotsWiden(operator, entry, 0);
    url, resolution := PlainUrl(scheme, host), Some([Some(PUBLIC)]);
    OnlyTheListDecides(scheme, host, BuildPolicy(operator, config, 0));
    OnlyTheListDecides(scheme, host, OperatorPolicy(operator, host));
  }

  lemma NothingAccepted(operator: Operator, config: Config, maxRedirects: int, url: Url, resolution: Resolution)
    requires forall s :: s in operator.schemes ==> Lower(s) != s
    ensures Narrows(operator, config, maxRedirects, url, resolution)
  {
    assert Lower(Lower(url.scheme)) == Lower(url.scheme);
    BoundsAreClamped(operator, config, maxRedirects);
  }

  /** A connector's configuration can only narrow what the operator permits - for every connector, URL
      and resolution - exactly when no operator host entry is bare dots. (With no scheme spelled in lower
      case nothing is ever accepted, so there is nothing to widen.) */
  lemma NarrowsIff(operator: Operator)
    ensures (forall config: Config, maxRedirects: int, url: Url, resolution: Resolution ::
               Narrows(operator, config, maxRedirects, url, resolution))
            <==> (forall entry :: entry in operator.hosts ==> !BareDots(entry))
                 || (forall s :: s in operator.schemes ==> Lower(s) != s)
  {
    if forall entry :: entry in operator.hosts ==> !BareDots(entry) {
      forall config: Config, maxRedirects: int, url: Url, resolution: Resolution {
        UrlNarrows(operator, config, maxRedirects, url, resolution);
      }
    } else if forall s :: s in operator.schemes ==> Lower(s) != s {
      forall config: Config, maxRedirects: int, url: Url, resolution: Resolution {
        NothingAccepted(operator, config, maxRedirects, url, resolution);
      }
    } else {
      var entry :| entry in operator.hosts && BareDots(entry);
      var scheme :| scheme in operator.schemes && Lower(scheme) == scheme;
      var config, url, resolution := WideningWitness(operator, entry, scheme);
    }
  }
}
