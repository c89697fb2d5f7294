/** Guarded outbound HTTP: the manual redirect loop and the capped read of a response body. */
module Outbound {
  import opened Options
  import opened Addresses
  import opened Policy

  newtype Byte = b: int | 0 <= b < 256

  // The server's answer to one hop; `location` is joined with the hop's URL and parsed, None when absent.
  datatype Reply =
    | NoReply
    | Reply(status: int, location: Option<Url>, contentType: string, chunks: seq<seq<Byte>>)

  // One call: what is asked, under which policy, what the URL guard says of a URL at each hop, and how
  // the network behaves there.
  datatype Call = Call(url: Url, policy: OutboundPolicy, check: (Url, nat) -> Checked<Target>, replies: nat -> Reply)

  // A call guarded by the policy, given what the resolver answers at each hop.
  function Guarded(url: Url, policy: OutboundPolicy, dns: nat -> Resolution, replies: nat -> Reply): Call {
    Call(url, policy, (u: Url, hop: nat) => ValidateUrl(u, dns(hop), policy), replies)
  }

  datatype Outcome =
    | Answer(status: int, body: seq<Byte>, finalUrl: Url, redirects: nat)
    | Blocked(refusal: Refusal)
    | TooManyRedirects | ContentTypeRejected | ResponseTooLarge | TransportFailed

  // ---------------------------------------------------------------- the body

  function Concat(chunks: seq<seq<Byte>>): seq<Byte> {
    if chunks == [] then [] else chunks[0] + Concat(chunks[1..])
  }

  lemma {:induction false} ConcatAppend(a: seq<seq<Byte>>, b: seq<seq<Byte>>)
    ensures Concat(a + b) == Concat(a) + Concat(b)
  {
    if a == [] {
      assert a + b == b;
    } else {
      assert (a + b)[1..] == a[1..] + b;
      ConcatAppend(a[1..], b);
    }
  }

  predicate Fits(chunks: seq<seq<Byte>>, limit: int) {
    chunks == [] || |Concat(chunks)| <= limit
  }

  /** The read gives up at the first chunk past the cap; whatever it returns is everything received. */
  method ReadCapped(stream: seq<seq<Byte>>, limit: int) returns (body: Option<seq<Byte>>)
    ensures body.Some? <==> Fits(stream, limit)
    ensures body.Some? ==> body.value == Concat(stream) && (|body.value| <= limit || body.value == [])
  {
    var chunks: seq<seq<Byte>> := [];
    var total := 0;
    var i := 0;
    while i < |stream|
      invariant 0 <= i <= |stream| && chunks == stream[..i]
      invariant total == |Concat(chunks)|
      invariant i == 0 || total <= limit
    {
      ConcatAppend(stream[..i], [stream[i]]);
      ConcatAppend(stream[..i + 1], stream[i + 1..]);
      assert stream[..i + 1] == stream[..i] + [stream[i]];
      assert stream == stream[..i + 1] + stream[i + 1..];
      total := total + |stream[i]|;
      if total > limit {
        return None;
      }
      chunks := chunks + [stream[i]];
      i := i + 1;
    }
    assert stream[..i] == stream;
    body := Some(Concat(chunks));
  }

  // ---------------------------------------------------------------- what a call means

  predicate IsRedirect(reply: Reply) {
    reply.Reply? && reply.status in {301, 302, 303, 307, 308}
  }

  predicate PointsOn(reply: Reply) {
    IsRedirect(reply) && reply.location.Some?
  }

  // The URL of a hop: the caller's, then wherever the previous reply pointed.
  function HopUrl(call: Call, hop: nat): Url {
    if hop > 0 && PointsOn(call.replies(hop - 1)) then call.replies(hop - 1).location.value else call.url
  }

  function HopTarget(call: Call, hop: nat): Checked<Target> {
    call.check(HopUrl(call, hop), hop)
  }

  // The hop is sent, and its reply is followed.
  ghost predicate Followed(call: Call, hop: nat) {
    HopTarget(call, hop).Ok? && PointsOn(call.replies(hop)) && hop < call.policy.maxRedirects
  }

  // The call ends at this hop.
  ghost predicate EndsWithOutcome(call: Call, hop: nat, outcome: Outcome) {
    match HopTarget(call, hop)
    case Refused(refusal) => outcome == Blocked(refusal)
    case Ok(_) =>
      var reply := call.replies(hop);
      if reply.NoReply? then outcome == TransportFailed
      else if IsRedirect(reply) then
        if reply.location.None? then outcome == Blocked(RedirectWithoutLocation)
        else hop >= call.policy.maxRedirects && outcome == TooManyRedirects
      else if reply.contentType != "" && reply.contentType !in call.policy.contentTypes then outcome
          == ContentTypeRejected
      else if !Fits(reply.chunks, call.policy.maxBytes) then outcome == ResponseTooLarge
      else outcome == Answer(reply.status, Concat(reply.chunks), HopUrl(call, hop), hop)
  }

  // What was sent, and the outcome, of a call that ends at hop `last`.
  ghost predicate Plays(call: Call, sent: seq<Target>, outcome: Outcome, last: nat) {
    && (forall hop :: 0 <= hop < last ==> Followed(call, hop))
    && EndsWithOutcome(call, last, outcome)
    && |sent| == (if HopTarget(call, last).Ok? then last + 1 else last)
    && forall hop :: 0 <= hop < |sent| ==> HopTarget(call, hop) == Ok(sent[hop])
  }

  ghost predicate Behaves(call: Call, sent: seq<Target>, outcome: Outcome) {
    exists last: nat :: Plays(call, sent, outcome, last)
  }

  /** The redirect loop. `sent` lists the checked targets a request went to, in order. */
  method FollowRedirects(call: Call) returns (sent: seq<Target>, outcome: Outcome, ghost last: nat)
    ensures Plays(call, sent, outcome, last)
  {
    var currentUrl := call.url;
    var redirects := 0;
    sent := [];
    while true
      invariant redirects == |sent| && currentUrl == HopUrl(call, redirects)
      invariant redirects == 0 || redirects <= call.policy.maxRedirects
      invariant forall hop :: 0 <= hop < redirects ==> Followed(call, hop) && HopTarget(call, hop) == Ok(sent[hop])
      decreases call.policy.maxRedirects - redirects
    {
      var target := call.check(currentUrl, redirects);
      if target.Refused? {
        return sent, Blocked(target.refusal), redirects;
      }
      sent := sent + [target.value];
      var reply := call.replies(redirects);
      if reply.NoReply? {
        return sent, TransportFailed, redirects;
      }
      if IsRedirect(reply) {
        if reply.location.None? {
          return sent, Blocked(RedirectWithoutLocation), redirects;
        }
        redirects := redirects + 1;
        if redirects > call.policy.maxRedirects {
          return sent, TooManyRedirects, redirects - 1;
        }
        currentUrl := reply.location.value;
        continue;
      }
      if reply.contentType != "" && reply.contentType !in call.policy.contentTypes {
        return sent, ContentTypeRejected, redirects;
      }
      var body := ReadCapped(reply.chunks, call.policy.maxBytes);
      if body.None? {
        return sent, ResponseTooLarge, redirects;
      }
      return sent, Answer(reply.status, body.value, currentUrl, redirects), redirects;
    }
  }

  /** One guarded request. */
  method Request(url: Url, policy: OutboundPolicy, dns: nat -> Resolution, replies: nat -> Reply)
    returns (sent: seq<Target>, outcome: Outcome)
    ensures Behaves(Guarded(url, policy, dns, replies), sent, outcome)
  {
    ghost var last: nat;
    sent, outcome, last := FollowRedirects(Guarded(url, policy, dns, replies));
  }

  // ---------------------------------------------------------------- what follows

  /** A call's behaviour fixes what is sent and how it ends: no other play of it exists. */
  lemma PlaysAreUnique(call: Call, s1: seq<Target>, o1: Outcome, l1: nat, s2: seq<Target>, o2: Outcome, l2: nat)
    requires Plays(call, s1, o1, l1) && Plays(call, s2, o2, l2)
    ensures s1 == s2 && o1 == o2 && l1 == l2
  {
    assert l1 < l2 ==> Followed(call, l1);
    assert l2 < l1 ==> Followed(call, l2);
    assert s1 == s2;
  }

  predicate RedirectStatus(status: int) {
    status == 301 || status == 302 || status == 303 || status == 307 || status == 308
  }

  /** Why a call ended as it did. */
  lemma OutcomeTells(call: Call, sent: seq<Target>, outcome: Outcome, last: nat)
    requires Plays(call, sent, outcome, last)
    ensures HopTarget(call, last).Refused? ==> outcome == Blocked(HopTarget(call, last).refusal)
    ensures outcome.Blocked? && HopTarget(call, last).Ok? ==>
              && call.replies(last).Reply? && RedirectStatus(call.replies(last).status)
              && call.replies(last).location.None? && outcome == Blocked(RedirectWithoutLocation)
    ensures outcome.TransportFailed? <==> HopTarget(call, last).Ok? && call.replies(last).NoReply?
    ensures outcome.TooManyRedirects? ==>
              HopTarget(call, last).Ok? && call.replies(last).Reply? && RedirectStatus(call.replies(last).status)
              && call.replies(last).location.Some? && last >= call.policy.maxRedirects
    ensures outcome.ContentTypeRejected? || outcome.ResponseTooLarge? || outcome.Answer? ==>
              HopTarget(call, last).Ok? && call.replies(last).Reply? && !RedirectStatus(call.replies(last).status)
    ensures outcome.ContentTypeRejected? ==>
              call.replies(last).contentType != "" && call.replies(last).contentType !in call.policy.contentTypes
    ensures outcome.ResponseTooLarge? ==>
              call.replies(last).chunks != [] && |Concat(call.replies(last).chunks)| > call.policy.maxBytes
    ensures outcome.Answer? ==> outcome.status == call.replies(last).status
  {
  }

  /** Each redirect followed came with one of the five statuses, led to the location it gave, and was within
      the budget. */
  lemma RedirectsTell(call: Call, sent: seq<Target>, outcome: Outcome, last: nat, hop: nat)
    requires Plays(call, sent, outcome, last) && hop < last
    ensures HopUrl(call, 0) == call.url
    ensures call.replies(hop).Reply? && RedirectStatus(call.replies(hop).status)
    ensures call.replies(hop).location == Some(HopUrl(call, hop + 1)) && hop < call.policy.maxRedirects
  {
    assert Followed(call, hop);
  }

  function HopBudget(policy: OutboundPolicy): nat {
    1 + if policy.maxRedirects > 0 then policy.maxRedirects else 0
  }

  // The hop is sent, and the server points on.
  ghost predicate PointedOn(call: Call, hop: nat) {
    HopTarget(call, hop).Ok? && PointsOn(call.replies(hop))
  }

  lemma PointingOnAtTheEnd(call: Call, hop: nat, outcome: Outcome)
    requires EndsWithOutcome(call, hop, outcome)
    ensures outcome == TooManyRedirects <==> PointedOn(call, hop)
    ensures outcome == TooManyRedirects ==> hop >= call.policy.maxRedirects
  {
  }

  /** There are at most `max_redirects` + 1 requests. */
  lemma SentWithinBudget(call: Call, sent: seq<Target>, outcome: Outcome, last: nat)
    requires Plays(call, sent, outcome, last)
    ensures last < HopBudget(call.policy) && |sent| <= HopBudget(call.policy)
  {
    assert last > 0 ==> Followed(call, last - 1);
  }

  /** The call gives up on redirects exactly when the server points on at every hop of the budget. */
  lemma TooManyRedirectsIff(call: Call, sent: seq<Target>, outcome: Outcome, last: nat)
    requires Plays(call, sent, outcome, last)
    ensures outcome == TooManyRedirects <==> forall hop :: 0 <= hop < HopBudget(call.policy) ==> PointedOn(call, hop)
  {
    PointingOnAtTheEnd(call, last, outcome);
    SentWithinBudget(call, sent, outcome, last);
    forall hop | 0 <= hop < last ensures PointedOn(call, hop) {
      assert Followed(call, hop);
    }
  }

  lemma AcceptedMeans(url: Url, resolution: Resolution, policy: OutboundPolicy)
    requires ValidateUrl(url, resolution, policy).Ok?
    ensures var target := ValidateUrl(url, resolution, policy).value;
            && target.url == url && url.host == Some(target.host) && !url.credentials
            && target.scheme in policy.allowedSchemes && HostAllowed(policy.allowedHosts, target.host)
            && Vouched(resolution, policy.allowPrivate) == Ok(target.address)
  {
  }

  /** Every request goes to an address vouched for at that very hop, under an allowed name and scheme. */
  lemma SentWhereVouched(url: Url, policy: OutboundPolicy, dns: nat -> Resolution, replies: nat -> Reply,
                         sent: seq<Target>, outcome: Outcome, last: nat, hop: nat)
    requires Plays(Guarded(url, policy, dns, replies), sent, outcome, last) && hop < |sent|
    ensures sent[hop].url == HopUrl(Guarded(url, policy, dns, replies), hop)
    ensures sent[hop].scheme in policy.allowedSchemes && HostAllowed(policy.allowedHosts, sent[hop].host)
    ensures Vouched(dns(hop), policy.allowPrivate) == Ok(sent[hop].address)
    ensures Classify(sent[hop].address, policy.allowPrivate).None?
  {
    var call := Guarded(url, policy, dns, replies);
    assert HopTarget(call, hop) == Ok(sent[hop]);
    AcceptedMeans(HopUrl(call, hop), dns(hop), policy);
    PinnedAddressPasses(dns(hop), policy.allowPrivate);
  }

  lemma AnswerIsWhatWasReceived(call: Call, sent: seq<Target>, outcome: Outcome, last: nat)
    requires Plays(call, sent, outcome, last) && outcome.Answer?
    ensures call.replies(last).Reply? && outcome.body == Concat(call.replies(last).chunks)
    ensures |outcome.body| <= call.policy.maxBytes || outcome.body == []
    ensures call.replies(last).contentType == "" || call.replies(last).contentType in call.policy.contentTypes
    ensures outcome.finalUrl == HopUrl(call, last) && outcome.redirects == last && |sent| == last + 1
  {
  }

  /** Under a policy built for a connector, nothing leaves the operator's bounds: each request goes where
      the operator's own policy would have allowed it, there are no more of them than the operator's
      ceiling, and the body returned is the bytes received, within the operator's cap. */
  lemma OperatorBoundsHold(operator: Operator, config: Config, maxRedirects: int,
                           url: Url, dns: nat -> Resolution, replies: nat -> Reply,
                           sent: seq<Target>, outcome: Outcome, last: nat)
    requires forall entry :: entry in operator.hosts ==> !BareDots(entry)
    requires Plays(Guarded(url, BuildPolicy(operator, config, maxRedirects), dns, replies), sent, outcome, last)
    ensures |sent| <= HopBudget(OperatorPolicy(operator, ""))
    ensures forall hop :: 0 <= hop < |sent| ==>
              ValidateUrl(sent[hop].url, dns(hop), OperatorPolicy(operator, sent[hop].host)) == Ok(sent[hop])
    ensures outcome.Answer? ==>
              && replies(last).Reply? && outcome.body == Concat(replies(last).chunks)
              && (|outcome.body| <= operator.bytesCeiling || outcome.body == [])
              && (replies(last).contentType == "" || replies(last).contentType in operator.typeCeiling)
  {
    var built := BuildPolicy(operator, config, maxRedirects);
    var call := Guarded(url, built, dns, replies);
    BoundsAreClamped(operator, config, maxRedirects);
    SentWithinBudget(call, sent, outcome, last);
    if outcome.Answer? {
      AnswerIsWhatWasReceived(call, sent, outcome, last);
    }
    forall hop | 0 <= hop < |sent|
      ensures ValidateUrl(sent[hop].url, dns(hop), OperatorPolicy(operator, sent[hop].host)) == Ok(sent[hop])
    {
      assert HopTarget(call, hop) == Ok(sent[hop]);
      AcceptedMeans(HopUrl(call, hop), dns(hop), built);
      UrlNarrows(operator, config, maxRedirects, HopUrl(call, hop), dns(hop));
    }
  }
}
