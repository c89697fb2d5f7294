/** The consumer's ordering rule, and what folding it over an arbitrary delivery achieves. */
module Consumer {
  import opened Options

  datatype Decision = Apply | Ignore | Quarantine

  function VersionDecision(incoming: Option<int>, lastApplied: Option<int>): Decision {
    if incoming.None? then Quarantine
    else if lastApplied.None? then (if incoming.value == 1 then Apply else Quarantine)
    else if incoming.value <= lastApplied.value then Ignore
    else if incoming.value == lastApplied.value + 1 then Apply
    else Quarantine
  }

  function Last(applied: seq<int>): Option<int> {
    if applied == [] then None else Some(applied[|applied| - 1])
  }

  /** The versions a consumer applies, in order. A delivery may repeat, reorder or skip versions,
      and may hold unversioned events. */
  function AppliedVersions(delivery: seq<Option<int>>): seq<int> {
    if delivery == [] then []
    else
      var incoming := delivery[|delivery| - 1];
      var before := AppliedVersions(delivery[..|delivery| - 1]);
      if VersionDecision(incoming, Last(before)).Apply? then before + [incoming.value] else before
  }

  function Iota(n: nat): (r: seq<int>)
    ensures |r| == n && forall i | 0 <= i < n :: r[i] == i + 1
  {
    seq(n, i requires 0 <= i < n => i + 1)
  }

  /** `wanted` can be read off `delivery` in order, skipping what is in between. */
  ghost predicate Subsequence(wanted: seq<int>, delivery: seq<Option<int>>) {
    if wanted == [] then true
    else if delivery == [] then false
    else
      var shorter := delivery[..|delivery| - 1];
      || (delivery[|delivery| - 1] == Some(wanted[|wanted| - 1]) && Subsequence(wanted[..|wanted| - 1], shorter))
      || Subsequence(wanted, shorter)
  }

  lemma IotaPrefix(n: nat)
    requires n > 0
    ensures Iota(n)[..n - 1] == Iota(n - 1)
  {
  }

  /** The versions applied are exactly 1, 2, ..., k. */
  lemma {:induction false} AppliedInOrder(delivery: seq<Option<int>>)
    ensures AppliedVersions(delivery) == Iota(|AppliedVersions(delivery)|)
  {
    if delivery != [] {
      AppliedInOrder(delivery[..|delivery| - 1]);
    }
  }

  /** A version before v that has not been applied: what applying or ignoring v would skip. */
  ghost predicate Missing(applied: seq<int>, v: int) { exists u :: 1 <= u < v && u !in applied }

  lemma InIota(n: nat, v: int)
    ensures v in Iota(n) <==> 1 <= v <= n
  {
    if 1 <= v <= n {
      assert Iota(n)[v - 1] == v;
    }
  }

  /** What the rule decides, in terms of what has been applied: an event already applied is ignored; one
      that would leave an earlier version out is quarantined, as is one without a version; every other
      event is applied. (A number below 1 is no version: it is quarantined at first, and ignored once
      something has been applied.) */
  lemma DecisionIff(delivery: seq<Option<int>>, v: int)
    ensures var applied := AppliedVersions(delivery);
            var decision := VersionDecision(Some(v), Last(applied));
            if v >= 1
            then (decision.Ignore? <==> v in applied) && (decision.Quarantine? <==> Missing(applied, v))
                 && (decision.Apply? <==> v !in applied && !Missing(applied, v))
            else decision == if applied == [] then Quarantine else Ignore
    ensures VersionDecision(None, Last(AppliedVersions(delivery))) == Quarantine
  {
    var applied := AppliedVersions(delivery);
    AppliedInOrder(delivery);
    InIota(|applied|, v);
    InIota(|applied|, |applied| + 1);
    assert |applied| + 1 < v ==> |applied| + 1 !in applied;
    forall u | 1 <= u < v <= |applied| + 1
      ensures u in applied
    {
      InIota(|applied|, u);
    }
  }

  /** And k is as large as it could be: 1, 2, ..., n can be read off the delivery in order if and
      only if all of them were applied. */
  lemma {:induction false} AppliesAllItCan(delivery: seq<Option<int>>, n: nat)
    ensures Subsequence(Iota(n), delivery) <==> n <= |AppliedVersions(delivery)|
    decreases |delivery|
  {
    if delivery != [] {
      var shorter := delivery[..|delivery| - 1];
      AppliedInOrder(shorter);
      AppliesAllItCan(shorter, n);
      if n > 0 {
        IotaPrefix(n);
        AppliesAllItCan(shorter, n - 1);
      }
    }
  }

  function Redelivered(log: seq<Option<int>>, times: nat): seq<Option<int>> {
    if times == 0 then [] else Redelivered(log, times - 1) + log
  }

  lemma ReadLast(wanted: seq<int>, next: int, delivery: seq<Option<int>>)
    requires Subsequence(wanted, delivery)
    ensures Subsequence(wanted + [next], delivery + [Some(next)])
  {
    assert (wanted + [next])[..|wanted|] == wanted;
    assert (delivery + [Some(next)])[..|delivery|] == delivery;
  }

  lemma FindOneMore(wanted: seq<int>, next: int, delivery: seq<Option<int>>, more: seq<Option<int>>)
    requires Subsequence(wanted, delivery) && Some(next) in more
    ensures Subsequence(wanted + [next], delivery + more)
  {
    var i :| 0 <= i < |more| && more[i] == Some(next);
    SubsequenceOfLonger(wanted, delivery, more[..i]);
    ReadLast(wanted, next, delivery + more[..i]);
    SubsequenceOfLonger(wanted + [next], delivery + more[..i] + [Some(next)], more[i + 1..]);
    assert delivery + more == delivery + more[..i] + [Some(next)] + more[i + 1..];
  }

  lemma {:induction false} SubsequenceOfLonger(wanted: seq<int>, delivery: seq<Option<int>>, more: seq<Option<int>>)
    requires Subsequence(wanted, delivery)
    ensures Subsequence(wanted, delivery + more)
    decreases |more|
  {
    if more == [] {
      assert delivery + more == delivery;
    } else {
      assert (delivery + more)[..|delivery + more| - 1] == delivery + more[..|more| - 1];
      SubsequenceOfLonger(wanted, delivery, more[..|more| - 1]);
    }
  }

  lemma {:induction false} RedeliveryReads(log: seq<Option<int>>, n: nat)
    requires forall v | 1 <= v <= n :: Some(v) in log
    ensures Subsequence(Iota(n), Redelivered(log, n))
  {
    if n > 0 {
      RedeliveryReads(log, n - 1);
      FindOneMore(Iota(n - 1), n, Redelivered(log, n - 1), log);
      assert Iota(n - 1) + [n] == Iota(n);
    }
  }

  lemma {:induction false} SubsequenceIsDelivered(wanted: seq<int>, delivery: seq<Option<int>>, i: nat)
    requires Subsequence(wanted, delivery) && i < |wanted|
    ensures Some(wanted[i]) in delivery
    decreases |delivery|
  {
    var shorter := delivery[..|delivery| - 1];
    if Subsequence(wanted, shorter) {
      SubsequenceIsDelivered(wanted, shorter, i);
    } else if i < |wanted| - 1 {
      SubsequenceIsDelivered(wanted[..|wanted| - 1], shorter, i);
    }
  }

  /** However a log holding versions 1 to n and no later one was shuffled, redelivering it n times
      applies all n versions; further redeliveries apply nothing. */
  lemma RedeliveryConverges(log: seq<Option<int>>, n: nat, times: nat)
    requires forall v | 1 <= v <= n :: Some(v) in log
    requires forall v | Some(v) in log :: v <= n
    requires times >= n
    ensures AppliedVersions(Redelivered(log, times)) == Iota(n)
  {
    var delivery := Redelivered(log, times);
    RedeliveryReads(log, n);
    LongerRedelivery(log, n, times);
    AppliesAllItCan(delivery, n);
    AppliedInOrder(delivery);
    var k := |AppliedVersions(delivery)|;
    if k > n {
      AppliesAllItCan(delivery, k);
      SubsequenceIsDelivered(Iota(k), delivery, k - 1);
      RedeliveryAddsNothing(log, times, Some(k));
    }
  }

  lemma {:induction false} LongerRedelivery(log: seq<Option<int>>, n: nat, times: nat)
    requires times >= n && Subsequence(Iota(n), Redelivered(log, n))
    ensures Subsequence(Iota(n), Redelivered(log, times))
  {
    if times > n {
      LongerRedelivery(log, n, times - 1);
      SubsequenceOfLonger(Iota(n), Redelivered(log, times - 1), log);
    }
  }

  lemma {:induction false} RedeliveryAddsNothing(log: seq<Option<int>>, times: nat, v: Option<int>)
    requires v in Redelivered(log, times)
    ensures v in log
  {
    if v !in log {
      RedeliveryAddsNothing(log, times - 1, v);
    }
  }
}
