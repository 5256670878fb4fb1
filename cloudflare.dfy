/** cloudflaretest.py: every payload is sent once to `base_url + quote(payload)`;
    a 403 answer or a `RequestException` puts it in `blocked`, any other
    answer in `allowed`. Any other exception escapes the loop and ends the
    run. */
module Cloudflare {
  import opened Net
  import opened Buckets
  import opened UrlQuote
  import opened Payloads
  import opened Wordlist

  /** The default `base_url` of `test_payloads_on_cloudflare`. */
  const DefaultBaseUrl: string := "https://www.cloudflare.com/?xss="

  /** What `test_payloads_on_cloudflare` ends with: the pair
      `(allowed, blocked)` it returns, or the exception that escaped it while
      testing payload `at`. */
  datatype Sweep =
    | Completed(allowed: seq<string>, blocked: seq<string>)
    | Raised(at: nat, message: string)

  /** The outcome of each payload's request, in sending order. */
  function Outcomes(payloads: seq<string>, baseUrl: string, fetch: Fetch): (outs: seq<Outcome>)
    ensures |outs| == |payloads|
    ensures forall i :: 0 <= i < |payloads| ==> outs[i] == fetch(i, TestUrl(baseUrl, payloads[i]))
  {
    seq(|payloads|, i requires 0 <= i < |payloads| => fetch(i, TestUrl(baseUrl, payloads[i])))
  }

  /** The classification policy: status 403, or a transport failure. */
  predicate IsBlocked(o: Outcome) {
    o.RequestError? || (o.Got? && o.response.status == 403)
  }

  function BlockedFlags(outs: seq<Outcome>): (flags: seq<bool>)
    ensures |flags| == |outs|
    ensures forall i :: 0 <= i < |outs| ==> flags[i] == IsBlocked(outs[i])
  {
    Map(IsBlocked, outs)
  }

  /** The index of the first outcome that is neither a response nor a
      `RequestException`, or |outs| when there is none. */
  function FirstEscape(outs: seq<Outcome>): (k: nat)
    ensures k <= |outs|
    ensures k < |outs| ==> outs[k].OtherError?
    ensures forall j :: 0 <= j < k ==> !outs[j].OtherError?
  {
    if outs == [] then 0
    else if outs[0].OtherError? then 0
    else 1 + FirstEscape(outs[1..])
  }

  /** What the sweep returns for these payloads and this network. */
  function Expected(payloads: seq<string>, baseUrl: string, fetch: Fetch): Sweep
  {
    var outs := Outcomes(payloads, baseUrl, fetch);
    var k := FirstEscape(outs);
    if k < |outs| then Raised(k, outs[k].message)
    else
      var flags := BlockedFlags(outs);
      Completed(Keep(payloads, Not(flags)), Keep(payloads, flags))
  }

  /** The two lists after the first n payloads. */
  function SweepPrefix(payloads: seq<string>, baseUrl: string, fetch: Fetch, n: nat): Sweep
    requires n <= |payloads|
  {
    var flags := BlockedFlags(Outcomes(payloads, baseUrl, fetch));
    Completed(Keep(payloads[..n], Not(flags)[..n]), Keep(payloads[..n], flags[..n]))
  }

  /** Payload n goes to the end of `blocked` when its outcome is blocked,
      to the end of `allowed` otherwise. */
  lemma SweepPrefixStep(payloads: seq<string>, baseUrl: string, fetch: Fetch, n: nat)
    requires n < |payloads|
    ensures var before := SweepPrefix(payloads, baseUrl, fetch, n);
            SweepPrefix(payloads, baseUrl, fetch, n + 1)
            == if IsBlocked(fetch(n, TestUrl(baseUrl, payloads[n])))
               then Completed(before.allowed, before.blocked + [payloads[n]])
               else Completed(before.allowed + [payloads[n]], before.blocked)
  {
    var flags := BlockedFlags(Outcomes(payloads, baseUrl, fetch));
    KeepBoth(payloads, flags, n);
  }

  /** `test_payloads_on_cloudflare(payloads, base_url)` */
  method TestPayloadsOnCloudflare(payloads: seq<string>, baseUrl: string, fetch: Fetch)
    returns (r: Sweep)
    ensures r == Expected(payloads, baseUrl, fetch)
  {
    ghost var outs := Outcomes(payloads, baseUrl, fetch);
    var blocked: seq<string> := [];
    var allowed: seq<string> := [];
    var i := 0;
    while i < |payloads|
      invariant 0 <= i <= |payloads|
      invariant i <= FirstEscape(outs)
      invariant Completed(allowed, blocked) == SweepPrefix(payloads, baseUrl, fetch, i)
    {
      var payload := payloads[i];
      var testUrl := TestUrl(baseUrl, payload);
      var outcome := fetch(i, testUrl);
      assert outcome == outs[i];
      if outcome.OtherError? {
        assert FirstEscape(outs) == i;
        return Raised(i, outcome.message);
      }
      SweepPrefixStep(payloads, baseUrl, fetch, i);
      if outcome.RequestError? {
        blocked := blocked + [payload];
      } else if outcome.response.status == 403 {
        blocked := blocked + [payload];
      } else {
        allowed := allowed + [payload];
      }
      i := i + 1;
    }
    ghost var flags := BlockedFlags(outs);
    KeepAll(payloads, flags);
    KeepAll(payloads, Not(flags));
    r := Completed(allowed, blocked);
  }

  /** `main`: load the three wordlists, generate the payloads and sweep them
      against the default base URL. */
  method Run(eventLines: seq<string>, funcLines: seq<string>, charLines: seq<string>, fetch: Fetch)
    returns (r: Sweep)
    ensures r == Expected(GeneratePayloads(LoadList(eventLines), LoadList(funcLines), LoadList(charLines)),
                          DefaultBaseUrl, fetch)
  {
    var events := LoadList(eventLines);
    var funcs := LoadList(funcLines);
    var chars := LoadList(charLines);
    var payloads := GeneratePayloads(events, funcs, chars);
    r := TestPayloadsOnCloudflare(payloads, DefaultBaseUrl, fetch);
  }

  /** The sweep runs to the end exactly when every outcome is a response or
      a `RequestException`; otherwise it stops at the first other exception. */
  lemma CompletesIff(payloads: seq<string>, baseUrl: string, fetch: Fetch)
    ensures var outs := Outcomes(payloads, baseUrl, fetch);
            Expected(payloads, baseUrl, fetch).Completed?
            <==> forall i :: 0 <= i < |payloads| ==> !outs[i].OtherError?
    ensures var outs := Outcomes(payloads, baseUrl, fetch);
            var r := Expected(payloads, baseUrl, fetch);
            r.Raised? ==> r.at < |payloads| && outs[r.at].OtherError?
                          && forall j :: 0 <= j < r.at ==> !outs[j].OtherError?
  {
  }

  /** A completed sweep puts every payload in exactly one of the two lists:
      their lengths add up, their multisets add up to the payloads', and each
      keeps the input order. */
  lemma SweepPartition(payloads: seq<string>, baseUrl: string, fetch: Fetch)
    requires Expected(payloads, baseUrl, fetch).Completed?
    ensures var r := Expected(payloads, baseUrl, fetch);
            |r.allowed| + |r.blocked| == |payloads|
            && multiset(r.allowed) + multiset(r.blocked) == multiset(payloads)
            && IsSubsequence(r.allowed, payloads) && IsSubsequence(r.blocked, payloads)
  {
    var flags := BlockedFlags(Outcomes(payloads, baseUrl, fetch));
    KeepPartition(payloads, flags);
    KeepPartition(payloads, Not(flags));
    assert Not(Not(flags)) == flags;
    KeepIsSubsequence(payloads, flags);
    KeepIsSubsequence(payloads, Not(flags));
  }

  /** Where payload i goes: status 403 and transport failures to `blocked`,
      every other status to `allowed`. */
  lemma VerdictOf(payloads: seq<string>, baseUrl: string, fetch: Fetch, i: int)
    requires 0 <= i < |payloads|
    requires Expected(payloads, baseUrl, fetch).Completed?
    ensures var o := fetch(i, TestUrl(baseUrl, payloads[i]));
            var r := Expected(payloads, baseUrl, fetch);
            ((o.Got? && o.response.status == 403) ==> payloads[i] in r.blocked)
            && (o.RequestError? ==> payloads[i] in r.blocked)
            && ((o.Got? && o.response.status != 403) ==> payloads[i] in r.allowed)
  {
    var outs := Outcomes(payloads, baseUrl, fetch);
    var flags := BlockedFlags(outs);
    assert !outs[i].OtherError?;
    KeepMember(payloads, flags, payloads[i]);
    KeepMember(payloads, Not(flags), payloads[i]);
  }

  /** With no duplicate payloads, payload i is in exactly the list its
      outcome picks and absent from the other. */
  lemma VerdictUnique(payloads: seq<string>, baseUrl: string, fetch: Fetch, i: int)
    requires 0 <= i < |payloads| && NoDuplicates(payloads)
    requires Expected(payloads, baseUrl, fetch).Completed?
    ensures var o := fetch(i, TestUrl(baseUrl, payloads[i]));
            var r := Expected(payloads, baseUrl, fetch);
            (payloads[i] in r.blocked <==> IsBlocked(o))
            && (payloads[i] in r.allowed <==> !IsBlocked(o))
  {
    var outs := Outcomes(payloads, baseUrl, fetch);
    var flags := BlockedFlags(outs);
    KeepMember(payloads, flags, payloads[i]);
    KeepMember(payloads, Not(flags), payloads[i]);
  }

  /** Every blocked payload was answered with 403 or failed in transport, and
      every allowed one got some other status. */
  lemma ListsExplained(payloads: seq<string>, baseUrl: string, fetch: Fetch, p: string)
    requires Expected(payloads, baseUrl, fetch).Completed?
    ensures var r := Expected(payloads, baseUrl, fetch);
            p in r.blocked ==> exists i :: 0 <= i < |payloads| && payloads[i] == p
                                         && IsBlocked(fetch(i, TestUrl(baseUrl, payloads[i])))
    ensures var r := Expected(payloads, baseUrl, fetch);
            p in r.allowed ==> exists i :: 0 <= i < |payloads| && payloads[i] == p
                                         && fetch(i, TestUrl(baseUrl, payloads[i])).Got?
                                         && fetch(i, TestUrl(baseUrl, payloads[i])).response.status != 403
  {
    var outs := Outcomes(payloads, baseUrl, fetch);
    var flags := BlockedFlags(outs);
    KeepMember(payloads, flags, p);
    KeepMember(payloads, Not(flags), p);
    var r := Expected(payloads, baseUrl, fetch);
    if p in r.allowed {
      var i :| 0 <= i < |payloads| && Not(flags)[i] && payloads[i] == p;
      assert !outs[i].OtherError?;
    }
  }
}
