/** smart_xss_fuzzer_browser.py: every payload is sent once to
    `target_url + quote(payload)`. The answer's document is analysed for the
    contexts the payload lands in; a payload found in the answer's text is
    "passed" and is then opened in a headless browser, and an alert there
    marks it "executed"; an answer without the payload is "blocked", as is
    every payload whose request raised. */
module Fuzzer {
  import opened Net
  import opened Text
  import opened Buckets
  import opened UrlQuote
  import opened Payloads
  import opened Wordlist
  import opened Context

  /** What the headless browser does with one URL: it shows an alert with
      some text, shows none, fails with a `WebDriverException`, or raises
      some other way (starting Chrome, or an exception of any other class). */
  datatype BrowserOutcome =
    | AlertShown(text: string)
    | NoAlert
    | DriverError(message: string)
    | Crashed(message: string)

  /** What `is_payload_executed_in_browser` ends with: the pair it returns,
      or the exception that escaped it. */
  datatype BrowserCheck =
    | Returned(executed: bool, detail: Option<string>)
    | Escaped(message: string)

  /** The outside world of one run: the network, the HTML parser and the
      browser (opening payload number n at a URL). */
  datatype World = World(
    fetch: Fetch,
    parse: string -> Document,
    browser: (nat, string) -> BrowserOutcome)

  /** `(payload, context)` as kept in `passed` and `blocked`. */
  datatype Finding = Finding(payload: string, context: seq<Context>)

  /** `(payload, alert_content, context)` as kept in `executed`. */
  datatype Execution = Execution(payload: string, alert: string, context: seq<Context>)

  /** The triple `(passed, blocked, executed)`. */
  datatype Report = Report(passed: seq<Finding>, blocked: seq<Finding>, executed: seq<Execution>)

  /** `is_payload_executed_in_browser(url)`, given what the browser does:
      `(True, alert_text)` after an alert, `(False, None)` without one,
      `(False, str(e))` after a `WebDriverException`; anything else escapes. */
  function IsPayloadExecutedInBrowser(o: BrowserOutcome): (r: BrowserCheck)
    ensures r.Returned? && r.executed <==> o.AlertShown?
    ensures o.AlertShown? ==> r.detail == Some(o.text)
    ensures r.Escaped? <==> o.Crashed?
    ensures r.Returned? && !r.executed ==> (r.detail.None? <==> o.NoAlert?)
    ensures o.DriverError? ==> r.Returned? && r.detail == Some(o.message)
  {
    match o
    case AlertShown(text) => Returned(true, Some(text))
    case NoAlert => Returned(false, None)
    case DriverError(message) => Returned(false, Some(message))
    case Crashed(message) => Escaped(message)
  }

  /** What happens to one payload: its request raised; or it was answered
      without the payload in the text; or the payload was reflected and the
      browser check ended as `check`. */
  datatype Fate =
    | RequestFailed
    | Filtered(context: seq<Context>)
    | Reflected(context: seq<Context>, check: BrowserCheck)

  function FateOf(targetUrl: string, payload: string, n: nat, w: World): (f: Fate)
    ensures !w.fetch(n, TestUrl(targetUrl, payload)).Got? <==> f.RequestFailed?
    ensures w.fetch(n, TestUrl(targetUrl, payload)).Got? ==>
              var text := w.fetch(n, TestUrl(targetUrl, payload)).response.text;
              f.context == ContextTags(payload, w.parse(text))
              && (f.Reflected? <==> IsSubstring(payload, text))
    ensures f.Reflected? ==>
              f.check == IsPayloadExecutedInBrowser(w.browser(n, TestUrl(targetUrl, payload)))
  {
    var url := TestUrl(targetUrl, payload);
    var o := w.fetch(n, url);
    if !o.Got? then RequestFailed
    else
      var context := ContextTags(payload, w.parse(o.response.text));
      if IsSubstring(payload, o.response.text) then
        Reflected(context, IsPayloadExecutedInBrowser(w.browser(n, url)))
      else Filtered(context)
  }

  function Fates(targetUrl: string, payloads: seq<string>, w: World): (fs: seq<Fate>)
    ensures |fs| == |payloads|
    ensures forall i :: 0 <= i < |payloads| ==> fs[i] == FateOf(targetUrl, payloads[i], i, w)
  {
    seq(|payloads|, i requires 0 <= i < |payloads| => FateOf(targetUrl, payloads[i], i, w))
  }

  /** The context a payload is listed with: ["Error"] after a failure. */
  function ContextOf(f: Fate): seq<Context> {
    if f.RequestFailed? then [Error] else f.context
  }

  predicate InPassed(f: Fate) {
    f.Reflected?
  }

  predicate InBlocked(f: Fate) {
    !f.Reflected? || f.check.Escaped?
  }

  predicate InExecuted(f: Fate) {
    f.Reflected? && f.check.Returned? && f.check.executed
  }

  function PassedEntries(payloads: seq<string>, fs: seq<Fate>): (es: seq<Finding>)
    requires |payloads| == |fs|
    ensures |es| == |fs| && forall i :: 0 <= i < |fs| ==> es[i] == Finding(payloads[i], ContextOf(fs[i]))
  {
    seq(|fs|, i requires 0 <= i < |fs| => Finding(payloads[i], ContextOf(fs[i])))
  }

  /** A filtered payload is listed with its context, a failed one with ["Error"]. */
  function BlockedEntry(p: string, f: Fate): Finding {
    if f.Filtered? then Finding(p, f.context) else Finding(p, [Error])
  }

  function BlockedEntries(payloads: seq<string>, fs: seq<Fate>): (es: seq<Finding>)
    requires |payloads| == |fs|
    ensures |es| == |fs| && forall i :: 0 <= i < |fs| ==> es[i] == BlockedEntry(payloads[i], fs[i])
  {
    seq(|fs|, i requires 0 <= i < |fs| => BlockedEntry(payloads[i], fs[i]))
  }

  function AlertOf(f: Fate): string {
    if f.Reflected? && f.check.Returned? && f.check.detail.Some? then f.check.detail.value else ""
  }

  function ExecutedEntries(payloads: seq<string>, fs: seq<Fate>): (es: seq<Execution>)
    requires |payloads| == |fs|
    ensures |es| == |fs| && forall i :: 0 <= i < |fs| ==> es[i] == Execution(payloads[i], AlertOf(fs[i]), ContextOf(fs[i]))
  {
    seq(|fs|, i requires 0 <= i < |fs| => Execution(payloads[i], AlertOf(fs[i]), ContextOf(fs[i])))
  }

  /** The report `fuzz_and_analyze` returns for these payloads in this world. */
  function Expected(targetUrl: string, payloads: seq<string>, w: World): Report
  {
    var fs := Fates(targetUrl, payloads, w);
    Report(Keep(PassedEntries(payloads, fs), Map(InPassed, fs)),
           Keep(BlockedEntries(payloads, fs), Map(InBlocked, fs)),
           Keep(ExecutedEntries(payloads, fs), Map(InExecuted, fs)))
  }

  /** The report after the first n payloads. */
  function Prefix(targetUrl: string, payloads: seq<string>, w: World, n: nat): Report
    requires n <= |payloads|
  {
    var fs := Fates(targetUrl, payloads, w);
    Report(Keep(PassedEntries(payloads, fs)[..n], Map(InPassed, fs)[..n]),
           Keep(BlockedEntries(payloads, fs)[..n], Map(InBlocked, fs)[..n]),
           Keep(ExecutedEntries(payloads, fs)[..n], Map(InExecuted, fs)[..n]))
  }

  /** The entries one payload of fate f adds to a report. */
  function Step(r: Report, p: string, f: Fate): Report {
    Report(r.passed + (if InPassed(f) then [Finding(p, ContextOf(f))] else []),
           r.blocked + (if InBlocked(f) then [BlockedEntry(p, f)] else []),
           r.executed + (if InExecuted(f) then [Execution(p, AlertOf(f), ContextOf(f))] else []))
  }

  /** Handling payload n extends the report by its entries and no others. */
  lemma PrefixStep(targetUrl: string, payloads: seq<string>, w: World, n: nat)
    requires n < |payloads|
    ensures Prefix(targetUrl, payloads, w, n + 1)
            == Step(Prefix(targetUrl, payloads, w, n), payloads[n], Fates(targetUrl, payloads, w)[n])
  {
    var fs := Fates(targetUrl, payloads, w);
    KeepExtend(PassedEntries(payloads, fs), Map(InPassed, fs), n);
    KeepExtend(BlockedEntries(payloads, fs), Map(InBlocked, fs), n);
    KeepExtend(ExecutedEntries(payloads, fs), Map(InExecuted, fs), n);
  }

  lemma PrefixAll(targetUrl: string, payloads: seq<string>, w: World)
    ensures Prefix(targetUrl, payloads, w, |payloads|) == Expected(targetUrl, payloads, w)
  {
    var fs := Fates(targetUrl, payloads, w);
    KeepAll(PassedEntries(payloads, fs), Map(InPassed, fs));
    KeepAll(BlockedEntries(payloads, fs), Map(InBlocked, fs));
    KeepAll(ExecutedEntries(payloads, fs), Map(InExecuted, fs));
  }

  /** The body of the loop of `fuzz_and_analyze` for payload number n:
      request, analysis, reflection test and browser check, each list
      receiving what this payload adds to it. */
  method FuzzOne(targetUrl: string, payload: string, n: nat, w: World,
                 passed: seq<Finding>, blocked: seq<Finding>, executed: seq<Execution>)
    returns (passed': seq<Finding>, blocked': seq<Finding>, executed': seq<Execution>)
    ensures Report(passed', blocked', executed')
            == Step(Report(passed, blocked, executed), payload, FateOf(targetUrl, payload, n, w))
  {
    passed', blocked', executed' := passed, blocked, executed;
    var encodedPayload := Quote(payload);
    var fullUrl := targetUrl + encodedPayload;
    assert fullUrl == TestUrl(targetUrl, payload);
    var outcome := w.fetch(n, fullUrl);
    if outcome.Got? {
      var context := AnalyzeContext(payload, w.parse(outcome.response.text));
      if IsSubstring(payload, outcome.response.text) {
        passed' := passed' + [Finding(payload, context)];
        var check := IsPayloadExecutedInBrowser(w.browser(n, fullUrl));
        if check.Escaped? {
          // the exception leaves the browser check and is caught below the request
          blocked' := blocked' + [Finding(payload, [Error])];
        } else if check.executed {
          executed' := executed' + [Execution(payload, check.detail.value, context)];
        }
      } else {
        blocked' := blocked' + [Finding(payload, context)];
      }
    } else {
      blocked' := blocked' + [Finding(payload, [Error])];
    }
  }

  /** `fuzz_and_analyze(target_url, payloads)` */
  method FuzzAndAnalyze(targetUrl: string, payloads: seq<string>, w: World) returns (report: Report)
    ensures report == Expected(targetUrl, payloads, w)
  {
    var passed: seq<Finding> := [];
    var blocked: seq<Finding> := [];
    var executed: seq<Execution> := [];
    var i := 0;
    while i < |payloads|
      invariant 0 <= i <= |payloads|
      invariant Report(passed, blocked, executed) == Prefix(targetUrl, payloads, w, i)
    {
      PrefixStep(targetUrl, payloads, w, i);
      passed, blocked, executed := FuzzOne(targetUrl, payloads[i], i, w, passed, blocked, executed);
      i := i + 1;
    }
    PrefixAll(targetUrl, payloads, w);
    report := Report(passed, blocked, executed);
  }

  /** The check `main` makes of the target it reads. */
  predicate ValidTarget(target: string) {
    '?' in target && '=' in target
  }

  /** `main`: read and check the target, load the three wordlists, generate
      the payloads and fuzz; `None` is the "Invalid URL format." exit. */
  method Run(input: string, eventLines: seq<string>, funcLines: seq<string>, charLines: seq<string>, w: World)
    returns (r: Option<Report>)
    ensures r.None? <==> !ValidTarget(Strip(input))
    ensures r.Some? ==>
              r.value == Expected(Strip(input),
                                  GeneratePayloads(LoadList(eventLines), LoadList(funcLines), LoadList(charLines)), w)
  {
    var target := Strip(input);
    if !('?' in target) || !('=' in target) {
      return None;
    }
    var events := LoadList(eventLines);
    var functions := LoadList(funcLines);
    var chars := LoadList(charLines);
    var payloads := GeneratePayloads(events, functions, chars);
    var report := FuzzAndAnalyze(target, payloads, w);
    r := Some(report);
  }

  /** The shape `(payload, context)` an execution shares with its passed entry. */
  function AsFinding(e: Execution): Finding {
    Finding(e.payload, e.context)
  }

  /** Every executed payload was passed first, in the same order: the
      executions, read as findings, are a subsequence of `passed`. */
  lemma ExecutedArePassed(targetUrl: string, payloads: seq<string>, w: World)
    ensures var r := Expected(targetUrl, payloads, w);
            IsSubsequence(Map(AsFinding, r.executed), r.passed)
  {
    var fs := Fates(targetUrl, payloads, w);
    var pe, pf := PassedEntries(payloads, fs), Map(InPassed, fs);
    var ee, ef := ExecutedEntries(payloads, fs), Map(InExecuted, fs);
    MapKeep(AsFinding, ee, ef);
    assert Map(AsFinding, ee) == pe;
    KeepMonotone(pe, ef, pf);
  }

  /** What happens to payload i, case by case: a failed request lists it as
      blocked with ["Error"]; an answer without it lists it as blocked with
      its context; an answer with it lists it as passed with its context,
      as executed with the alert's text when the browser shows one, and
      also as blocked with ["Error"] when the browser check raises. */
  lemma FateOfPayload(targetUrl: string, payloads: seq<string>, w: World, i: int)
    requires 0 <= i < |payloads|
    ensures var p, r := payloads[i], Expected(targetUrl, payloads, w);
            var url := TestUrl(targetUrl, p);
            var o := w.fetch(i, url);
            (!o.Got? ==> Finding(p, [Error]) in r.blocked)
            && (o.Got? ==>
                  var context := ContextTags(p, w.parse(o.response.text));
                  (!IsSubstring(p, o.response.text) ==> Finding(p, context) in r.blocked)
                  && (IsSubstring(p, o.response.text) ==>
                        Finding(p, context) in r.passed
                        && (w.browser(i, url).AlertShown? ==>
                              Execution(p, w.browser(i, url).text, context) in r.executed)
                        && (w.browser(i, url).Crashed? ==> Finding(p, [Error]) in r.blocked)))
  {
    var fs := Fates(targetUrl, payloads, w);
    var pe, pf := PassedEntries(payloads, fs), Map(InPassed, fs);
    var be, bf := BlockedEntries(payloads, fs), Map(InBlocked, fs);
    var ee, ef := ExecutedEntries(payloads, fs), Map(InExecuted, fs);
    KeepMember(pe, pf, pe[i]);
    KeepMember(be, bf, be[i]);
    KeepMember(ee, ef, ee[i]);
  }

  /** Every passed entry was reflected: its payload occurs in the text of the
      answer to its request, and its context is that answer's analysis. */
  lemma PassedAreReflected(targetUrl: string, payloads: seq<string>, w: World, e: Finding)
    requires e in Expected(targetUrl, payloads, w).passed
    ensures exists i :: 0 <= i < |payloads| && payloads[i] == e.payload
              && var o := w.fetch(i, TestUrl(targetUrl, e.payload));
                 o.Got? && IsSubstring(e.payload, o.response.text)
                 && e.context == ContextTags(e.payload, w.parse(o.response.text))
  {
    var fs := Fates(targetUrl, payloads, w);
    var pe, pf := PassedEntries(payloads, fs), Map(InPassed, fs);
    KeepMember(pe, pf, e);
    var i :| 0 <= i < |pe| && pf[i] && pe[i] == e;
    assert payloads[i] == e.payload;
  }

  /** Every execution was confirmed by an alert showing exactly its text, on
      a payload reflected in its answer. */
  lemma ExecutionsConfirmed(targetUrl: string, payloads: seq<string>, w: World, x: Execution)
    requires x in Expected(targetUrl, payloads, w).executed
    ensures exists i :: 0 <= i < |payloads| && payloads[i] == x.payload
              && var url := TestUrl(targetUrl, x.payload);
                 var o := w.fetch(i, url);
                 o.Got? && IsSubstring(x.payload, o.response.text)
                 && w.browser(i, url) == AlertShown(x.alert)
                 && x.context == ContextTags(x.payload, w.parse(o.response.text))
  {
    var fs := Fates(targetUrl, payloads, w);
    var ee, ef := ExecutedEntries(payloads, fs), Map(InExecuted, fs);
    KeepMember(ee, ef, x);
    var i :| 0 <= i < |ee| && ef[i] && ee[i] == x;
    assert payloads[i] == x.payload;
  }

  /** A blocked entry is either a failure, listed with ["Error"] (a request
      that raised, or a reflected payload whose browser check raised), or a
      payload absent from the text of its answer, listed with that answer's
      contexts; since an analysis never yields "Error", the two cannot be
      confused. */
  lemma BlockedExplained(targetUrl: string, payloads: seq<string>, w: World, e: Finding)
    requires e in Expected(targetUrl, payloads, w).blocked
    ensures exists i :: 0 <= i < |payloads| && payloads[i] == e.payload
              && var url := TestUrl(targetUrl, e.payload);
                 var o := w.fetch(i, url);
                 if e.context == [Error] then
                   !o.Got? || (IsSubstring(e.payload, o.response.text) && w.browser(i, url).Crashed?)
                 else
                   o.Got? && !IsSubstring(e.payload, o.response.text)
                   && e.context == ContextTags(e.payload, w.parse(o.response.text))
  {
    var fs := Fates(targetUrl, payloads, w);
    var be, bf := BlockedEntries(payloads, fs), Map(InBlocked, fs);
    KeepMember(be, bf, e);
    var i :| 0 <= i < |be| && bf[i] && be[i] == e;
    assert payloads[i] == e.payload;
    if fs[i].Filtered? {
      assert ContextTags(e.payload, w.parse(w.fetch(i, TestUrl(targetUrl, e.payload)).response.text)) != [Error];
    }
  }

  /** When no browser check raises, every payload lands in exactly one of
      `passed` and `blocked`, in input order. */
  lemma PassedBlockedPartition(targetUrl: string, payloads: seq<string>, w: World)
    requires forall i :: 0 <= i < |payloads| ==> !w.browser(i, TestUrl(targetUrl, payloads[i])).Crashed?
    ensures var r := Expected(targetUrl, payloads, w);
            |r.passed| + |r.blocked| == |payloads|
            && multiset(Map(PayloadOf, r.passed)) + multiset(Map(PayloadOf, r.blocked)) == multiset(payloads)
  {
    var fs := Fates(targetUrl, payloads, w);
    var pe, pf := PassedEntries(payloads, fs), Map(InPassed, fs);
    var be, bf := BlockedEntries(payloads, fs), Map(InBlocked, fs);
    assert bf == Not(pf);
    MapKeep(PayloadOf, pe, pf);
    MapKeep(PayloadOf, be, bf);
    assert Map(PayloadOf, pe) == payloads;
    assert Map(PayloadOf, be) == payloads;
    KeepPartition(payloads, pf);
  }

  /** `passed` and `blocked` list their payloads in input order. */
  lemma ListsKeepOrder(targetUrl: string, payloads: seq<string>, w: World)
    ensures var r := Expected(targetUrl, payloads, w);
            IsSubsequence(Map(PayloadOf, r.passed), payloads)
            && IsSubsequence(Map(PayloadOf, r.blocked), payloads)
  {
    var fs := Fates(targetUrl, payloads, w);
    var pe, pf := PassedEntries(payloads, fs), Map(InPassed, fs);
    var be, bf := BlockedEntries(payloads, fs), Map(InBlocked, fs);
    MapKeep(PayloadOf, pe, pf);
    MapKeep(PayloadOf, be, bf);
    assert Map(PayloadOf, pe) == payloads;
    assert Map(PayloadOf, be) == payloads;
    KeepIsSubsequence(payloads, pf);
    KeepIsSubsequence(payloads, bf);
  }

  function PayloadOf(e: Finding): string {
    e.payload
  }

  /** A failed request decides the payload alone: neither the parser nor the
      browser is consulted, and the payload is neither passed nor executed. */
  lemma RequestFailureIsolated(targetUrl: string, payloads: seq<string>, w: World, w': World, i: int)
    requires 0 <= i < |payloads|
    requires w'.fetch == w.fetch
    requires !w.fetch(i, TestUrl(targetUrl, payloads[i])).Got?
    ensures FateOf(targetUrl, payloads[i], i, w) == FateOf(targetUrl, payloads[i], i, w') == RequestFailed
    ensures var f := FateOf(targetUrl, payloads[i], i, w);
            InBlocked(f) && !InPassed(f) && !InExecuted(f)
            && BlockedEntry(payloads[i], f) == Finding(payloads[i], [Error])
  {
  }
}
