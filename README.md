# XSS-Fuzzer, modelled in Dafny

XSS-Fuzzer has two scripts.

- `cloudflaretest.py` sends every generated payload to a Cloudflare URL and sorts the payloads into `allowed` and `blocked` by the answer's status code.
- `smart_xss_fuzzer_browser.py` sends every payload to a target URL and looks for the payload in the answer. It tags where in the parsed HTML the payload lands, and confirms a reflected payload in a headless browser by waiting for an alert. It reports `passed`, `blocked` and `executed`.

The model covers the logic both scripts are built from:

| Module | File | What it models |
|---|---|---|
| `Text` | `text.dfy` | Python's `str.strip()` over the `isspace` set, `sub in s` and `sep.join`. |
| `Wordlist` | `wordlist.dfy` | The line filter of `load_list_from_file`. It is shared by both scripts and byte-identical in them. |
| `Payloads` | `payloads.dfy` | `generate_payloads`: `itertools.product` order and the payload template. |
| `UrlQuote` | `urlquote.dfy` | `urllib.parse.quote` with `safe='/'`: UTF-8, then upper-case `%XX`. `unquote_to_bytes` serves as its partner. |
| `Net` | `net.dfy` | The outcome of one `requests.get`. |
| `Buckets` | `buckets.dfy` | The append-only result lists. A list that receives item `i` exactly when `keep[i]` holds is `Keep(items, keep)`. Partition, order and membership are proved once here. |
| `Cloudflare` | `cloudflare.dfy` | `test_payloads_on_cloudflare` as a loop, and `main`. |
| `Context` | `context.dfy` | `analyze_context` as its three loops and a text check, over a parsed document. |
| `Fuzzer` | `fuzzer.dfy` | `is_payload_executed_in_browser` over a browser oracle, `fuzz_and_analyze` as a loop, and `main`. |

## How the model runs

The outside world is passed in as functions:
- the network is a `Fetch` from (request number, URL) to an outcome;
- the HTML parser maps a response text to a `Document`;
- the browser maps (payload number, URL) to what it shows.

Each loop method is proved equal to a function of its inputs. That function is `Expected`: the lists are `Keep`s of the payloads by a per-payload verdict. The properties are then proved about `Expected`.

Three behaviours of the code are easy to overlook, and the model keeps each of them:

- Only `RequestException` is caught in `test_payloads_on_cloudflare` (cloudflaretest.py:34). Any other exception ends the sweep, and the model returns `Raised(at, message)` (`Cloudflare.Expected`).
- `webdriver.Chrome()` is called outside the `try` of `is_payload_executed_in_browser` (smart_xss_fuzzer_browser.py:47), and only `NoAlertPresentException` and `WebDriverException` are caught there.
  - Any exception that escapes is caught by the `except Exception` of `fuzz_and_analyze` (smart_xss_fuzzer_browser.py:88-90).
  - That happens after the payload was appended to `passed` (smart_xss_fuzzer_browser.py:79).
  - Such a payload is therefore listed twice: in `passed`, and in `blocked` with `["Error"]`.
  - `Fuzzer.FateOfPayload` and `Fuzzer.BlockedExplained` state this.
- The context analysis runs before the reflection test (smart_xss_fuzzer_browser.py:75). A payload that is not reflected is listed in `blocked` with that analysis (smart_xss_fuzzer_browser.py:85-87). It usually is `["Unknown"]`, but not always: the parser decodes entities, so a payload absent from the raw text can still appear in the parsed attributes or text.

## Model

| member | source | states |
|---|---|---|
| Text.IsSpace | smart_xss_fuzzer_browser.py:12 | The characters `str.isspace()` accepts: bidirectional class WS, B or S, or category Zs. `strip()` removes them at both ends; Text.Strip and Text.StripEmptyIff are stated over this set. |
| Text.Strip | smart_xss_fuzzer_browser.py:12 | The result has no whitespace at either end. It is a slice of the input with only whitespace removed before and after it. |
| Text.StrippedIsFixpoint | smart_xss_fuzzer_browser.py:12 | A string with no whitespace at either end is its own `strip()`. |
| Text.StripIdempotent | smart_xss_fuzzer_browser.py:12 | Stripping twice is stripping once. |
| Text.StripEmptyIff | smart_xss_fuzzer_browser.py:12 | `line.strip()` is empty, so the line is dropped, exactly when the line is all whitespace. |
| Text.IsSubstring | smart_xss_fuzzer_browser.py:77 | Python's `sub in s` on strings: `sub` occurs at some position of `s`. It serves as the reflection test and as the tests of the context rules; Text.JoinContainsPart and Context.AbsentPayloadIsUnknown use it. |
| Text.Join | smart_xss_fuzzer_browser.py:25 | `sep.join(parts)`: the parts in order with `sep` between neighbours. Text.JoinContainsPart states that every part occurs in the result. |
| Text.JoinContainsPart | smart_xss_fuzzer_browser.py:24-25 | Every element of a list value occurs in `" ".join(val)`. |
| Wordlist.LoadList | smart_xss_fuzzer_browser.py:10-12 | Every kept word is non-empty with no whitespace at either end. There are never more words than lines. |
| Wordlist.LoadListAppend | cloudflaretest.py:5-7 | The filter keeps file order: the words of `a + b` are the words of `a` followed by those of `b`. |
| Wordlist.LoadListLine | cloudflaretest.py:7 | One line contributes its stripped form, or nothing when it is all whitespace. |
| Wordlist.LoadListMember | smart_xss_fuzzer_browser.py:12 | A word is kept exactly when it is non-empty and some line strips to it. |
| Payloads.Payload | smart_xss_fuzzer_browser.py:16 | The f-string `char event=func char`. Payloads.PayloadShape gives its length and the position of each delimiter. |
| Payloads.GeneratePayloads | smart_xss_fuzzer_browser.py:14-16 | The template applied to `itertools.product(events, funcs, chars)` in its order. Payloads.PayloadCount, Payloads.ProductOrder, Payloads.PayloadAtIndex and Payloads.PayloadMember state its length, order and contents. |
| Payloads.ProductLength | smart_xss_fuzzer_browser.py:15 | The product of three lists has `Offset(E, Offset(F, C))` entries, that is E·F·C. |
| Payloads.ProductAt | smart_xss_fuzzer_browser.py:15 | The triple `(events[a], funcs[b], chars[c])` sits at row `a`, sub-row `b`, column `c`: the event varies slowest and the character fastest. |
| Payloads.ProductMember | smart_xss_fuzzer_browser.py:15 | An entry is in the product exactly when it combines some triple of the three lists. |
| Payloads.PayloadCount | smart_xss_fuzzer_browser.py:14-16 | `generate_payloads` yields exactly `E * (F * C)` payloads. |
| Payloads.NoPayloadsFromEmptyList | cloudflaretest.py:9-11 | An empty wordlist yields no payload. |
| Payloads.ProductOrder | cloudflaretest.py:10-11 | The payload built from `events[a]`, `funcs[b]` and `chars[c]` is at index `a*(F*C) + b*C + c`. |
| Payloads.PayloadAtIndex | smart_xss_fuzzer_browser.py:15-16 | Payload `i` is built from `events[i / (F*C)]`, `funcs[(i / C) % F]` and `chars[i % C]`. Every list is then non-empty. |
| Payloads.PayloadMember | smart_xss_fuzzer_browser.py:15-16 | A string is a payload exactly when it is the template filled with some event, function and character from the lists. |
| Payloads.PayloadShape | smart_xss_fuzzer_browser.py:16 | A payload starts and ends with its character and has length `2|c| + |e| + |f| + 3`. A space follows the leading character, `=` follows the event, and a space precedes the trailing character. |
| Payloads.SingleTripleExample | cloudflaretest.py:11 | The lists `["onload"]`, `["alert(1)"]` and `["\""]` give exactly one payload, `" onload=alert(1) "`. |
| UrlQuote.Quote | smart_xss_fuzzer_browser.py:70 | `urllib.parse.quote(payload)` with `safe='/'`. UrlQuote.QuoteRoundTrip gives its inverse, and UrlQuote.QuoteAlphabet and UrlQuote.QuoteSafeIdentity give its output alphabet and its fixed points. |
| UrlQuote.QuoteIsQuoteBytes | smart_xss_fuzzer_browser.py:70 | Quoting a string, one character at a time, is percent-encoding its UTF-8 bytes. |
| UrlQuote.QuoteRoundTrip | smart_xss_fuzzer_browser.py:70 | `unquote_to_bytes(quote(s))` is the UTF-8 encoding of `s`. |
| UrlQuote.QuoteAlphabet | cloudflaretest.py:22 | Quoted text contains only unreserved characters, `/` and `%`, so no `?`, `=`, `&`, `#` or space of its own. |
| UrlQuote.QuoteSafeIdentity | cloudflaretest.py:22 | A string made only of unreserved ASCII characters and `/` is its own quoting. |
| UrlQuote.TestUrl | cloudflaretest.py:22-23 | `base_url + quote(payload)`, the URL of one request in both scripts. UrlQuote.TestUrlParts states that the base is its prefix and that the payload decodes back from the rest. |
| UrlQuote.TestUrlParts | cloudflaretest.py:22-23 | The test URL starts with `base_url`, and the payload's bytes can be decoded back from the rest of it. |
| Buckets.KeepPartition | cloudflaretest.py:27-36 | A verdict and its negation split the payloads between two lists. Their lengths add up, and their multisets add up to the payloads'. |
| Buckets.KeepIsSubsequence | cloudflaretest.py:29-36 | An append-only list is a subsequence of the input: input order is kept. |
| Buckets.KeepMember | cloudflaretest.py:29-36 | An item is in a list exactly when some equal input item had the verdict. |
| Buckets.KeepMonotone | smart_xss_fuzzer_browser.py:79-84 | A list whose verdicts imply another list's verdicts is a subsequence of it. |
| Cloudflare.IsBlocked | cloudflaretest.py:27-36 | The verdict: a 403 response or a `RequestException`. Cloudflare.VerdictOf, Cloudflare.VerdictUnique and Cloudflare.ListsExplained state that it sorts each payload. |
| Cloudflare.Expected | cloudflaretest.py:13-38 | The result of the sweep: `Raised` at the first other exception, otherwise the payloads split by `IsBlocked` in input order. Cloudflare.TestPayloadsOnCloudflare is proved equal to it, and Cloudflare.CompletesIff and Cloudflare.SweepPartition state its properties. |
| Cloudflare.FirstEscape | cloudflaretest.py:24-36 | Gives the index of the first outcome that is neither a response nor a `RequestException`, or the length when there is none. |
| Cloudflare.SweepPrefixStep | cloudflaretest.py:27-36 | Payload `n` is appended to `blocked` on a 403 or a `RequestException`, and to `allowed` otherwise. Nothing else changes. |
| Cloudflare.TestPayloadsOnCloudflare | cloudflaretest.py:13-38 | The loop returns exactly `Expected`: it raises at the first other exception, and otherwise returns both lists. |
| Cloudflare.Run | cloudflaretest.py:40-48 | `main` sweeps the generated payloads of the three filtered wordlists against the default base URL. |
| Cloudflare.CompletesIff | cloudflaretest.py:21-38 | The sweep completes exactly when no outcome is another exception. When it raises, it raises at the first one. |
| Cloudflare.SweepPartition | cloudflaretest.py:21-38 | In a completed sweep, `|allowed| + |blocked| == |payloads|`, the multisets add up, and both lists keep input order. |
| Cloudflare.VerdictOf | cloudflaretest.py:27-36 | A 403 puts the payload in `blocked`, a `RequestException` puts it in `blocked`, and any other status puts it in `allowed`. |
| Cloudflare.VerdictUnique | cloudflaretest.py:27-36 | With distinct payloads, a payload is in `blocked` exactly when its outcome is blocked, and in `allowed` exactly when it is not. |
| Cloudflare.ListsExplained | cloudflaretest.py:27-36 | Every blocked payload got a 403 or a `RequestException`. Every allowed payload got a response with another status. |
| Context.AttrText | smart_xss_fuzzer_browser.py:24-26 | The string an attribute value is searched in: the value itself, or its tokens joined by a space. Text.JoinContainsPart and Context.HrefImpliesAttribute rely on it. |
| Context.HrefContains | smart_xss_fuzzer_browser.py:33-35 | `payload in tag['href']`: a substring test on a string value, and a membership test on a list value. Context.HrefImpliesAttribute states that it implies the attribute rule. |
| Context.Contexts | smart_xss_fuzzer_browser.py:20-38 | The set found is drawn from Attribute, ScriptBlock, Href/URL and TextContent. |
| Context.AsList | smart_xss_fuzzer_browser.py:40 | `list(context_found)` has no duplicates and the same elements as the set. |
| Context.ContextTags | smart_xss_fuzzer_browser.py:40 | The result is `["Unknown"]` exactly when no rule matched. Otherwise it is non-empty and duplicate-free, holds neither Unknown nor Error, and holds exactly the matched tags. |
| Context.Labels | smart_xss_fuzzer_browser.py:27-40 | The strings `analyze_context` returns, one per tag, in the source's spelling ("Href/URL" for the href rule). |
| Context.LabelInjective | smart_xss_fuzzer_browser.py:27-40 | Two tags are spelled alike exactly when they are the same tag. |
| Context.TagLabels | smart_xss_fuzzer_browser.py:40 | The labels of a duplicate-free list without Unknown and Error are duplicate-free rule names, and they are `["Unknown"]` only for `[Unknown]`. |
| Context.ContextLabels | smart_xss_fuzzer_browser.py:20-40 | The returned strings are `["Unknown"]` exactly when no rule matched. Otherwise they are distinct names from Attribute, ScriptBlock, Href/URL and TextContent. |
| Context.AnalyzeContext | smart_xss_fuzzer_browser.py:18-40 | The three loops and the text check return exactly `ContextTags`. |
| Context.HrefImpliesAttribute | smart_xss_fuzzer_browser.py:23-35 | When "Href/URL" is found, "Attribute" is found too. |
| Context.AttributeExample | smart_xss_fuzzer_browser.py:22-27 | An attribute whose value is the payload gives "Attribute". |
| Context.ScriptExample | smart_xss_fuzzer_browser.py:29-31 | A script whose text contains the payload gives "ScriptBlock". |
| Context.AbsentPayloadIsUnknown | smart_xss_fuzzer_browser.py:37-40 | A payload found in no attribute, no tag text and not in the document text gets exactly `["Unknown"]`. |
| Fuzzer.ValidTarget | smart_xss_fuzzer_browser.py:96 | The format check of `main`: the target contains both `?` and `=`. Fuzzer.Run states that `main` stops exactly when it fails. |
| Fuzzer.IsPayloadExecutedInBrowser | smart_xss_fuzzer_browser.py:42-62 | Returns `executed == True` exactly after an alert, together with the alert's text. Without an alert it returns `(False, None)` exactly when there is no alert, and after a `WebDriverException` it returns the exception's message. Any other failure escapes. |
| Fuzzer.FateOf | smart_xss_fuzzer_browser.py:73-90 | A failed request fails the payload. An answer gives the payload its contexts, and it counts as reflected exactly when it occurs in the answer's text. Only a reflected payload is checked in the browser. |
| Fuzzer.PrefixStep | smart_xss_fuzzer_browser.py:69-90 | Handling payload `n` appends its entries to the three lists and changes nothing else. |
| Fuzzer.FuzzOne | smart_xss_fuzzer_browser.py:70-90 | One pass of the loop body appends exactly the entries of the payload's fate. |
| Fuzzer.Expected | smart_xss_fuzzer_browser.py:64-92 | The three lists: each payload's entries, by its fate, in input order. Fuzzer.FuzzAndAnalyze is proved equal to it. Fuzzer.FateOfPayload, Fuzzer.PassedAreReflected, Fuzzer.ExecutionsConfirmed, Fuzzer.BlockedExplained, Fuzzer.ExecutedArePassed and Fuzzer.ListsKeepOrder state its properties. |
| Fuzzer.FuzzAndAnalyze | smart_xss_fuzzer_browser.py:64-92 | The loop returns exactly `Expected`. |
| Fuzzer.Run | smart_xss_fuzzer_browser.py:94-108 | `main` stops exactly when the stripped target lacks `?` or `=`. Otherwise it fuzzes the generated payloads of the three filtered wordlists. |
| Fuzzer.ExecutedArePassed | smart_xss_fuzzer_browser.py:77-84 | The executions, read as `(payload, context)`, are a subsequence of `passed`. |
| Fuzzer.FateOfPayload | smart_xss_fuzzer_browser.py:73-90 | Case by case: a failed request gives `blocked` with `["Error"]`. An answer without the payload gives `blocked` with its context. A reflected payload gives `passed`; an alert adds an execution with the alert's text, and an escaped browser failure adds `blocked` with `["Error"]`. |
| Fuzzer.PassedAreReflected | smart_xss_fuzzer_browser.py:77-79 | Every passed payload occurs in the text of its answer, with that answer's contexts. |
| Fuzzer.ExecutionsConfirmed | smart_xss_fuzzer_browser.py:81-84 | Every execution was reflected, and the browser showed an alert with exactly its text. |
| Fuzzer.BlockedExplained | smart_xss_fuzzer_browser.py:85-90 | A blocked entry tagged `["Error"]` is a failed request or an escaped browser failure. Any other blocked entry is a payload absent from its answer's text, listed with that answer's contexts. |
| Fuzzer.PassedBlockedPartition | smart_xss_fuzzer_browser.py:73-90 | When no browser check escapes, every payload lands in exactly one of `passed` and `blocked`: the lengths and the payload multisets add up. |
| Fuzzer.ListsKeepOrder | smart_xss_fuzzer_browser.py:79-90 | `passed` and `blocked` list their payloads in input order. |
| Fuzzer.RequestFailureIsolated | smart_xss_fuzzer_browser.py:88-90 | A failed request decides the payload without the parser or the browser. It is blocked with `["Error"]` and neither passed nor executed. |

## Left out

- Network I/O: `requests.get`, its headers and `timeout=5` are the `Fetch` oracle. Its outcome is a status and body, a `RequestException`, or some other exception.
- Browser automation: the Chrome options, `driver.get`, `time.sleep(2)`, accepting the alert and `driver.quit` are the browser oracle and its four outcomes. Whether the driver is shut down on every path is not modelled.
- HTML parsing: BeautifulSoup is the `parse` oracle. A `Document` lists the tags in tree order with their attributes and text, plus the document's text. The parser is total in the model, so an exception raised while parsing is not modelled.
- Context.AsList: Python lists a set in hash order, which varies between runs. The model uses the fixed order Attribute, ScriptBlock, Href/URL, TextContent; every property about contexts holds for any order.
- File handling, `input()` and every `print`: files are the sequences of lines their iterator yields, and the target is the string `input()` returns. Neither script's report output is modelled.
- `generate_payloads` is a generator; the model is the finite list `list(...)` makes of it.
- UrlQuote.Quote: a Dafny `char` is a Unicode scalar value. The `UnicodeEncodeError` that `quote` raises on a lone surrogate is therefore not modelled.
- Exceptions that `except Exception` does not catch (`KeyboardInterrupt`, `SystemExit`) are not modelled.
- Cloudflare.VerdictUnique: assumes distinct payloads. With duplicates, value membership cannot say which copy went where; Cloudflare.SweepPartition states the general case with multisets.
- Fuzzer.PassedBlockedPartition: assumes no browser check escapes. A payload whose check escapes is listed in both `passed` and `blocked`, as Fuzzer.FateOfPayload states.
