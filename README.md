# ProxyChecker: a Dafny model of the proxy checking logic

ProxyChecker is one Python script, `run.py`. It reads a list of proxy addresses
from a text file, one per line. It probes each proxy with an HTTP request sent
through it. It then appends the proxy to `aktif.txt` if the probe worked, or to
`dead.txt` if it did not. A working proxy's visible IP is also classified as
Datacenter, Residential or Unknown. The rule is whether the organisation that
an IP-information service reports contains "AS".

This project models the decision logic behind that plumbing. The HTTP calls
become oracle parameters, and the files become strings and sequences of strings.

- `wrappers.dfy`: module `Wrappers` (an `Option` type).
- `json.dfy`: module `Json`, the parsed form of a JSON document (`Value`).
  Python's `json` turns objects into dicts, so an object is a `map`, and the
  last of any duplicate keys wins.
- `lines.dfy`: module `Lines`, which models `load_proxies`. It has three parts:
  - Opening the file in text mode turns `"\r\n"` and a lone `"\r"` into `"\n"`
    (`TranslateNewlines`).
  - `readlines()` splits the text after each `"\n"` (`ReadLines`).
  - Each line is trimmed with `str.strip()` (`Strip`), using the exact set of
    characters for which Python's `str.isspace()` holds (`Whitespace`).
    Like CPython's scan, `Strip` moves a left index forward past whitespace and
    then a right index back.
- `classifier.dfy`: module `Classifier`, which models `get_proxy_type`.
  - The lookup's result is a `Lookup`: either an exception, or the parsed body.
  - `Org` is the definition of `data.get("org", "")` (run.py:22). What it
    means for the result is stated by `GetProxyType` and
    `MissingOrgIsResidential`.
  - `"AS" in org` is modelled with Python's meaning for each JSON type: a
    substring test on a string, element equality on a list, and key
    membership on a dict. On null, a boolean or a number it raises `TypeError`.
- `prober.dfy`: module `Prober`, which models `test_proxy`. What the probe
  request did is a `Probe`: a `RequestException`, another exception, or a
  response with its status and its parsed body.
- `checker.dfy`: module `Checker`, which models `save_proxy_to_file` and
  `check_proxies`.
  - Class `ProxyFiles` holds the two output files. Each is the sequence of
    strings written to it, and the file's text is their concatenation.
  - `Lines.Records` is the definition of what `file.write(proxy + '\n')`
    (run.py:62) writes for a sequence of proxies. What that text reads back
    as is stated by `Lines.RecordsReadBack` and `Lines.ReloadRecords`.
  - `CheckAll` is the `for` loop. It is proved against the specification
    functions `Reached` (how far a run gets) and `Selected` (the proxies
    routed to one output).

Some behaviours of run.py are easy to misread; the model follows the code:

- A lookup body without an `"org"` entry gives Residential, not Unknown, because
  of the default `""` at run.py:22.
- A list or dict `"org"` value does not make `in` raise. Only null, booleans
  and numbers do.
- Empty lines are kept as `""` entries.
- A run is not always carried to the end. A 200 response whose JSON is not an
  object with an `"origin"` key raises `KeyError` or `TypeError` at
  run.py:47. The `except RequestException` clause does not catch these, so
  the run stops at that proxy (`RunOutcome.Aborted`).
- A 200 response whose body is not JSON makes `response.json()` raise
  requests' `JSONDecodeError`. Since requests 2.27 that class inherits from
  `RequestException`, so the model maps it to `(False, "Unknown")`.

## Model

| member | source | states |
|---|---|---|
| `Lines.Strip` | run.py:13 | the stripped line is a contiguous piece of the line; only whitespace lies outside it, and it neither starts nor ends with whitespace |
| `Lines.TrimIsStrip` | run.py:13 | any piece of a line with those properties equals `Strip` of the line, so `str.strip()` is fully determined by them |
| `Lines.StripClean` | run.py:13 | a string with no whitespace at its ends is unchanged by stripping |
| `Lines.StripIdempotent` | run.py:13 | stripping twice gives the same result as stripping once |
| `Lines.StripDropsAppendedSpace` | run.py:13 | a clean string followed by one whitespace character (the written `"\n"`) strips back to itself |
| `Lines.TranslateNewlines` | run.py:11 | text-mode reading leaves text without `"\r"` unchanged |
| `Lines.TranslateRemovesReturns` | run.py:11 | no `"\r"` is left after text-mode reading |
| `Lines.TranslateLeadingReturn` | run.py:11 | a `"\r"` at the start becomes `"\n"`, and a `"\n"` right after it is absorbed into that one line break |
| `Lines.TranslateFirstReturn` | run.py:11 | the text before the first `"\r"` is kept, that `"\r"` (with a `"\n"` right after it) becomes one `"\n"`, and the rest is translated in turn; with the previous rows this fixes the translation of every text |
| `Lines.TranslateCrLf` | run.py:11 | a line ended by `"\r\n"` is read as if ended by `"\n"` |
| `Lines.TranslateLastCr` | run.py:11 | a last line ended by a lone `"\r"` is read as if ended by `"\n"` |
| `Lines.TranslateMixedEndings` | run.py:11 | two lines ended by `"\r\n"` and by `"\r"` are read as two lines ended by `"\n"` |
| `Lines.ReadLines` | run.py:12 | the lines concatenate back to the text; each is non-empty and has `"\n"` at most as its last character; every line but the last ends in `"\n"` |
| `Lines.LineSplitUnique` | run.py:12 | any split of the text with those properties is the one `readlines()` returns |
| `Lines.LineCount` | run.py:12 | the number of lines is the number of `"\n"`, plus one for a last line without `"\n"` |
| `Lines.FileLines` | run.py:11-12 | the lines `readlines()` returns are a line split of the translated text, and none of them holds a `"\r"` |
| `Lines.LoadProxies` | run.py:9-13 | one entry per line in file order, empty lines included; each entry is the line trimmed at both ends |
| `Lines.TrimmedLineClean` | run.py:12-13 | a trimmed line has no whitespace at its ends and no `"\n"` or `"\r"` anywhere, so the kept `"\n"` is always removed (other Unicode line separators inside a line are kept) |
| `Lines.LoadedClean` | run.py:9-13 | every loaded proxy is clean (no edge whitespace, no `"\n"`, no `"\r"`) |
| `Lines.CarriageReturnsLoadAlike` | run.py:9-13 | two clean proxies ended by `"\r\n"` and by a lone `"\r"` load as exactly those two proxies, as with `"\n"` endings |
| `Lines.RecordsReadBack` | run.py:61-62 | the records written for clean proxies are a line split of the written text, and `readlines()` on that text returns exactly those records |
| `Lines.ReloadRecords` | run.py:61-62 | loading a file of clean proxies, each written with its `"\n"`, gives back exactly those proxies in order |
| `Classifier.ContainsSubCorrect` | run.py:23 | the substring search that `in` performs on strings answers true exactly when the needle occurs at some index of the string |
| `Classifier.In` | run.py:23 | Python's `in` raises (`None`) exactly when the container is not a string, list or dict; it is True on a string exactly when the needle occurs in it at some index, on a list exactly when some element is that string, and on a dict exactly when it is a key |
| `Classifier.InMentionsAS` | run.py:23 | `"AS" in org` is True exactly when the value mentions "AS" (substring, list element or dict key), and raises exactly on null, booleans and numbers |
| `Classifier.GetProxyType` | run.py:15-29 | Unknown exactly when a step raises (failed request, body not JSON or not an object, org a non-string scalar); Datacenter exactly when nothing raises and the organisation (default `""`) mentions "AS"; Residential otherwise |
| `Classifier.OrgStringRule` | run.py:22-26 | with a string organisation, Datacenter if "AS" occurs in it and Residential if it does not |
| `Classifier.MissingOrgIsResidential` | run.py:22 | a body without `"org"` gives Residential |
| `Prober.TestProxy` | run.py:31-56 | active exactly for a 200 response whose JSON object has `"origin"`, and then the type is `get_proxy_type` of the origin; every caught failure (`RequestException`, non-200 status, body not JSON) is exactly `(False, Unknown)`; raises exactly on other exceptions and on a 200 body without an origin |
| `Prober.LookupCannotChangeLiveness` | run.py:45-50 | whether `test_proxy` raises and whether it reports the proxy active do not depend on the classification lookup |
| `Prober.LookupFailureKeepsActive` | run.py:27-29 | a failed classification lookup leaves a working proxy active, with type Unknown |
| `Checker.Reached` | run.py:67-69 | the number of proxies a run gets through is the index of the first probe that raises, or all of them |
| `Checker.SelectedMembers` | run.py:70-73 | a proxy is in an output exactly when it is in the input and its probe result routes it there |
| `Checker.RunInterleaves` | run.py:67-73 | when no probe raises, the input is an order-preserving interleaving of the active and the dead outputs |
| `Checker.InterleavingCounts` | run.py:67-73 | an interleaving loses and duplicates nothing: the lengths add up and the multisets add up |
| `Checker.RunPartition` | run.py:67-73 | the part of the input a run gets through is split between the two outputs with lengths and multisets adding up |
| `Checker.RoutingByProbe` | run.py:45-56 | a reached proxy whose probe answers 200 with an origin goes to the active output only; one with a network error, another status or an unreadable body goes to the dead output only |
| `Checker.LookupCannotChangeRun` | run.py:48 | the classification oracle changes neither where a run stops nor what either output receives |
| `Checker.OutputReloads` | run.py:61-62 | an output file that started empty, loaded again with `load_proxies`, gives exactly the proxies written to it, in order |
| `Checker.ProxyFiles.constructor` | run.py:61 | the files start with whatever they already hold (append mode) |
| `Checker.ProxyFiles.SaveProxyToFile` | run.py:58-62 | appends `proxy + "\n"` to the active file when `is_active` holds and to the dead file otherwise; the other file is unchanged |
| `Checker.ProxyFiles.CheckProxies` | run.py:64-66 | a run on the file's text: the outcome and both files are as `CheckAll` states for the loaded proxies |
| `Checker.ProxyFiles.CheckAll` | run.py:67-73 | the loop: completes exactly when no probe raises, otherwise stops at the first one that does; each file becomes its old content followed by the records of the proxies reached and routed to it, in input order |
| `Checker.CheckTwice` | run.py:61 | two runs on the same input, each with its own network answers, starting from empty files: each file holds the first run's records followed by the second run's |
| `Checker.ExampleLoad` | run.py:9-13 | the file `"http://1.2.3.4:8080\n"` loads as that one proxy |
| `Checker.ExampleRun` | run.py:42-50 | with origin 5.6.7.8 and organisation "AS1234 Some ISP", that proxy is active, of type Datacenter, and is the one line written to the active file |

## Left out

- HTTP requests are not modelled (run.py:19, 37-44). The test URL, the 5-second timeout and the `proxies` dictionary are left out with them. What the probe request and the IP lookup did are oracle parameters (`probe`, `lookup`).
- The oracles are functions of their argument. A proxy listed twice is probed twice in Python and may get two different answers; the model gives it the same answer both times.
- The `{ip}` in the lookup URL is the origin value formatted with `str()`. The model passes the origin value itself to the lookup oracle. Two values that format alike (the string `"1"` and the number `1`) reach the same URL in Python but may get different answers in the model; every lookup answer Python can see is still one the model allows.
- Logging is left out (run.py:6-7, 28, 49, 52, 55, 68). It has no effect on results.
- Opening, creating and closing files is not modelled, nor is the error when the input file cannot be opened (run.py:11, 61). Decoding the file's bytes into text is also left out, and so is the encoding on writing: text mode writes each `"\n"` as the platform's line separator (`"\r\n"` on Windows), while the model writes `"\n"`. The input is the decoded text, and each output is the sequence of strings written to it.
- JSON parsing is not modelled: only its result (`Json.Value`, or `None` when the body is not JSON). A number is kept as the text `str()` gives for it, which is what run.py:19 puts into the lookup URL; its numeric value is not modelled, because run.py does nothing else with it.
- Behaviour that depends on the requests version is not modelled. Before requests 2.27, a 200 response with a non-JSON body raised an exception that `except RequestException` did not catch. The model follows 2.27 and later.
- The module-level call with the hard-coded path `proxies.txt` is left out (run.py:76-77).
