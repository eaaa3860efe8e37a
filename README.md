# Crawler decision core, modelled in Dafny

This project models the decision logic of a crawler that learns to scrape a shop from a recorded browser session (a HAR file). It has four parts:

- **Strategy selection** (`strategy_selector.dfy`). It finds the main HTML page and the site's registrable domain, and normalises price tokens. It filters recorded requests absolutely and scores the rest on a 0–100 scale. The best candidate becomes an API strategy if it scores at least 60. Otherwise it scans HTML pages for server-side-rendering markers (Next.js, Shopify, generic data layers) and falls back to the largest HTML page. `select` combines these steps.
- **Structural path discovery** (`processor.dfy`).
  - A walk over a JSON document reports, as a `PATH:` line, every non-empty list reached from the root through dict values and first list elements, at most 7 such steps down. A `KEYS:` line follows whenever the list's first element is a dict.
  - A resolver never raises. It walks a reported path back to its value when no key contains `.` or `[` or ends in `root`, and no `[0]` directly follows another `[0]`.
  - A path is chosen by the score "length, +1000 for a business keyword, −500 for a short list". The first element of the chosen list becomes the sample.
- **Request context and skeleton sample** (`api_runner.dfy`). It derives the replay context:
  - the URL without its query;
  - the kept headers;
  - the query parameters.

  The JSON body is pruned to a skeleton: one element per list, nodes below depth 15 become `"..."`. The serialised skeleton is cut to 8000 characters, and a body that is not JSON is cut to 4000.
- **Project name** (`config.dfy`). The task directory is named after the host: a leading `www.` is removed, then a leading `shop.`, and the text is cut at the first dot. The fallback is `default_task`.

The shared modules are:

- `wrappers.dfy`: `Option`.
- `text.dfy`: Python's string operations as the core uses them (`in`, `split`, `join`, `replace`, `lower`, `endswith`, `int()`).
- `json.dfy`: a JSON value with ordered dict members.
- `har.dfy`: a HAR entry reduced to the fields that are read.

Where the code stays imperative, the model does too:

- The walk appends to a shared report held by the `Processor.VitalsReport` class.
- The resolver, the best-path loop, the longest-page loop, the price-token loop, the candidate loop and the marker scan are methods with loops. Each is proved equal to a specification function, and the source's promises are proved about those functions as lemmas.
- `main_domain` is a field of `StrategySelector.Selector`, which `ExtractHtmlInfo` and `Select` update.

Python's `None` is `Option.None`. A JSON `null` read with `dict.get` is also `None`, because the resolver cannot tell the two apart. Python dicts have distinct keys, so the proofs that need this take `ValidJson`.

## Model

| member | source | states |
|---|---|---|
| Config.StripHostPrefixes | config.py:17-20 | A leading `www.` is removed at most once, then a leading `shop.` at most once, in that order. The four prefix cases are given separately, and the result is a suffix of the host. |
| Config.StripPrefix | config.py:17-20 | `startswith` then slicing: with the prefix, the result is what follows it; without it, the string is unchanged. |
| Config.ProjectName | config.py:13-25 | The name is never empty and has no `.`. It is the text before the first `.` of the stripped host, with no lower-casing, or `default_task` when that text is empty or when `urlparse` fails. A non-default name occurs in the netloc. |
| Config.FirstLabelInHost | config.py:16-22 | The label before the first dot of the stripped host is a prefix of it, ends at a `.` or at the end, and occurs in the host. |
| Config.WwwStrippedOnce | config.py:17-18 | `www.www.example.com` gives `www`: the `www.` prefix is removed only once. |
| Config.ShopBeforeWwwKept | config.py:17-20 | `shop.www.example.com` gives `www`: `shop.` is looked for only after `www.`. |
| ApiRunner.PairMap | api_runner.py:25 | The params dict has exactly the query-string names as keys. |
| ApiRunner.PairMapLastWins | api_runner.py:25 | A repeated parameter name maps to the value of its last occurrence. |
| ApiRunner.KeepsHeader | api_runner.py:18-20 | A header is kept exactly when its name does not start with `:` and its lower-cased name is none of the five dropped names. |
| ApiRunner.HeaderMap | api_runner.py:18-20 | No kept header starts with `:`, and none has a lower-cased name among content-length, host, connection, accept-encoding and content-type. Every other name that occurs is kept. |
| ApiRunner.HeaderMapLastWins | api_runner.py:18-20 | For a repeated kept header name, the last value wins. |
| ApiRunner.LastWithName | api_runner.py:18-25 | Item `i` is the last one with its name: no later header or parameter repeats it, so the dict comprehension keeps its value. |
| ApiRunner.UrlWithoutQuery | api_runner.py:23 | The result is a prefix of the URL with no `?`, ending where the first `?` is. |
| ApiRunner.ContextOf | api_runner.py:22-27 | The context has the cut URL, exactly the kept headers, exactly the parameter names, and the request method. |
| ApiRunner.Prune | api_runner.py:32-43 | No list in the output has more than one element. A node below depth 15 becomes `"..."`. A scalar is kept. A dict keeps its keys in order. A list keeps 0 or 1 elements, according to whether it was empty. |
| ApiRunner.PruneSpine | api_runner.py:32-43 | Any node that a path of `.k` and `[0]` steps reaches, at depth `d` of at most 16, is reached by the same path in the skeleton, and there it is that node pruned at depth `d`. So each list keeps its pruned first element and each dict the pruned values of its keys. A scalar at depth 15 or less survives unchanged. |
| ApiRunner.LookupPruned | api_runner.py:35-36 | The pruned dict has under each key the pruned value the original has there, and no value for a key the original lacks. |
| ApiRunner.PruneChild | api_runner.py:35-40 | One `.k` or `[0]` step below a pruned node reaches the pruned child the step reaches in the original. |
| ApiRunner.PruneIdempotent | api_runner.py:32-43 | Pruning a pruned document changes nothing. |
| ApiRunner.PruneHeight | api_runner.py:32-43 | The skeleton is at most 16 levels deep, less the starting depth. |
| ApiRunner.Sample | api_runner.py:45-61 | For a JSON body, the result is the prefix of the serialised skeleton of length min(8000, its length), so it is unchanged when within budget. For any other body, it is the prefix of the raw text of length min(4000, its length). |
| ApiRunner.ContextAndSample | api_runner.py:15-63 | The context URL has no query and only kept headers. The sample has at most 8000 characters and is a prefix of the skeleton text, or of the raw text when the body is not JSON. |
| Processor.VitalsReport.Walk | processor.py:16-26 | `walk` appends exactly the lines of `WalkSpec`: nothing below depth 7, a non-empty list reported and entered through element 0, every dict- or list-valued member of a dict entered in order, and nothing for a scalar. |
| Processor.VitalsReport.WalkItems | processor.py:24-26 | The loop over a dict's items appends exactly the lines of `WalkMembers`: the walks into its dict- and list-valued members, in member order. |
| Processor.WalkSpec | processor.py:16-26 | The lines `walk(obj, path, depth)` appends. Beyond depth 7 there are none. A non-empty list gives its head lines, then the walk of its first element one step deeper. A dict gives the walks of its members. A scalar gives none. |
| Processor.WalkMembers | processor.py:25-26 | The lines of the `for k, v in obj.items()` loop. They are the walks into the dict- and list-valued members, with path `.k` and one level deeper, in member order. |
| Processor.ListHead | processor.py:18-22 | A non-empty list gets its PATH line, followed by a KEYS line exactly when its first element is a dict. |
| Processor.AnalyzeJsonVitals | processor.py:13-29 | The vitals text is the newline-joined text of the walk's lines from the root. |
| Processor.KeyListText | processor.py:21-22 | The text of a KEYS line: the keys quoted and comma-separated inside brackets. |
| Processor.LineText | processor.py:19-22 | The text of one line: `PATH: <path> \| TYPE: List \| LEN: <n>`, or `  -> KEYS: <keys>`. |
| Processor.ReportText | processor.py:29 | The lines joined with newlines. |
| Processor.KeysSample | processor.py:21 | The KEYS line lists exactly the first 15 keys of the dict in their order, or all of them when there are fewer. |
| Processor.WalkReported | processor.py:16-26 | A walk started at the node a path designates reports only true facts. Each PATH line names a non-empty list of the reported length, at most 7 steps deep. A KEYS line follows exactly when the first element is a dict, and it lists that dict's first keys. |
| Processor.WalkMembersReported | processor.py:24-26 | The same holds for the walks over any prefix of a dict's members. |
| Processor.VitalsReported | processor.py:13-29 | The whole report of a document is true of it in that sense, and it starts with a PATH line. |
| Processor.WalkComplete | processor.py:16-26 | Nothing within reach is missed. A non-empty list that a path of `.k` and `[0]` steps leads to from the walked node gets its PATH line, with the full path. This needs the list to be at most 7 levels down. |
| Processor.WalkMembersContains | processor.py:25-26 | Every line that the walk into a dict- or list-valued member reports is among the lines of the dict loop. |
| Processor.VitalsComplete | processor.py:13-29 | Every non-empty list that a path of `.k` and `[0]` steps, at most 7 long, reaches from the root is reported with its path and its length. |
| Processor.ReportedAppend | processor.py:19-26 | Two true reports stay true when concatenated. |
| Processor.SegText | processor.py:16-26 | A step prints as `.k` for key `k` (`f"{path}.{k}"`) and as `[0]` for the first list element (`f"{path}[0]"`). |
| Processor.SegsText | processor.py:16-26 | A path's steps print one after another, in order. |
| Processor.PathText | processor.py:16-26 | A path prints as `root` followed by its steps, as the walk builds it from `path="root"`. |
| Processor.NodeAtSnoc | processor.py:23-26 | Extending a path by `[0]` or `.k` steps from the node it designates. |
| Processor.PyValue | processor.py:38-44 | `dict.get` gives `None` exactly for a JSON `null`, and the value otherwise. |
| Processor.PathParts | processor.py:32 | `path.replace('root.', '').split('.')` always has at least one part. |
| Processor.Get | processor.py:38-44 | `dict.get(k)`: the value under `k`, with a missing key and a JSON `null` both read as `None`. |
| Processor.IndexInto | processor.py:40 | `list[n]` with Python's negative indices, `None` where Python raises `IndexError`. |
| Processor.Step | processor.py:36-44 | One iteration of the resolver loop on one part. A part with `[` must split into exactly a name and an index. The name is looked up only in a dict. The index applies only to a non-empty list longer than it, and an index that `int` refuses gives `None`. A part without `[` is looked up in a dict, and gives `None` on anything else. |
| Processor.ResolveParts | processor.py:35-45 | The loop over the parts: each part is applied to the current value in turn. |
| Processor.Resolve | processor.py:31-47 | `_get_value_by_path`: the parts of the path applied from the document. |
| Processor.GetValueByPath | processor.py:31-47 | The resolver loop returns `Resolve(data, path)`, returning `None` early on a malformed part or a failed index. |
| Processor.ResolveFromNone | processor.py:38-44 | Once the current value is `None`, the remaining parts keep it `None`. |
| Processor.DoubleBracketFails | processor.py:36-47 | A part with two brackets, such as `a[0][0]`, makes the whole path resolve to `None`. |
| Processor.StepFailures | processor.py:36-44 | A part fails on a missing key and on a non-dict value. A part with `[` fails on a dict without the name, on a name whose value is `null`, not a list or an empty list, on an index that `int` refuses, and on an index outside the list (`n` at least the length or below minus the length), whether the list is the current value or the value under the name. |
| Processor.ResolveRoundTrip | processor.py:31-45 | Resolving the text of a walk-style path gives back the node it designates. `null` reads as `None`. This holds when no key contains `.` or `[` or ends in `root`, and no `[0]` directly follows another `[0]`. |
| Processor.ReportedPathsResolve | processor.py:13-45 | Every PATH line of the report whose path meets those conditions resolves to a list of exactly the reported length. |
| Processor.ResolveName | processor.py:32-44 | A path without `.` or `[` is looked up as a top-level key, or gives `None` when the document is not a dict. |
| Processor.FallbackLooksUpRootKey | processor.py:71-74 | The fallback path `root` looks up the key `"root"` of the top-level dict; it does not give the document itself. |
| Processor.NonSpaceRun | processor.py:50 | `\S+` takes the maximal run of non-whitespace characters. |
| Processor.PathMatchAt | processor.py:50 | `PATH: (root\S+)` matches at a position: `PATH: root` occurs there and a non-whitespace character follows. |
| Processor.IsPathCapture | processor.py:50 | A capture of `PATH: (root\S+)` starts with `root`, has at least one more character and contains no whitespace. |
| Processor.FindPathsFrom | processor.py:50 | Each capture of `PATH: (root\S+)` starts with `root`, has at least one more character, contains no whitespace, and occurs after `PATH: ` in the text. |
| Processor.CaptureFacts | processor.py:50 | A match at a position yields a well-formed capture that occurs in the text. |
| Processor.FindPaths | processor.py:50 | Every path considered has at least one character after `root`, so the bare root (a top-level list) is never a candidate. |
| Processor.ListScore | processor.py:58-64 | The score of a list: its length, plus 1000 when the lower-cased text of its first element contains a business keyword, minus 500 when it has fewer than 5 elements. |
| Processor.PathScore | processor.py:55-56 | A path has a score exactly when it resolves to a non-empty list. |
| Processor.BestOf | processor.py:51-67 | The loop over the scored paths, starting from `root` and −1. A path whose score is strictly higher than the current one replaces the choice. |
| Processor.BestPath | processor.py:50-67 | The choice among the report's paths with their `PathScore`s. |
| Processor.BestOfWins | processor.py:51-67 | With strict `>` starting from −1, the choice is the first path with the highest score if that score is at least 0. Otherwise it stays `root` with −1. |
| Processor.NewWinner | processor.py:65-67 | A path that beats the current best is the first maximal path so far. |
| Processor.KeptChoice | processor.py:65 | A path that does not beat the current best leaves the choice correct. |
| Processor.ScoresOf | processor.py:54-64 | The scores of the paths, in order: each is the path's `PathScore`. |
| Processor.BestPathWins | processor.py:50-67 | The chosen path is the first path that resolves to a non-empty list with the highest non-negative score. If there is none, it is `root` with −1. |
| Processor.ShortPlainListLoses | processor.py:58-64 | A list shorter than 5 with no business keyword is never chosen. |
| Processor.LongerListScoresHigher | processor.py:58-64 | With the same keyword verdict and both lengths at least 5, the longer list scores higher. |
| Processor.KeywordListScoresHigher | processor.py:58-64 | A keyword list of 5 or more beats a keyword-free list of fewer than 1005. |
| Processor.ScorePath | processor.py:55-64 | The loop body's score of a path is its `PathScore`: none when the path does not resolve to a non-empty list. |
| Processor.ScorePaths | processor.py:51-67 | The scoring loop, starting from `root` and −1, returns `BestPath` of the paths. |
| Processor.BestOfStep | processor.py:65-67 | One more path replaces the current choice only when it has a score strictly above the current one. |
| Processor.ChooseCorePath | processor.py:50-75 | The scoring loop returns `BestPath` of the report's paths. The sample is the resolved target's first element (`[:1]`) when the target is a list, and `Not Found` otherwise. |
| StrategySelector.DomainOf | strategy_selector.py:38-45 | The full host is the lower-cased netloc and the main domain is its registrable part. A failed parse gives `("", "")`. |
| StrategySelector.Registrable | strategy_selector.py:42-43 | A host without a dot is its own domain. Otherwise the domain is a suffix of the host that splits into exactly its last two labels. |
| StrategySelector.LastLabels | strategy_selector.py:42-43 | A host with a dot has at least two labels, and the join of the last two is a suffix of it with exactly those labels. |
| StrategySelector.IsHtml | strategy_selector.py:54-56 | An entry is HTML when `html` occurs in its lower-cased mime type. |
| StrategySelector.UrlOf | strategy_selector.py:94 | The candidate URL is the request URL lower-cased. |
| StrategySelector.RegistrableOfLabels | strategy_selector.py:42-43 | For a host written as two or more dot-free labels, the domain is the join of the last two. |
| StrategySelector.LongestHtml | strategy_selector.py:52-58 | The index the keep-the-longest loop settles on lies within the entries. |
| StrategySelector.LongestHtmlIsLongest | strategy_selector.py:52-60 | The main page is an HTML entry with non-empty text. No HTML entry is longer, and every earlier one is shorter, so the first wins ties. There is none exactly when no HTML entry has text. |
| StrategySelector.FindLongestHtml | strategy_selector.py:52-58 | The loop with `max_len` starting at 0 returns `LongestHtml`. |
| StrategySelector.Normalise | strategy_selector.py:71 | A normalised token contains only digits and dots (commas are dropped) and is no longer than the match. A single character is kept exactly when it is a digit or a dot. |
| StrategySelector.NormaliseKeeps | strategy_selector.py:71 | A string of digits and dots is left unchanged. |
| StrategySelector.NormaliseIdempotent | strategy_selector.py:71 | Normalising twice is the same as normalising once. |
| StrategySelector.NormaliseConcat | strategy_selector.py:71 | Normalising works one character at a time: the normalised text of a concatenation is the concatenation of the normalised parts. |
| StrategySelector.PriceTokens | strategy_selector.py:69-72 | The set of price tokens: the normalised matches that have at least 3 characters. |
| StrategySelector.PriceTokensShape | strategy_selector.py:71-72 | Every price token has at least 3 characters, all digits or dots. |
| StrategySelector.PriceTokensSnoc | strategy_selector.py:70-72 | One more match adds its normalised text to the tokens exactly when that text has at least 3 characters. |
| StrategySelector.CollectPriceTokens | strategy_selector.py:69-72 | The adding loop collects exactly the normalised matches of length at least 3. |
| StrategySelector.Excluded | strategy_selector.py:102-108 | The absolute filters. An entry is dropped when its text is shorter than 1000, when its URL before `?` ends in a static extension, when it is HTML, or when its URL contains a blacklisted domain or key. |
| StrategySelector.SizeKb | strategy_selector.py:98 | The size in KB is the length of the text divided by 1024. |
| StrategySelector.SizeBonus | strategy_selector.py:130 | The size bonus lies in [0, 20]. |
| StrategySelector.DomainBonus | strategy_selector.py:116-119 | 10 points when a main domain is set, non-empty and equal to the entry's registrable domain. A further 5 when the host contains `api` or the URL contains `graphql`. |
| StrategySelector.RawScore | strategy_selector.py:110-136 | The sum of the points: json mime +15, domain points, a white key +30, a trap key −40, a paging key +15, `categories` without `products` −25, the size bonus, and +25 when some price token occurs in the text. |
| StrategySelector.DomainBonusCases | strategy_selector.py:117-119 | There are no domain points without a main domain. The bonus is 0, 10 or 15. 15 requires an `api` host or a `graphql` URL, and any points require a domain match. |
| StrategySelector.Clamp | strategy_selector.py:138 | The final score lies in [0, 100]: a negative raw score becomes 0, one above 100 becomes 100, one in range is unchanged. |
| StrategySelector.Score | strategy_selector.py:138 | The final score is the clamped raw score. |
| StrategySelector.RawScoreRange | strategy_selector.py:111-136 | The unclamped score lies in [−65, 120]. |
| StrategySelector.Qualifies | strategy_selector.py:101-141 | An entry becomes a candidate when it passes the absolute filters and its final score is above 40. |
| StrategySelector.Candidates | strategy_selector.py:91-141 | The candidate list: one candidate per qualifying entry, in entry order. |
| StrategySelector.CandidateOf | strategy_selector.py:141 | A candidate keeps the entry, its final score, its lower-cased URL and its size in KB. |
| StrategySelector.CandidatesExact | strategy_selector.py:93-141 | Candidates are exactly the entries that pass the absolute filters (text of at least 1000 characters, no static extension before `?`, no `html` mime, no blacklisted domain or key in the URL) and score above 40. |
| StrategySelector.QualifyingMask | strategy_selector.py:101-141 | Position by position, whether the entry qualifies. |
| StrategySelector.Picks | strategy_selector.py:93-141 | The qualifying positions, strictly increasing, and every qualifying position among them. |
| StrategySelector.CandidatesPicks | strategy_selector.py:93-141 | The `c`-th candidate is made from the entry at the `c`-th qualifying position. |
| StrategySelector.PicksBefore | strategy_selector.py:93-141 | A qualifying position before the `m`-th one is among the first `m`. |
| StrategySelector.FirstMax | strategy_selector.py:144 | The index of the first candidate with the highest score. |
| StrategySelector.StableSortHead | strategy_selector.py:144-152 | After any stable sort of the candidates by descending score, the head is the first candidate with the highest score. |
| StrategySelector.Fingerprint | strategy_selector.py:143-153 | A returned candidate scores at least 60. |
| StrategySelector.FingerprintChoice | strategy_selector.py:93-153 | The scorer returns a candidate exactly when some entry qualifies with a score of at least 60. That candidate is a qualifying entry with the highest score, and every qualifying entry before it scores strictly less, so the stable sort's tie-break picks the earliest. |
| StrategySelector.FirstQualifyingWins | strategy_selector.py:144-152 | The candidate that no earlier candidate matches in score comes from an entry that no earlier qualifying entry matches in score. |
| StrategySelector.Selector.AnalyzeFingerprint | strategy_selector.py:77-153 | The candidate loop and the head of the sort give `Fingerprint` for the current `main_domain`. |
| StrategySelector.TopCandidate | strategy_selector.py:144-152 | The scan for the head of the sorted candidates returns `FirstMax`. |
| StrategySelector.Marker | strategy_selector.py:165-173 | The markers in the order tested: `__NEXT_DATA__` gives Next.js. `window.Shopify`, or `var meta =` with `product`, gives Shopify. `gapGlobal` or `window.universal_variable` gives generic. |
| StrategySelector.Marked | strategy_selector.py:157-173 | An entry the marker loop returns: HTML, at least 5000 characters of text, and a marker. |
| StrategySelector.FirstMarked | strategy_selector.py:157-173 | It returns the first HTML entry of at least 5000 characters that carries a marker. No earlier entry qualifies, and None means no entry does. |
| StrategySelector.SsrScan | strategy_selector.py:155-188 | `_analyze_ssr_html`: the first marked entry with its mode. Failing that, the largest HTML page in generic mode. Failing that, `None`. |
| StrategySelector.SsrScanCases | strategy_selector.py:155-188 | The scan finds nothing exactly when no HTML entry has text. When no page is marked, the result is the longest HTML page, in generic mode. |
| StrategySelector.AnalyzeSsrHtml | strategy_selector.py:155-188 | The loop with early return tests the markers in the order NEXTJS, SHOPIFY (`window.Shopify`, or `var meta =` with `product`), GENERIC. The fallback loop makes the result `SsrScan`. |
| StrategySelector.MainDomainAfter | strategy_selector.py:60-62 | `main_domain` after `_extract_html_info`: the registrable domain of the main page, or unchanged without one. |
| StrategySelector.HtmlPriceTokens | strategy_selector.py:60-75 | The price tokens of the main page, or the empty set without one. |
| StrategySelector.Decide | strategy_selector.py:190-213 | `select` on the entries: the API strategy when the scorer returns a candidate scoring at least 60. Otherwise the HTML scan's page, and `None` when that finds nothing. |
| StrategySelector.Selector.ExtractHtmlInfo | strategy_selector.py:47-75 | `main_domain` becomes the main page's registrable domain, or is left untouched without a main page. The tokens are those of the main page, or empty without one. |
| StrategySelector.Selector.Select | strategy_selector.py:190-213 | The result is `Decide` on the state before the call, and `main_domain` is updated as by `ExtractHtmlInfo`. |
| StrategySelector.DecideCases | strategy_selector.py:197-213 | `select` returns API exactly when the scorer accepts a candidate. Otherwise it returns the HTML scan's page, and None only when in addition no HTML entry has text. |
| StrategySelector.NoPageNoHints | strategy_selector.py:117-136 | Without any HTML page, scoring runs with no main domain and no price tokens. |
| Text.Split | config.py:22 | `split` never returns an empty list, and no piece contains the separator. A string without the separator splits into itself. |
| Text.SplitJoin | processor.py:32 | Splitting a join of separator-free parts gives the parts back. |
| Text.JoinSplit | strategy_selector.py:42-43 | Joining the pieces of a split gives the string back. |
| Text.Join | processor.py:29 | `sep.join(parts)`: the parts in order with `sep` between neighbours, nothing for no parts. |
| Text.RemoveAllAbsent | processor.py:32 | `replace` of a pattern that does not occur changes nothing. |
| Text.RemoveAll | processor.py:32-40 | `replace(pat, '')`: every non-overlapping occurrence, left to right, is removed. |
| Text.PyInt | processor.py:39-40 | `int()` in base 10: surrounding whitespace, an optional sign, digits in groups separated by single underscores. Anything else is `None`, where Python raises `ValueError`. |
| Text.Lower | strategy_selector.py:54 | `lower()`, character by character, on the ASCII letters. |
| Text.Contains | strategy_selector.py:106-108 | `sub in s`: `sub` occurs at some position of `s`. |
| Text.AnyIn | strategy_selector.py:107-108 | `any(k in s for k in keys)`: some key of the list occurs in `s`. |
| Text.EndsWith | strategy_selector.py:103 | `s.endswith(suffix)`: the last characters of `s` are exactly `suffix`. |
| Text.EndsWithAny | strategy_selector.py:103 | `s.endswith(tuple(suffixes))`: `s` ends with one of the suffixes. |
| Text.NatToString | processor.py:19 | `str(len(obj))`: a non-empty string of decimal digits whose value is the number. |
| Text.TrimLeft | processor.py:39-40 | `lstrip()`, the leading whitespace `int()` ignores: never longer than its input. |
| Text.TrimLeftStrips | processor.py:39-40 | The result of `lstrip()` is a suffix of the input, everything cut off is whitespace, and it does not start with whitespace. |
| Text.TrimRight | processor.py:39-40 | `rstrip()`, the trailing whitespace `int()` ignores: never longer than its input. |
| Text.TrimRightStrips | processor.py:39-40 | The result of `rstrip()` is a prefix of the input, everything cut off is whitespace, and it does not end with whitespace. |
| Json.Lookup | processor.py:38-44 | `get` finds nothing exactly when the key is absent. |

## Left out

- Loading the HAR files (`load_har`), and therefore also `select`'s early `None` when no file loads. The merged entry list is an input.
- BeautifulSoup's text extraction and the currency regular expression. `ExtractHtmlInfo` takes a `scan` function standing for the matches found in the page's text, and the `try` around it is not modelled.
- `urlparse`: each entry carries the parsed netloc, with `None` standing for a parse failure. A port, if any, stays part of the netloc.
- `json.loads`, `json.dumps` and `str()`. The parse outcome is an input, and the two serialisers are function parameters (`dumps`, `render`). `Processor.KeyListText` writes a KEYS line, simplified to quoting each key. The paths of PATH lines are exact.
- `Processor.FindPaths` is stated for any text. The model does not prove which captures a whole report (with arbitrary KEYS text) yields.
- `Text.Lower` folds only ASCII letters. `Text.IsDigit` is ASCII digits only, where Python's `\d` also accepts other Unicode digits.
- Floating point: scores are Dafny `real`s, with no IEEE rounding.
- `StrategySelector.Selector.AnalyzeFingerprint`: the in-place `sort` is replaced by a scan for the sorted list's head. `StrategySelector.StableSortHead` proves that any stable descending sort has that head, and only the head is read. The printed top three are left out.
- A missing `request`, `response` or `content` field (a `KeyError` in the source) is not modelled. Entries always carry these fields, and absent mime types and texts are the empty string.
- All printing, the LLM prompts and calls, code execution, pandas, the Excel export, subprocesses and file writes.
