/**
 * The strategy decision of strategy_selector.py: the main HTML page and the
 * site's registrable domain, the price tokens found on it, the API scorer
 * with its absolute filters, the server-side-rendering marker scan with its
 * largest-page fallback, and `select`, which combines them.
 */
module StrategySelector {
  import opened Wrappers
  import opened Text
  import opened Har

  // ---------------------------------------------------------------------
  // Domains (`_get_domain_info`)
  // ---------------------------------------------------------------------

  /** The registrable domain and the full host of a request. */
  datatype DomainInfo = DomainInfo(main: string, full: string)

  /**
   * `_get_domain_info(url)`, given `urlparse(url).netloc` (`None` where
   * `urlparse` raises): the host lower-cased, and its last two labels.
   */
  function DomainOf(netloc: Option<string>): (r: DomainInfo)
    ensures netloc.None? ==> r == DomainInfo("", "")
    ensures netloc.Some? ==> r.full == Lower(netloc.value) && r.main == Registrable(r.full)
  {
    match netloc
    case None => DomainInfo("", "")
    case Some(n) =>
      var host := Lower(n);
      DomainInfo(Registrable(host), host)
  }

  /**
   * `".".join(parts[-2:]) if len(parts) >= 2 else host`: a host without a dot
   * is its own registrable domain; otherwise it is a suffix of the host made
   * of exactly its last two labels.
   */
  function Registrable(host: string): (main: string)
    ensures '.' !in host ==> main == host
    ensures '.' in host ==>
              var labels := Split(host, '.');
              |labels| >= 2 && EndsWith(host, main) && Split(main, '.') == labels[|labels| - 2..]
  {
    var labels := Split(host, '.');
    LastLabels(host);
    if |labels| >= 2 then Join(labels[|labels| - 2..], ".") else host
  }

  /** The last two labels of a host with a dot: a suffix of it, and exactly those labels. */
  lemma LastLabels(host: string)
    ensures '.' in host ==> |Split(host, '.')| >= 2
    ensures var labels := Split(host, '.');
            |labels| >= 2 ==>
              var main := Join(labels[|labels| - 2..], ".");
              EndsWith(host, main) && Split(main, '.') == labels[|labels| - 2..]
  {
    var labels := Split(host, '.');
    var n := |labels|;
    JoinSplit(host, '.');
    if n >= 2 {
      var main := Join(labels[n - 2..], ".");
      if n > 2 {
        JoinAt(labels, ".", n - 2);
        assert host == Join(labels[..n - 2], ".") + "." + main;
      } else {
        assert labels[n - 2..] == labels;
      }
      SplitJoin(labels[n - 2..], '.');
    }
  }

  /** A host written as dot-free labels, at least two of them, has its last two labels as registrable domain. */
  lemma RegistrableOfLabels(labels: seq<string>)
    requires |labels| >= 2
    requires forall i :: 0 <= i < |labels| ==> '.' !in labels[i]
    ensures Registrable(Join(labels, ".")) == Join(labels[|labels| - 2..], ".")
  {
    var host := Join(labels, ".");
    SplitJoin(labels, '.');
    LastLabels(host);
    JoinAt(labels, ".", 1);
    assert host[|Join(labels[..1], ".")|] == '.';
  }

  // ---------------------------------------------------------------------
  // The main HTML page (`_extract_html_info`, and the fallback of `_analyze_ssr_html`)
  // ---------------------------------------------------------------------

  /** `'html' in mime.lower()` */
  predicate IsHtml(e: Entry)
  {
    Contains(Lower(e.mimeType), "html")
  }

  /**
   * The loop `if 'html' in mime and len(text) > max_len` with `max_len`
   * starting at 0: the index of the entry it settles on.
   */
  function LongestHtml(entries: seq<Entry>): (r: Option<nat>)
    ensures r.Some? ==> r.value < |entries|
    decreases |entries|
  {
    if |entries| == 0 then None
    else
      var prev := LongestHtml(entries[..|entries| - 1]);
      var best := if prev.Some? then |entries[prev.value].text| else 0;
      var e := entries[|entries| - 1];
      if IsHtml(e) && |e.text| > best then Some(|entries| - 1) else prev
  }

  /** Entry `i` is an HTML page with non-empty text, no HTML page is longer, and every earlier one is shorter. */
  ghost predicate LongestAt(entries: seq<Entry>, i: int)
  {
    && 0 <= i < |entries|
    && IsHtml(entries[i]) && |entries[i].text| > 0
    && (forall j :: 0 <= j < |entries| && IsHtml(entries[j]) ==> |entries[j].text| <= |entries[i].text|)
    && (forall j :: 0 <= j < i && IsHtml(entries[j]) ==> |entries[j].text| < |entries[i].text|)
  }

  /** No HTML entry has any text. */
  ghost predicate NoHtmlText(entries: seq<Entry>)
  {
    forall j :: 0 <= j < |entries| && IsHtml(entries[j]) ==> |entries[j].text| == 0
  }

  /**
   * The page chosen is the longest HTML page, the first one on ties; there is
   * none exactly when no HTML entry has text.
   */
  lemma {:induction false} LongestHtmlIsLongest(entries: seq<Entry>)
    ensures LongestHtml(entries).Some? ==> LongestAt(entries, LongestHtml(entries).value)
    ensures LongestHtml(entries).None? <==> NoHtmlText(entries)
    decreases |entries|
  {
    if |entries| > 0 {
      var n := |entries| - 1;
      var init := entries[..n];
      LongestHtmlIsLongest(init);
      assert forall j :: 0 <= j < n ==> init[j] == entries[j];
      var prev := LongestHtml(init);
      if prev.Some? {
        assert LongestAt(init, prev.value);
      }
      if LongestHtml(entries).None? {
        assert NoHtmlText(init) && !(IsHtml(entries[n]) && |entries[n].text| > 0);
      }
    }
  }

  /** The keep-the-longest loop over the entries. */
  method FindLongestHtml(entries: seq<Entry>) returns (r: Option<nat>)
    ensures r == LongestHtml(entries)
  {
    r := None;
    var maxLen := 0;
    for i := 0 to |entries|
      invariant r == LongestHtml(entries[..i])
      invariant r.Some? ==> r.value < i && maxLen == |entries[r.value].text|
      invariant r.None? ==> maxLen == 0
    {
      assert entries[..i + 1][..i] == entries[..i];
      assert r.Some? ==> entries[..i + 1][r.value] == entries[r.value];
      var e := entries[i];
      if IsHtml(e) && |e.text| > maxLen {
        maxLen := |e.text|;
        r := Some(i);
      }
    }
    assert entries[..|entries|] == entries;
  }

  // ---------------------------------------------------------------------
  // Price tokens
  // ---------------------------------------------------------------------

  /** `re.sub(r'[^\d.,]', '', m).replace(',', '')`: the digits and dots of `m`, in order. */
  function Normalise(m: string): (r: string)
    ensures |r| <= |m|
    ensures forall i :: 0 <= i < |r| ==> IsDigit(r[i]) || r[i] == '.'
    ensures |m| == 1 ==> r == if IsDigit(m[0]) || m[0] == '.' then m else ""
    decreases |m|
  {
    if |m| == 0 then ""
    else
      var c := m[|m| - 1];
      Normalise(m[..|m| - 1]) + (if IsDigit(c) || c == '.' then [c] else [])
  }

  /** A string of digits and dots only. */
  predicate PriceShaped(s: string)
  {
    forall i :: 0 <= i < |s| ==> IsDigit(s[i]) || s[i] == '.'
  }

  /** Normalising keeps a string that is already made of digits and dots. */
  lemma {:induction false} NormaliseKeeps(s: string)
    requires PriceShaped(s)
    ensures Normalise(s) == s
    decreases |s|
  {
    if |s| > 0 {
      var init := s[..|s| - 1];
      assert PriceShaped(init) by {
        forall i | 0 <= i < |init| ensures IsDigit(init[i]) || init[i] == '.' {
          assert init[i] == s[i];
        }
      }
      NormaliseKeeps(init);
      assert init + [s[|s| - 1]] == s;
    }
  }

  /** Normalising works character by character: it distributes over concatenation. */
  lemma {:induction false} NormaliseConcat(a: string, b: string)
    ensures Normalise(a + b) == Normalise(a) + Normalise(b)
    decreases |b|
  {
    if |b| == 0 {
      assert a + b == a;
    } else {
      var init, c := b[..|b| - 1], b[|b| - 1];
      assert (a + b)[..|a + b| - 1] == a + init && (a + b)[|a + b| - 1] == c;
      var keep: string := if IsDigit(c) || c == '.' then [c] else [];
      NormaliseConcat(a, init);
      Assoc(Normalise(a), Normalise(init), keep);
    }
  }

  /** Normalising twice is normalising once. */
  lemma NormaliseIdempotent(m: string)
    ensures Normalise(Normalise(m)) == Normalise(m)
  {
    NormaliseKeeps(Normalise(m));
  }

  /** The price tokens of the matches: normalised, and kept when at least three characters long. */
  ghost function PriceTokens(matches: seq<string>): set<string>
  {
    set i | 0 <= i < |matches| && |Normalise(matches[i])| >= 3 :: Normalise(matches[i])
  }

  /** Every token is made of digits and dots and has at least three characters. */
  lemma PriceTokensShape(matches: seq<string>, t: string)
    requires t in PriceTokens(matches)
    ensures |t| >= 3 && PriceShaped(t)
  {
  }

  /** One more match adds its cleaned text when that is long enough. */
  lemma PriceTokensSnoc(matches: seq<string>, i: nat)
    requires i < |matches|
    ensures var clean := Normalise(matches[i]);
            PriceTokens(matches[..i + 1]) == PriceTokens(matches[..i]) + (if |clean| >= 3 then {clean} else {})
  {
    var clean := Normalise(matches[i]);
    var prev := matches[..i];
    var next := matches[..i + 1];
    assert forall j :: 0 <= j < i ==> next[j] == prev[j];
    forall t | t in PriceTokens(next)
      ensures t in PriceTokens(prev) + (if |clean| >= 3 then {clean} else {})
    {
      var j :| 0 <= j < |next| && |Normalise(next[j])| >= 3 && t == Normalise(next[j]);
      if j < i {
        assert next[j] == prev[j];
      }
    }
    forall t | t in PriceTokens(prev) + (if |clean| >= 3 then {clean} else {})
      ensures t in PriceTokens(next)
    {
      if t in PriceTokens(prev) {
        var j :| 0 <= j < i && |Normalise(prev[j])| >= 3 && t == Normalise(prev[j]);
        assert next[j] == prev[j];
      } else {
        assert next[i] == matches[i];
      }
    }
  }

  /** The loop that adds `clean` to `price_dna` when `len(clean) >= 3`. */
  method CollectPriceTokens(matches: seq<string>) returns (dna: set<string>)
    ensures dna == PriceTokens(matches)
  {
    dna := {};
    for i := 0 to |matches|
      invariant dna == PriceTokens(matches[..i])
    {
      PriceTokensSnoc(matches, i);
      var clean := Normalise(matches[i]);
      if |clean| >= 3 {
        dna := dna + {clean};
      }
    }
    assert matches[..|matches|] == matches;
  }

  // ---------------------------------------------------------------------
  // The API scorer (`_analyze_fingerprint`)
  // ---------------------------------------------------------------------

  const StaticExt: seq<string> := [".css", ".js", ".woff", ".png", ".jpg", ".gif", ".svg", ".ico", ".webp", ".jpeg"]
  const DomainBlacklist: seq<string> := ["images.lululemon.com", "scene7.com", "analytics", "logging", "sentry", "adtech", "doubleclick", "google-analytics"]
  const BlackKeys: seq<string> := ["akam", "demdex", "pixel", "telemetry", "track", "google", "facebook"]
  const TrapKeys: seq<string> := ["swatches", "media", "region", "lang", "header", "footer", "nav", "menu", "inventory", "autocomplete", "suggestion", "filter", "adtech", "cdn", "static"]
  const WhiteKeys: seq<string> := ["product", "products", "list", "query", "collection", "items", "search", "catalog", "category", "results"]
  const PageKeys: seq<string> := ["page", "limit", "size", "offset", "cursor", "p="]

  /** Candidates must score above this. */
  const CandidateFloor: real := 40.0

  /** The top candidate is accepted only from this score on. */
  const AcceptScore: real := 60.0

  /** The request URL, lower-cased. */
  function UrlOf(e: Entry): string
  {
    Lower(e.url)
  }

  /** The absolute filters: such an entry is never scored. */
  predicate Excluded(e: Entry)
  {
    var url := UrlOf(e);
    || |e.text| < 1000
    || EndsWithAny(Split(url, '?')[0], StaticExt)
    || IsHtml(e)
    || AnyIn(DomainBlacklist, url)
    || AnyIn(BlackKeys, url)
  }

  /** `len(text) / 1024` */
  function SizeKb(e: Entry): real
  {
    (|e.text| as real) / 1024.0
  }

  /** `min(size_kb / 10.0, 20.0)` */
  function SizeBonus(e: Entry): (r: real)
    ensures 0.0 <= r <= 20.0
  {
    var b := SizeKb(e) / 10.0;
    if b < 20.0 then b else 20.0
  }

  /** The points for being served from the main page's domain. */
  function DomainBonus(e: Entry, mainDomain: Option<string>): real
  {
    var info := DomainOf(e.netloc);
    if mainDomain.Some? && mainDomain.value != "" && info.main == mainDomain.value then
      10.0 + (if Contains(info.full, "api") || Contains(UrlOf(e), "graphql") then 5.0 else 0.0)
    else 0.0
  }

  /** Without a main domain there are no domain points; with one, 10, plus 5 only for an `api` host or a `graphql` URL. */
  lemma DomainBonusCases(e: Entry, mainDomain: Option<string>)
    ensures mainDomain.None? ==> DomainBonus(e, mainDomain) == 0.0
    ensures DomainBonus(e, mainDomain) in {0.0, 10.0, 15.0}
    ensures DomainBonus(e, mainDomain) == 15.0 ==>
              Contains(DomainOf(e.netloc).full, "api") || Contains(UrlOf(e), "graphql")
    ensures DomainBonus(e, mainDomain) != 0.0 ==>
              mainDomain.Some? && DomainOf(e.netloc).main == mainDomain.value
  {
  }

  /** The score before clamping, for an entry that passed the filters. */
  function RawScore(e: Entry, mainDomain: Option<string>, dna: set<string>): real
  {
    var url := UrlOf(e);
    var mime := Lower(e.mimeType);
    (if Contains(mime, "json") then 15.0 else 0.0)
    + DomainBonus(e, mainDomain)
    + (if AnyIn(WhiteKeys, url) then 30.0 else 0.0)
    - (if AnyIn(TrapKeys, url) then 40.0 else 0.0)
    + (if AnyIn(PageKeys, url) then 15.0 else 0.0)
    - (if Contains(url, "categories") && !Contains(url, "products") then 25.0 else 0.0)
    + SizeBonus(e)
    + (if exists t :: t in dna && Contains(e.text, t) then 25.0 else 0.0)
  }

  /** `max(0.0, min(100.0, x))` */
  function Clamp(x: real): (r: real)
    ensures 0.0 <= r <= 100.0
    ensures 0.0 <= x <= 100.0 ==> r == x
    ensures x < 0.0 ==> r == 0.0
    ensures x > 100.0 ==> r == 100.0
  {
    if x < 0.0 then 0.0 else if x > 100.0 then 100.0 else x
  }

  /** `final_score` */
  function Score(e: Entry, mainDomain: Option<string>, dna: set<string>): real
  {
    Clamp(RawScore(e, mainDomain, dna))
  }

  /** Every point but the size bonus is fixed, so the score before clamping lies in [-65, 120]. */
  lemma RawScoreRange(e: Entry, mainDomain: Option<string>, dna: set<string>)
    ensures -65.0 <= RawScore(e, mainDomain, dna) <= 120.0
  {
    DomainBonusCases(e, mainDomain);
  }

  /** What `_analyze_fingerprint` keeps of a candidate. */
  datatype Candidate = Candidate(entry: Entry, score: real, url: string, size: real)

  function CandidateOf(e: Entry, mainDomain: Option<string>, dna: set<string>): Candidate
  {
    Candidate(e, Score(e, mainDomain, dna), UrlOf(e), SizeKb(e))
  }

  /** An entry makes the candidate list. */
  predicate Qualifies(e: Entry, mainDomain: Option<string>, dna: set<string>)
  {
    !Excluded(e) && Score(e, mainDomain, dna) > CandidateFloor
  }

  /** The candidate list, in capture order. */
  function Candidates(entries: seq<Entry>, mainDomain: Option<string>, dna: set<string>): seq<Candidate>
    decreases |entries|
  {
    if |entries| == 0 then []
    else
      var e := entries[|entries| - 1];
      Candidates(entries[..|entries| - 1], mainDomain, dna)
      + (if Qualifies(e, mainDomain, dna) then [CandidateOf(e, mainDomain, dna)] else [])
  }

  /**
   * The candidates are exactly the entries that pass the filters and score
   * above 40: each candidate comes from such an entry, and each such entry
   * is a candidate.
   */
  lemma {:induction false} CandidatesExact(entries: seq<Entry>, mainDomain: Option<string>, dna: set<string>)
    ensures forall c :: c in Candidates(entries, mainDomain, dna) ==>
              c.score > CandidateFloor && !Excluded(c.entry) && c.entry in entries
              && c == CandidateOf(c.entry, mainDomain, dna)
    ensures forall e :: e in entries && Qualifies(e, mainDomain, dna) ==>
              CandidateOf(e, mainDomain, dna) in Candidates(entries, mainDomain, dna)
    decreases |entries|
  {
    if |entries| > 0 {
      var init := entries[..|entries| - 1];
      CandidatesExact(init, mainDomain, dna);
      assert entries == init + [entries[|entries| - 1]];
    }
  }

  /** Which entries qualify, position by position. */
  ghost function QualifyingMask(entries: seq<Entry>, mainDomain: Option<string>, dna: set<string>): (mask: seq<bool>)
    ensures |mask| == |entries|
    ensures forall i :: 0 <= i < |entries| ==> mask[i] == Qualifies(entries[i], mainDomain, dna)
  {
    seq(|entries|, i requires 0 <= i < |entries| => Qualifies(entries[i], mainDomain, dna))
  }

  /** The positions holding `true`, in increasing order, and every such position. */
  function Picks(mask: seq<bool>): (o: seq<nat>)
    ensures forall c :: 0 <= c < |o| ==> o[c] < |mask| && mask[o[c]]
    ensures forall c, d :: 0 <= c < d < |o| ==> o[c] < o[d]
    ensures forall i :: 0 <= i < |mask| && mask[i] ==> i in o
    decreases |mask|
  {
    if |mask| == 0 then []
    else
      var n := |mask| - 1;
      assert forall i :: 0 <= i < n ==> mask[..n][i] == mask[i];
      Picks(mask[..n]) + (if mask[n] then [n] else [])
  }

  /** A picked position before the `m`-th pick is one of the first `m` picks. */
  lemma PicksBefore(mask: seq<bool>, m: nat, k: nat)
    requires m < |Picks(mask)| && k < Picks(mask)[m] && mask[k]
    ensures exists c :: 0 <= c < m && Picks(mask)[c] == k
  {
    var o := Picks(mask);
    assert k in o;
    var c :| 0 <= c < |o| && o[c] == k;
    assert c < m;
  }

  /** Candidate `c` is made from the entry at the `c`-th qualifying position. */
  lemma {:induction false} CandidatesPicks(entries: seq<Entry>, mainDomain: Option<string>, dna: set<string>)
    ensures var o := Picks(QualifyingMask(entries, mainDomain, dna));
            var cs := Candidates(entries, mainDomain, dna);
            |o| == |cs| && forall c :: 0 <= c < |o| ==> cs[c] == CandidateOf(entries[o[c]], mainDomain, dna)
    decreases |entries|
  {
    if |entries| > 0 {
      var n := |entries| - 1;
      var init := entries[..n];
      var mask := QualifyingMask(entries, mainDomain, dna);
      assert mask[..n] == QualifyingMask(init, mainDomain, dna);
      CandidatesPicks(init, mainDomain, dna);
      var o, prev := Picks(mask), Picks(mask[..n]);
      var cs, before := Candidates(entries, mainDomain, dna), Candidates(init, mainDomain, dna);
      forall c | 0 <= c < |o| ensures cs[c] == CandidateOf(entries[o[c]], mainDomain, dna) {
        if c < |prev| {
          assert o[c] == prev[c] && cs[c] == before[c] && init[prev[c]] == entries[prev[c]];
        } else {
          assert o[c] == n;
        }
      }
    }
  }

  /** The index of the first candidate with the highest score. */
  function FirstMax(cs: seq<Candidate>): (i: nat)
    requires |cs| > 0
    ensures i < |cs|
    ensures forall j :: 0 <= j < |cs| ==> cs[j].score <= cs[i].score
    ensures forall j :: 0 <= j < i ==> cs[j].score < cs[i].score
    decreases |cs|
  {
    if |cs| == 1 then 0
    else
      var k := FirstMax(cs[..|cs| - 1]);
      assert forall j :: 0 <= j < |cs| - 1 ==> cs[..|cs| - 1][j] == cs[j];
      if cs[|cs| - 1].score > cs[k].score then |cs| - 1 else k
  }

  /**
   * `ys` is `xs` sorted by descending score, stably: `perm` and `inv` are
   * inverse index maps, scores never increase along `ys`, and equal scores
   * keep their order.
   */
  ghost predicate StableSortedBy(xs: seq<Candidate>, ys: seq<Candidate>, perm: seq<nat>, inv: seq<nat>)
  {
    && |ys| == |xs| == |perm| == |inv|
    && (forall i :: 0 <= i < |perm| ==> perm[i] < |xs| && ys[i] == xs[perm[i]])
    && (forall j :: 0 <= j < |inv| ==> inv[j] < |ys| && perm[inv[j]] == j)
    && (forall i, j :: 0 <= i < j < |ys| ==> ys[i].score >= ys[j].score)
    && (forall i, j :: 0 <= i < j < |ys| && ys[i].score == ys[j].score ==> perm[i] < perm[j])
  }

  /**
   * `candidates.sort(key=score, reverse=True)` is stable, so whatever the
   * sorted order, its head is the first candidate with the highest score.
   */
  lemma StableSortHead(xs: seq<Candidate>, ys: seq<Candidate>, perm: seq<nat>, inv: seq<nat>)
    requires |xs| > 0 && StableSortedBy(xs, ys, perm, inv)
    ensures ys[0] == xs[FirstMax(xs)]
  {
    var m := FirstMax(xs);
    var k := inv[m];
    assert ys[k] == xs[m];
    assert ys[0] == xs[perm[0]];
  }

  /** The result of the scorer: the top candidate when it reaches 60. */
  function Fingerprint(entries: seq<Entry>, mainDomain: Option<string>, dna: set<string>): (r: Option<Candidate>)
    ensures r.Some? ==> r.value.score >= AcceptScore
  {
    var cs := Candidates(entries, mainDomain, dna);
    if |cs| == 0 then None
    else
      var top := cs[FirstMax(cs)];
      if top.score >= AcceptScore then Some(top) else None
  }

  /**
   * The scorer returns a candidate exactly when some entry qualifies with a
   * score of at least 60, and then it is a qualifying entry with the highest score.
   */
  lemma FingerprintChoice(entries: seq<Entry>, mainDomain: Option<string>, dna: set<string>)
    ensures var r := Fingerprint(entries, mainDomain, dna);
            r.Some? <==> exists e :: e in entries && Qualifies(e, mainDomain, dna) && Score(e, mainDomain, dna) >= AcceptScore
    ensures var r := Fingerprint(entries, mainDomain, dna);
            r.Some? ==>
              && r.value.entry in entries && Qualifies(r.value.entry, mainDomain, dna)
              && r.value == CandidateOf(r.value.entry, mainDomain, dna)
              && forall e :: e in entries && Qualifies(e, mainDomain, dna) ==> Score(e, mainDomain, dna) <= r.value.score
    ensures var r := Fingerprint(entries, mainDomain, dna);
            r.Some? ==>
              exists i :: 0 <= i < |entries| && entries[i] == r.value.entry
                && forall k :: 0 <= k < i && Qualifies(entries[k], mainDomain, dna) ==> Score(entries[k], mainDomain, dna) < r.value.score
  {
    var cs := Candidates(entries, mainDomain, dna);
    CandidatesExact(entries, mainDomain, dna);
    if |cs| > 0 {
      var m := FirstMax(cs);
      var top := cs[m];
      assert top in cs;
      forall e | e in entries && Qualifies(e, mainDomain, dna) ensures Score(e, mainDomain, dna) <= top.score {
        var c := CandidateOf(e, mainDomain, dna);
        assert c in cs;
      }
      FirstQualifyingWins(entries, mainDomain, dna, m);
    }
  }

  /**
   * The candidate at `m`, beaten by no earlier candidate, is beaten by no
   * earlier qualifying entry either (the stable sort's tie-break).
   */
  lemma FirstQualifyingWins(entries: seq<Entry>, mainDomain: Option<string>, dna: set<string>, m: nat)
    requires m < |Candidates(entries, mainDomain, dna)|
    requires var cs := Candidates(entries, mainDomain, dna);
             forall j :: 0 <= j < m ==> cs[j].score < cs[m].score
    ensures var top := Candidates(entries, mainDomain, dna)[m];
            exists i :: 0 <= i < |entries| && entries[i] == top.entry
              && forall k :: 0 <= k < i && Qualifies(entries[k], mainDomain, dna) ==> Score(entries[k], mainDomain, dna) < top.score
  {
    var cs := Candidates(entries, mainDomain, dna);
    var mask := QualifyingMask(entries, mainDomain, dna);
    var o := Picks(mask);
    CandidatesPicks(entries, mainDomain, dna);
    var i := o[m];
    forall k | 0 <= k < i && Qualifies(entries[k], mainDomain, dna)
      ensures Score(entries[k], mainDomain, dna) < cs[m].score
    {
      PicksBefore(mask, m, k);
      var c :| 0 <= c < m && o[c] == k;
      assert cs[c] == CandidateOf(entries[k], mainDomain, dna);
    }
    assert entries[i] == cs[m].entry;
  }

  // ---------------------------------------------------------------------
  // Server-side-rendered pages (`_analyze_ssr_html`)
  // ---------------------------------------------------------------------

  datatype HtmlMode = NextJs | Shopify | Generic

  /** The markers, tested in this order: Next.js, then Shopify, then the generic data layers. */
  function Marker(txt: string): Option<HtmlMode>
  {
    if Contains(txt, "__NEXT_DATA__") then Some(NextJs)
    else if Contains(txt, "window.Shopify") || (Contains(txt, "var meta =") && Contains(txt, "product")) then Some(Shopify)
    else if Contains(txt, "gapGlobal") || Contains(txt, "window.universal_variable") then Some(Generic)
    else None
  }

  /** Only HTML pages of at least 5000 characters are tested for markers. */
  const SsrMinText: nat := 5000

  predicate Marked(e: Entry)
  {
    IsHtml(e) && |e.text| >= SsrMinText && Marker(e.text).Some?
  }

  /** The first marked entry at or after `from`. */
  function FirstMarked(entries: seq<Entry>, from: nat): (r: Option<nat>)
    requires from <= |entries|
    ensures r.Some? ==> from <= r.value < |entries| && Marked(entries[r.value])
    ensures r.Some? ==> forall j :: from <= j < r.value ==> !Marked(entries[j])
    ensures r.None? ==> forall j :: from <= j < |entries| ==> !Marked(entries[j])
    decreases |entries| - from
  {
    if from == |entries| then None
    else if Marked(entries[from]) then Some(from)
    else FirstMarked(entries, from + 1)
  }

  /** A page the HTML strategy is applied to, and how. */
  datatype HtmlPick = HtmlPick(mode: HtmlMode, entry: Entry)

  /** `_analyze_ssr_html(entries)` */
  function SsrScan(entries: seq<Entry>): Option<HtmlPick>
  {
    match FirstMarked(entries, 0)
    case Some(i) => Some(HtmlPick(Marker(entries[i].text).value, entries[i]))
    case None =>
      match LongestHtml(entries)
      case Some(i) => Some(HtmlPick(Generic, entries[i]))
      case None => None
  }

  /**
   * The scan finds nothing exactly when no HTML entry has text; a result
   * that did not come from a marker is the longest HTML page, in generic mode.
   */
  lemma SsrScanCases(entries: seq<Entry>)
    ensures SsrScan(entries).None? <==> NoHtmlText(entries)
    ensures FirstMarked(entries, 0).None? && SsrScan(entries).Some? ==>
              SsrScan(entries).value.mode == Generic
              && exists i :: LongestAt(entries, i) && SsrScan(entries).value.entry == entries[i]
  {
    LongestHtmlIsLongest(entries);
    var f := FirstMarked(entries, 0);
    if f.Some? {
      assert IsHtml(entries[f.value]) && |entries[f.value].text| > 0;
    } else if LongestHtml(entries).Some? {
      assert LongestAt(entries, LongestHtml(entries).value);
    }
  }

  /** The loop with early return over the markers, then the longest-page fallback. */
  method AnalyzeSsrHtml(entries: seq<Entry>) returns (r: Option<HtmlPick>)
    ensures r == SsrScan(entries)
  {
    for i := 0 to |entries|
      invariant FirstMarked(entries, 0) == FirstMarked(entries, i)
    {
      var e := entries[i];
      if !IsHtml(e) {
        continue;
      }
      if |e.text| < SsrMinText {
        continue;
      }
      if Contains(e.text, "__NEXT_DATA__") {
        return Some(HtmlPick(NextJs, e));
      }
      if Contains(e.text, "window.Shopify") || (Contains(e.text, "var meta =") && Contains(e.text, "product")) {
        return Some(HtmlPick(Shopify, e));
      }
      if Contains(e.text, "gapGlobal") || Contains(e.text, "window.universal_variable") {
        return Some(HtmlPick(Generic, e));
      }
    }
    var best := FindLongestHtml(entries);
    if best.Some? {
      return Some(HtmlPick(Generic, entries[best.value]));
    }
    return None;
  }

  // ---------------------------------------------------------------------
  // `select`
  // ---------------------------------------------------------------------

  /** The strategy chosen: replay an API request, or parse an HTML page. */
  datatype Strategy = Api(entry: Entry) | Html(mode: HtmlMode, entry: Entry)

  /** `main_domain` after `_extract_html_info`: set from the main page, untouched without one. */
  function MainDomainAfter(entries: seq<Entry>, before: Option<string>): Option<string>
  {
    match LongestHtml(entries)
    case Some(i) => Some(DomainOf(entries[i].netloc).main)
    case None => before
  }

  /** The price tokens `_extract_html_info` returns; `scan` stands for the page text's currency matches. */
  ghost function HtmlPriceTokens(entries: seq<Entry>, scan: string -> seq<string>): set<string>
  {
    match LongestHtml(entries)
    case Some(i) => PriceTokens(scan(entries[i].text))
    case None => {}
  }

  /** `select()` on the loaded entries, with `main_domain` as it was before. */
  ghost function Decide(entries: seq<Entry>, before: Option<string>, scan: string -> seq<string>): Option<Strategy>
  {
    var fp := Fingerprint(entries, MainDomainAfter(entries, before), HtmlPriceTokens(entries, scan));
    if fp.Some? && fp.value.score >= AcceptScore then Some(Api(fp.value.entry))
    else
      match SsrScan(entries)
      case Some(pick) => Some(Html(pick.mode, pick.entry))
      case None => None
  }

  /**
   * `select` picks the API exactly when the scorer accepts a candidate;
   * otherwise it takes the HTML scan's page, and gives up only when, in
   * addition, no HTML entry has text.
   */
  lemma DecideCases(entries: seq<Entry>, before: Option<string>, scan: string -> seq<string>)
    ensures var fp := Fingerprint(entries, MainDomainAfter(entries, before), HtmlPriceTokens(entries, scan));
            var d := Decide(entries, before, scan);
            && (d.Some? && d.value.Api? <==> fp.Some?)
            && (fp.Some? ==> d == Some(Api(fp.value.entry)))
            && (d.None? <==> fp.None? && NoHtmlText(entries))
  {
    SsrScanCases(entries);
  }

  /** With no HTML page at all the scorer runs without a main domain nor price tokens. */
  lemma NoPageNoHints(entries: seq<Entry>, scan: string -> seq<string>)
    requires forall j :: 0 <= j < |entries| ==> !IsHtml(entries[j])
    ensures MainDomainAfter(entries, None) == None
    ensures HtmlPriceTokens(entries, scan) == {}
  {
    LongestHtmlIsLongest(entries);
  }

  /** The selector's state: the main domain found by `_extract_html_info`. */
  class Selector {
    var mainDomain: Option<string>

    constructor ()
      ensures mainDomain == None
    {
      mainDomain := None;
    }

    /** `_extract_html_info(entries)`; `scan` stands for the currency matches in the page's text. */
    method ExtractHtmlInfo(entries: seq<Entry>, scan: string -> seq<string>) returns (dna: set<string>)
      modifies this
      ensures mainDomain == MainDomainAfter(entries, old(mainDomain))
      ensures dna == HtmlPriceTokens(entries, scan)
    {
      var main := FindLongestHtml(entries);
      if main.None? {
        return {};
      }
      var page := entries[main.value];
      mainDomain := Some(DomainOf(page.netloc).main);
      dna := CollectPriceTokens(scan(page.text));
    }

    /** `_analyze_fingerprint(entries, price_dna)` */
    method AnalyzeFingerprint(entries: seq<Entry>, dna: set<string>) returns (r: Option<Candidate>)
      ensures r == Fingerprint(entries, mainDomain, dna)
    {
      var candidates: seq<Candidate> := [];
      for i := 0 to |entries|
        invariant candidates == Candidates(entries[..i], mainDomain, dna)
      {
        assert entries[..i + 1][..i] == entries[..i];
        var e := entries[i];
        if Excluded(e) {
          continue;
        }
        var confidence := RawScore(e, mainDomain, dna);
        var finalScore := Clamp(confidence);
        if finalScore > CandidateFloor {
          candidates := candidates + [Candidate(e, finalScore, UrlOf(e), SizeKb(e))];
        }
      }
      assert entries[..|entries|] == entries;
      if |candidates| == 0 {
        return None;
      }
      var top := TopCandidate(candidates);
      if candidates[top].score >= AcceptScore {
        return Some(candidates[top]);
      }
      return None;
    }

    /** `select()` on the loaded entries. */
    method Select(entries: seq<Entry>, scan: string -> seq<string>) returns (r: Option<Strategy>)
      modifies this
      ensures r == Decide(entries, old(mainDomain), scan)
      ensures mainDomain == MainDomainAfter(entries, old(mainDomain))
    {
      var dna := ExtractHtmlInfo(entries, scan);
      var bestFp := AnalyzeFingerprint(entries, dna);
      if bestFp.Some? && bestFp.value.score >= AcceptScore {
        return Some(Api(bestFp.value.entry));
      }
      var ssr := AnalyzeSsrHtml(entries);
      if ssr.Some? {
        return Some(Html(ssr.value.mode, ssr.value.entry));
      }
      return None;
    }
  }

  /** The head of the candidates after the stable descending sort (see `StableSortHead`). */
  method TopCandidate(cs: seq<Candidate>) returns (top: nat)
    requires |cs| > 0
    ensures top == FirstMax(cs)
  {
    top := 0;
    for i := 1 to |cs|
      invariant top == FirstMax(cs[..i])
    {
      assert cs[..i + 1][..i] == cs[..i];
      assert cs[..i + 1][top] == cs[top] && cs[..i + 1][i] == cs[i];
      if cs[i].score > cs[top].score {
        top := i;
      }
    }
    assert cs[..|cs|] == cs;
  }
}
