/**
 * The request context and response sample that api_runner.py hands to the
 * script generator: the replayable headers and query parameters, the URL
 * without its query, and a size-bounded structural preview of the JSON body.
 */
module ApiRunner {
  import opened Wrappers
  import opened Text
  import opened Json
  import opened Har

  /** Headers that the generated script must not replay verbatim. */
  const DroppedHeaders: seq<string> :=
    ["content-length", "host", "connection", "accept-encoding", "content-type"]

  /** Nodes nested deeper than this are replaced by the placeholder. */
  const PruneDepth: nat := 15

  /** The placeholder string `"..."`. */
  const Ellipsis: Json := JScalar(Str("..."))

  /** Budget for the serialised skeleton, and for the raw text of a non-JSON body. */
  const SkeletonBudget: nat := 8000
  const RawBudget: nat := 4000

  predicate KeepsHeader(name: string)
  {
    !(":" <= name) && Lower(name) !in DroppedHeaders
  }

  /**
   * `{p['name']: p['value'] for p in pairs}`: the keys are exactly the names
   * that occur.
   */
  function PairMap(pairs: seq<NameValue>): (r: map<string, string>)
    ensures forall k :: k in r <==> exists i :: 0 <= i < |pairs| && pairs[i].name == k
  {
    if |pairs| == 0 then map[]
    else
      var last := pairs[|pairs| - 1];
      PairMap(pairs[..|pairs| - 1])[last.name := last.value]
  }

  /** Item `i` is the last one with its name. */
  predicate LastWithName(pairs: seq<NameValue>, i: int)
  {
    0 <= i < |pairs| && forall j :: i < j < |pairs| ==> pairs[j].name != pairs[i].name
  }

  /** A repeated name is bound to the value of its last occurrence. */
  lemma {:induction false} PairMapLastWins(pairs: seq<NameValue>, i: int)
    requires LastWithName(pairs, i)
    ensures pairs[i].name in PairMap(pairs) && PairMap(pairs)[pairs[i].name] == pairs[i].value
  {
    if i < |pairs| - 1 {
      assert LastWithName(pairs[..|pairs| - 1], i);
      PairMapLastWins(pairs[..|pairs| - 1], i);
    }
  }

  /**
   * The replayed headers: pseudo-headers (`:authority`, ...) and the dropped
   * names (compared lower-cased) are left out, every other name is kept.
   */
  function HeaderMap(headers: seq<NameValue>): (r: map<string, string>)
    ensures forall k :: k in r ==> !(":" <= k) && Lower(k) !in DroppedHeaders
    ensures forall k :: k in r <==> exists i :: 0 <= i < |headers| && headers[i].name == k && KeepsHeader(k)
  {
    if |headers| == 0 then map[]
    else
      var last := headers[|headers| - 1];
      var m := HeaderMap(headers[..|headers| - 1]);
      if KeepsHeader(last.name) then m[last.name := last.value] else m
  }

  /** For a repeated kept header name the last value wins. */
  lemma {:induction false} HeaderMapLastWins(headers: seq<NameValue>, i: int)
    requires LastWithName(headers, i) && KeepsHeader(headers[i].name)
    ensures headers[i].name in HeaderMap(headers) && HeaderMap(headers)[headers[i].name] == headers[i].value
  {
    if i < |headers| - 1 {
      assert LastWithName(headers[..|headers| - 1], i);
      HeaderMapLastWins(headers[..|headers| - 1], i);
    }
  }

  datatype Context = Context(
    url: string,
    headers: map<string, string>,
    params: map<string, string>,
    verb: string)

  /** The URL up to (not including) its first `?`. */
  function UrlWithoutQuery(url: string): (r: string)
    ensures r <= url
    ensures '?' !in r
    ensures |r| < |url| ==> url[|r|] == '?'
  {
    SplitFirst(url, '?');
    Split(url, '?')[0]
  }

  /**
   * The replay context: the URL cut at its first `?`, the kept headers, every
   * query parameter name, and the request method.
   */
  function ContextOf(e: Entry): (c: Context)
    ensures c.url <= e.url && '?' !in c.url && (|c.url| < |e.url| ==> e.url[|c.url|] == '?')
    ensures forall k :: k in c.headers <==> exists i :: 0 <= i < |e.headers| && e.headers[i].name == k && KeepsHeader(k)
    ensures forall k :: k in c.params <==> exists i :: 0 <= i < |e.queryString| && e.queryString[i].name == k
    ensures c.verb == e.verb
  {
    Context(UrlWithoutQuery(e.url), HeaderMap(e.headers), PairMap(e.queryString), e.verb)
  }

  /** Every list in the document has at most one element. */
  ghost predicate ListsAtMostOne(j: Json)
  {
    match j
    case JMap(ms) => forall i :: 0 <= i < |ms| ==> ListsAtMostOne(ms[i].value)
    case JList(xs) => |xs| <= 1 && forall i :: 0 <= i < |xs| ==> ListsAtMostOne(xs[i])
    case JScalar(_) => true
  }

  /**
   * `prune_structure(data, depth)`: a list keeps only its first element, a
   * dict keeps every key in order, a scalar is kept, and every node below
   * depth 15 becomes `"..."`.
   */
  function Prune(j: Json, depth: nat): (r: Json)
    ensures ListsAtMostOne(r)
    ensures depth > PruneDepth ==> r == Ellipsis
    ensures depth <= PruneDepth && j.JScalar? ==> r == j
    ensures depth <= PruneDepth && j.JMap? ==> r.JMap? && Keys(r.members) == Keys(j.members)
    ensures depth <= PruneDepth && j.JList? ==> r.JList? && |r.items| == (if |j.items| == 0 then 0 else 1)
    decreases j
  {
    if depth > PruneDepth then Ellipsis
    else
      match j
      case JMap(ms) =>
        JMap(seq(|ms|, i requires 0 <= i < |ms| => Member(ms[i].key, Prune(ms[i].value, depth + 1))))
      case JList(xs) =>
        if |xs| == 0 then JList([]) else JList([Prune(xs[0], depth + 1)])
      case JScalar(_) => j
  }

  /** Pruning a pruned document changes nothing. */
  lemma {:induction false} PruneIdempotent(j: Json, depth: nat)
    ensures Prune(Prune(j, depth), depth) == Prune(j, depth)
    decreases j
  {
    if depth <= PruneDepth {
      match j
      case JMap(ms) =>
        forall i | 0 <= i < |ms| {
          PruneIdempotent(ms[i].value, depth + 1);
        }
      case JList(xs) =>
        if |xs| > 0 {
          PruneIdempotent(xs[0], depth + 1);
        }
      case JScalar(_) =>
    }
  }

  lemma {:induction false} MaxHeightBound(xs: seq<Json>, h: nat)
    requires forall i :: 0 <= i < |xs| ==> Height(xs[i]) <= h
    ensures MaxHeight(xs) <= h
  {
    if |xs| > 0 {
      MaxHeightBound(xs[..|xs| - 1], h);
    }
  }

  lemma {:induction false} MaxValueHeightBound(ms: seq<Member>, h: nat)
    requires forall i :: 0 <= i < |ms| ==> Height(ms[i].value) <= h
    ensures MaxValueHeight(ms) <= h
  {
    if |ms| > 0 {
      MaxValueHeightBound(ms[..|ms| - 1], h);
    }
  }

  /** The skeleton's nesting is bounded by the cut depth: at most 16 levels below the root. */
  lemma {:induction false} PruneHeight(j: Json, depth: nat)
    requires depth <= PruneDepth + 1
    ensures Height(Prune(j, depth)) <= PruneDepth + 1 - depth
    decreases j
  {
    if depth <= PruneDepth {
      match j
      case JMap(ms) =>
        var r := Prune(j, depth).members;
        forall i | 0 <= i < |ms| ensures Height(r[i].value) <= PruneDepth - depth {
          PruneHeight(ms[i].value, depth + 1);
        }
        MaxValueHeightBound(r, PruneDepth - depth);
      case JList(xs) =>
        if |xs| > 0 {
          PruneHeight(xs[0], depth + 1);
          MaxHeightBound(Prune(j, depth).items, PruneDepth - depth);
        }
      case JScalar(_) =>
    }
  }

  /** Looking a key up in a pruned dict finds the pruned value stored under it. */
  lemma {:induction false} LookupPruned(ms: seq<Member>, k: string, depth: nat)
    requires depth <= PruneDepth
    ensures var found := Lookup(ms, k);
            Lookup(Prune(JMap(ms), depth).members, k)
              == if found.Some? then Some(Prune(found.value, depth + 1)) else None
    decreases |ms|
  {
    if |ms| > 0 {
      var r := Prune(JMap(ms), depth).members;
      var rest := Prune(JMap(ms[1..]), depth).members;
      assert r[1..] == rest;
      LookupPruned(ms[1..], k, depth);
    }
  }

  /**
   * The skeleton keeps the spine of the document: every node that a path of
   * keys and first elements reaches is still reached by that path in the
   * skeleton, pruned at its own depth, as long as no node above it was cut.
   * So a list keeps its first element, a dict the values of its keys, and a
   * scalar reached at depth 15 or less is kept unchanged. `d` is the depth
   * at which the reached node sits.
   */
  lemma {:induction false} PruneSpine(j: Json, at: seq<Seg>, x: Json, depth: nat, d: nat)
    requires NodeAt(j, at) == Some(x) && d == depth + |at| && d <= PruneDepth + 1
    ensures NodeAt(Prune(j, depth), at) == Some(Prune(x, d))
    decreases |at|, 1
  {
    if |at| == 0 {
      assert x == j;
    } else {
      PathDown(j, at, x);
      PruneSpineStep(j, at, Child(j, at[0]).value, x, depth, d);
    }
  }

  /** `PruneSpine` for a non-empty path whose first segment leads to `c`. */
  lemma {:induction false} PruneSpineStep(j: Json, at: seq<Seg>, c: Json, x: Json, depth: nat, d: nat)
    requires |at| > 0 && Child(j, at[0]) == Some(c) && NodeAt(c, at[1..]) == Some(x)
    requires d == depth + |at| && d <= PruneDepth + 1
    ensures NodeAt(Prune(j, depth), at) == Some(Prune(x, d))
    decreases |at|, 0
  {
    PruneSpine(c, at[1..], x, depth + 1, d);
    PruneChildUp(j, at, c, Prune(x, d), depth);
  }

  /** The inductive step of `PruneSpine`, with the fact about the child as a premise. */
  lemma PruneChildUp(j: Json, at: seq<Seg>, c: Json, px: Json, depth: nat)
    requires |at| > 0 && Child(j, at[0]) == Some(c) && depth <= PruneDepth
    requires NodeAt(Prune(c, depth + 1), at[1..]) == Some(px)
    ensures NodeAt(Prune(j, depth), at) == Some(px)
  {
    PruneChild(j, at[0], c, depth);
    PathUp(Prune(j, depth), at, Prune(c, depth + 1), px);
  }

  /** One step below a pruned node lands on the pruned child. */
  lemma PruneChild(j: Json, s: Seg, c: Json, depth: nat)
    requires Child(j, s) == Some(c) && depth <= PruneDepth
    ensures Child(Prune(j, depth), s) == Some(Prune(c, depth + 1))
  {
    match s
    case Key(k) =>
      LookupPruned(j.members, k, depth);
    case Index0 =>
  }


  /**
   * The sample fragment. `parsed` stands for the outcome of `json.loads(text)`
   * (`None` when it raises) and `dumps` for `json.dumps(..., ensure_ascii=False)`.
   * A JSON body yields the serialised skeleton cut to 8000 characters; any
   * other body yields the first 4000 characters of the raw text.
   */
  function Sample(text: string, parsed: Option<Json>, dumps: Json -> string): (r: string)
    ensures parsed.Some? ==>
      var full := dumps(Prune(parsed.value, 0));
      && r <= full
      && |r| == (if |full| > SkeletonBudget then SkeletonBudget else |full|)
    ensures parsed.None? ==> r <= text && |r| == (if |text| > RawBudget then RawBudget else |text|)
  {
    match parsed
    case Some(doc) =>
      var fragment := dumps(Prune(doc, 0));
      if |fragment| > SkeletonBudget then fragment[..SkeletonBudget] else fragment
    case None =>
      if |text| > RawBudget then text[..RawBudget] else text
  }

  /** `_get_context_and_sample(entry)` */
  function ContextAndSample(e: Entry, parsed: Option<Json>, dumps: Json -> string): (r: (Context, string))
    ensures r.0.url <= e.url && '?' !in r.0.url
    ensures forall k :: k in r.0.headers ==> KeepsHeader(k)
    ensures |r.1| <= SkeletonBudget
    ensures parsed.None? ==> r.1 <= e.text
    ensures parsed.Some? ==> r.1 <= dumps(Prune(parsed.value, 0))
  {
    (ContextOf(e), Sample(e.text, parsed, dumps))
  }
}
