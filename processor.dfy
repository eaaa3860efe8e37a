/**
 * Structural path discovery of processor.py: a depth-capped walk that reports
 * every list-valued node of a JSON document, the resolver that walks a
 * reported path back to its value, and the choice of the path most likely to
 * hold the product records.
 */
module Processor {
  import opened Wrappers
  import opened Text
  import opened Json

  // ---------------------------------------------------------------------
  // Paths
  // ---------------------------------------------------------------------

  function SegText(s: Seg): string
  {
    match s
    case Key(k) => "." + k
    case Index0 => "[0]"
  }

  function SegsText(at: seq<Seg>): string
  {
    if |at| == 0 then "" else SegText(at[0]) + SegsText(at[1..])
  }

  /** The path string the walk builds: `root`, then `.k` and `[0]` steps. */
  function PathText(at: seq<Seg>): string
  {
    "root" + SegsText(at)
  }

  /** One more step at the end of a path. */
  lemma {:induction false} NodeAtSnoc(j: Json, at: seq<Seg>, s: Seg)
    requires NodeAt(j, at).Some?
    ensures NodeAt(j, at + [s]) == NodeAt(NodeAt(j, at).value, [s])
    decreases |at|
  {
    if |at| > 0 {
      assert (at + [s])[1..] == at[1..] + [s];
      match at[0]
      case Key(k) =>
        NodeAtSnoc(Lookup(j.members, k).value, at[1..], s);
      case Index0 =>
        NodeAtSnoc(j.items[0], at[1..], s);
    }
  }

  // ---------------------------------------------------------------------
  // The vitals report (`_analyze_json_vitals`)
  // ---------------------------------------------------------------------

  /** Paths deeper than this are not visited. */
  const WalkDepth: nat := 7

  /** At most this many keys of a list's first dict are listed. */
  const KeySample: nat := 15

  /**
   * A report line: `PATH: <path> | TYPE: List | LEN: <n>` for a non-empty
   * list, or `  -> KEYS: [...]` for the keys of its first element.
   */
  datatype Line = PathLine(at: seq<Seg>, len: nat) | KeysLine(keys: seq<string>)

  /** `list(d.keys())[:15]` */
  function KeysSample(members: seq<Member>): (r: seq<string>)
    ensures |r| == if |members| < KeySample then |members| else KeySample
    ensures r <= Keys(members)
  {
    var ks := Keys(members);
    if |ks| > KeySample then ks[..KeySample] else ks
  }

  /**
   * `walk(obj, path, depth)`: the lines it appends. A non-empty list is
   * reported and entered through its first element only; a dict is entered
   * through each dict- or list-valued member in order; beyond depth 7
   * nothing is reported.
   */
  function WalkSpec(obj: Json, at: seq<Seg>, depth: nat): seq<Line>
    decreases WalkDepth + 1 - depth, 1
  {
    if depth > WalkDepth then []
    else
      match obj
      case JList(xs) =>
        if |xs| > 0 then ListHead(at, xs) + WalkSpec(xs[0], at + [Index0], depth + 1)
        else []
      case JMap(ms) => WalkMembers(ms, at, depth)
      case JScalar(_) => []
  }

  /** The lines a non-empty list gets before its first element is entered. */
  function ListHead(at: seq<Seg>, xs: seq<Json>): (r: seq<Line>)
    requires |xs| > 0
    ensures |r| == if xs[0].JMap? then 2 else 1
    ensures r[0] == PathLine(at, |xs|)
    ensures xs[0].JMap? ==> r[1] == KeysLine(KeysSample(xs[0].members))
  {
    [PathLine(at, |xs|)] + (if xs[0].JMap? then [KeysLine(KeysSample(xs[0].members))] else [])
  }

  /** The lines appended by `for k, v in obj.items()` over the given members. */
  function WalkMembers(ms: seq<Member>, at: seq<Seg>, depth: nat): seq<Line>
    requires depth <= WalkDepth
    decreases WalkDepth + 1 - depth, 0, |ms|
  {
    if |ms| == 0 then []
    else
      var last := ms[|ms| - 1];
      WalkMembers(ms[..|ms| - 1], at, depth)
      + (if last.value.IsContainer() then WalkSpec(last.value, at + [Key(last.key)], depth + 1) else [])
  }

  /** What `walk` appends for a non-empty list, given what it appends for the first element. */
  lemma WalkListStep(xs: seq<Json>, at: seq<Seg>, depth: nat, before: seq<Line>, after: seq<Line>)
    requires depth <= WalkDepth && |xs| > 0
    requires after == before + ListHead(at, xs) + WalkSpec(xs[0], at + [Index0], depth + 1)
    ensures after == before + WalkSpec(JList(xs), at, depth)
  {
    var tail := WalkSpec(xs[0], at + [Index0], depth + 1);
    assert WalkSpec(JList(xs), at, depth) == ListHead(at, xs) + tail;
    Assoc(before, ListHead(at, xs), tail);
  }


  /** One more member of the dict loop. */
  lemma WalkMembersStep(ms: seq<Member>, at: seq<Seg>, depth: nat, i: nat)
    requires depth <= WalkDepth && i < |ms|
    ensures WalkMembers(ms[..i + 1], at, depth) == WalkMembers(ms[..i], at, depth)
              + (if ms[i].value.IsContainer() then WalkSpec(ms[i].value, at + [Key(ms[i].key)], depth + 1) else [])
  {
    assert ms[..i + 1][..i] == ms[..i];
  }

  /** The shared `report` list that `walk` appends to. */
  class VitalsReport {
    var lines: seq<Line>

    constructor ()
      ensures lines == []
    {
      lines := [];
    }

    method Walk(obj: Json, at: seq<Seg>, depth: nat)
      modifies this
      ensures lines == old(lines) + WalkSpec(obj, at, depth)
      decreases WalkDepth + 1 - depth, 1
    {
      if depth > WalkDepth {
        assert lines == lines + [];
        return;
      }
      match obj {
        case JList(xs) =>
          if |xs| > 0 {
            ghost var before := lines;
            lines := lines + [PathLine(at, |xs|)];
            if xs[0].JMap? {
              lines := lines + [KeysLine(KeysSample(xs[0].members))];
            }
            assert lines == before + ListHead(at, xs);
            Walk(xs[0], at + [Index0], depth + 1);
            WalkListStep(xs, at, depth, before, lines);
          } else {
            assert lines == lines + [];
          }
        case JMap(ms) =>
          WalkItems(ms, at, depth);
        case JScalar(_) =>
          assert lines == lines + [];
      }
    }

    /** The `for k, v in obj.items()` loop of `walk` on a dict. */
    method WalkItems(ms: seq<Member>, at: seq<Seg>, depth: nat)
      requires depth <= WalkDepth
      modifies this
      ensures lines == old(lines) + WalkMembers(ms, at, depth)
      decreases WalkDepth + 1 - depth, 0
    {
      for i := 0 to |ms|
        invariant lines == old(lines) + WalkMembers(ms[..i], at, depth)
      {
        WalkMembersStep(ms, at, depth, i);
        ghost var done := WalkMembers(ms[..i], at, depth);
        if ms[i].value.IsContainer() {
          Walk(ms[i].value, at + [Key(ms[i].key)], depth + 1);
          Assoc(old(lines), done, WalkSpec(ms[i].value, at + [Key(ms[i].key)], depth + 1));
        } else {
          assert done + [] == done;
        }
      }
      assert ms[..|ms|] == ms;
    }
  }

  /** `str(keys_sample)`: a Python list display of the key names. */
  function KeyListText(keys: seq<string>): string
  {
    "[" + Join(seq(|keys|, i requires 0 <= i < |keys| => "'" + keys[i] + "'"), ", ") + "]"
  }

  function LineText(l: Line): string
  {
    match l
    case PathLine(at, n) => "PATH: " + PathText(at) + " | TYPE: List | LEN: " + NatToString(n)
    case KeysLine(keys) => "  -> KEYS: " + KeyListText(keys)
  }

  /** `"\n".join(report)` */
  function ReportText(lines: seq<Line>): string
  {
    Join(seq(|lines|, i requires 0 <= i < |lines| => LineText(lines[i])), "\n")
  }

  /** `_analyze_json_vitals(data)` */
  method AnalyzeJsonVitals(data: Json) returns (vitals: string)
    ensures vitals == ReportText(WalkSpec(data, [], 0))
  {
    var report := new VitalsReport();
    report.Walk(data, [], 0);
    assert report.lines == [] + WalkSpec(data, [], 0) == WalkSpec(data, [], 0);
    vitals := ReportText(report.lines);
  }

  // ---------------------------------------------------------------------
  // What the report says about the document
  // ---------------------------------------------------------------------

  /** The node at `at` is a list of `n > 0` elements. */
  ghost predicate ListOfLen(root: Json, at: seq<Seg>, n: nat)
  {
    var node := NodeAt(root, at);
    node.Some? && node.value.JList? && |node.value.items| == n && n > 0
  }

  /** The node at `at` is a non-empty list whose first element is a dict. */
  ghost predicate FirstIsDict(root: Json, at: seq<Seg>)
  {
    var node := NodeAt(root, at);
    node.Some? && node.value.JList? && |node.value.items| > 0 && node.value.items[0].JMap?
  }

  ghost function FirstKeys(root: Json, at: seq<Seg>): seq<string>
    requires FirstIsDict(root, at)
  {
    KeysSample(NodeAt(root, at).value.items[0].members)
  }

  /**
   * Line `i` of a report is right about the document: a `PATH` line names a
   * non-empty list of the reported length at most 7 steps below the root, and
   * is followed by a `KEYS` line exactly when that list's first element is a
   * dict; a `KEYS` line lists the first keys of the list reported just before it.
   */
  ghost predicate LineOk(root: Json, lines: seq<Line>, i: int)
    requires 0 <= i < |lines|
  {
    match lines[i]
    case PathLine(at, n) =>
      && |at| <= WalkDepth
      && ListOfLen(root, at, n)
      && (FirstIsDict(root, at) <==> i + 1 < |lines| && lines[i + 1].KeysLine?)
    case KeysLine(keys) =>
      && 0 < i && lines[i - 1].PathLine?
      && FirstIsDict(root, lines[i - 1].at)
      && keys == FirstKeys(root, lines[i - 1].at)
  }

  /** Every line of the report is right about the document, and it starts with a `PATH` line. */
  ghost predicate Reported(root: Json, lines: seq<Line>)
  {
    && (|lines| > 0 ==> lines[0].PathLine?)
    && (forall i :: 0 <= i < |lines| ==> LineOk(root, lines, i))
  }

  lemma ReportedAppend(root: Json, a: seq<Line>, b: seq<Line>)
    requires Reported(root, a) && Reported(root, b)
    ensures Reported(root, a + b)
  {
    var ab := a + b;
    forall i | 0 <= i < |ab|
      ensures LineOk(root, ab, i)
    {
      if i < |a| {
        assert LineOk(root, a, i);
        assert ab[i] == a[i];
        if i + 1 < |a| {
          assert ab[i + 1] == a[i + 1];
        } else if |b| > 0 {
          assert ab[i + 1] == b[0];
        }
        if i > 0 {
          assert ab[i - 1] == a[i - 1];
        }
      } else {
        assert LineOk(root, b, i - |a|);
        assert ab[i] == b[i - |a|];
        if i + 1 < |ab| {
          assert ab[i + 1] == b[i + 1 - |a|];
        }
        if i > |a| {
          assert ab[i - 1] == b[i - 1 - |a|];
        }
      }
    }
  }

  /** The report of a walk started at the node that `at` designates, `depth == |at|` steps down. */
  lemma {:induction false} WalkReported(root: Json, obj: Json, at: seq<Seg>, depth: nat)
    requires NodeAt(root, at) == Some(obj) && |at| == depth && ValidJson(obj)
    ensures Reported(root, WalkSpec(obj, at, depth))
    decreases WalkDepth + 1 - depth, 1
  {
    if depth <= WalkDepth {
      match obj
      case JList(xs) =>
        if |xs| > 0 {
          var head := ListHead(at, xs);
          assert ListOfLen(root, at, |xs|);
          if xs[0].JMap? {
            assert head == [PathLine(at, |xs|), KeysLine(KeysSample(xs[0].members))];
            assert FirstIsDict(root, at) && head[1].keys == FirstKeys(root, at);
          } else {
            assert head == [PathLine(at, |xs|)];
            assert !FirstIsDict(root, at);
          }
          NodeAtSnoc(root, at, Index0);
          WalkReported(root, xs[0], at + [Index0], depth + 1);
          ReportedAppend(root, head, WalkSpec(xs[0], at + [Index0], depth + 1));
        }
      case JMap(ms) =>
        assert ms[..|ms|] == ms;
        WalkMembersReported(root, ms, ms, at, depth);
      case JScalar(_) =>
    }
  }

  lemma {:induction false} WalkMembersReported(root: Json, full: seq<Member>, ms: seq<Member>, at: seq<Seg>, depth: nat)
    requires NodeAt(root, at) == Some(JMap(full)) && ValidJson(JMap(full))
    requires |ms| <= |full| && ms == full[..|ms|]
    requires |at| == depth <= WalkDepth
    ensures Reported(root, WalkMembers(ms, at, depth))
    decreases WalkDepth + 1 - depth, 0, |ms|
  {
    if |ms| > 0 {
      var n := |ms| - 1;
      var last := ms[n];
      assert ms[..n] == full[..n];
      WalkMembersReported(root, full, ms[..n], at, depth);
      if last.value.IsContainer() {
        assert last == full[n];
        MemberReported(root, full, n, at, depth);
        ReportedAppend(root, WalkMembers(ms[..n], at, depth), WalkSpec(last.value, at + [Key(last.key)], depth + 1));
      } else {
        assert WalkMembers(ms, at, depth) == WalkMembers(ms[..n], at, depth);
      }
    }
  }

  /** The report of the walk into member `n` of a dict. */
  lemma {:induction false} MemberReported(root: Json, full: seq<Member>, n: nat, at: seq<Seg>, depth: nat)
    requires NodeAt(root, at) == Some(JMap(full)) && ValidJson(JMap(full))
    requires n < |full| && |at| == depth <= WalkDepth
    ensures Reported(root, WalkSpec(full[n].value, at + [Key(full[n].key)], depth + 1))
    decreases WalkDepth + 1 - depth, 0, 0
  {
    var m := full[n];
    LookupMember(full, n);
    NodeAtSnoc(root, at, Key(m.key));
    NodeAtKey(full, m.key, m.value);
    assert ValidJson(m.value);
    WalkReported(root, m.value, at + [Key(m.key)], depth + 1);
  }

  /** The one-step path `.k` designates the value under `k`. */
  lemma NodeAtKey(ms: seq<Member>, k: string, v: Json)
    requires Lookup(ms, k) == Some(v)
    ensures NodeAt(JMap(ms), [Key(k)]) == Some(v)
  {
    assert [Key(k)][1..] == [];
  }

  /** The whole report of `_analyze_json_vitals(data)`. */
  lemma VitalsReported(data: Json)
    requires ValidJson(data)
    ensures Reported(data, WalkSpec(data, [], 0))
  {
    WalkReported(data, data, [], 0);
  }

  /** A node from which some path reaches a list is a dict or a list itself. */
  lemma ReachesListIsContainer(c: Json, p: seq<Seg>, xs: seq<Json>)
    requires NodeAt(c, p) == Some(JList(xs))
    ensures c.IsContainer()
  {
    if |p| > 0 {
      PathDown(c, p, JList(xs));
    }
  }

  /** Whatever the walk into member `i` reports is part of the dict loop's report. */
  lemma {:induction false} WalkMembersContains(ms: seq<Member>, at: seq<Seg>, depth: nat, i: nat, l: Line)
    requires depth <= WalkDepth && i < |ms| && ms[i].value.IsContainer()
    requires l in WalkSpec(ms[i].value, at + [Key(ms[i].key)], depth + 1)
    ensures l in WalkMembers(ms, at, depth)
    decreases |ms|
  {
    var n := |ms| - 1;
    var init := ms[..n];
    if i < n {
      assert init[i] == ms[i];
      WalkMembersContains(init, at, depth, i, l);
    }
  }

  /**
   * The walk misses no list within reach: a non-empty list that `rest` leads
   * to from `obj`, no deeper than 7 steps, gets its `PATH` line.
   */
  lemma {:induction false} WalkComplete(obj: Json, at: seq<Seg>, depth: nat, rest: seq<Seg>, xs: seq<Json>)
    requires NodeAt(obj, rest) == Some(JList(xs)) && |xs| > 0 && depth + |rest| <= WalkDepth
    ensures PathLine(at + rest, |xs|) in WalkSpec(obj, at, depth)
    decreases |rest|
  {
    if |rest| == 0 {
      assert obj == JList(xs) && at + rest == at;
      assert ListHead(at, xs)[0] == PathLine(at, |xs|);
    } else {
      var s := rest[0];
      PathDown(obj, rest, JList(xs));
      var c := Child(obj, s).value;
      assert at + rest == (at + [s]) + rest[1..];
      WalkComplete(c, at + [s], depth + 1, rest[1..], xs);
      var l := PathLine(at + rest, |xs|);
      match s
      case Index0 =>
        assert WalkSpec(obj, at, depth) == ListHead(at, obj.items) + WalkSpec(c, at + [Index0], depth + 1);
      case Key(k) =>
        var i :| 0 <= i < |obj.members| && obj.members[i] == Member(k, c);
        ReachesListIsContainer(c, rest[1..], xs);
        WalkMembersContains(obj.members, at, depth, i, l);
    }
  }

  /** Every non-empty list at most 7 steps below the root is reported. */
  lemma VitalsComplete(data: Json, at: seq<Seg>, xs: seq<Json>)
    requires NodeAt(data, at) == Some(JList(xs)) && |xs| > 0 && |at| <= WalkDepth
    ensures PathLine(at, |xs|) in WalkSpec(data, [], 0)
  {
    WalkComplete(data, [], 0, at, xs);
    assert [] + at == at;
  }

  // ---------------------------------------------------------------------
  // Path resolution (`_get_value_by_path`)
  // ---------------------------------------------------------------------

  /** Python's `None` for a JSON `null`: the resolver cannot tell it from a miss. */
  function PyValue(v: Json): (r: Option<Json>)
    ensures r.None? <==> v == JScalar(Null)
    ensures r.Some? ==> r.value == v
  {
    if v == JScalar(Null) then None else Some(v)
  }

  /** `d.get(k)` */
  function Get(members: seq<Member>, k: string): Option<Json>
  {
    match Lookup(members, k)
    case None => None
    case Some(v) => PyValue(v)
  }

  /** `xs[n]` with Python's negative indices; `None` where it raises `IndexError`. */
  function IndexInto(xs: seq<Json>, n: int): Option<Json>
  {
    if 0 <= n < |xs| then PyValue(xs[n])
    else if -|xs| <= n < 0 then PyValue(xs[|xs| + n])
    else None
  }

  /**
   * One iteration of the resolver's loop on the dot-separated part `p`. A
   * part with a bracket must split into exactly a name and an index (anything
   * else raises and yields `None`); the name is looked up only when the
   * current value is a dict, and the index applies only to a non-empty list.
   */
  function Step(curr: Option<Json>, p: string): Option<Json>
  {
    if '[' in p then
      var pieces := Split(p, '[');
      if |pieces| != 2 then None
      else
        var c := if curr.Some? && curr.value.JMap? then Get(curr.value.members, pieces[0]) else curr;
        if c.Some? && c.value.JList? && |c.value.items| > 0 then
          match PyInt(RemoveAll(pieces[1], "]"))
          case None => None
          case Some(n) => if |c.value.items| > n then IndexInto(c.value.items, n) else None
        else None
    else if curr.Some? && curr.value.JMap? then Get(curr.value.members, p)
    else None
  }

  function ResolveParts(curr: Option<Json>, parts: seq<string>): Option<Json>
    decreases |parts|
  {
    if |parts| == 0 then curr else ResolveParts(Step(curr, parts[0]), parts[1..])
  }

  /** The parts the resolver walks: every `root.` removed, then split on `.`. */
  function PathParts(path: string): (r: seq<string>)
    ensures |r| >= 1
  {
    Split(RemoveAll(path, "root."), '.')
  }

  /** `_get_value_by_path(data, path)`; `None` stands for Python's `None`. */
  function Resolve(data: Json, path: string): Option<Json>
  {
    ResolveParts(Some(data), PathParts(path))
  }

  /** Once the current value is `None`, it stays `None`. */
  lemma {:induction false} ResolveFromNone(parts: seq<string>)
    ensures ResolveParts(None, parts) == None
    decreases |parts|
  {
    if |parts| > 0 {
      assert Step(None, parts[0]) == None;
      ResolveFromNone(parts[1..]);
    }
  }

  method GetValueByPath(data: Json, path: string) returns (r: Option<Json>)
    ensures r == Resolve(data, path)
  {
    var parts := Split(RemoveAll(path, "root."), '.');
    var curr: Option<Json> := Some(data);
    for i := 0 to |parts|
      invariant ResolveParts(curr, parts[i..]) == Resolve(data, path)
    {
      var p := parts[i];
      assert parts[i..][1..] == parts[i + 1..];
      if '[' in p {
        var pieces := Split(p, '[');
        if |pieces| != 2 {
          ResolveFromNone(parts[i + 1..]);
          return None;
        }
        var name, idx := pieces[0], pieces[1];
        if curr.Some? && curr.value.JMap? {
          curr := Get(curr.value.members, name);
        }
        var n := PyInt(RemoveAll(idx, "]"));
        if curr.Some? && curr.value.JList? && |curr.value.items| > 0 && n.Some? && |curr.value.items| > n.value {
          curr := IndexInto(curr.value.items, n.value);
        } else {
          ResolveFromNone(parts[i + 1..]);
          return None;
        }
      } else {
        curr := if curr.Some? && curr.value.JMap? then Get(curr.value.members, p) else None;
      }
    }
    r := curr;
  }

  /** A part with two brackets, such as `a[0][0]`, makes the whole path fail. */
  lemma {:induction false} DoubleBracketFails(curr: Option<Json>, parts: seq<string>, i: nat)
    requires i < |parts| && |Split(parts[i], '[')| > 2
    ensures ResolveParts(curr, parts) == None
    decreases i
  {
    if i == 0 {
      assert Step(curr, parts[0]) == None;
      ResolveFromNone(parts[1..]);
    } else {
      assert parts[1..][i - 1] == parts[i];
      DoubleBracketFails(Step(curr, parts[0]), parts[1..], i - 1);
    }
  }

  /** The single-part failures: a missing key, a non-dict value, an index out of range. */
  lemma StepFailures(curr: Option<Json>, p: string)
    ensures '[' !in p && (curr.None? || !curr.value.JMap?) ==> Step(curr, p) == None
    ensures '[' !in p && curr.Some? && curr.value.JMap? && p !in Keys(curr.value.members) ==> Step(curr, p) == None
    ensures (var pieces := Split(p, '[');
             && '[' in p && |pieces| == 2 && curr.Some? && curr.value.JList?
             && PyInt(RemoveAll(pieces[1], "]")).Some?
             && var n := PyInt(RemoveAll(pieces[1], "]")).value;
             (n >= |curr.value.items| || n < -|curr.value.items|))
            ==> Step(curr, p) == None
    ensures (var pieces := Split(p, '[');
             && '[' in p && |pieces| == 2 && curr.Some? && curr.value.JMap?
             && pieces[0] !in Keys(curr.value.members))
            ==> Step(curr, p) == None
    ensures (var pieces := Split(p, '[');
             && '[' in p && |pieces| == 2 && curr.Some? && curr.value.JMap?
             && Lookup(curr.value.members, pieces[0]).Some?
             && var v := Lookup(curr.value.members, pieces[0]).value;
             !(v.JList? && |v.items| > 0))
            ==> Step(curr, p) == None
    ensures (var pieces := Split(p, '[');
             && '[' in p && |pieces| == 2 && curr.Some? && curr.value.JMap?
             && Lookup(curr.value.members, pieces[0]).Some?
             && Lookup(curr.value.members, pieces[0]).value.JList?
             && PyInt(RemoveAll(pieces[1], "]")).Some?
             && var xs := Lookup(curr.value.members, pieces[0]).value.items;
             var n := PyInt(RemoveAll(pieces[1], "]")).value;
             (n >= |xs| || n < -|xs|))
            ==> Step(curr, p) == None
    ensures (var pieces := Split(p, '[');
             '[' in p && |pieces| == 2 && PyInt(RemoveAll(pieces[1], "]")).None?)
            ==> Step(curr, p) == None
  {
  }

  // ---------------------------------------------------------------------
  // Round trip: a reported path resolves to the node it names
  // ---------------------------------------------------------------------

  /** A key that survives the resolver's `replace`, `split('.')` and `split('[')`. */
  predicate SafeKey(k: string)
  {
    '.' !in k && '[' !in k && !EndsWith(k, "root")
  }

  /** No `[0]` directly after another `[0]`: no list directly inside a list inside a list. */
  ghost predicate NoDoubleIndex(at: seq<Seg>)
  {
    forall i :: 0 <= i < |at| - 1 ==> !(at[i].Index0? && at[i + 1].Index0?)
  }

  ghost predicate SafeKeys(at: seq<Seg>)
  {
    forall i :: 0 <= i < |at| ==> at[i].Key? ==> SafeKey(at[i].k)
  }

  /** The paths the round trip holds for. */
  ghost predicate SafePath(at: seq<Seg>)
  {
    |at| > 0 && NoDoubleIndex(at) && SafeKeys(at)
  }

  /** A path that starts with a key and keeps the two conditions above. */
  ghost predicate KeyLed(at: seq<Seg>)
  {
    |at| > 0 && at[0].Key? && NoDoubleIndex(at) && SafeKeys(at)
  }

  /** How many steps the first dot-separated part of a key-led path covers. */
  function Stride(at: seq<Seg>): (n: nat)
    requires |at| > 0
    ensures 1 <= n <= |at|
  {
    if |at| >= 2 && at[1].Index0? then 2 else 1
  }

  lemma KeyLedTail(at: seq<Seg>)
    requires KeyLed(at) && Stride(at) < |at|
    ensures KeyLed(at[Stride(at)..])
  {
    var n := Stride(at);
    assert at[n..][0] == at[n];
    if n == 1 {
      assert at[1].Key?;
    } else {
      assert !(at[1].Index0? && at[2].Index0?);
    }
  }

  /** The first dot-separated part of a key-led path's text. */
  function FirstPart(at: seq<Seg>): string
    requires |at| > 0 && at[0].Key?
  {
    if Stride(at) == 2 then at[0].k + "[0]" else at[0].k
  }

  /** The dot-separated parts of the text of a key-led path. */
  ghost function KeyedParts(at: seq<Seg>): (r: seq<string>)
    requires KeyLed(at)
    ensures |r| > 0 && r[0] == FirstPart(at)
    decreases |at|
  {
    var n := Stride(at);
    if n == |at| then [FirstPart(at)]
    else
      KeyLedTail(at);
      [FirstPart(at)] + KeyedParts(at[n..])
  }

  lemma JoinCons(p: string, rest: seq<string>, sep: string)
    requires |rest| > 0
    ensures Join([p] + rest, sep) == p + sep + Join(rest, sep)
  {
    assert ([p] + rest)[1..] == rest;
  }

  /** The text of the first stride of a key-led path. */
  lemma StrideText(at: seq<Seg>)
    requires |at| > 0 && at[0].Key?
    ensures SegsText(at) == "." + FirstPart(at) + SegsText(at[Stride(at)..])
  {
    var k := at[0].k;
    assert SegsText(at) == "." + k + SegsText(at[1..]);
    if Stride(at) == 2 {
      var t := SegsText(at[2..]);
      assert at[1..][0] == Index0 && at[1..][1..] == at[2..];
      assert SegsText(at[1..]) == "[0]" + t;
      Assoc("." + k, "[0]", t);
      Assoc(".", k, "[0]");
    }
  }

  /** The text of a key-led path, given the text of what follows its first part. */
  lemma KeyedTextStep(at: seq<Seg>)
    requires KeyLed(at) && Stride(at) < |at| && KeyLed(at[Stride(at)..])
    requires SegsText(at[Stride(at)..]) == "." + Join(KeyedParts(at[Stride(at)..]), ".")
    ensures SegsText(at) == "." + Join(KeyedParts(at), ".")
  {
    var first := FirstPart(at);
    var rest := KeyedParts(at[Stride(at)..]);
    var tailText := Join(rest, ".");
    StrideText(at);
    assert KeyedParts(at) == [first] + rest;
    JoinCons(first, rest, ".");
    DotShape(first, tailText);
  }

  lemma DotShape(a: string, b: string)
    ensures "." + a + ("." + b) == "." + (a + "." + b)
  {
  }

  lemma {:induction false} KeyedText(at: seq<Seg>)
    requires KeyLed(at)
    ensures SegsText(at) == "." + Join(KeyedParts(at), ".")
    decreases |at|
  {
    var n := Stride(at);
    if n < |at| {
      KeyLedTail(at);
      KeyedText(at[n..]);
      KeyedTextStep(at);
    } else {
      StrideText(at);
      assert at[n..] == [];
      assert KeyedParts(at) == [FirstPart(at)];
      assert SegsText(at) == "." + FirstPart(at) + "";
    }
  }

  /** No part contains a dot, and no part ends in `root`. */
  ghost predicate CleanParts(parts: seq<string>)
  {
    forall i :: 0 <= i < |parts| ==> '.' !in parts[i] && !EndsWith(parts[i], "root")
  }

  /** A name followed by `[0]` holds no dot when the name has none, and does not end in `root`. */
  lemma IndexedClean(k: string)
    requires '.' !in k
    ensures '.' !in k + "[0]" && !EndsWith(k + "[0]", "root")
  {
    var part := k + "[0]";
    assert part[|part| - 1] == ']';
    forall i | 0 <= i < |part| ensures part[i] != '.' {
      if i >= |k| {
        assert part[i] == "[0]"[i - |k|];
      }
    }
  }

  lemma {:induction false} KeyedClean(at: seq<Seg>)
    requires KeyLed(at)
    ensures CleanParts(KeyedParts(at))
    decreases |at|
  {
    var k := at[0].k;
    assert SafeKey(k);
    if Stride(at) == 2 {
      IndexedClean(k);
    }
    var n := Stride(at);
    if n < |at| {
      KeyLedTail(at);
      KeyedClean(at[n..]);
      var r := KeyedParts(at);
      assert r[1..] == KeyedParts(at[n..]);
      forall i | 1 <= i < |r| ensures '.' !in r[i] && !EndsWith(r[i], "root") {
        assert r[i] == r[1..][i - 1];
      }
    }
  }

  /** Gluing a `root.`-free string after a dot creates no `root.` unless the first piece ends in `root`. */
  lemma AvoidsAcrossDot(a: string, b: string)
    requires '.' !in a && !EndsWith(a, "root") && Avoids(b, "root.")
    ensures Avoids(a + "." + b, "root.")
  {
    var s := a + "." + b;
    var pat := "root.";
    forall i: nat
      ensures !OccursAt(s, pat, i)
    {
      if i + 5 <= |s| {
        var w := s[i..i + 5];
        if i + 5 <= |a| {
          assert w[4] == a[i + 4] != '.';
          assert w[4] != pat[4];
        } else if i + 4 == |a| {
          assert w[..4] == a[|a| - 4..] != "root";
          assert w[..4] != pat[..4];
        } else if i <= |a| {
          assert w[|a| - i] == '.' != pat[|a| - i];
        } else {
          var k := i - |a| - 1;
          assert s[|a| + 1..] == b;
          assert w == s[|a| + 1..][k..k + 5];
          assert !OccursAt(b, pat, k);
        }
      }
    }
  }

  lemma {:induction false} CleanJoinAvoids(parts: seq<string>)
    requires |parts| > 0 && CleanParts(parts)
    ensures Avoids(Join(parts, "."), "root.")
    decreases |parts|
  {
    if |parts| == 1 {
      var p := parts[0];
      forall i: nat ensures !OccursAt(p, "root.", i) {
        if i + 5 <= |p| {
          assert p[i..i + 5][4] == p[i + 4];
        }
      }
    } else {
      CleanJoinAvoids(parts[1..]);
      AvoidsAcrossDot(parts[0], Join(parts[1..], "."));
    }
  }

  /** The resolver splits a dot-joined text of clean parts back into those parts. */
  lemma CleanPartsBack(parts: seq<string>)
    requires |parts| > 0 && CleanParts(parts)
    ensures PathParts(Join(parts, ".")) == parts
    ensures PathParts("root." + Join(parts, ".")) == parts
  {
    var joined := Join(parts, ".");
    CleanJoinAvoids(parts);
    RemoveAllAbsent(joined, "root.");
    assert ("root." + joined)[5..] == joined;
    SplitJoin(parts, '.');
  }

  /** `int("0]".replace("]", ""))` is 0, and `"x[0]".split("[")` is `["x", "0]"]`. */
  lemma SplitKeyIndex(k: string)
    requires '[' !in k
    ensures '[' in k + "[0]"
    ensures Split(k + "[0]", '[') == [k, "0]"]
  {
    var zero := "0]";
    assert (k + "[0]")[|k|] == '[';
    assert k + "[0]" == k + ['['] + zero;
    SplitCons(k, '[', zero);
    assert '[' !in zero;
  }

  /** The index text `0]` reads as the index 0 once its `]` is removed. */
  lemma ZeroIndex(z: string)
    requires z == "0]"
    ensures PyInt(RemoveAll(z, "]")) == Some(0)
  {
    var close := "]";
    var rest := z[1..];
    assert z[0] == '0' && close[0] == ']';
    assert !(close <= z) && rest == close && rest[|close|..] == [];
    assert RemoveAll(rest, close) == RemoveAll(rest[|close|..], close) == [];
    assert RemoveAll(z, close) == [z[0]] + RemoveAll(rest, close);
    var d := [z[0]];
    assert TrimLeft(d) == d && TrimRight(d) == d;
    assert DigitGroups(d) && DigitsValue(d) == 0;
  }

  /** One resolver step over the first part of a key-led path. */
  lemma StepFirstPart(j: Json, at: seq<Seg>)
    requires KeyLed(at) && NodeAt(j, at).Some?
    ensures NodeAt(j, at[..Stride(at)]).Some?
    ensures Step(Some(j), FirstPart(at)) == PyValue(NodeAt(j, at[..Stride(at)]).value)
    ensures NodeAt(j, at) == NodeAt(NodeAt(j, at[..Stride(at)]).value, at[Stride(at)..])
  {
    var k := at[0].k;
    assert SafeKey(k);
    var v := Lookup(j.members, k).value;
    assert NodeAt(j, at) == NodeAt(v, at[1..]);
    if Stride(at) == 2 {
      var pre := at[..2];
      assert pre[0] == Key(k) && pre[1..] == [Index0] && [Index0][1..] == [];
      assert at[1..][0] == Index0 && at[1..][1..] == at[2..];
      assert NodeAt(v, at[1..]) == NodeAt(v.items[0], at[2..]);
      assert NodeAt(v, [Index0]) == Some(v.items[0]);
      assert NodeAt(j, pre) == NodeAt(v, [Index0]);
      StepKeyIndexPart(j, k, v);
    } else {
      var pre := at[..1];
      assert pre[0] == Key(k) && pre[1..] == [];
      assert NodeAt(j, pre) == Some(v);
      StepKeyPart(j, k);
    }
  }

  /** The resolver step on a plain key reads the key, as `dict.get` does. */
  lemma StepKeyPart(j: Json, k: string)
    requires '[' !in k && j.JMap?
    ensures Step(Some(j), k) == Get(j.members, k)
  {
  }

  /** The resolver step on `k[0]` reads the first element of the list under `k`. */
  lemma StepKeyIndexPart(j: Json, k: string, v: Json)
    requires '[' !in k && j.JMap? && Lookup(j.members, k) == Some(v) && v.JList? && |v.items| > 0
    ensures Step(Some(j), k + "[0]") == PyValue(v.items[0])
  {
    var p := k + "[0]";
    SplitKeyIndex(k);
    var pieces := Split(p, '[');
    assert |pieces| == 2 && pieces[0] == k;
    assert Get(j.members, pieces[0]) == Some(v);
    ZeroIndex(pieces[1]);
    assert IndexInto(v.items, 0) == PyValue(v.items[0]);
  }

  /** A node a non-empty key-led path continues from is a dict, so Python never reads it as `None`. */
  lemma ContinuedNode(y: Json, rest: seq<Seg>)
    requires KeyLed(rest) && NodeAt(y, rest).Some?
    ensures PyValue(y) == Some(y)
  {
  }

  /** Resolving the parts of a key-led path follows the path step by step. */
  lemma {:induction false} ResolveKeyed(j: Json, at: seq<Seg>, x: Json)
    requires KeyLed(at) && NodeAt(j, at) == Some(x)
    ensures ResolveParts(Some(j), KeyedParts(at)) == PyValue(x)
    decreases |at|
  {
    var n := Stride(at);
    StepFirstPart(j, at);
    var y := NodeAt(j, at[..n]).value;
    var parts := KeyedParts(at);
    if n == |at| {
      assert at[..n] == at && at[n..] == [];
    } else {
      KeyLedTail(at);
      ContinuedNode(y, at[n..]);
      ResolveKeyed(y, at[n..], x);
      assert parts[1..] == KeyedParts(at[n..]);
    }
  }

  /** A key-led path: its text past `root` resolves to the node it designates. */
  lemma ResolveKeyLed(data: Json, at: seq<Seg>, x: Json)
    requires KeyLed(at) && NodeAt(data, at) == Some(x)
    ensures Resolve(data, PathText(at)) == PyValue(x)
  {
    var parts := KeyedParts(at);
    KeyedText(at);
    KeyedClean(at);
    CleanPartsBack(parts);
    var text := Join(parts, ".");
    assert PathText(at) == "root" + ("." + text);
    Assoc("root", ".", text);
    assert PathParts(PathText(at)) == parts;
    ResolveKeyed(data, at, x);
  }

  /** The text `name[0]` is the single part `name[0]`. */
  lemma IndexAloneParts(name: string)
    requires '.' !in name
    ensures PathParts(name + "[0]") == [name + "[0]"]
  {
    var first := name + "[0]";
    IndexedClean(name);
    assert Join([first], ".") == first;
    CleanPartsBack([first]);
  }

  /** The parts of `name[0]` followed by the text of a key-led path. */
  lemma IndexLedParts(name: string, tail: seq<Seg>)
    requires '.' !in name && KeyLed(tail)
    ensures PathParts(name + "[0]" + SegsText(tail)) == [name + "[0]"] + KeyedParts(tail)
  {
    var first := name + "[0]";
    IndexedClean(name);
    var rest := KeyedParts(tail);
    var parts := [first] + rest;
    KeyedText(tail);
    KeyedClean(tail);
    JoinCons(first, rest, ".");
    var tailText := Join(rest, ".");
    assert name + "[0]" + SegsText(tail) == first + ("." + tailText);
    Assoc(first, ".", tailText);
    assert CleanParts(parts) by {
      forall i | 1 <= i < |parts| ensures '.' !in parts[i] && !EndsWith(parts[i], "root") {
        assert parts[i] == rest[i - 1];
      }
    }
    CleanPartsBack(parts);
  }

  /** On a non-empty list, the part `name[0]` takes the first element, whatever the name. */
  lemma StepIndexPart(data: Json, name: string)
    requires '[' !in name && data.JList? && |data.items| > 0
    ensures Step(Some(data), name + "[0]") == PyValue(data.items[0])
  {
    var p := name + "[0]";
    SplitKeyIndex(name);
    var pieces := Split(p, '[');
    assert |pieces| == 2;
    ZeroIndex(pieces[1]);
    assert IndexInto(data.items, 0) == PyValue(data.items[0]);
  }

  /** A path that starts with `[0]`: the first part is `root[0]`. */
  lemma ResolveIndexLed(data: Json, at: seq<Seg>, x: Json)
    requires SafePath(at) && at[0].Index0? && NodeAt(data, at) == Some(x)
    ensures Resolve(data, PathText(at)) == PyValue(x)
  {
    var name := "root";
    var tail := at[1..];
    assert NodeAt(data.items[0], tail) == Some(x);
    assert SegsText(at) == "[0]" + SegsText(tail);
    assert PathText(at) == name + "[0]" + SegsText(tail);
    if |tail| == 0 {
      assert name + "[0]" + SegsText(tail) == name + "[0]";
      ResolveIndexAlone(data, name);
    } else {
      assert tail[0] == at[1];
      assert KeyLed(tail);
      ResolveIndexThenKeys(data, name, tail, x);
    }
  }

  /** The text `name[0]` on a non-empty list resolves to its first element. */
  lemma ResolveIndexAlone(data: Json, name: string)
    requires '.' !in name && '[' !in name && data.JList? && |data.items| > 0
    ensures ResolveParts(Some(data), PathParts(name + "[0]")) == PyValue(data.items[0])
  {
    IndexAloneParts(name);
    StepIndexPart(data, name);
    assert ResolveParts(Some(data), [name + "[0]"]) == ResolveParts(Step(Some(data), name + "[0]"), []);
  }

  /** The text `name[0]` followed by a key-led path resolves through the first element. */
  lemma ResolveIndexThenKeys(data: Json, name: string, tail: seq<Seg>, x: Json)
    requires '.' !in name && '[' !in name && data.JList? && |data.items| > 0
    requires KeyLed(tail) && NodeAt(data.items[0], tail) == Some(x)
    ensures ResolveParts(Some(data), PathParts(name + "[0]" + SegsText(tail))) == PyValue(x)
  {
    var y := data.items[0];
    IndexLedParts(name, tail);
    StepIndexPart(data, name);
    var parts := [name + "[0]"] + KeyedParts(tail);
    assert parts[1..] == KeyedParts(tail);
    ContinuedNode(y, tail);
    ResolveKeyed(y, tail, x);
  }

  /**
   * Resolving the text of a path built like the walk's gives back the node
   * the path designates (as Python sees it: a `null` reads as `None`), as long
   * as no key holds `.` or `[` or ends in `root` and no `[0]` directly
   * follows another `[0]`.
   */
  lemma ResolveRoundTrip(data: Json, at: seq<Seg>, x: Json)
    requires SafePath(at) && NodeAt(data, at) == Some(x)
    ensures Resolve(data, PathText(at)) == PyValue(x)
  {
    if at[0].Key? {
      ResolveKeyLed(data, at, x);
    } else {
      ResolveIndexLed(data, at, x);
    }
  }

  /**
   * Every list the walk reports under a safe path is found again by the
   * resolver from the report's path text.
   */
  lemma ReportedPathsResolve(data: Json, i: nat)
    requires ValidJson(data)
    requires i < |WalkSpec(data, [], 0)| && WalkSpec(data, [], 0)[i].PathLine?
    requires SafePath(WalkSpec(data, [], 0)[i].at)
    ensures var line := WalkSpec(data, [], 0)[i];
            var found := Resolve(data, PathText(line.at));
            found.Some? && found.value.JList? && |found.value.items| == line.len > 0
  {
    var lines := WalkSpec(data, [], 0);
    VitalsReported(data);
    assert LineOk(data, lines, i);
    var x := NodeAt(data, lines[i].at).value;
    ResolveRoundTrip(data, lines[i].at, x);
  }

  // ---------------------------------------------------------------------
  // Choosing the core path (`_generate_parser_code`)
  // ---------------------------------------------------------------------

  /** The length of the run of non-whitespace characters of `s` starting at `i`. */
  function NonSpaceRun(s: string, i: nat): (n: nat)
    requires i <= |s|
    ensures i + n <= |s|
    ensures forall j :: i <= j < i + n ==> !IsSpace(s[j])
    ensures i + n == |s| || IsSpace(s[i + n])
    decreases |s| - i
  {
    if i == |s| || IsSpace(s[i]) then 0 else 1 + NonSpaceRun(s, i + 1)
  }

  /** The regular expression `PATH: (root\S+)` matches at position `i`. */
  predicate PathMatchAt(s: string, i: nat)
  {
    OccursAt(s, "PATH: root", i) && i + 10 < |s| && !IsSpace(s[i + 10])
  }

  /** A capture of `PATH: (root\S+)`: it starts with `root` and is followed by at least one more character, none of them whitespace. */
  predicate IsPathCapture(r: string)
  {
    |r| > 4 && r[..4] == "root" && forall j :: 0 <= j < |r| ==> !IsSpace(r[j])
  }

  /**
   * `re.findall(r'PATH: (root\S+)', s[i:])`: left to right, a match takes the
   * whole run of non-whitespace after `PATH: root`, and the search resumes
   * after it.
   */
  function FindPathsFrom(s: string, i: nat): (r: seq<string>)
    requires i <= |s|
    ensures forall k :: 0 <= k < |r| ==> IsPathCapture(r[k]) && Contains(s, "PATH: " + r[k])
    decreases |s| - i
  {
    if i == |s| then []
    else if PathMatchAt(s, i) then
      var n := NonSpaceRun(s, i + 10);
      var capture := s[i + 6..i + 10 + n];
      CaptureFacts(s, i, n);
      [capture] + FindPathsFrom(s, i + 10 + n)
    else FindPathsFrom(s, i + 1)
  }

  lemma CaptureFacts(s: string, i: nat, n: nat)
    requires PathMatchAt(s, i) && n == NonSpaceRun(s, i + 10)
    ensures IsPathCapture(s[i + 6..i + 10 + n])
    ensures Contains(s, "PATH: " + s[i + 6..i + 10 + n])
  {
    CaptureShape(s, i, n);
    CaptureInText(s, i, n);
  }

  lemma CaptureShape(s: string, i: nat, n: nat)
    requires PathMatchAt(s, i) && n == NonSpaceRun(s, i + 10)
    ensures IsPathCapture(s[i + 6..i + 10 + n])
  {
    var capture := s[i + 6..i + 10 + n];
    assert s[i..i + 10] == "PATH: root";
    assert capture[..4] == s[i + 6..i + 10] == "PATH: root"[6..];
    forall j | 0 <= j < |capture| ensures !IsSpace(capture[j]) {
      assert capture[j] == s[i + 6 + j];
      if j < 4 {
        assert s[i + 6 + j] == "root"[j];
      }
    }
  }

  lemma CaptureInText(s: string, i: nat, n: nat)
    requires OccursAt(s, "PATH: root", i) && i + 10 + n <= |s|
    ensures Contains(s, "PATH: " + s[i + 6..i + 10 + n])
  {
    assert s[i..i + 6] == s[i..i + 10][..6] == "PATH: ";
    SliceSplit(s, i, i + 6, i + 10 + n);
    ContainsSlice(s, i, i + 10 + n);
  }

  /** `re.findall(r'PATH: (root\S+)', vitals)` */
  function FindPaths(vitals: string): (r: seq<string>)
    ensures forall k :: 0 <= k < |r| ==> IsPathCapture(r[k]) && Contains(vitals, "PATH: " + r[k])
  {
    FindPathsFrom(vitals, 0)
  }

  const BusinessKeywords: seq<string> := ["price", "article", "sku", "product", "name", "color", "brand", "item"]

  /**
   * The score of a non-empty list: its length, plus 1000 when the text of
   * its first element (lower-cased) mentions a business keyword, minus 500
   * when it has fewer than five elements. `render` stands for `str`.
   */
  function ListScore(items: seq<Json>, render: Json -> string): int
    requires |items| > 0
  {
    |items|
    + (if AnyIn(BusinessKeywords, Lower(render(items[0]))) then 1000 else 0)
    - (if |items| < 5 then 500 else 0)
  }

  /** The score of a path: present only when it resolves to a non-empty list. */
  function PathScore(data: Json, p: string, render: Json -> string): (r: Option<int>)
    ensures r.Some? <==> (var v := Resolve(data, p); v.Some? && v.value.JList? && |v.value.items| > 0)
  {
    var v := Resolve(data, p);
    if v.Some? && v.value.JList? && |v.value.items| > 0 then Some(ListScore(v.value.items, render)) else None
  }

  /** The path chosen and its score. */
  datatype Choice = Choice(path: string, score: int)

  /** The starting point: `best_path = "root"`, `max_score = -1`. */
  const NoChoice := Choice("root", -1)

  /**
   * The loop over `paths` with their scores (`None` for a path that is
   * skipped): a path replaces the current best only with a strictly higher score.
   */
  function BestOf(paths: seq<string>, scores: seq<Option<int>>): Choice
    requires |scores| == |paths|
    decreases |paths|
  {
    if |paths| == 0 then NoChoice
    else
      var prev := BestOf(paths[..|paths| - 1], scores[..|paths| - 1]);
      var sc := scores[|paths| - 1];
      if sc.Some? && sc.value > prev.score then Choice(paths[|paths| - 1], sc.value) else prev
  }

  /** Score `i` is present, and no score is higher. */
  ghost predicate Maximal(scores: seq<Option<int>>, i: int)
  {
    && 0 <= i < |scores|
    && scores[i].Some?
    && forall j :: 0 <= j < |scores| && scores[j].Some? ==> scores[j].value <= scores[i].value
  }

  /** Score `i` is the first of the highest scores, and it is not negative. */
  ghost predicate Wins(scores: seq<Option<int>>, i: int)
  {
    && Maximal(scores, i)
    && scores[i].value >= 0
    && forall j :: 0 <= j < i && scores[j].Some? ==> scores[j].value < scores[i].value
  }

  ghost predicate NoneScores(scores: seq<Option<int>>)
  {
    forall j :: 0 <= j < |scores| && scores[j].Some? ==> scores[j].value < 0
  }

  /** The first maximal path, or, when no score reaches 0, `root` with -1. */
  ghost predicate ChoiceOk(paths: seq<string>, scores: seq<Option<int>>, c: Choice)
    requires |scores| == |paths|
  {
    || (exists i :: Wins(scores, i) && c == Choice(paths[i], scores[i].value))
    || (NoneScores(scores) && c == NoChoice)
  }

  /** A path that beats the choice so far wins. */
  lemma NewWinner(paths: seq<string>, scores: seq<Option<int>>, prev: Choice)
    requires |scores| == |paths| > 0
    requires ChoiceOk(paths[..|paths| - 1], scores[..|paths| - 1], prev)
    requires var sc := scores[|paths| - 1]; sc.Some? && sc.value > prev.score
    ensures Wins(scores, |paths| - 1)
  {
    var init := scores[..|paths| - 1];
    assert forall j :: 0 <= j < |init| ==> init[j] == scores[j];
    if !NoneScores(init) {
      var i :| Wins(init, i) && prev == Choice(paths[..|paths| - 1][i], init[i].value);
    }
  }

  /** A path that does not beat the choice so far leaves it right. */
  lemma KeptChoice(paths: seq<string>, scores: seq<Option<int>>, prev: Choice)
    requires |scores| == |paths| > 0
    requires ChoiceOk(paths[..|paths| - 1], scores[..|paths| - 1], prev)
    requires var sc := scores[|paths| - 1]; !(sc.Some? && sc.value > prev.score)
    ensures ChoiceOk(paths, scores, prev)
  {
    var n := |paths| - 1;
    var init := scores[..n];
    assert forall j :: 0 <= j < |init| ==> init[j] == scores[j];
    if NoneScores(init) && prev == NoChoice {
      assert NoneScores(scores);
    } else {
      var i :| Wins(init, i) && prev == Choice(paths[..n][i], init[i].value);
      assert Wins(scores, i);
      assert paths[..n][i] == paths[i];
    }
  }

  /**
   * The chosen path is the first path with the highest score when some path
   * scores at least 0; otherwise the choice stays `root` with score -1.
   */
  lemma {:induction false} BestOfWins(paths: seq<string>, scores: seq<Option<int>>)
    requires |scores| == |paths|
    ensures ChoiceOk(paths, scores, BestOf(paths, scores))
    decreases |paths|
  {
    if |paths| > 0 {
      var n := |paths| - 1;
      BestOfWins(paths[..n], scores[..n]);
      var prev := BestOf(paths[..n], scores[..n]);
      if scores[n].Some? && scores[n].value > prev.score {
        NewWinner(paths, scores, prev);
      } else {
        KeptChoice(paths, scores, prev);
      }
    }
  }

  /** The scores of the paths, in order. */
  function ScoresOf(data: Json, paths: seq<string>, render: Json -> string): (r: seq<Option<int>>)
    ensures |r| == |paths|
    ensures forall i :: 0 <= i < |paths| ==> r[i] == PathScore(data, paths[i], render)
  {
    seq(|paths|, i requires 0 <= i < |paths| => PathScore(data, paths[i], render))
  }

  /** The choice `_generate_parser_code` makes among the report's paths. */
  function BestPath(data: Json, paths: seq<string>, render: Json -> string): Choice
  {
    BestOf(paths, ScoresOf(data, paths, render))
  }

  /**
   * The path chosen is the first of the paths resolving to a non-empty list
   * with the highest score, if that score is at least 0; otherwise `root`, -1.
   */
  lemma BestPathWins(data: Json, paths: seq<string>, render: Json -> string)
    ensures ChoiceOk(paths, ScoresOf(data, paths, render), BestPath(data, paths, render))
  {
    BestOfWins(paths, ScoresOf(data, paths, render));
  }

  /** A list of fewer than five elements with no business keyword is never chosen. */
  lemma ShortPlainListLoses(data: Json, paths: seq<string>, render: Json -> string, i: int)
    requires 0 <= i < |paths|
    requires var v := Resolve(data, paths[i]);
             v.Some? && v.value.JList? && 0 < |v.value.items| < 5
             && !AnyIn(BusinessKeywords, Lower(render(v.value.items[0])))
    ensures !Wins(ScoresOf(data, paths, render), i)
  {
  }

  /** Among lists with the same keyword verdict and at least five elements, the longer one scores higher. */
  lemma LongerListScoresHigher(a: seq<Json>, b: seq<Json>, render: Json -> string)
    requires 5 <= |a| < |b|
    requires AnyIn(BusinessKeywords, Lower(render(a[0]))) == AnyIn(BusinessKeywords, Lower(render(b[0])))
    ensures ListScore(a, render) < ListScore(b, render)
  {
  }

  /** A keyword list of at least five elements beats a keyword-free list of fewer than 1005. */
  lemma KeywordListScoresHigher(a: seq<Json>, b: seq<Json>, render: Json -> string)
    requires 5 <= |a| && 0 < |b| < 1005
    requires AnyIn(BusinessKeywords, Lower(render(a[0]))) && !AnyIn(BusinessKeywords, Lower(render(b[0])))
    ensures ListScore(b, render) < ListScore(a, render)
  {
  }

  /** A name without `.` or `[` resolves to the top-level member of that name. */
  lemma ResolveName(data: Json, name: string)
    requires '.' !in name && '[' !in name
    ensures Resolve(data, name) == (if data.JMap? then Get(data.members, name) else None)
  {
    assert forall i: nat :: !OccursAt(name, "root.", i) by {
      forall i: nat ensures !OccursAt(name, "root.", i) {
        if i + 5 <= |name| {
          assert name[i..i + 5][4] == name[i + 4];
        }
      }
    }
    RemoveAllAbsent(name, "root.");
    assert PathParts(name) == [name];
    assert Resolve(data, name) == ResolveParts(Step(Some(data), name), []);
  }

  /**
   * When no path wins, the fallback path `root` is looked up as a key of the
   * top-level dict (`"root".replace("root.", "")` is `"root"`).
   */
  lemma FallbackLooksUpRootKey(data: Json)
    ensures Resolve(data, NoChoice.path) == (if data.JMap? then Get(data.members, NoChoice.path) else None)
  {
    var name := NoChoice.path;
    ResolveName(data, name);
  }

  /** `target_list[:1]` or `"Not Found"`. */
  datatype SampleStructure = Found(first: seq<Json>) | NotFound

  /** The path chosen, its score and the sample shown for it. */
  datatype ParserInput = ParserInput(targetPath: string, maxScore: int, sample: SampleStructure)

  /** One more path in the loop: it replaces the best only with a strictly higher score. */
  lemma BestOfStep(paths: seq<string>, scores: seq<Option<int>>, i: nat)
    requires |scores| == |paths| && i < |paths|
    ensures var prev := BestOf(paths[..i], scores[..i]);
            BestOf(paths[..i + 1], scores[..i + 1])
              == if scores[i].Some? && scores[i].value > prev.score then Choice(paths[i], scores[i].value) else prev
  {
    assert paths[..i + 1][..i] == paths[..i];
    assert scores[..i + 1][..i] == scores[..i];
  }

  /** The scoring loop `for p in paths` of `_generate_parser_code`. */
  method ScorePaths(data: Json, paths: seq<string>, render: Json -> string) returns (best: string, maxScore: int)
    ensures Choice(best, maxScore) == BestPath(data, paths, render)
  {
    best := "root";
    maxScore := -1;
    ghost var scores := ScoresOf(data, paths, render);
    for i := 0 to |paths|
      invariant Choice(best, maxScore) == BestOf(paths[..i], scores[..i])
    {
      BestOfStep(paths, scores, i);
      var score := ScorePath(data, paths[i], render);
      if score.Some? && score.value > maxScore {
        maxScore := score.value;
        best := paths[i];
      }
    }
    assert paths[..|paths|] == paths && scores[..|paths|] == scores;
  }

  /** The loop body's score of one path; `None` where the loop skips it. */
  method ScorePath(data: Json, p: string, render: Json -> string) returns (r: Option<int>)
    ensures r == PathScore(data, p, render)
  {
    var v := GetValueByPath(data, p);
    if v.Some? && v.value.JList? && |v.value.items| > 0 {
      var score := |v.value.items|;
      if AnyIn(BusinessKeywords, Lower(render(v.value.items[0]))) {
        score := score + 1000;
      }
      if |v.value.items| < 5 {
        score := score - 500;
      }
      r := Some(score);
    } else {
      r := None;
    }
  }

  /**
   * `_generate_parser_code` up to the prompt: the paths of the report are
   * scored, the best is kept (`max_score`), and its list's first element is
   * the sample.
   */
  method ChooseCorePath(vitals: string, data: Json, render: Json -> string) returns (r: ParserInput)
    ensures Choice(r.targetPath, r.maxScore) == BestPath(data, FindPaths(vitals), render)
    ensures var target := Resolve(data, r.targetPath);
            r.sample == if target.Some? && target.value.JList? then Found(target.value.items[..if |target.value.items| > 0 then 1 else 0]) else NotFound
  {
    var paths := FindPaths(vitals);
    var best, maxScore := ScorePaths(data, paths, render);
    var target := GetValueByPath(data, best);
    var sample := if target.Some? && target.value.JList? then Found(target.value.items[..if |target.value.items| > 0 then 1 else 0]) else NotFound;
    r := ParserInput(best, maxScore, sample);
  }
}
