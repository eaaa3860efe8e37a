/**
 * Parsed JSON documents as the Python code meets them after `json.loads`:
 * dicts (keys in insertion order), lists and scalars.
 */
module Json {
  import opened Wrappers

  datatype Scalar = Null | Bool(b: bool) | Number(literal: string) | Str(s: string)

  /** One `key: value` item of a dict. */
  datatype Member = Member(key: string, value: Json)

  datatype Json =
    | JMap(members: seq<Member>)
    | JList(items: seq<Json>)
    | JScalar(scalar: Scalar)
  {
    /** `isinstance(x, (dict, list))` */
    predicate IsContainer()
    {
      JMap? || JList?
    }
  }

  /** The keys of a dict, in order (`list(d.keys())`). */
  function Keys(members: seq<Member>): (r: seq<string>)
    ensures |r| == |members|
    ensures forall i :: 0 <= i < |members| ==> r[i] == members[i].key
  {
    seq(|members|, i requires 0 <= i < |members| => members[i].key)
  }

  /** The value stored under `k`, if any (the first member with that key). */
  function Lookup(members: seq<Member>, k: string): (r: Option<Json>)
    ensures r.None? <==> forall i :: 0 <= i < |members| ==> members[i].key != k
    ensures r.Some? ==> exists i :: 0 <= i < |members| && members[i] == Member(k, r.value)
  {
    if |members| == 0 then None
    else if members[0].key == k then Some(members[0].value)
    else Lookup(members[1..], k)
  }

  /** One step of a path: `.k` into a dict, `[0]` into a list. */
  datatype Seg = Key(k: string) | Index0

  /** The node a path designates, following the steps literally. */
  function NodeAt(j: Json, at: seq<Seg>): Option<Json>
  {
    if |at| == 0 then Some(j)
    else
      match at[0]
      case Key(k) =>
        if j.JMap? then
          match Lookup(j.members, k)
          case None => None
          case Some(v) => NodeAt(v, at[1..])
        else None
      case Index0 =>
        if j.JList? && |j.items| > 0 then NodeAt(j.items[0], at[1..]) else None
  }

  /** The node one path segment below `j`, if there is one. */
  function Child(j: Json, s: Seg): Option<Json>
  {
    match s
    case Key(k) => if j.JMap? then Lookup(j.members, k) else None
    case Index0 => if j.JList? && |j.items| > 0 then Some(j.items[0]) else None
  }

  /** A path that reaches `x` goes through the child under its first segment. */
  lemma PathDown(j: Json, at: seq<Seg>, x: Json)
    requires |at| > 0 && NodeAt(j, at) == Some(x)
    ensures Child(j, at[0]).Some? && NodeAt(Child(j, at[0]).value, at[1..]) == Some(x)
  {
  }

  /** A path from a child extends to a path from its parent. */
  lemma PathUp(j: Json, at: seq<Seg>, c: Json, x: Json)
    requires |at| > 0 && Child(j, at[0]) == Some(c) && NodeAt(c, at[1..]) == Some(x)
    ensures NodeAt(j, at) == Some(x)
  {
  }

  /** The keys of every dict in the document are distinct, as in a Python dict. */
  ghost predicate ValidJson(j: Json)
  {
    match j
    case JMap(ms) =>
      && (forall a, b :: 0 <= a < b < |ms| ==> ms[a].key != ms[b].key)
      && (forall a :: 0 <= a < |ms| ==> ValidJson(ms[a].value))
    case JList(xs) => forall a :: 0 <= a < |xs| ==> ValidJson(xs[a])
    case JScalar(_) => true
  }

  /** With distinct keys, looking a member's key up finds that member's value. */
  lemma {:induction false} LookupMember(members: seq<Member>, i: nat)
    requires i < |members|
    requires forall a, b :: 0 <= a < b < |members| ==> members[a].key != members[b].key
    ensures Lookup(members, members[i].key) == Some(members[i].value)
    decreases i
  {
    if i > 0 {
      assert members[0].key != members[i].key;
      assert members[1..][i - 1] == members[i];
      LookupMember(members[1..], i - 1);
    }
  }

  /** Nesting height: 0 for a scalar, one more than the highest child for a container. */
  function Height(j: Json): nat
  {
    match j
    case JScalar(_) => 0
    case JList(xs) => 1 + MaxHeight(xs)
    case JMap(ms) => 1 + MaxValueHeight(ms)
  }

  function MaxHeight(xs: seq<Json>): nat
  {
    if |xs| == 0 then 0
    else
      var h := Height(xs[|xs| - 1]);
      var rest := MaxHeight(xs[..|xs| - 1]);
      if h > rest then h else rest
  }

  function MaxValueHeight(ms: seq<Member>): nat
  {
    if |ms| == 0 then 0
    else
      var h := Height(ms[|ms| - 1].value);
      var rest := MaxValueHeight(ms[..|ms| - 1]);
      if h > rest then h else rest
  }
}
