/** The tree Jackson's ObjectMapper builds for a JSON line read as `Map.class`:
    objects become maps (LinkedHashMap, entries in document order), arrays
    become ArrayLists, and strings, numbers, booleans and null stay scalars. */
module JsonValue {

  datatype Option<T> = None | Some(value: T)

  datatype Json =
    | JObj(fields: seq<(string, Json)>)
    | JArr(items: seq<Json>)
    | JStr(text: string)
    | JNum(number: int)
    | JBool(truth: bool)
    | JNull

  /** Map.containsKey / Map.get on an object's entries, read at the first
      binding of the name. A null name is never a key. */
  function Get(fields: seq<(string, Json)>, name: Option<string>): (r: Option<Json>)
    ensures r.Some? <==> name.Some? && exists i :: 0 <= i < |fields| && fields[i].0 == name.value
    ensures r.Some? ==> exists i :: 0 <= i < |fields| && fields[i] == (name.value, r.value)
  {
    if name.None? || fields == [] then None
    else if fields[0].0 == name.value then Some(fields[0].1)
    else Get(fields[1..], name)
  }

  /** Each name is bound at most once: the shape of the map the mapper builds. */
  predicate DistinctNames(fields: seq<(string, Json)>) {
    forall i, j :: 0 <= i < j < |fields| ==> fields[i].0 != fields[j].0
  }

  /** What the mapper's map holds for a name when a document repeats it: each
      put replaces the value, so the last binding is the one kept. */
  function LastBinding(fields: seq<(string, Json)>, name: Option<string>): (r: Option<Json>)
    ensures r.Some? ==> name.Some? && exists i :: 0 <= i < |fields| && fields[i].0 == name.value
  {
    if name.None? || fields == [] then None
    else
      var later := LastBinding(fields[1..], name);
      if later.Some? then later
      else if fields[0].0 == name.value then Some(fields[0].1)
      else None
  }

  /** With distinct names, reading the first binding is reading the value the
      mapper's map keeps. */
  lemma {:induction false} FirstBindingIsLast(fields: seq<(string, Json)>, name: Option<string>)
    requires DistinctNames(fields)
    ensures Get(fields, name) == LastBinding(fields, name)
  {
    if name.Some? && fields != [] {
      var rest := fields[1..];
      assert DistinctNames(rest) by {
        forall i, j | 0 <= i < j < |rest| ensures rest[i].0 != rest[j].0 {
          assert rest[i] == fields[i + 1] && rest[j] == fields[j + 1];
        }
      }
      FirstBindingIsLast(rest, name);
    }
  }

  /** What one entry value adds to the search queue: a nested map is added,
      a list is added element by element whatever the elements are, and a
      scalar or null adds nothing. */
  function ValueChildren(v: Json): seq<Json> {
    match v
    case JObj(_) => [v]
    case JArr(items) => items
    case _ => []
  }

  /** The queue additions of all entries, in entry order. */
  function FieldChildren(fields: seq<(string, Json)>): seq<Json> {
    if fields == [] then [] else ValueChildren(fields[0].1) + FieldChildren(fields[1..])
  }

  function Children(j: Json): seq<Json> {
    if j.JObj? then FieldChildren(j.fields) else []
  }

  /** The children of every element of `s`, in queue order. */
  function Expand(s: seq<Json>): seq<Json> {
    if s == [] then [] else Children(s[0]) + Expand(s[1..])
  }

  /** Node count, used to show that the search terminates. */
  function Size(j: Json): nat
    decreases j, 1
  {
    match j
    case JObj(fields) => 1 + FieldsSize(fields)
    case JArr(items) => 1 + SumSize(items)
    case _ => 1
  }

  function SumSize(s: seq<Json>): nat
    decreases s, 0
  {
    if s == [] then 0 else Size(s[0]) + SumSize(s[1..])
  }

  function FieldsSize(fields: seq<(string, Json)>): nat
    decreases fields, 0
  {
    if fields == [] then 0
    else
      assert fields[0].1 < fields[0];
      Size(fields[0].1) + FieldsSize(fields[1..])
  }

  lemma {:induction false} SumSizeAppend(a: seq<Json>, b: seq<Json>)
    ensures SumSize(a + b) == SumSize(a) + SumSize(b)
  {
    if a != [] {
      assert (a + b)[0] == a[0] && (a + b)[1..] == a[1..] + b;
      SumSizeAppend(a[1..], b);
    } else {
      assert a + b == b;
    }
  }

  lemma {:induction false} FieldChildrenSize(fields: seq<(string, Json)>)
    ensures SumSize(FieldChildren(fields)) <= FieldsSize(fields)
  {
    if fields != [] {
      var v := fields[0].1;
      SumSizeAppend(ValueChildren(v), FieldChildren(fields[1..]));
      FieldChildrenSize(fields[1..]);
      if v.JObj? {
        assert SumSize([v]) == Size(v) + SumSize([]);
      }
    }
  }

  /** The queue additions of an object are smaller, in total, than the object. */
  lemma ChildrenSmaller(j: Json)
    requires j.JObj?
    ensures SumSize(Children(j)) < Size(j)
  {
    FieldChildrenSize(j.fields);
  }

  lemma {:induction false} ExpandAppend(a: seq<Json>, b: seq<Json>)
    ensures Expand(a + b) == Expand(a) + Expand(b)
  {
    if a != [] {
      assert (a + b)[0] == a[0] && (a + b)[1..] == a[1..] + b;
      ExpandAppend(a[1..], b);
    } else {
      assert a + b == b;
    }
  }

  lemma FieldChildrenAppend(a: seq<(string, Json)>, b: seq<(string, Json)>)
    ensures FieldChildren(a + b) == FieldChildren(a) + FieldChildren(b)
    decreases a
  {
    if a != [] {
      assert (a + b)[0] == a[0] && (a + b)[1..] == a[1..] + b;
      FieldChildrenAppend(a[1..], b);
    } else {
      assert a + b == b;
    }
  }

  /** FieldChildren of one more entry. */
  lemma FieldChildrenSnoc(fields: seq<(string, Json)>, j: nat)
    requires j < |fields|
    ensures FieldChildren(fields[..j + 1]) == FieldChildren(fields[..j]) + ValueChildren(fields[j].1)
  {
    assert fields[..j + 1] == fields[..j] + [fields[j]];
    FieldChildrenAppend(fields[..j], [fields[j]]);
    assert FieldChildren([fields[j]]) == ValueChildren(fields[j].1) + FieldChildren([]);
  }

  /** Some map reachable from `j` through map values and list elements holds `name`. */
  predicate Occurs(j: Json, name: Option<string>)
    decreases j, 1
  {
    match j
    case JObj(fields) =>
      Get(fields, name).Some? || exists i :: 0 <= i < |fields| && OccursBelow(fields[i].1, name)
    case _ => false
  }

  /** `name` occurs in a map that an entry value `v` puts on the queue, or below it. */
  predicate OccursBelow(v: Json, name: Option<string>)
    decreases v, 2
  {
    match v
    case JObj(_) => Occurs(v, name)
    case JArr(items) => exists k :: 0 <= k < |items| && Occurs(items[k], name)
    case _ => false
  }

  predicate AnyOccurs(s: seq<Json>, name: Option<string>) {
    exists m :: 0 <= m < |s| && Occurs(s[m], name)
  }

  /** Every list reachable from the map `j` holds only maps: the search can dequeue
      nothing but maps. */
  predicate ListsHoldMaps(j: Json)
    decreases j, 1
  {
    match j
    case JObj(fields) => forall i :: 0 <= i < |fields| ==> ValueHoldsMaps(fields[i].1)
    case _ => false
  }

  predicate ValueHoldsMaps(v: Json)
    decreases v, 2
  {
    match v
    case JObj(_) => ListsHoldMaps(v)
    case JArr(items) => forall k :: 0 <= k < |items| ==> ListsHoldMaps(items[k])
    case _ => true
  }

  predicate AllHoldMaps(s: seq<Json>) {
    forall m :: 0 <= m < |s| ==> ListsHoldMaps(s[m])
  }

  lemma {:induction false} FieldChildrenHoldMaps(fields: seq<(string, Json)>)
    requires forall i :: 0 <= i < |fields| ==> ValueHoldsMaps(fields[i].1)
    ensures AllHoldMaps(FieldChildren(fields))
  {
    if fields != [] {
      FieldChildrenHoldMaps(fields[1..]);
      var a, b := ValueChildren(fields[0].1), FieldChildren(fields[1..]);
      assert forall m :: 0 <= m < |a + b| ==> (a + b)[m] == if m < |a| then a[m] else b[m - |a|];
    }
  }

  /** Children of maps whose lists hold maps are again such maps. */
  lemma {:induction false} ExpandHoldsMaps(s: seq<Json>)
    requires AllHoldMaps(s)
    ensures AllHoldMaps(Expand(s))
  {
    if s != [] {
      ExpandHoldsMaps(s[1..]);
      FieldChildrenHoldMaps(s[0].fields);
      var a, b := Children(s[0]), Expand(s[1..]);
      assert forall m :: 0 <= m < |a + b| ==> (a + b)[m] == if m < |a| then a[m] else b[m - |a|];
    }
  }

  lemma AnyOccursAppend(a: seq<Json>, b: seq<Json>, name: Option<string>)
    ensures AnyOccurs(a + b, name) <==> AnyOccurs(a, name) || AnyOccurs(b, name)
  {
    if AnyOccurs(a, name) {
      var m :| 0 <= m < |a| && Occurs(a[m], name);
      assert (a + b)[m] == a[m];
    }
    if AnyOccurs(b, name) {
      var m :| 0 <= m < |b| && Occurs(b[m], name);
      assert (a + b)[|a| + m] == b[m];
    }
    if AnyOccurs(a + b, name) {
      var m :| 0 <= m < |a + b| && Occurs((a + b)[m], name);
      if m >= |a| {
        assert b[m - |a|] == (a + b)[m];
      } else {
        assert a[m] == (a + b)[m];
      }
    }
  }

  /** An entry value leads to a map holding `name` exactly when what it puts
      on the queue does. */
  lemma {:induction false} FieldsOccur(fields: seq<(string, Json)>, name: Option<string>)
    ensures (exists i :: 0 <= i < |fields| && OccursBelow(fields[i].1, name))
            <==> AnyOccurs(FieldChildren(fields), name)
  {
    if fields != [] {
      var v := fields[0].1;
      FieldsOccur(fields[1..], name);
      AnyOccursAppend(ValueChildren(v), FieldChildren(fields[1..]), name);
      assert OccursBelow(v, name) <==> AnyOccurs(ValueChildren(v), name) by {
        if v.JObj? {
          assert ValueChildren(v)[0] == v;
        }
      }
      if exists i :: 0 <= i < |fields| && OccursBelow(fields[i].1, name) {
        var i :| 0 <= i < |fields| && OccursBelow(fields[i].1, name);
        if i > 0 {
          assert fields[1..][i - 1] == fields[i];
        }
      }
      if exists i :: 0 <= i < |fields[1..]| && OccursBelow(fields[1..][i].1, name) {
        var i :| 0 <= i < |fields[1..]| && OccursBelow(fields[1..][i].1, name);
        assert fields[i + 1] == fields[1..][i];
      }
    }
  }
}
