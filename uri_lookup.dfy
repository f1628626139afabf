/** The uri lookup of DelimitedJSONReader.findUriInJSON: a breadth-first search,
    over a FIFO queue, for the first map that holds the configured field name.

    The reference definition below does not use a queue: it scans the search
    tree one depth level at a time (Level, SearchFrom). BreadthFirstLookup is
    the queue loop of the reader, proved to give the same answer. */
module UriLookup {
  import opened JsonValue
  import Text

  /** The exceptions findUriInJSON can raise. */
  datatype Failure =
    | JsonParse    // JsonParseException from readValue: the line is not JSON
    | JsonMapping  // readValue cannot map the top-level value to a Map (an IOException)
    | ClassCast    // a dequeued element is neither a Map nor null
    | NullPointer  // a dequeued element is null

  /** The outcome of one lookup. NotStringOrNumber and NoField both return null
      to the caller; they differ only in the message that is logged. */
  datatype Lookup = Uri(text: string) | NotStringOrNumber | NoField | Throws(failure: Failure)

  /** What the parser hands back for one trimmed line. */
  datatype Parse = Parsed(doc: Json) | NotJson

  /** The value found under the field: a String or Number gives its toString,
      anything else (map, list, boolean, null) gives none. */
  function Verdict(v: Json): (r: Lookup)
    ensures r.Uri? <==> v.JStr? || v.JNum?
    ensures r != NoField && !r.Throws?
  {
    match v
    case JStr(s) => Uri(s)
    case JNum(n) => Uri(Text.IntText(n))
    case _ => NotStringOrNumber
  }

  /** What dequeuing one element decides: nothing for a map without the field,
      the verdict on the field's value for a map with it, and an exception for
      anything that is not a map (the cast fails, or null is dereferenced). */
  function Probe(e: Json, name: Option<string>): (r: Option<Lookup>)
    ensures r.None? <==> e.JObj? && Get(e.fields, name).None?
    ensures r != Some(NoField)
    ensures r.Some? && r.value.Throws? <==> !e.JObj?
  {
    match e
    case JObj(fields) => (match Get(fields, name) case Some(v) => Some(Verdict(v)) case None => None)
    case JNull => Some(Throws(NullPointer))
    case _ => Some(Throws(ClassCast))
  }

  /** The first decision among the elements of one level, left to right. */
  function ScanLevel(lv: seq<Json>, name: Option<string>): Option<Lookup> {
    if lv == [] then None
    else if Probe(lv[0], name).Some? then Probe(lv[0], name)
    else ScanLevel(lv[1..], name)
  }

  /** The elements at depth k of the search: the root, then everything the
      elements of the previous level put on the queue. */
  function Level(root: Json, k: nat): seq<Json> {
    if k == 0 then [root] else Expand(Level(root, k - 1))
  }

  /** Level-order search from depth k on: a level is scanned in full before
      the next one is looked at, and the first decision ends the search. */
  function SearchFrom(root: Json, name: Option<string>, k: nat): Lookup
    decreases SumSize(Level(root, k))
  {
    var lv := Level(root, k);
    if lv == [] then NoField
    else match ScanLevel(lv, name)
      case Some(r) => r
      case None =>
        ExpandShrinks(lv);
        SearchFrom(root, name, k + 1)
  }

  function LevelOrderLookup(root: Json, name: Option<string>): Lookup {
    SearchFrom(root, name, 0)
  }

  /** findUriInJSON as a whole: the parse, the mapping of the top-level value to
      a Map (a null document is a null map, which the search dereferences), then
      the search. */
  function FindUri(p: Parse, name: Option<string>): Lookup {
    match p
    case NotJson => Throws(JsonParse)
    case Parsed(doc) =>
      if doc.JObj? || doc.JNull? then LevelOrderLookup(doc, name) else Throws(JsonMapping)
  }

  lemma ExpandShrinks(lv: seq<Json>)
    requires lv != []
    ensures SumSize(Expand(lv)) < SumSize(lv)
    decreases lv
  {
    SumSizeAppend(Children(lv[0]), Expand(lv[1..]));
    if lv[0].JObj? {
      ChildrenSmaller(lv[0]);
    }
    if lv[1..] != [] {
      ExpandShrinks(lv[1..]);
    }
  }

  lemma {:induction false} ScanAppend(a: seq<Json>, b: seq<Json>, name: Option<string>)
    ensures ScanLevel(a + b, name) == if ScanLevel(a, name).Some? then ScanLevel(a, name) else ScanLevel(b, name)
  {
    if a == [] {
      assert a + b == b;
    } else {
      assert (a + b)[0] == a[0] && (a + b)[1..] == a[1..] + b;
      ScanAppend(a[1..], b, name);
    }
  }

  /** The step the queue loop takes on element i of a level. */
  lemma ProbeAt(lv: seq<Json>, i: nat, name: Option<string>)
    requires i < |lv| && ScanLevel(lv[..i], name) == None
    ensures Probe(lv[i], name).Some? ==> ScanLevel(lv, name) == Probe(lv[i], name)
    ensures Probe(lv[i], name).None? ==> ScanLevel(lv[..i + 1], name) == None
  {
    assert lv == lv[..i] + lv[i..];
    ScanAppend(lv[..i], lv[i..], name);
    assert lv[i..][0] == lv[i];
    assert lv[..i + 1] == lv[..i] + [lv[i]];
    ScanAppend(lv[..i], [lv[i]], name);
  }

  /** How SearchFrom unfolds at a non-empty level: a decision there is the
      answer, and otherwise the search moves on to the next level. */
  lemma SearchAtLevel(root: Json, name: Option<string>, k: nat)
    requires Level(root, k) != []
    ensures ScanLevel(Level(root, k), name).Some? ==>
              SearchFrom(root, name, k) == ScanLevel(Level(root, k), name).value
    ensures ScanLevel(Level(root, k), name).None? ==>
              SearchFrom(root, name, k) == SearchFrom(root, name, k + 1)
              && Level(root, k + 1) == Expand(Level(root, k))
  {
  }

  /** After element i of a level is dequeued and its children enqueued, the
      queue holds the rest of the level, then the children of its first i+1
      elements. */
  lemma QueueStep(lv: seq<Json>, i: nat, rest: seq<Json>)
    requires i < |lv| && rest == lv[i + 1..] + Expand(lv[..i])
    ensures rest + Children(lv[i]) == lv[i + 1..] + Expand(lv[..i + 1])
  {
    var done, x := lv[..i], lv[i];
    assert lv[..i + 1] == done + [x];
    ExpandAppend(done, [x]);
    assert Expand([x]) == Children(x) by {
      assert [x][0] == x && [x][1..] == [];
    }
    assert lv[i + 1..] + (Expand(done) + Children(x)) == (lv[i + 1..] + Expand(done)) + Children(x);
  }

  /** The queue loop's invariant is kept when element i of level k is a map
      without the field: the next element to dequeue is element i+1, or the
      first element of level k+1 once level k is used up. */
  lemma NextPosition(root: Json, name: Option<string>, k: nat, i: nat, q: seq<Json>)
    returns (k': nat, i': nat)
    requires i < |Level(root, k)| && Probe(Level(root, k)[i], name).None?
    requires ScanLevel(Level(root, k)[..i], name) == None
    requires q == Level(root, k)[i + 1..] + Expand(Level(root, k)[..i]) + Children(Level(root, k)[i])
    requires LevelOrderLookup(root, name) == SearchFrom(root, name, k)
    ensures i' < |Level(root, k')| || (i' == 0 && Level(root, k') == [])
    ensures q == Level(root, k')[i'..] + Expand(Level(root, k')[..i'])
    ensures ScanLevel(Level(root, k')[..i'], name) == None
    ensures LevelOrderLookup(root, name) == SearchFrom(root, name, k')
  {
    var lv := Level(root, k);
    ProbeAt(lv, i, name);
    QueueStep(lv, i, lv[i + 1..] + Expand(lv[..i]));
    if i + 1 == |lv| {
      assert lv[..i + 1] == lv && lv[i + 1..] == [];
      NextLevel(root, name, k, q);
      k', i' := k + 1, 0;
    } else {
      k', i' := k, i + 1;
    }
  }

  /** Once level k is dequeued in full without a decision, the queue holds
      exactly level k+1 and the search continues there. */
  lemma NextLevel(root: Json, name: Option<string>, k: nat, q: seq<Json>)
    requires Level(root, k) != [] && ScanLevel(Level(root, k), name) == None
    requires q == Expand(Level(root, k))
    requires LevelOrderLookup(root, name) == SearchFrom(root, name, k)
    ensures q == Level(root, k + 1)[0..] + Expand(Level(root, k + 1)[..0])
    ensures ScanLevel(Level(root, k + 1)[..0], name) == None
    ensures LevelOrderLookup(root, name) == SearchFrom(root, name, k + 1)
  {
    SearchAtLevel(root, name, k);
    var next := Level(root, k + 1);
    assert next[0..] == next && next[..0] == [];
  }

  /** Lines 230-237: every entry value of the dequeued map, in entry order,
      adds what ValueChildren says to the back of the queue. */
  method EnqueueChildren(q: seq<Json>, fields: seq<(string, Json)>) returns (q': seq<Json>)
    ensures q' == q + FieldChildren(fields)
  {
    q' := q;
    var j := 0;
    while j < |fields|
      invariant 0 <= j <= |fields|
      invariant q' == q + FieldChildren(fields[..j])
    {
      var child := fields[j].1;
      FieldChildrenSnoc(fields, j);
      ghost var before := q';
      if child.JObj? {
        q' := q' + [child];
      } else if child.JArr? {
        q' := q' + child.items;
      }
      assert q' == before + ValueChildren(child);
      j := j + 1;
    }
    assert fields[..|fields|] == fields;
  }

  /** The loop of findUriInJSON (lines 213-242): a FIFO queue seeded with the
      root; each dequeued map is tested for the field before its entry values
      are enqueued. */
  method BreadthFirstLookup(root: Json, name: Option<string>) returns (r: Lookup)
    ensures r == LevelOrderLookup(root, name)
  {
    var q := [root];
    ghost var k: nat := 0;
    ghost var i: nat := 0;
    while q != []
      invariant i < |Level(root, k)| || (i == 0 && Level(root, k) == [])
      invariant q == Level(root, k)[i..] + Expand(Level(root, k)[..i])
      invariant ScanLevel(Level(root, k)[..i], name) == None
      invariant LevelOrderLookup(root, name) == SearchFrom(root, name, k)
      decreases SumSize(q)
    {
      ghost var lv := Level(root, k);
      ghost var q0 := q;
      var current := q[0];
      q := q[1..];
      assert current == lv[i] && q == lv[i + 1..] + Expand(lv[..i]);
      ProbeAt(lv, i, name);
      SearchAtLevel(root, name, k);
      if current.JNull? {
        return Throws(NullPointer);
      } else if !current.JObj? {
        return Throws(ClassCast);
      }
      var found := Get(current.fields, name);
      if found.Some? {
        return Verdict(found.value);
      }
      ghost var rest := q;
      q := EnqueueChildren(q, current.fields);
      SumSizeAppend(rest, Children(current));
      ChildrenSmaller(current);
      assert SumSize(q0) == Size(current) + SumSize(rest);
      k, i := NextPosition(root, name, k, i, q);
    }
    return NoField;
  }

  // ---- What the search promises -------------------------------------------

  /** A level scan answers with the first element that decides anything. */
  lemma {:induction false} ScanFindsFirst(lv: seq<Json>, name: Option<string>)
    ensures ScanLevel(lv, name).None? ==> forall m :: 0 <= m < |lv| ==> Probe(lv[m], name).None?
    ensures ScanLevel(lv, name).Some? ==>
              exists m :: 0 <= m < |lv| && Probe(lv[m], name) == ScanLevel(lv, name)
                && forall m2 :: 0 <= m2 < m ==> Probe(lv[m2], name).None?
  {
    if lv != [] {
      ScanFindsFirst(lv[1..], name);
      if Probe(lv[0], name).Some? {
        assert Probe(lv[0], name) == ScanLevel(lv, name);
      } else if ScanLevel(lv[1..], name).Some? {
        var m :| 0 <= m < |lv[1..]| && Probe(lv[1..][m], name) == ScanLevel(lv[1..], name)
                 && forall m2 :: 0 <= m2 < m ==> Probe(lv[1..][m2], name).None?;
        assert lv[m + 1] == lv[1..][m];
        forall m2 | 0 <= m2 < m + 1
          ensures Probe(lv[m2], name).None?
        {
          if m2 > 0 {
            assert lv[m2] == lv[1..][m2 - 1];
          }
        }
      } else {
        forall m | 0 <= m < |lv|
          ensures Probe(lv[m], name).None?
        {
          if m > 0 {
            assert lv[m] == lv[1..][m - 1];
          }
        }
      }
    }
  }

  lemma {:induction false} EmptyLevelsStayEmpty(root: Json, k: nat, k2: nat)
    requires Level(root, k) == [] && k <= k2
    ensures Level(root, k2) == []
    decreases k2 - k
  {
    if k < k2 {
      EmptyLevelsStayEmpty(root, k + 1, k2);
    }
  }

  /** Element m of level k decides nothing: it is a map without the field. */
  predicate Silent(root: Json, name: Option<string>, k: nat, m: int) {
    0 <= m < |Level(root, k)| ==> Probe(Level(root, k)[m], name).None?
  }

  /** Element m of level k decides `r`. */
  predicate DecidesAt(root: Json, name: Option<string>, k: nat, m: int, r: Lookup) {
    0 <= m < |Level(root, k)| && Probe(Level(root, k)[m], name) == Some(r)
  }

  /** Every element from depth k0 on, before element m of level k, is silent. */
  ghost predicate SilentBefore(root: Json, name: Option<string>, k0: nat, k: nat, m: int) {
    forall k2: nat, m2 :: k0 <= k2 && (k2 < k || (k2 == k && m2 < m)) ==> Silent(root, name, k2, m2)
  }

  ghost predicate SilentFrom(root: Json, name: Option<string>, k0: nat) {
    forall k: nat, m :: k0 <= k ==> Silent(root, name, k, m)
  }

  /** SearchFromIsFirstDecision at a level whose scan decides. */
  lemma DecidedAtLevel(root: Json, name: Option<string>, k0: nat)
    requires Level(root, k0) != [] && ScanLevel(Level(root, k0), name).Some?
    ensures SearchFrom(root, name, k0) != NoField && !SilentFrom(root, name, k0)
    ensures exists m :: DecidesAt(root, name, k0, m, SearchFrom(root, name, k0))
              && SilentBefore(root, name, k0, k0, m)
  {
    var lv := Level(root, k0);
    SearchAtLevel(root, name, k0);
    ScanFindsFirst(lv, name);
    var m :| 0 <= m < |lv| && Probe(lv[m], name) == ScanLevel(lv, name)
             && forall m2 :: 0 <= m2 < m ==> Probe(lv[m2], name).None?;
    assert Probe(lv[m], name).value != NoField;
    assert DecidesAt(root, name, k0, m, SearchFrom(root, name, k0));
    assert !Silent(root, name, k0, m);
    forall k2: nat, m2 | k0 <= k2 && (k2 < k0 || (k2 == k0 && m2 < m))
      ensures Silent(root, name, k2, m2)
    {
    }
  }

  /** SearchFromIsFirstDecision at a level whose scan is silent, given the
      claim for the next level. */
  lemma SilentAtLevel(root: Json, name: Option<string>, k0: nat, next: Lookup)
    requires Level(root, k0) != [] && ScanLevel(Level(root, k0), name).None?
    requires next == SearchFrom(root, name, k0 + 1)
    requires next == NoField <==> SilentFrom(root, name, k0 + 1)
    requires next != NoField ==>
               exists k: nat, m :: k0 + 1 <= k && DecidesAt(root, name, k, m, next)
                 && SilentBefore(root, name, k0 + 1, k, m)
    ensures SearchFrom(root, name, k0) == NoField <==> SilentFrom(root, name, k0)
    ensures SearchFrom(root, name, k0) != NoField ==>
              exists k: nat, m :: k0 <= k && DecidesAt(root, name, k, m, SearchFrom(root, name, k0))
                && SilentBefore(root, name, k0, k, m)
  {
    var lv := Level(root, k0);
    SearchAtLevel(root, name, k0);
    ScanFindsFirst(lv, name);
    assert forall m :: Silent(root, name, k0, m);
    if SearchFrom(root, name, k0) != NoField {
      var k: nat, m :| k0 + 1 <= k && DecidesAt(root, name, k, m, next)
             && SilentBefore(root, name, k0 + 1, k, m);
      assert SilentBefore(root, name, k0, k, m);
    } else {
      assert SilentFrom(root, name, k0);
    }
  }

  lemma {:induction false} SearchFromIsFirstDecision(root: Json, name: Option<string>, k0: nat)
    ensures SearchFrom(root, name, k0) == NoField <==> SilentFrom(root, name, k0)
    ensures SearchFrom(root, name, k0) != NoField ==>
              exists k: nat, m :: k0 <= k && DecidesAt(root, name, k, m, SearchFrom(root, name, k0))
                && SilentBefore(root, name, k0, k, m)
    decreases SumSize(Level(root, k0))
  {
    var lv := Level(root, k0);
    if lv == [] {
      forall k: nat, m | k0 <= k
        ensures Silent(root, name, k, m)
      {
        EmptyLevelsStayEmpty(root, k0, k);
      }
    } else if ScanLevel(lv, name).Some? {
      DecidedAtLevel(root, name, k0);
    } else {
      ExpandShrinks(lv);
      SearchFromIsFirstDecision(root, name, k0 + 1);
      SilentAtLevel(root, name, k0, SearchFrom(root, name, k0 + 1));
    }
  }

  /** The answer is decided by the first element, in level order (depth first,
      then queue order within a depth), that is not a map without the field;
      NoField exactly when there is no such element. */
  lemma LookupIsFirstDecision(root: Json, name: Option<string>)
    ensures LevelOrderLookup(root, name) == NoField <==> SilentFrom(root, name, 0)
    ensures LevelOrderLookup(root, name) != NoField ==>
              exists k: nat, m :: DecidesAt(root, name, k, m, LevelOrderLookup(root, name))
                && SilentBefore(root, name, 0, k, m)
  {
    SearchFromIsFirstDecision(root, name, 0);
  }

  /** A map at depth d that holds the field means the answer is not NoField and
      comes from depth d or shallower (and, at depth d, from no later element). */
  lemma ShallowerMatchWins(root: Json, name: Option<string>, d: nat, i: nat)
    requires i < |Level(root, d)| && Level(root, d)[i].JObj?
    requires Get(Level(root, d)[i].fields, name).Some?
    ensures LevelOrderLookup(root, name) != NoField
    ensures exists k: nat, m :: (k < d || (k == d && m <= i)) && DecidesAt(root, name, k, m, LevelOrderLookup(root, name))
  {
    LookupIsFirstDecision(root, name);
    assert !Silent(root, name, d, i);
    var k: nat, m :| DecidesAt(root, name, k, m, LevelOrderLookup(root, name))
                     && SilentBefore(root, name, 0, k, m);
  }

  /** First match terminates: when the root holds the field with a value that
      is not a string or number, the answer is none, whatever lies deeper. */
  lemma RootMatchTerminates(root: Json, name: Option<string>)
    requires root.JObj? && Get(root.fields, name).Some?
    requires !Get(root.fields, name).value.JStr? && !Get(root.fields, name).value.JNum?
    ensures LevelOrderLookup(root, name) == NotStringOrNumber
  {
    assert Level(root, 0) == [root];
    SearchAtLevel(root, name, 0);
  }

  lemma {:induction false} LevelsHoldMaps(root: Json, k: nat)
    requires ListsHoldMaps(root)
    ensures AllHoldMaps(Level(root, k))
  {
    if k > 0 {
      LevelsHoldMaps(root, k - 1);
      ExpandHoldsMaps(Level(root, k - 1));
    }
  }

  /** For maps: `name` occurs in the level, or below it, exactly when the scan
      decides or it occurs in the next level. */
  lemma {:induction false} OccursStep(s: seq<Json>, name: Option<string>)
    requires AllHoldMaps(s)
    ensures AnyOccurs(s, name) <==> ScanLevel(s, name).Some? || AnyOccurs(Expand(s), name)
  {
    if s != [] {
      var x := s[0];
      assert AllHoldMaps(s[1..]) by {
        forall m | 0 <= m < |s[1..]| ensures ListsHoldMaps(s[1..][m]) {
          assert s[1..][m] == s[m + 1];
        }
      }
      OccursStep(s[1..], name);
      assert s == [x] + s[1..];
      AnyOccursAppend([x], s[1..], name);
      AnyOccursAppend(Children(x), Expand(s[1..]), name);
      FieldsOccur(x.fields, name);
      assert AnyOccurs([x], name) <==> Occurs(x, name) by {
        assert [x][0] == x;
      }
    }
  }

  lemma {:induction false} SearchFromAbsent(root: Json, name: Option<string>, k: nat)
    requires ListsHoldMaps(root)
    ensures !SearchFrom(root, name, k).Throws?
    ensures SearchFrom(root, name, k) == NoField <==> !AnyOccurs(Level(root, k), name)
    decreases SumSize(Level(root, k))
  {
    var lv := Level(root, k);
    if lv != [] {
      LevelsHoldMaps(root, k);
      OccursStep(lv, name);
      SearchAtLevel(root, name, k);
      ScanFindsFirst(lv, name);
      if ScanLevel(lv, name).Some? {
        var m :| 0 <= m < |lv| && Probe(lv[m], name) == ScanLevel(lv, name);
        assert lv[m].JObj?;
      } else {
        ExpandShrinks(lv);
        SearchFromAbsent(root, name, k + 1);
      }
    }
  }

  /** When every list the search can reach holds maps, the search never throws,
      and it answers NoField exactly when no reachable map holds the field. */
  lemma NoFieldIffAbsent(root: Json, name: Option<string>)
    requires ListsHoldMaps(root)
    ensures !LevelOrderLookup(root, name).Throws?
    ensures LevelOrderLookup(root, name) == NoField <==> !Occurs(root, name)
  {
    SearchFromAbsent(root, name, 0);
    assert Level(root, 0) == [root];
    assert AnyOccurs([root], name) <==> Occurs(root, name) by {
      assert [root][0] == root;
    }
  }

  /** The exceptions that come from the search itself rather than the parse. */
  predicate RuntimeFailure(f: Failure) {
    f == ClassCast || f == NullPointer
  }

  lemma {:induction false} ScanThrowsRuntime(lv: seq<Json>, name: Option<string>)
    ensures ScanLevel(lv, name).Some? && ScanLevel(lv, name).value.Throws? ==> RuntimeFailure(ScanLevel(lv, name).value.failure)
  {
    if lv != [] && Probe(lv[0], name).None? {
      ScanThrowsRuntime(lv[1..], name);
    }
  }

  /** Once the document is a map, the only exceptions left are a cast that
      fails and a null that is dereferenced. */
  lemma {:induction false} SearchThrowsOnlyRuntime(root: Json, name: Option<string>, k: nat)
    ensures SearchFrom(root, name, k).Throws? ==> RuntimeFailure(SearchFrom(root, name, k).failure)
    decreases SumSize(Level(root, k))
  {
    var lv := Level(root, k);
    if lv != [] {
      ScanThrowsRuntime(lv, name);
      if ScanLevel(lv, name).None? {
        ExpandShrinks(lv);
        SearchThrowsOnlyRuntime(root, name, k + 1);
      }
    }
  }

  /** findUriInJSON throws JsonParseException exactly for text that is not
      JSON, and the mapping exception exactly for a document that is neither an
      object nor null. */
  lemma FindUriFailures(p: Parse, name: Option<string>)
    ensures FindUri(p, name) == Throws(JsonParse) <==> p.NotJson?
    ensures FindUri(p, name) == Throws(JsonMapping) <==> p.Parsed? && !p.doc.JObj? && !p.doc.JNull?
    ensures p.Parsed? && FindUri(p, name).Throws? && FindUri(p, name) != Throws(JsonMapping) ==>
              RuntimeFailure(FindUri(p, name).failure)
  {
    if p.Parsed? {
      SearchThrowsOnlyRuntime(p.doc, name, 0);
    }
  }

  /** Lists are enqueued element by element without a look at the elements, so
      the first element in level order that is not a map decides the search:
      if every element before it is a map without the field, the lookup
      throws (the cast failure, or the null dereference for null), whatever
      maps holding the field come after it. */
  lemma FirstNonMapThrows(root: Json, name: Option<string>, k: nat, m: nat)
    requires m < |Level(root, k)| && !Level(root, k)[m].JObj?
    requires SilentBefore(root, name, 0, k, m)
    ensures LevelOrderLookup(root, name).Throws?
    ensures LevelOrderLookup(root, name) == Probe(Level(root, k)[m], name).value
  {
    var r := LevelOrderLookup(root, name);
    assert !Silent(root, name, k, m);
    LookupIsFirstDecision(root, name);
    var k': nat, m': int :| DecidesAt(root, name, k', m', r) && SilentBefore(root, name, 0, k', m');
    // the decision is not among the silent elements before (k, m) ...
    assert !Silent(root, name, k', m');
    assert !(k' < k || (k' == k && m' < m));
    // ... and (k, m) is not among the silent elements before the decision
    assert !(k < k' || (k == k' && m < m'));
  }

  /** For a document whose list of strings comes before the map that holds the
      field (`{"tags":["a"],"doc":{"id":1}}`), the search dequeues the string
      and the cast fails before the map is reached, although the field occurs. */
  lemma ScalarListBeforeMatchThrows()
    ensures var doc := JObj([("tags", JArr([JStr("a")])), ("doc", JObj([("id", JNum(1))]))]);
            && Occurs(doc, Some("id"))
            && LevelOrderLookup(doc, Some("id")) == Throws(ClassCast)
  {
    var inner := JObj([("id", JNum(1))]);
    var doc := JObj([("tags", JArr([JStr("a")])), ("doc", inner)]);
    assert Level(doc, 0) == [doc];
    assert Get(doc.fields, Some("id")) == None;
    assert ScanLevel([doc], Some("id")) == None;
    assert FieldChildren(doc.fields) == [JStr("a"), inner] by {
      var fs := doc.fields;
      assert fs[1..][1..] == [];
      assert FieldChildren(fs[1..][1..]) == [];
      assert FieldChildren(fs[1..]) == ValueChildren(inner) + [] == [inner];
      assert ValueChildren(fs[0].1) == [JStr("a")];
    }
    assert Level(doc, 1) == [JStr("a"), inner] by {
      assert Expand([doc]) == Children(doc) + Expand([]);
    }
    assert ScanLevel(Level(doc, 1), Some("id")) == Some(Throws(ClassCast));
    assert Get(inner.fields, Some("id")) == Some(JNum(1));
    assert doc.fields[1].1 == inner;
    assert OccursBelow(doc.fields[1].1, Some("id"));
  }
}
