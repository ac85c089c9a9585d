/**
 * Identifier completion: the class names, method names and identifiers a file's queries
 * capture, turned into completion items. Classes and methods become one item per capture;
 * every other distinct identifier becomes one variable item. The queries themselves are inputs.
 */
module Completion {
  import opened Wrappers
  import Seqs

  datatype CompletionItemKind = CIKClass | CIKMethod | CIKVariable

  datatype CompletionItem = CompletionItem(text: string, kind: CompletionItemKind)

  function ItemOf(kind: CompletionItemKind): string -> CompletionItem {
    (s: string) => CompletionItem(s, kind)
  }

  /** The concatenation of a list of lists. */
  function Flatten<T>(xss: seq<seq<T>>): seq<T>
    decreases |xss|
  {
    if xss == [] then [] else Flatten(xss[..|xss| - 1]) + xss[|xss| - 1]
  }

  /** Map: `fn` applied to every item, in order. */
  method Map<T, V>(items: seq<T>, fn: T -> V) returns (out: seq<V>)
    ensures out == Seqs.Map(items, fn)
  {
    out := [];
    var i := 0;
    while i < |items|
      invariant 0 <= i <= |items| && |out| == i
      invariant forall j :: 0 <= j < i ==> out[j] == fn(items[j])
    {
      out := out + [fn(items[i])];
      i := i + 1;
    }
  }

  /** toSet: the set of the elements. */
  method ToSet<T>(data: seq<T>) returns (m: set<T>)
    ensures m == set x | x in data
  {
    m := {};
    var i := 0;
    while i < |data|
      invariant 0 <= i <= |data|
      invariant m == set x | x in data[..i]
    {
      assert data[..i + 1] == data[..i] + [data[i]];
      m := m + {data[i]};
      i := i + 1;
    }
    assert data[..i] == data;
  }

  /** join: the first list followed by every other list, in argument order. */
  method Join<T>(a: seq<T>, rest: seq<seq<T>>) returns (r: seq<T>)
    ensures r == a + Flatten(rest)
  {
    r := a;
    var i := 0;
    while i < |rest|
      invariant 0 <= i <= |rest|
      invariant r == a + Flatten(rest[..i])
    {
      assert rest[..i + 1][..i] == rest[..i];
      r := r + rest[i];
      i := i + 1;
    }
    assert rest[..i] == rest;
  }

  /** toSlice: every element of the set exactly once, in an order the set does not fix (Go's map
      iteration order). */
  method ToSlice<T>(data: set<T>) returns (slice: seq<T>)
    ensures forall x :: x in slice <==> x in data
    ensures |slice| == |data|
    ensures forall i, j :: 0 <= i < j < |slice| ==> slice[i] != slice[j]
  {
    slice := [];
    var rest := data;
    while rest != {}
      invariant rest <= data
      invariant forall x :: x in slice <==> x in data && x !in rest
      invariant |slice| + |rest| == |data|
      invariant forall i, j :: 0 <= i < j < |slice| ==> slice[i] != slice[j]
      decreases |rest|
    {
      var e :| e in rest;
      slice := slice + [e];
      rest := rest - {e};
    }
  }

  /** One of the Map calls of allIdentifiers: an item of the given kind per name, and each name
      deleted from the pending identifiers. */
  method Bucket(names: seq<string>, kind: CompletionItemKind, pending: set<string>)
    returns (items: seq<CompletionItem>, remaining: set<string>)
    ensures items == Seqs.Map(names, ItemOf(kind))
    ensures remaining == pending - set n | n in names
  {
    items := [];
    remaining := pending;
    var i := 0;
    while i < |names|
      invariant 0 <= i <= |names| && |items| == i
      invariant forall j :: 0 <= j < i ==> items[j] == CompletionItem(names[j], kind)
      invariant remaining == pending - set n | n in names[..i]
    {
      assert names[..i + 1] == names[..i] + [names[i]];
      remaining := remaining - {names[i]};
      items := items + [CompletionItem(names[i], kind)];
      i := i + 1;
    }
    assert names[..i] == names;
  }

  /** Variable items, one per identifier that is neither a class nor a method name, each such
      identifier exactly once. */
  ghost predicate Variables(vars: seq<CompletionItem>, classNames: seq<string>, methodNames: seq<string>,
                            idents: seq<string>)
  {
    (forall i :: 0 <= i < |vars| ==> vars[i].kind == CIKVariable) &&
    (forall i, j :: 0 <= i < j < |vars| ==> vars[i].text != vars[j].text) &&
    (forall l :: (exists i :: 0 <= i < |vars| && vars[i].text == l) <==>
                 l in idents && l !in classNames && l !in methodNames)
  }

  /**
   * The shape of allIdentifiers' answer: the class items (one per class capture, in order),
   * then the method items (likewise), then the variable items.
   */
  ghost predicate Bucketed(items: seq<CompletionItem>, classNames: seq<string>, methodNames: seq<string>,
                           idents: seq<string>)
  {
    var c, m := |classNames|, |methodNames|;
    |items| >= c + m &&
    items[..c] == Seqs.Map(classNames, ItemOf(CIKClass)) &&
    items[c..c + m] == Seqs.Map(methodNames, ItemOf(CIKMethod)) &&
    Variables(items[c + m..], classNames, methodNames, idents)
  }

  /** allIdentifiers, given the outcome of the three queries in the order they run: the first
      failed query's error, else the bucketed items. */
  method AllIdentifiers(classNames: Result<seq<string>, string>, methodNames: Result<seq<string>, string>,
                        allIdents: Result<seq<string>, string>)
    returns (r: Result<seq<CompletionItem>, string>)
    ensures classNames.Err? ==> r == Err(classNames.error)
    ensures classNames.Ok? && methodNames.Err? ==> r == Err(methodNames.error)
    ensures classNames.Ok? && methodNames.Ok? && allIdents.Err? ==> r == Err(allIdents.error)
    ensures classNames.Ok? && methodNames.Ok? && allIdents.Ok? ==>
              r.Ok? && Bucketed(r.value, classNames.value, methodNames.value, allIdents.value)
  {
    if classNames.Err? {
      return Err(classNames.error);
    }
    if methodNames.Err? {
      return Err(methodNames.error);
    }
    if allIdents.Err? {
      return Err(allIdents.error);
    }
    var allIdentsMap := ToSet(allIdents.value);
    var classes, afterClasses := Bucket(classNames.value, CIKClass, allIdentsMap);
    var methods, afterMethods := Bucket(methodNames.value, CIKMethod, afterClasses);
    var rest := ToSlice(afterMethods);
    var idents := Map(rest, ItemOf(CIKVariable));
    VariablesOfSlice(rest, classNames.value, methodNames.value, allIdents.value);
    var items := Join(classes, [methods, idents]);
    JoinedParts(classes, methods, idents);
    return Ok(items);
  }

  /** Variable items made from a duplicate-free listing of the leftover identifiers. */
  lemma VariablesOfSlice(rest: seq<string>, classNames: seq<string>, methodNames: seq<string>, idents: seq<string>)
    requires forall x :: x in rest <==> x in idents && x !in classNames && x !in methodNames
    requires forall i, j :: 0 <= i < j < |rest| ==> rest[i] != rest[j]
    ensures Variables(Seqs.Map(rest, ItemOf(CIKVariable)), classNames, methodNames, idents)
  {
    var vars := Seqs.Map(rest, ItemOf(CIKVariable));
    forall l
      ensures (exists i :: 0 <= i < |vars| && vars[i].text == l) <==>
              l in idents && l !in classNames && l !in methodNames
    {
      if exists i :: 0 <= i < |vars| && vars[i].text == l {
        var i :| 0 <= i < |vars| && vars[i].text == l;
        assert rest[i] == l;
      }
      if l in idents && l !in classNames && l !in methodNames {
        var i :| 0 <= i < |rest| && rest[i] == l;
        assert vars[i].text == l;
      }
    }
  }

  /** Joining two lists onto a first keeps each in its place. */
  lemma JoinedParts<T>(a: seq<T>, b: seq<T>, c: seq<T>)
    ensures a + Flatten([b, c]) == a + b + c
    ensures var r := a + b + c; r[..|a|] == a && r[|a|..|a| + |b|] == b && r[|a| + |b|..] == c
  {
    assert [b, c][..1] == [b];
    assert [b][..0] == [];
    assert Flatten([b]) == b;
    assert Flatten([b, c]) == b + c;
  }

  /** The number of items: one per class capture, one per method capture, and one per distinct
      leftover identifier, whatever order toSlice produced them in. */
  lemma VariableCount(vars: seq<CompletionItem>, classNames: seq<string>, methodNames: seq<string>,
                      idents: seq<string>)
    requires Variables(vars, classNames, methodNames, idents)
    ensures |vars| == |(set l | l in idents) - (set l | l in classNames) - (set l | l in methodNames)|
  {
    var labels := set i | 0 <= i < |vars| :: vars[i].text;
    var expected := (set l | l in idents) - (set l | l in classNames) - (set l | l in methodNames);
    forall l | l in labels ensures l in expected {
      var i :| 0 <= i < |vars| && vars[i].text == l;
    }
    forall l | l in expected ensures l in labels {
      var i :| 0 <= i < |vars| && vars[i].text == l;
    }
    assert labels == expected;
    DistinctLabels(vars);
  }

  /** Items with pairwise different labels have as many labels as items. */
  lemma {:induction false} DistinctLabels(vars: seq<CompletionItem>)
    requires forall i, j :: 0 <= i < j < |vars| ==> vars[i].text != vars[j].text
    ensures |set i | 0 <= i < |vars| :: vars[i].text| == |vars|
    decreases |vars|
  {
    if vars != [] {
      var init := vars[..|vars| - 1];
      DistinctLabels(init);
      var before := set i | 0 <= i < |init| :: init[i].text;
      var now := set i | 0 <= i < |vars| :: vars[i].text;
      assert now == before + {vars[|vars| - 1].text};
      assert vars[|vars| - 1].text !in before;
    }
  }
}
