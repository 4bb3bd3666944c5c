/**
 The size bound of the CRD trimmer: descriptions are removed, deepest first, until
 a tracked size fits (hack/crd/trim.go).

 How a string is encoded is a parameter; all that matters is that an encoded string
 is at least as long as the string and its two quotes.
 */
module CrdTrim {
  import opened Options
  import opened Sorting

  type Encoder = string -> nat

  ghost predicate Encoding(q: Encoder) {
    forall s :: q(s) >= |s| + 2
  }

  /**
   A document.  An object's string property `description`, the only one ever deleted, stands
   apart from its other properties.
   */
  datatype Json =
    | Text(text: string)
    | Scalar(size: nat)
    | Array(items: seq<Json>)
    | Object(description: Option<string>, properties: seq<Property>)

  datatype Property = Property(key: string, value: Json)

  const DESCRIPTION := "description"

  // ----- length of the encoded document -----

  function Commas(n: nat): nat {
    if n == 0 then 0 else n - 1
  }

  function Length(q: Encoder, j: Json): nat {
    match j
    case Text(text) => q(text)
    case Scalar(size) => size
    case Array(items) => 2 + Commas(|items|) + ItemsLength(q, items)
    case Object(description, properties) =>
      2 + Commas(|properties| + if description.Some? then 1 else 0)
      + (if description.Some? then q(DESCRIPTION) + 1 + q(description.value) else 0)
      + PropertiesLength(q, properties)
  }

  function ItemsLength(q: Encoder, items: seq<Json>): nat {
    if items == [] then 0 else Length(q, items[0]) + ItemsLength(q, items[1..])
  }

  function PropertiesLength(q: Encoder, properties: seq<Property>): nat {
    if properties == [] then 0
    else q(properties[0].key) + 1 + Length(q, properties[0].value) + PropertiesLength(q, properties[1..])
  }

  // ----- the encoded document itself -----

  /** The text of a document; a scalar is given by the text of some length. */
  function Encode(quote: string -> string, scalar: nat -> string, j: Json): string {
    match j
    case Text(text) => quote(text)
    case Scalar(size) => scalar(size)
    case Array(items) => "[" + EncodeItems(quote, scalar, items) + "]"
    case Object(description, properties) =>
      var own := if description.Some? then quote(DESCRIPTION) + ":" + quote(description.value) else "";
      "{" + own + (if own != "" && properties != [] then "," else "")
      + EncodeProperties(quote, scalar, properties) + "}"
  }

  function EncodeItems(quote: string -> string, scalar: nat -> string, items: seq<Json>): string {
    if items == [] then ""
    else
      Encode(quote, scalar, items[0]) + (if |items| > 1 then "," else "") + EncodeItems(quote, scalar, items[1..])
  }

  function EncodeProperties(quote: string -> string, scalar: nat -> string, properties: seq<Property>): string {
    if properties == [] then ""
    else
      quote(properties[0].key) + ":" + Encode(quote, scalar, properties[0].value)
      + (if |properties| > 1 then "," else "") + EncodeProperties(quote, scalar, properties[1..])
  }

  ghost predicate Sized(scalar: nat -> string) {
    forall n :: |scalar(n)| == n
  }

  /** The length is that of the encoded text. */
  lemma {:induction false} LengthOfEncoded(quote: string -> string, scalar: nat -> string, j: Json)
    requires Sized(scalar)
    ensures Length(s => |quote(s)|, j) == |Encode(quote, scalar, j)|
    decreases j
  {
    match j
    case Text(_) =>
    case Scalar(size) =>
    case Array(items) => LengthOfItems(quote, scalar, items);
    case Object(_, properties) => LengthOfProperties(quote, scalar, properties);
  }

  lemma {:induction false} LengthOfItems(quote: string -> string, scalar: nat -> string, items: seq<Json>)
    requires Sized(scalar)
    ensures Commas(|items|) + ItemsLength(s => |quote(s)|, items) == |EncodeItems(quote, scalar, items)|
    decreases items
  {
    if items != [] {
      LengthOfEncoded(quote, scalar, items[0]);
      LengthOfItems(quote, scalar, items[1..]);
    }
  }

  lemma {:induction false} LengthOfProperties(quote: string -> string, scalar: nat -> string, properties: seq<Property>)
    requires Sized(scalar)
    ensures Commas(|properties|) + PropertiesLength(s => |quote(s)|, properties) ==
            |EncodeProperties(quote, scalar, properties)|
    decreases properties
  {
    if properties != [] {
      LengthOfEncoded(quote, scalar, properties[0].value);
      LengthOfProperties(quote, scalar, properties[1..]);
    }
  }

  // ----- descriptions -----

  /** Child positions from the root down to an object. */
  type Path = seq<nat>

  function Child(j: Json, i: nat): Option<Json> {
    match j
    case Array(items) => if i < |items| then Some(items[i]) else None
    case Object(_, properties) => if i < |properties| then Some(properties[i].value) else None
    case _ => None
  }

  function WithChild(j: Json, i: nat, child: Json): Json {
    match j
    case Array(items) => if i < |items| then Array(items[i := child]) else j
    case Object(description, properties) =>
      if i < |properties| then Object(description, properties[i := Property(properties[i].key, child)]) else j
    case _ => j
  }

  /** The description of the object at the path. */
  function At(j: Json, path: Path): Option<string>
    decreases |path|
  {
    if path == [] then if j.Object? then j.description else None
    else
      var child := Child(j, path[0]);
      if child.Some? then At(child.value, path[1..]) else None
  }

  /** The document without the description of the object at the path. */
  function Without(j: Json, path: Path): Json
    decreases |path|
  {
    if path == [] then if j.Object? then j.(description := None) else j
    else
      var child := Child(j, path[0]);
      if child.Some? then WithChild(j, path[0], Without(child.value, path[1..])) else j
  }

  lemma {:induction false} ChildOfWithChild(j: Json, i: nat, k: nat, child: Json)
    requires Child(j, i).Some?
    ensures Child(WithChild(j, i, child), k) == if k == i then Some(child) else Child(j, k)
  {
  }

  /** Deleting one description leaves all others. */
  lemma {:induction false} WithoutAt(j: Json, path: Path, other: Path)
    ensures At(Without(j, path), other) == if path == other then None else At(j, other)
    decreases |path|
  {
    if path != [] && Child(j, path[0]).Some? {
      var child := Child(j, path[0]).value;
      var less := Without(child, path[1..]);
      if other == [] {
      } else {
        ChildOfWithChild(j, path[0], other[0], less);
        if other[0] == path[0] {
          WithoutAt(child, path[1..], other[1..]);
          assert path == [path[0]] + path[1..] && other == [other[0]] + other[1..];
        }
      }
    }
  }

  lemma {:induction false} ItemsReplace(q: Encoder, items: seq<Json>, i: nat, x: Json)
    requires i < |items|
    ensures ItemsLength(q, items[i := x]) == ItemsLength(q, items) - Length(q, items[i]) + Length(q, x)
  {
    if i == 0 {
      assert items[i := x][1..] == items[1..];
    } else {
      ItemsReplace(q, items[1..], i - 1, x);
      assert items[i := x][1..] == items[1..][i - 1 := x];
    }
  }

  lemma {:induction false} PropertiesReplace(q: Encoder, properties: seq<Property>, i: nat, x: Json)
    requires i < |properties|
    ensures PropertiesLength(q, properties[i := Property(properties[i].key, x)])
            == PropertiesLength(q, properties) - Length(q, properties[i].value) + Length(q, x)
  {
    var y := Property(properties[i].key, x);
    if i == 0 {
      assert properties[i := y][1..] == properties[1..];
    } else {
      PropertiesReplace(q, properties[1..], i - 1, x);
      assert properties[i := y][1..] == properties[1..][i - 1 := y];
    }
  }

  lemma {:induction false} ChildLength(q: Encoder, j: Json, i: nat, x: Json)
    requires Child(j, i).Some?
    ensures Length(q, WithChild(j, i, x)) == Length(q, j) - Length(q, Child(j, i).value) + Length(q, x)
  {
    if j.Array? { ItemsReplace(q, j.items, i, x); } else { PropertiesReplace(q, j.properties, i, x); }
  }

  /** Deleting a description shortens the encoded document by more than the description's length. */
  lemma {:induction false} WithoutShrinks(q: Encoder, j: Json, path: Path)
    requires Encoding(q) && At(j, path).Some?
    ensures Length(q, Without(j, path)) + |At(j, path).value| < Length(q, j)
    decreases |path|
  {
    if path != [] {
      var child := Child(j, path[0]).value;
      WithoutShrinks(q, child, path[1..]);
      ChildLength(q, j, path[0], Without(child, path[1..]));
    }
  }

  // ----- collecting -----

  datatype Description = Description(depth: nat, path: Path, value: string)

  function OwnDescription(j: Json, path: Path): seq<Description> {
    if j.Object? && j.description.Some? then [Description(|path|, path, j.description.value)] else []
  }

  /** The descriptions of the document j that stands at the path. */
  function Collected(j: Json, path: Path): seq<Description>
    decreases j, 1
  {
    OwnDescription(j, path) + CollectedFrom(j, path, 0)
  }

  function Children(j: Json): nat {
    match j
    case Array(items) => |items|
    case Object(_, properties) => |properties|
    case _ => 0
  }

  function CollectedFrom(j: Json, path: Path, i: nat): seq<Description>
    decreases j, 0, Children(j) - i
  {
    if i >= Children(j) then []
    else Collected(Child(j, i).value, path + [i]) + CollectedFrom(j, path, i + 1)
  }

  /** d is the description of the object at its path, seen from j that stands at `base`. */
  ghost predicate Describes(j: Json, base: Path, d: Description) {
    && base <= d.path && d.depth == |d.path|
    && At(j, d.path[|base|..]) == Some(d.value)
  }

  ghost predicate DistinctPaths(s: seq<Description>) {
    forall i, k :: 0 <= i < k < |s| ==> s[i].path != s[k].path
  }

  ghost predicate AllDescribe(j: Json, base: Path, s: seq<Description>) {
    forall i :: 0 <= i < |s| ==> Describes(j, base, s[i])
  }

  lemma {:induction false} DescribesChild(j: Json, base: Path, i: nat, d: Description)
    requires Child(j, i).Some? && Describes(Child(j, i).value, base + [i], d)
    ensures Describes(j, base, d) && |d.path| > |base| && d.path[|base|] == i
  {
    assert d.path[|base|..] == [i] + d.path[|base| + 1..];
    assert d.path[..|base| + 1] == base + [i];
    assert base == d.path[..|base|];
  }

  /** Everything collected from the children i and later lies below one of them. */
  ghost predicate Below(s: seq<Description>, base: Path, i: nat) {
    forall k :: 0 <= k < |s| ==> |s[k].path| > |base| && s[k].path[|base|] >= i
  }

  lemma {:induction false} CollectedDescribe(j: Json, path: Path)
    ensures AllDescribe(j, path, Collected(j, path)) && DistinctPaths(Collected(j, path))
    decreases j, 1
  {
    CollectedFromDescribe(j, path, 0);
    var own, rest := OwnDescription(j, path), CollectedFrom(j, path, 0);
    if own != [] {
      assert path[|path|..] == [];
      assert Describes(j, path, own[0]);
      assert forall k :: 0 <= k < |rest| ==> rest[k].path != path;
    }
  }

  lemma {:induction false} CollectedFromDescribe(j: Json, path: Path, i: nat)
    ensures AllDescribe(j, path, CollectedFrom(j, path, i)) && DistinctPaths(CollectedFrom(j, path, i))
    ensures Below(CollectedFrom(j, path, i), path, i)
    decreases j, 0, Children(j) - i
  {
    if i < Children(j) {
      var child := Child(j, i).value;
      var here, rest := Collected(child, path + [i]), CollectedFrom(j, path, i + 1);
      CollectedDescribe(child, path + [i]);
      CollectedFromDescribe(j, path, i + 1);
      forall k | 0 <= k < |here|
        ensures Describes(j, path, here[k]) && |here[k].path| > |path| && here[k].path[|path|] == i
      {
        assert Describes(child, path + [i], here[k]);
        DescribesChild(j, path, i, here[k]);
      }
    }
  }

  /** Nothing is missed. */
  lemma {:induction false} CollectedComplete(j: Json, path: Path, below: Path)
    requires At(j, below).Some?
    ensures Description(|path + below|, path + below, At(j, below).value) in Collected(j, path)
    decreases |below|
  {
    if below == [] {
      assert path + below == path;
    } else {
      var i := below[0];
      CollectedComplete(Child(j, i).value, path + [i], below[1..]);
      assert path + [i] + below[1..] == path + below;
      FromLater(j, path, 0, i);
    }
  }

  /** What is collected from child i is part of what is collected from earlier children on. */
  lemma {:induction false} FromLater(j: Json, path: Path, k: nat, i: nat)
    requires k <= i < Children(j)
    ensures forall d :: d in Collected(Child(j, i).value, path + [i]) ==> d in CollectedFrom(j, path, k)
    decreases i - k
  {
    if k < i { FromLater(j, path, k + 1, i); }
  }

  /** `collect`, with the path to each property. */
  method Collect(o: Json, path: Path, depth: nat) returns (descriptions: seq<Description>)
    requires depth == |path|
    ensures descriptions == Collected(o, path)
    decreases o
  {
    descriptions := OwnDescription(o, path);
    for i := 0 to Children(o)
      invariant descriptions + CollectedFrom(o, path, i) == Collected(o, path)
    {
      var below := Collect(Child(o, i).value, path + [i], depth + 1);
      assert descriptions + (below + CollectedFrom(o, path, i + 1)) ==
              descriptions + below + CollectedFrom(o, path, i + 1);
      descriptions := descriptions + below;
    }
    assert descriptions + [] == descriptions;
  }

  // ----- trimming -----

  /** Deepest first; longest first at the same depth. */
  predicate Earlier(x: Description, y: Description) {
    if x.depth == y.depth then |x.value| > |y.value| else x.depth > y.depth
  }

  function Removed(j: Json, s: seq<Description>): Json {
    if s == [] then j else Without(Removed(j, s[..|s| - 1]), s[|s| - 1].path)
  }

  function Weight(s: seq<Description>): nat {
    if s == [] then 0 else Weight(s[..|s| - 1]) + |s[|s| - 1].value|
  }

  /** The document without any description. */
  function Bare(j: Json): Json {
    match j
    case Array(items) => Array(BareItems(items))
    case Object(_, properties) => Object(None, BareProperties(properties))
    case _ => j
  }

  function BareItems(items: seq<Json>): (r: seq<Json>)
    ensures |r| == |items|
  {
    if items == [] then [] else [Bare(items[0])] + BareItems(items[1..])
  }

  function BareProperties(properties: seq<Property>): (r: seq<Property>)
    ensures |r| == |properties|
  {
    if properties == [] then []
    else [Property(properties[0].key, Bare(properties[0].value))] + BareProperties(properties[1..])
  }

  lemma {:induction false} BareItem(items: seq<Json>, i: nat, x: Json)
    requires i < |items| && Bare(x) == Bare(items[i])
    ensures BareItems(items[i := x]) == BareItems(items)
  {
    if i == 0 {
      assert items[i := x][1..] == items[1..];
    } else {
      BareItem(items[1..], i - 1, x);
      assert items[i := x][1..] == items[1..][i - 1 := x];
    }
  }

  lemma {:induction false} BareProperty(properties: seq<Property>, i: nat, x: Json)
    requires i < |properties| && Bare(x) == Bare(properties[i].value)
    ensures BareProperties(properties[i := Property(properties[i].key, x)]) == BareProperties(properties)
  {
    var y := Property(properties[i].key, x);
    if i == 0 {
      assert properties[i := y][1..] == properties[1..];
    } else {
      BareProperty(properties[1..], i - 1, x);
      assert properties[i := y][1..] == properties[1..][i - 1 := y];
    }
  }

  lemma {:induction false} WithoutKeepsRest(j: Json, path: Path)
    ensures Bare(Without(j, path)) == Bare(j)
    decreases |path|
  {
    if path != [] && Child(j, path[0]).Some? {
      var child := Child(j, path[0]).value;
      WithoutKeepsRest(child, path[1..]);
      if j.Array? {
        BareItem(j.items, path[0], Without(child, path[1..]));
      } else {
        BareProperty(j.properties, path[0], Without(child, path[1..]));
      }
    }
  }

  /** Nothing but descriptions is ever removed. */
  lemma {:induction false} RemovedKeepsRest(j: Json, s: seq<Description>)
    ensures Bare(Removed(j, s)) == Bare(j)
  {
    if s != [] {
      RemovedKeepsRest(j, s[..|s| - 1]);
      WithoutKeepsRest(Removed(j, s[..|s| - 1]), s[|s| - 1].path);
    }
  }

  /** s lists descriptions of j, each once. */
  ghost predicate Lists(j: Json, s: seq<Description>) {
    DistinctPaths(s) && AllDescribe(j, [], s)
  }

  lemma {:induction false} RemovedAt(j: Json, s: seq<Description>, path: Path)
    ensures At(Removed(j, s), path) ==
            if exists i :: 0 <= i < |s| && s[i].path == path then None else At(j, path)
  {
    if s != [] {
      RemovedAt(j, s[..|s| - 1], path);
      WithoutAt(Removed(j, s[..|s| - 1]), s[|s| - 1].path, path);
    }
  }

  lemma {:induction false} RemovedKeepsNext(j: Json, s: seq<Description>, k: nat)
    requires Lists(j, s) && k < |s|
    ensures At(Removed(j, s[..k]), s[k].path) == Some(s[k].value)
  {
    RemovedAt(j, s[..k], s[k].path);
    assert Describes(j, [], s[k]);
    assert s[k].path[0..] == s[k].path;
  }

  /** The tracked size is never below the true length. */
  lemma {:induction false} TrackedBoundsLength(q: Encoder, j: Json, s: seq<Description>, k: nat)
    requires Encoding(q) && Lists(j, s) && k <= |s|
    ensures Length(q, Removed(j, s[..k])) + Weight(s[..k]) <= Length(q, j)
  {
    if k > 0 {
      TrackedBoundsLength(q, j, s, k - 1);
      BoundStep(q, j, s, k - 1);
    }
  }

  lemma {:induction false} BoundStep(q: Encoder, j: Json, s: seq<Description>, k: nat)
    requires Encoding(q) && Lists(j, s) && k < |s|
    requires Length(q, Removed(j, s[..k])) + Weight(s[..k]) <= Length(q, j)
    ensures Length(q, Removed(j, s[..k + 1])) + Weight(s[..k + 1]) <= Length(q, j)
  {
    RemovedKeepsNext(j, s, k);
    WithoutShrinks(q, Removed(j, s[..k]), s[k].path);
    PrefixStep(j, s, k);
  }

  lemma {:induction false} PrefixStep(j: Json, s: seq<Description>, k: nat)
    requires k < |s|
    ensures Removed(j, s[..k + 1]) == Without(Removed(j, s[..k]), s[k].path)
    ensures Weight(s[..k + 1]) == Weight(s[..k]) + |s[k].value|
  {
    assert s[..k + 1][..k] == s[..k];
  }

  lemma {:induction false} WeightGrows(s: seq<Description>, k: nat)
    requires k <= |s|
    ensures Weight(s[..k]) <= Weight(s)
  {
    if k < |s| {
      WeightGrows(s[..|s| - 1], k);
      assert s[..|s| - 1][..k] == s[..k];
    } else {
      assert s[..k] == s;
    }
  }

  datatype Trimmed = Fits(doc: Json) | TooLong(size: int)

  /** An order in which the descriptions may be removed; descriptions of the same depth and length come in any order. */
  ghost predicate IsOrder(o: Json, s: seq<Description>) {
    multiset(s) == multiset(Collected(o, [])) && Ordered(s, Earlier)
  }

  lemma {:induction false} SortedIsOrder(o: Json)
    ensures IsOrder(o, InsertionSort(Collected(o, []), Earlier))
  {
    SortPermutes(Collected(o, []), Earlier);
    SortOrders(Collected(o, []), Earlier);
  }

  lemma {:induction false} OrderLists(o: Json, s: seq<Description>)
    requires IsOrder(o, s)
    ensures Lists(o, s)
    ensures forall d :: d in s <==> d in Collected(o, [])
  {
    var c := Collected(o, []);
    CollectedDescribe(o, []);
    forall d
      ensures d in s <==> d in c
    {
      assert d in s <==> d in multiset(s);
      assert d in c <==> d in multiset(c);
    }
    PermutationKeepsUnique(c, s);
    forall i | 0 <= i < |s|
      ensures Describes(o, [], s[i])
    {
      assert s[i] in c;
    }
    SamePathSame(o, c, s);
  }

  lemma {:induction false} WeightTake(s: seq<Description>, i: nat)
    requires i < |s|
    ensures Weight(s) == |s[i].value| + Weight(s[..i] + s[i + 1..])
  {
    var rest := s[..i] + s[i + 1..];
    if i == |s| - 1 {
      assert rest == s[..i];
    } else {
      WeightTake(s[..|s| - 1], i);
      assert rest[..|rest| - 1] == s[..|s| - 1][..i] + s[..|s| - 1][i + 1..];
      assert rest[|rest| - 1] == s[|s| - 1];
    }
  }

  lemma {:induction false} TakeOut(r: seq<Description>, i: nat)
    requires i < |r|
    ensures multiset(r[..i] + r[i + 1..]) == multiset(r) - multiset{r[i]}
  {
    assert r == r[..i] + [r[i]] + r[i + 1..];
  }

  /** All descriptions together are as long in any order. */
  lemma {:induction false} WeightPermutes(s: seq<Description>, r: seq<Description>)
    requires multiset(s) == multiset(r)
    ensures Weight(s) == Weight(r)
  {
    if s == [] {
      assert |multiset(r)| == |r|;
    } else {
      var i := Occurs(s, r);
      SameWithout(s, r, i);
      WeightPermutes(s[..|s| - 1], r[..i] + r[i + 1..]);
      WeightTake(r, i);
    }
  }

  lemma {:induction false} SameWithout(s: seq<Description>, r: seq<Description>, i: nat)
    requires multiset(s) == multiset(r) && s != [] && i < |r| && r[i] == s[|s| - 1]
    ensures multiset(s[..|s| - 1]) == multiset(r[..i] + r[i + 1..])
  {
    TakeOut(r, i);
    TakeOut(s, |s| - 1);
    assert s[..|s| - 1] + s[|s|..] == s[..|s| - 1];
  }

  lemma {:induction false} Occurs(s: seq<Description>, r: seq<Description>) returns (i: nat)
    requires multiset(s) == multiset(r) && s != []
    ensures i < |r| && r[i] == s[|s| - 1]
  {
    assert s[|s| - 1] in multiset(r);
    i :| i < |r| && r[i] == s[|s| - 1];
  }

  lemma {:induction false} SamePathSame(o: Json, s: seq<Description>, r: seq<Description>)
    requires AllDescribe(o, [], r)
    requires forall i, j :: 0 <= i < j < |r| ==> r[i] != r[j]
    ensures DistinctPaths(r)
  {
    forall i, k | 0 <= i < k < |r|
      ensures r[i].path != r[k].path
    {
      assert Describes(o, [], r[i]) && Describes(o, [], r[k]);
    }
  }

  method SortDescriptions(descriptions: seq<Description>) returns (sorted: seq<Description>)
    ensures sorted == InsertionSort(descriptions, Earlier)
  {
    var a := new Description[|descriptions|](i requires 0 <= i < |descriptions| => descriptions[i]);
    assert a[..] == descriptions;
    SortSlice(a, Earlier);
    sorted := a[..];
  }

  /** The tracked size once the first k descriptions of s are removed. */
  function Tracked(size: int, s: seq<Description>, k: nat): int
    requires k <= |s|
  {
    size - Weight(s[..k])
  }

  /** k is the length of the shortest prefix of s whose removal makes the tracked size fit, or of all of s. */
  ghost predicate Stops(size: int, s: seq<Description>, limit: nat, k: nat) {
    && k <= |s|
    && (k < |s| ==> Tracked(size, s, k) <= limit)
    && forall m :: 0 <= m < k ==> Tracked(size, s, m) > limit
  }

  lemma {:induction false} StopsFits(size: int, s: seq<Description>, limit: nat, k: nat)
    requires Stops(size, s, limit, k)
    ensures Tracked(size, s, k) <= limit <==> size - Weight(s) <= limit
  {
    WeightGrows(s, k);
    if k == |s| { assert s[..k] == s; }
  }

  lemma {:induction false} TrackedStep(o: Json, size: int, s: seq<Description>, k: nat)
    requires k < |s|
    ensures Tracked(size, s, k + 1) == Tracked(size, s, k) - |s[k].value|
    ensures Removed(o, s[..k + 1]) == Without(Removed(o, s[..k]), s[k].path)
  {
    PrefixStep(o, s, k);
  }

  lemma {:induction false} TrackedStart(o: Json, size: int, s: seq<Description>)
    ensures Tracked(size, s, 0) == size && Removed(o, s[..0]) == o
  {
    assert s[..0] == [];
  }

  /** The trimming loop. */
  method TrimInOrder(o: Json, length: int, s: seq<Description>, limit: nat) returns (doc: Json, size: int, k: nat)
    ensures Stops(length, s, limit, k) && size == Tracked(length, s, k) && doc == Removed(o, s[..k])
  {
    doc, size, k := o, length, 0;
    TrackedStart(o, length, s);
    while k < |s| && size > limit
      invariant k <= |s| && size == Tracked(length, s, k) && doc == Removed(o, s[..k])
      invariant forall m :: 0 <= m < k ==> Tracked(length, s, m) > limit
    {
      TrackedStep(o, length, s, k);
      size := size - |s[k].value|;
      doc := Without(doc, s[k].path);
      k := k + 1;
    }
  }

  /** r is a possible result: in some order the shortest prefix is removed that makes the tracked size fit. */
  ghost predicate Trims(q: Encoder, o: Json, limit: nat, r: Trimmed) {
    exists s, k :: TrimsPrefix(q, o, limit, s, k, r)
  }

  ghost predicate TrimsPrefix(q: Encoder, o: Json, limit: nat, s: seq<Description>, k: nat, r: Trimmed) {
    && IsOrder(o, s) && Stops(Length(q, o), s, limit, k)
    && var size := Tracked(Length(q, o), s, k);
       r == if size > limit then TooLong(size) else Fits(Removed(o, s[..k]))
  }

  /** The trimmer. */
  method Trim(q: Encoder, o: Json, limit: nat) returns (r: Trimmed)
    ensures Trims(q, o, limit, r)
  {
    var descriptions := Collect(o, [], 0);
    var sorted := SortDescriptions(descriptions);
    SortedIsOrder(o);
    var doc, size, removed := TrimInOrder(o, Length(q, o), sorted, limit);
    r := if size > limit then TooLong(size) else Fits(doc);
    assert TrimsPrefix(q, o, limit, sorted, removed, r);
  }

  /** Whatever the order of ties, trimming fails exactly if removing all descriptions is not enough. */
  lemma {:induction false} FitsIff(q: Encoder, o: Json, limit: nat, r: Trimmed)
    requires Trims(q, o, limit, r)
    ensures r.Fits? <==> Length(q, o) - Weight(Collected(o, [])) <= limit
  {
    var s, k :| TrimsPrefix(q, o, limit, s, k, r);
    StopsFits(Length(q, o), s, limit, k);
    WeightPermutes(s, Collected(o, []));
  }

  /** Any emitted document fits the limit, and it differs from the given one in descriptions only. */
  lemma {:induction false} EmittedFits(q: Encoder, o: Json, limit: nat, r: Trimmed)
    requires Encoding(q) && Trims(q, o, limit, r) && r.Fits?
    ensures Length(q, r.doc) <= limit && Bare(r.doc) == Bare(o)
  {
    var s, k :| TrimsPrefix(q, o, limit, s, k, r);
    RemovedKeepsRest(o, s[..k]);
    OrderLists(o, s);
    TrackedBoundsLength(q, o, s, k);
  }

  /**
   What is kept once a prefix of any order is removed: the description of an object is gone or
   unchanged, and if it is kept it does not come before any removed one.
   */
  lemma {:induction false} KeptDescriptions(o: Json, s: seq<Description>, k: nat, path: Path)
    requires IsOrder(o, s) && k <= |s| && At(o, path).Some?
    ensures At(Removed(o, s[..k]), path) == None || At(Removed(o, s[..k]), path) == At(o, path)
    ensures At(Removed(o, s[..k]), path).Some? ==>
              forall m :: 0 <= m < k ==>
                s[m].depth > |path| || (s[m].depth == |path| && |s[m].value| >= |At(o, path).value|)
  {
    RemovedAt(o, s[..k], path);
    OrderLists(o, s);
    CollectedComplete(o, [], path);
    assert [] + path == path;
    var d := Description(|path|, path, At(o, path).value);
    assert d in s;
    var i :| 0 <= i < |s| && s[i] == d;
    if i < k { assert s[..k][i].path == path; }
  }
}
