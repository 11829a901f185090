/**
 * How Store.save turns the properties of a graph of Storables into
 * documents, and how getProperties turns a document back into properties
 * (lib/ringo/storage/mongodbstore.js, save and getProperties).
 */
module Codec {
  import opened Wrappers
  import opened Values
  import opened Keys

  /**
   * One Storable of the graph being saved: the key already held in its
   * document's `_id`, and its own JavaScript properties. Its index in the
   * graph is the identity of its document.
   */
  datatype Storable = Storable(key: string, props: map<string, Value>)

  type Graph = seq<Storable>

  /** The identities of the graph's documents. */
  function Indices(g: Graph): (ids: set<nat>)
    ensures forall i: nat :: i in ids <==> i < |g|
  {
    Upto(|g|)
  }

  function Upto(n: nat): (ids: set<nat>)
    ensures forall i: nat :: i in ids <==> i < n
  {
    if n == 0 then {} else Upto(n - 1) + {n - 1}
  }

  /** The Storables a property value refers to: itself, or the Storable elements of an array. */
  function Children(v: Value): set<nat>
  {
    match v
    case Node(c) => {c}
    case JsArray(items) => set i | 0 <= i < |items| && items[i].Node? :: items[i].id
    case _ => {}
  }

  /**
   * A well-formed graph: every reference is to a Storable of the graph, and
   * a Storable that carries `_id` among its properties carries its own key.
   * Two Storables may share a key: two separately loaded copies of one
   * entity do.
   */
  ghost predicate ValidGraph(g: Graph)
  {
    && (forall m, name | 0 <= m < |g| && name in g[m].props :: Children(g[m].props[name]) <= Indices(g))
    && (forall m | 0 <= m < |g| && "_id" in g[m].props :: g[m].props["_id"] == Str(g[m].key))
  }

  /** No two Storables of the graph share a key, as when every one is new or loaded once. */
  ghost predicate DistinctKeys(g: Graph)
  {
    forall i, j | 0 <= i < j < |g| :: g[i].key != g[j].key
  }

  /**
   * An array element as save stores it: a Storable, of the graph or loaded
   * by create, becomes its `_id`; anything else stays.
   */
  function EncodeItem(g: Graph, item: Value): (r: Value)
    requires item.Node? ==> item.id < |g|
    ensures !r.Node? && !r.Entity?
    ensures item.Node? ==> r == Str(g[item.id].key)
    ensures item.Entity? ==> r == Str(item.key)
    ensures !item.Node? && !item.Entity? ==> r == item
  {
    if item.Node? then Str(g[item.id].key)
    else if item.Entity? then Str(item.key)
    else item
  }

  /**
   * A property as save stores it: a Storable, of the graph or loaded by
   * create, becomes its `_id`, an array a java list of encoded elements, a
   * Date a java Date; anything else stays.
   */
  function EncodeValue(g: Graph, v: Value): (r: Value)
    requires Children(v) <= Indices(g)
    ensures !r.Node? && !r.Entity? && !r.JsArray? && !r.JsDate?
    ensures v.JsArray? ==> r.JavaList? && |r.items| == |v.items|
    ensures v.JsArray? ==> forall i | 0 <= i < |r.items| :: !r.items[i].Node? && !r.items[i].Entity?
    ensures v.Node? ==> r == Str(g[v.id].key)
    ensures v.Entity? ==> r == Str(v.key)
    ensures v.JsDate? ==> r == JavaDate(v.millis)
    ensures !v.Node? && !v.Entity? && !v.JsArray? && !v.JsDate? ==> r == v
  {
    match v
    case Node(c) => Str(g[c].key)
    case Entity(_, key) => Str(key)
    case JsArray(items) =>
      JavaList(seq(|items|, i requires 0 <= i < |items| =>
        assert items[i].Node? ==> items[i].id in Children(v); EncodeItem(g, items[i])))
    case _ => ConvertJsValueToJava(v)
  }

  /** The encoded values of the properties in `names`. */
  function EncodeFields(g: Graph, props: map<string, Value>, names: set<string>): Doc
    requires forall name | name in props :: Children(props[name]) <= Indices(g)
  {
    map name | name in names && name in props :: EncodeValue(g, props[name])
  }

  /** A Storable element of an array is one of the array's references. */
  lemma ArrayChild(v: Value, j: nat)
    requires v.JsArray? && j < |v.items| && v.items[j].Node?
    ensures v.items[j].id in Children(v)
  {
  }

  /** Every Storable element of an array whose references are in the graph is in the graph. */
  lemma ArrayChildren(g: Graph, v: Value)
    requires v.JsArray? && Children(v) <= Indices(g)
    ensures ItemsInGraph(g, v.items)
  {
    forall j | 0 <= j < |v.items| && v.items[j].Node?
      ensures v.items[j].id < |g|
    {
      ArrayChild(v, j);
    }
  }

  /** Every Storable element of the array is in the graph. */
  predicate ItemsInGraph(g: Graph, items: seq<Value>)
  {
    forall j | 0 <= j < |items| && items[j].Node? :: items[j].id < |g|
  }

  /** Every Storable among the first `i` elements of an array is in `s`. */
  predicate NodesSaved(items: seq<Value>, i: nat, s: set<nat>)
    requires i <= |items|
  {
    forall j | 0 <= j < i && items[j].Node? :: items[j].id in s
  }

  /** The first `i` elements of an array, each encoded. */
  function EncodeItems(g: Graph, items: seq<Value>, i: nat): (list: seq<Value>)
    requires i <= |items| && ItemsInGraph(g, items)
    ensures |list| == i
    ensures forall j | 0 <= j < i :: list[j] == EncodeItem(g, items[j])
  {
    if i == 0 then [] else EncodeItems(g, items, i - 1) + [EncodeItem(g, items[i - 1])]
  }

  /** All the elements of an array, each encoded, are the array encoded. */
  lemma EncodedList(g: Graph, v: Value)
    requires v.JsArray? && Children(v) <= Indices(g) && ItemsInGraph(g, v.items)
    ensures JavaList(EncodeItems(g, v.items, |v.items|)) == EncodeValue(g, v)
  {
    assert EncodeItems(g, v.items, |v.items|) == EncodeValue(g, v).items;
  }

  /** When every Storable element of an array is in `s`, all the array's references are. */
  lemma ChildrenWithin(v: Value, s: set<nat>)
    requires v.JsArray? && NodesSaved(v.items, |v.items|, s)
    ensures Children(v) <= s
  {
  }

  /** Putting one more encoded property onto a document extends the fields put so far by that one. */
  lemma EncodeFieldsInsert(g: Graph, props: map<string, Value>, names: set<string>, name: string, doc: Doc)
    requires forall name | name in props :: Children(props[name]) <= Indices(g)
    requires name in props
    ensures (doc + EncodeFields(g, props, names))[name := EncodeValue(g, props[name])]
      == doc + EncodeFields(g, props, names + {name})
  {
  }

  /** Storable m's document once save has put every property onto it. */
  function SavedDoc(g: Graph, doc: Doc, m: nat): Doc
    requires ValidGraph(g) && m < |g|
  {
    doc + EncodeFields(g, g[m].props, g[m].props.Keys)
  }

  /** Every document holds its Storable's key as `_id`, as getEntity prepares it. */
  ghost predicate Prepared(g: Graph, docs: seq<Doc>)
  {
    |docs| == |g| && forall m | 0 <= m < |g| :: HasId(docs[m], g[m].key)
  }

  /** Putting the encoded properties onto a prepared document keeps its `_id`. */
  lemma SavedDocKeepsId(g: Graph, docs: seq<Doc>, m: nat)
    requires ValidGraph(g) && Prepared(g, docs) && m < |g|
    ensures HasId(SavedDoc(g, docs[m], m), g[m].key)
  {
    var props := g[m].props;
    if "_id" in props {
      assert EncodeValue(g, props["_id"]) == Str(g[m].key);
    }
  }

  /** Every Storable of `c` outside `given` has all its references inside `c`. */
  ghost predicate ClosedOutside(g: Graph, c: set<nat>, given: set<nat>)
  {
    forall m, name | m in c && m !in given && m < |g| && name in g[m].props ::
      Children(g[m].props[name]) <= c
  }

  /**
   * `visited` lies inside every set that contains `given` and `n` and is
   * closed outside `given`: nothing is visited that is not reachable from n
   * without passing through `given`.
   */
  ghost predicate LeastClosed(g: Graph, visited: set<nat>, given: set<nat>, n: nat)
  {
    forall c: set<nat> | given <= c && n in c && ClosedOutside(g, c, given) :: visited <= c
  }

  lemma ClosedOutsideMonotonic(g: Graph, c: set<nat>, given: set<nat>, more: set<nat>)
    requires ClosedOutside(g, c, given) && given <= more
    ensures ClosedOutside(g, c, more)
  {
  }

  lemma ClosedOutsideExtend(g: Graph, inner: set<nat>, outer: set<nat>, given: set<nat>)
    requires ClosedOutside(g, inner, given) && ClosedOutside(g, outer, inner) && inner <= outer
    ensures ClosedOutside(g, outer, given)
  {
  }

  /** The keys of the Storables in `s`. */
  function KeysOf(g: Graph, s: set<nat>): set<string>
  {
    set m | m in s && m < |g| :: g[m].key
  }

  /** `order` goes through the Storables of `s`: each of them once, and nothing else. */
  ghost predicate Enumerates(order: seq<nat>, s: set<nat>)
  {
    && (forall i | 0 <= i < |order| :: order[i] in s)
    && (forall m | m in s :: m in order)
    && (forall i, j | 0 <= i < j < |order| :: order[i] != order[j])
  }

  /** The keys of the Storables of `order`, in that order. */
  function KeysIn(g: Graph, order: seq<nat>): (keys: seq<string>)
    requires forall i | 0 <= i < |order| :: order[i] < |g|
    ensures |keys| == |order| && forall i | 0 <= i < |order| :: keys[i] == g[order[i]].key
  {
    if order == [] then [] else KeysIn(g, order[..|order| - 1]) + [g[order[|order| - 1]].key]
  }

  /** Going through `s` and then a Storable not in it goes through s + {m}. */
  lemma EnumeratesAdd(order: seq<nat>, s: set<nat>, m: nat)
    requires Enumerates(order, s) && m !in s
    ensures Enumerates(order + [m], s + {m})
  {
  }

  /** One more Storable at the end of the order adds its key at the end. */
  lemma KeysInAppend(g: Graph, order: seq<nat>, m: nat)
    requires (forall i | 0 <= i < |order| :: order[i] < |g|) && m < |g|
    ensures KeysIn(g, order + [m]) == KeysIn(g, order) + [g[m].key]
  {
    assert (order + [m])[..|order|] == order;
  }

  /** Going through the Storables of `s` meets exactly the keys of `s`. */
  lemma KeysInEnumeration(g: Graph, order: seq<nat>, s: set<nat>)
    requires Enumerates(order, s) && s <= Indices(g)
    ensures forall key :: key in KeysIn(g, order) <==> key in KeysOf(g, s)
  {
    forall key | key in KeysOf(g, s)
      ensures key in KeysIn(g, order)
    {
      var m :| m in s && m < |g| && g[m].key == key;
      var i :| 0 <= i < |order| && order[i] == m;
      assert KeysIn(g, order)[i] == key;
    }
  }

  /** With distinct keys, going through the Storables of `s` meets each key once. */
  lemma KeysInDistinct(g: Graph, order: seq<nat>, s: set<nat>)
    requires Enumerates(order, s) && s <= Indices(g) && DistinctKeys(g)
    ensures forall i, j | 0 <= i < j < |order| :: KeysIn(g, order)[i] != KeysIn(g, order)[j]
  {
    forall i, j | 0 <= i < j < |order|
      ensures KeysIn(g, order)[i] != KeysIn(g, order)[j]
    {
      var a, b := order[i], order[j];
      assert a != b;
      assert a < b || b < a;
    }
  }

  /** The collections the documents of `s` belong to. */
  function TypesOf(g: Graph, s: set<nat>): set<string>
  {
    set m | m in s && m < |g| :: ExtractTypeFromKey(g[m].key)
  }

  // ----- getProperties -----

  /** A list element as getProperties reads it: a key becomes an entity, anything else stays. */
  function DecodeItem(registry: set<string>, item: Value): (r: Value)
    ensures !IsKey(registry, r)
    ensures IsKey(registry, item) ==> r == Entity(ExtractTypeFromKey(item.s), item.s)
  {
    if IsKey(registry, item) then
      KeysResolve(registry, item);
      Create(registry, ExtractTypeFromKey(item.s), item.s).value
    else item
  }

  /**
   * Property `name` as getProperties reads it: a key (other than `_id`)
   * becomes an entity of the key's type, a java list a JavaScript array of
   * decoded elements, a java Date a JavaScript Date; anything else stays.
   */
  function DecodeField(registry: set<string>, name: string, v: Value): (r: Value)
    ensures !r.JavaList? && !r.JavaDate?
    ensures name != "_id" ==> !IsKey(registry, r)
    ensures name != "_id" && IsKey(registry, v) ==> r == Entity(ExtractTypeFromKey(v.s), v.s)
    ensures v.JavaList? ==> r.JsArray? && |r.items| == |v.items|
    ensures v.JavaDate? ==> r == JsDate(v.millis)
  {
    if IsKey(registry, v) && name != "_id" then
      KeysResolve(registry, v);
      Create(registry, ExtractTypeFromKey(v.s), v.s).value
    else if v.JavaList? then
      JsArray(seq(|v.items|, i requires 0 <= i < |v.items| => DecodeItem(registry, v.items[i])))
    else if v.JavaDate? then
      JsDate(v.millis)
    else v
  }

  /** The fields `names` of a document, each as getProperties reads it. */
  function DecodeFields(registry: set<string>, doc: Doc, names: set<string>): map<string, Value>
  {
    map name | name in names && name in doc :: DecodeField(registry, name, doc[name])
  }

  /** getProperties of a whole document. */
  function DecodeDoc(registry: set<string>, doc: Doc): (props: map<string, Value>)
    ensures props.Keys == doc.Keys
    ensures "_id" in doc && doc["_id"].Str? ==> props["_id"] == doc["_id"]
  {
    map name | name in doc :: DecodeField(registry, name, doc[name])
  }

  // ----- decoding reverses encoding -----

  /** Every Storable's key is a key of a registered type. */
  ghost predicate KeysRegistered(registry: set<string>, g: Graph)
  {
    forall m | 0 <= m < |g| :: IsKey(registry, Str(g[m].key))
  }

  /**
   * What a property comes back as: each Storable as the entity of its
   * key's type, everything else as itself.
   */
  function Resolve(g: Graph, v: Value): Value
    requires Children(v) <= Indices(g)
  {
    match v
    case Node(c) => Entity(ExtractTypeFromKey(g[c].key), g[c].key)
    case JsArray(items) =>
      JsArray(seq(|items|, i requires 0 <= i < |items| =>
        assert items[i].Node? ==> items[i].id in Children(v);
        if items[i].Node? then Entity(ExtractTypeFromKey(g[items[i].id].key), g[items[i].id].key) else items[i]))
    case _ => v
  }

  /** An entity as create makes it from a key: the key is a key, and of the entity's own type. */
  predicate LoadedEntity(registry: set<string>, v: Value)
  {
    v.Entity? && IsKey(registry, Str(v.key)) && ExtractTypeFromKey(v.key) == v.entityType
  }

  /** An array element that survives the trip: a loaded entity, or anything that does not read as a key. */
  predicate UnambiguousItem(registry: set<string>, item: Value)
  {
    if item.Entity? then LoadedEntity(registry, item) else !IsKey(registry, item)
  }

  /**
   * The properties that survive the trip: no plain string (or plain array
   * element) that reads as a key, no entity other than one create makes,
   * and no value that is already in the document layer's form (a java
   * list or java Date).
   */
  predicate Unambiguous(registry: set<string>, v: Value)
  {
    match v
    case Str(_) => !IsKey(registry, v)
    case Entity(_, _) => LoadedEntity(registry, v)
    case JavaList(_) => false
    case JavaDate(_) => false
    case JsArray(items) => forall i | 0 <= i < |items| :: UnambiguousItem(registry, items[i])
    case _ => true
  }

  /** getProperties undoes save's encoding of one property. */
  lemma DecodeEncodedValue(registry: set<string>, g: Graph, name: string, v: Value)
    requires Children(v) <= Indices(g) && KeysRegistered(registry, g)
    requires name != "_id" && Unambiguous(registry, v)
    ensures DecodeField(registry, name, EncodeValue(g, v)) == Resolve(g, v)
  {
    match v
    case Node(c) =>
      assert c in Children(v);
    case JsArray(items) =>
      var encoded := EncodeValue(g, v).items;
      var decoded := DecodeField(registry, name, EncodeValue(g, v));
      assert |decoded.items| == |items|;
      forall i | 0 <= i < |items|
        ensures decoded.items[i] == Resolve(g, v).items[i]
      {
        if items[i].Node? {
          assert items[i].id in Children(v);
        }
      }
    case _ =>
  }

  /** A Date property comes back with the same milliseconds. */
  lemma DateRoundTrip(registry: set<string>, g: Graph, name: string, millis: int)
    ensures DecodeField(registry, name, EncodeValue(g, JsDate(millis))) == JsDate(millis)
  {
  }

  /**
   * Reading back Storable m's saved document gives every one of its
   * properties, with each Storable it referred to as an entity of the right
   * type and key.
   */
  lemma {:induction false} DecodeSavedDoc(registry: set<string>, g: Graph, doc: Doc, m: nat)
    requires ValidGraph(g) && KeysRegistered(registry, g) && m < |g|
    requires forall name | name in g[m].props && name != "_id" :: Unambiguous(registry, g[m].props[name])
    ensures g[m].props.Keys <= DecodeDoc(registry, SavedDoc(g, doc, m)).Keys
    ensures forall name | name in g[m].props ::
      DecodeDoc(registry, SavedDoc(g, doc, m))[name] == Resolve(g, g[m].props[name])
  {
    var props := g[m].props;
    forall name | name in props
      ensures DecodeDoc(registry, SavedDoc(g, doc, m))[name] == Resolve(g, props[name])
    {
      if name == "_id" {
        assert props[name] == Str(g[m].key);
      } else {
        DecodeEncodedValue(registry, g, name, props[name]);
      }
    }
  }

  /**
   * The round trip needs Unambiguous: a plain string property that happens
   * to read as a key comes back as an entity.
   */
  lemma KeyLikeStringComesBackAsEntity(g: Graph)
    ensures var v := Str("Person:1");
      DecodeField({"Person"}, "nickname", EncodeValue(g, v)) == Entity("Person", "Person:1")
  {
    var v := Str("Person:1");
    assert EncodeValue(g, v) == v;
    assert "Person:1" == "Person" + ":" + "1";
    TypeOfCreatedKey("Person", "1");
    assert ':' in v.s by { assert v.s[6] == ':'; }
    assert IsKey({"Person"}, v);
  }
}
