/**
 * The Store of lib/ringo/storage/mongodbstore.js: the registry of defined
 * entity types, the memo of opened collections, the database, and the
 * operations the Storable host object calls back into (save, getEntity,
 * getKey, getId, getProperties, equalKeys, remove).
 */
module Store {
  import opened Wrappers
  import opened Values
  import opened Keys
  import opened Collections
  import opened Codec
  import opened QueryBuilder

  /** The constructor defineEntity hands out for one entity type. */
  class EntityConstructor {
    const entityType: string

    constructor (entityType: string)
      ensures this.entityType == entityType
    {
      this.entityType := entityType;
    }
  }

  /** What getEntity and getKey are called with. */
  datatype Arg =
    | Document(doc: Doc)                      // a DBObject
    | Properties(props: map<string, Value>)   // a plain JavaScript object
    | Plain(v: Value)                         // any other JavaScript value

  /** `v instanceof Object` for a JavaScript value. */
  predicate IsObject(v: Value)
  {
    v.JsDate? || v.Node? || v.Entity? || v.JsArray?
  }

  /** Every document has a string `_id`, as every document save writes does. */
  predicate StringIds(found: seq<Doc>)
  {
    forall i | 0 <= i < |found| :: "_id" in found[i] && found[i]["_id"].Str?
  }

  /** `if (property)`: a projection is asked for when the property is a non-empty string. */
  predicate Projects(projection: Option<string>)
  {
    projection.Some? && projection.value != ""
  }

  /** The document getEntity makes for a new entity: only `_id`, a fresh key of the type. */
  function FreshDocument(entityType: string, freshId: string): (doc: Doc)
    ensures doc.Keys == {"_id"} && HasId(doc, CreateKey(entityType, freshId))
    ensures ':' !in entityType ==> ExtractTypeFromKey(doc["_id"].s) == entityType
  {
    map["_id" := Str(CreateKey(entityType, freshId))]
  }

  /** What getEntity answers. */
  datatype Resolved =
    | Loaded(entity: Option<Value>)   // the collection's answer for a key: an entity or null
    | Given(doc: Doc)                 // the DBObject it was called with
    | Fresh(doc: Doc)                 // a new document holding only a fresh `_id`
    | NoEntity                        // null

  /** The visited set a save call receives; the root call starts from none. */
  function VisitedBefore(entities: Option<set<nat>>): (before: set<nat>)
    ensures entities.Some? ==> before == entities.value
    ensures entities.None? ==> before == {}
  {
    if entities.Some? then entities.value else {}
  }

  /**
   * What a save of Storable n started with visited set `before` has
   * achieved so far: every Storable visited is in the graph, the visited set
   * is closed except at n and the Storables visited before, nothing is
   * visited that n does not reach, and every document other than n's that
   * was newly visited holds its saved form.
   */
  ghost predicate Progress(g: Graph, before: set<nat>, n: nat, visited: set<nat>, docs0: seq<Doc>, docs: seq<Doc>)
  {
    && ValidGraph(g) && n < |g| && |docs0| == |g| && Prepared(g, docs)
    && before + {n} <= visited <= Indices(g)
    && ClosedOutside(g, visited, before + {n})
    && LeastClosed(g, visited, before, n)
    && (forall m | 0 <= m < |g| && m != n ::
          docs[m] == if m in visited - before then SavedDoc(g, docs0[m], m) else docs0[m])
  }

  /** The documents of the Storables of `s` whose key is `key`. */
  ghost function DocsWithKey(g: Graph, docs: seq<Doc>, s: set<nat>, key: string): set<Doc>
  {
    set m | m in s && m < |g| && m < |docs| && g[m].key == key :: docs[m]
  }

  /**
   * Under the key of every Storable of `s`, the collection its key names
   * holds the document of one of the Storables of `s` with that key (the
   * one written last), and every other record is as it was in `db0`.
   */
  ghost predicate FlushedAll(g: Graph, docs: seq<Doc>, s: set<nat>, db0: Db, db: Db)
  {
    && (forall m | m in s && m < |g| && m < |docs| ::
          Lookup(db, ExtractTypeFromKey(g[m].key), g[m].key).Some? &&
          Lookup(db, ExtractTypeFromKey(g[m].key), g[m].key).value in DocsWithKey(g, docs, s, g[m].key))
    && (forall name, id | id !in KeysOf(g, s) || name != ExtractTypeFromKey(id) ::
          Lookup(db, name, id) == Lookup(db0, name, id))
  }

  /** When no two Storables share a key, every document of `s` is stored under its own key. */
  lemma FlushedAllDistinct(g: Graph, docs: seq<Doc>, s: set<nat>, db0: Db, db: Db)
    requires DistinctKeys(g) && FlushedAll(g, docs, s, db0, db)
    ensures forall m | m in s && m < |g| && m < |docs| ::
      Lookup(db, ExtractTypeFromKey(g[m].key), g[m].key) == Some(docs[m])
  {
    forall m | m in s && m < |g| && m < |docs|
      ensures Lookup(db, ExtractTypeFromKey(g[m].key), g[m].key) == Some(docs[m])
    {
      var d := Lookup(db, ExtractTypeFromKey(g[m].key), g[m].key).value;
      var m' :| m' in s && m' < |g| && m' < |docs| && g[m'].key == g[m].key && docs[m'] == d;
    }
  }

  /** A save that has just visited n has made progress. */
  lemma StartVisit(g: Graph, before: set<nat>, n: nat, docs: seq<Doc>)
    requires ValidGraph(g) && n < |g| && Prepared(g, docs) && before <= Indices(g) && n !in before
    ensures Progress(g, before, n, before + {n}, docs, docs)
  {
  }

  /**
   * Once every property of n is on its document, the visited set is
   * closed outside `before` and every newly visited document, n's included,
   * holds its saved form.
   */
  lemma FinishVisit(g: Graph, before: set<nat>, n: nat, visited: set<nat>, docs0: seq<Doc>, docs: seq<Doc>)
    requires Progress(g, before, n, visited, docs0, docs) && n !in before
    requires FieldsSaved(g, n, g[n].props.Keys, visited)
    requires docs[n] == docs0[n] + EncodeFields(g, g[n].props, g[n].props.Keys)
    ensures Prepared(g, docs) && before <= visited <= Indices(g) && n in visited
    ensures ClosedOutside(g, visited, before)
    ensures LeastClosed(g, visited, before, n)
    ensures forall m | 0 <= m < |g| ::
      docs[m] == if m in visited - before then SavedDoc(g, docs0[m], m) else docs0[m]
  {
  }

  /** The properties `done` of Storable n have all their references in `visited`. */
  ghost predicate FieldsSaved(g: Graph, n: nat, done: set<string>, visited: set<nat>)
    requires n < |g|
  {
    done <= g[n].props.Keys && forall name | name in done :: Children(g[n].props[name]) <= visited
  }

  /** A list of distinct ids that are exactly a collection's ids is empty exactly when the collection is. */
  lemma IdsCoverRecords(ids: seq<string>, records: Collection)
    requires forall id | id in ids :: id in records
    requires forall id | id in records :: id in ids
    ensures |ids| > 0 <==> |records| > 0
  {
    if |ids| > 0 {
      assert ids[0] in records;
    }
    if |records| > 0 {
      var id :| id in records;
      assert id in ids;
    }
  }

  /** Hydrating every id of a collection gives an entity for each of its records. */
  lemma EntitiesCoverRecords(entityType: string, ids: seq<string>, records: Collection, entities: seq<Value>)
    requires forall id | id in records :: id in ids
    requires |entities| == |ids| && forall i | 0 <= i < |ids| :: entities[i] == Entity(entityType, ids[i])
    ensures forall id | id in records :: Entity(entityType, id) in entities
  {
    forall id | id in records
      ensures Entity(entityType, id) in entities
    {
      var i :| 0 <= i < |ids| && ids[i] == id;
      assert entities[i] == Entity(entityType, id);
    }
  }

  /** Adding Storable m to a set adds its key and its type. */
  lemma KeysOfAdd(g: Graph, s: set<nat>, m: nat)
    requires m < |g|
    ensures KeysOf(g, s + {m}) == KeysOf(g, s) + {g[m].key}
    ensures TypesOf(g, s + {m}) == TypesOf(g, s) + {ExtractTypeFromKey(g[m].key)}
  {
  }

  /**
   * Putting property `name`, encoded, onto n's document keeps the progress
   * of the save and extends the fields n's document holds by that one.
   */
  lemma PutField(g: Graph, before: set<nat>, n: nat, visited: set<nat>, docs0: seq<Doc>, docs: seq<Doc>,
                 done: set<string>, name: string)
    requires Progress(g, before, n, visited, docs0, docs)
    requires name in g[n].props
    requires docs[n] == docs0[n] + EncodeFields(g, g[n].props, done)
    ensures var docs' := docs[n := docs[n][name := EncodeValue(g, g[n].props[name])]];
      Progress(g, before, n, visited, docs0, docs')
      && docs'[n] == docs0[n] + EncodeFields(g, g[n].props, done + {name})
  {
    var props := g[n].props;
    var docs' := docs[n := docs[n][name := EncodeValue(g, props[name])]];
    EncodeFieldsInsert(g, props, done, name, docs0[n]);
    if name == "_id" {
      assert props[name] == Str(g[n].key);
    }
    assert HasId(docs'[n], g[n].key);
  }

  /** Keys made by createKey from colon-free types are equal exactly when their types and ids are. */
  lemma EqualCreatedKeys(store: Store, t1: string, id1: string, t2: string, id2: string)
    requires ':' !in t1 && ':' !in t2
    ensures store.EqualKeys(CreateKey(t1, id1), CreateKey(t2, id2)) <==> t1 == t2 && id1 == id2
  {
    if CreateKey(t1, id1) == CreateKey(t2, id2) {
      assert t1 == ExtractTypeFromKey(CreateKey(t1, id1));
    }
  }

  /**
   * The key getKey reports for the document getEntity makes is the fresh
   * key, and getId accepts it exactly when the type is defined.
   */
  lemma FreshEntityKey(store: Store, entityType: string, freshId: string)
    requires ':' !in entityType
    ensures var key := Str(CreateKey(entityType, freshId));
      && store.GetKey(entityType, Document(FreshDocument(entityType, freshId))) == key
      && store.GetId(key) == if entityType in store.registry then key else Null
  {
    CreatedKeyIsKey(store.registry.Keys, entityType, freshId);
  }

  class Store {
    /** Defined entity types and their constructors. */
    var registry: map<string, EntityConstructor>
    /** The collections opened so far (getCollection's memo). */
    var collections: set<string>
    var db: Db
    /** The `_id` of every document upserted, in the order of the upserts. */
    ghost var upserts: seq<string>

    ghost predicate Valid()
      reads this
    {
      && (forall t | t in registry :: registry[t].entityType == t)
      && Consistent(db)
    }

    constructor (db: Db)
      requires Consistent(db)
      ensures Valid()
      ensures registry == map[] && collections == {} && this.db == db && upserts == []
    {
      registry := map[];
      collections := {};
      this.db := db;
      upserts := [];
    }

    /**
     * defineEntity: the constructor of an already defined type is returned
     * as it is; a new type gets a new constructor, and nothing else is
     * added to or removed from the registry.
     */
    method DefineEntity(entityType: string) returns (ctor: EntityConstructor)
      requires Valid()
      modifies this
      ensures Valid()
      ensures entityType in registry && registry[entityType] == ctor && ctor.entityType == entityType
      ensures entityType in old(registry) ==> ctor == old(registry[entityType]) && registry == old(registry)
      ensures entityType !in old(registry) ==> fresh(ctor) && registry == old(registry)[entityType := ctor]
      ensures collections == old(collections) && db == old(db) && upserts == old(upserts)
    {
      if entityType in registry {
        ctor := registry[entityType];
      } else {
        ctor := new EntityConstructor(entityType);
        registry := registry[entityType := ctor];
      }
    }

    /** getCollection: opens the collection named after the type once, and remembers it. */
    method GetCollection(entityType: string)
      modifies this
      ensures collections == old(collections) + {entityType}
      ensures registry == old(registry) && db == old(db) && upserts == old(upserts)
    {
      if entityType !in collections {
        collections := collections + {entityType};
      }
    }

    /**
     * The entities a cursor yields for documents `found`: each document
     * becomes an entity of the collection's type keyed by its `_id`, which
     * throws when the type is not defined.
     */
    method Hydrate(entityType: string, found: seq<Doc>) returns (r: Result<seq<Value>, Error>)
      requires StringIds(found)
      ensures r.Failure? <==> |found| > 0 && entityType !in registry
      ensures r.Failure? ==> r.error == UndefinedEntity(entityType)
      ensures r.Success? ==> |r.value| == |found|
      ensures r.Success? ==> forall i | 0 <= i < |found| :: r.value[i] == Entity(entityType, found[i]["_id"].s)
    {
      var list: seq<Value> := [];
      var i := 0;
      while i < |found|
        invariant 0 <= i <= |found|
        invariant i > 0 ==> entityType in registry
        invariant |list| == i
        invariant forall j | 0 <= j < i :: list[j] == Entity(entityType, found[j]["_id"].s)
      {
        var created := Create(registry.Keys, entityType, found[i]["_id"].s);
        if created.Failure? {
          return Failure(created.error);
        }
        list := list + [created.value];
        i := i + 1;
      }
      r := Success(list);
    }

    /**
     * The values a cursor yields for a projected property: each document's
     * value of that property, null where it has none.
     */
    method Project(found: seq<Doc>, property: string) returns (list: seq<Value>)
      ensures |list| == |found|
      ensures forall i | 0 <= i < |found| && property in found[i] :: list[i] == found[i][property]
      ensures forall i | 0 <= i < |found| && property !in found[i] :: list[i] == Null
    {
      list := [];
      var i := 0;
      while i < |found|
        invariant 0 <= i <= |found|
        invariant |list| == i
        invariant forall j | 0 <= j < i :: list[j] == if property in found[j] then found[j][property] else Null
      {
        list := list + [if property in found[i] then found[i][property] else Null];
        i := i + 1;
      }
    }

    /**
     * Collection.query over the documents the driver returned for the
     * filter and cursor calls, in cursor order: the projected values when a
     * non-empty property is asked for, the hydrated entities otherwise.
     */
    method CollectionQuery(entityType: string, found: seq<Doc>, projection: Option<string>)
      returns (r: Result<seq<Value>, Error>)
      requires StringIds(found)
      ensures Projects(projection) ==> r.Success? && |r.value| == |found|
      ensures Projects(projection) ==> forall i | 0 <= i < |found| ::
        r.value[i] == if projection.value in found[i] then found[i][projection.value] else Null
      ensures !Projects(projection) ==> (r.Failure? <==> |found| > 0 && entityType !in registry)
      ensures !Projects(projection) && r.Failure? ==> r.error == UndefinedEntity(entityType)
      ensures !Projects(projection) && r.Success? ==> |r.value| == |found|
      ensures !Projects(projection) && r.Success? ==>
        forall i | 0 <= i < |found| :: r.value[i] == Entity(entityType, found[i]["_id"].s)
    {
      if Projects(projection) {
        var list := Project(found, projection.value);
        r := Success(list);
      } else {
        r := Hydrate(entityType, found);
      }
    }

    /**
     * BaseQuery.select: runs the query's filter, projection and cursor
     * calls on its type's collection; `found` is what the driver returns
     * for them.
     */
    method SelectFrom(query: BaseQuery, property: Option<string>, found: seq<Doc>)
      returns (selection: Selection, r: Result<seq<Value>, Error>)
      requires StringIds(found)
      modifies this
      ensures selection.entityType == query.entityType && selection.filter == query.filter
      ensures selection.cursor == CursorCalls(query.options)
      ensures collections == old(collections) + {query.entityType}
      ensures registry == old(registry) && db == old(db) && upserts == old(upserts)
      ensures selection.projection == if Projects(property) then property else None
      ensures Projects(property) ==> r.Success? && |r.value| == |found|
      ensures Projects(property) ==> forall i | 0 <= i < |found| ::
        r.value[i] == if property.value in found[i] then found[i][property.value] else Null
      ensures !Projects(property) ==> (r.Failure? <==> |found| > 0 && query.entityType !in registry)
      ensures !Projects(property) && r.Success? ==> |r.value| == |found|
      ensures !Projects(property) && r.Success? ==>
        forall i | 0 <= i < |found| :: r.value[i] == Entity(query.entityType, found[i]["_id"].s)
    {
      selection := query.Select(property);
      GetCollection(query.entityType);
      r := CollectionQuery(query.entityType, found, selection.projection);
    }

    /**
     * Collection.get: the entity stored under `id` in the type's
     * collection, or null; reading a stored document of an undefined type
     * throws.
     */
    method CollectionGet(entityType: string, id: string) returns (r: Result<Option<Value>, Error>)
      requires Valid()
      modifies this
      ensures Valid()
      ensures collections == old(collections) + {entityType}
      ensures registry == old(registry) && db == old(db) && upserts == old(upserts)
      ensures Lookup(db, entityType, id).None? ==> r == Success(None)
      ensures Lookup(db, entityType, id).Some? ==>
        r == if entityType in registry then Success(Some(Entity(entityType, id))) else Failure(UndefinedEntity(entityType))
    {
      GetCollection(entityType);
      assert Consistent(db);
      var looked := Lookup(db, entityType, id);
      var found: seq<Doc> := [];
      if looked.Some? {
        found := [looked.value];
        assert HasId(found[0], id);
      }
      var docs := CollectionQuery(entityType, found, None);
      if docs.Failure? {
        r := Failure(docs.error);
      } else if |docs.value| > 0 {
        r := Success(Some(docs.value[0]));
      } else {
        r := Success(None);
      }
    }

    /**
     * Collection.all: every entity of the collection. `ids` is the order in
     * which the driver's cursor yields the stored records, each once.
     */
    method CollectionAll(entityType: string, ids: seq<string>) returns (r: Result<seq<Value>, Error>)
      requires Valid()
      requires forall id | id in ids :: id in Records(db, entityType)
      requires forall id | id in Records(db, entityType) :: id in ids
      requires forall i, j | 0 <= i < j < |ids| :: ids[i] != ids[j]
      modifies this
      ensures Valid()
      ensures collections == old(collections) + {entityType}
      ensures registry == old(registry) && db == old(db) && upserts == old(upserts)
      ensures r.Failure? <==> |Records(db, entityType)| > 0 && entityType !in registry
      ensures r.Success? ==> |r.value| == |ids| && forall i | 0 <= i < |ids| :: r.value[i] == Entity(entityType, ids[i])
      ensures r.Success? ==> forall id | id in Records(db, entityType) :: Entity(entityType, id) in r.value
    {
      var records := Records(db, entityType);
      var found := seq(|ids|, i requires 0 <= i < |ids| => records[ids[i]]);
      forall i | 0 <= i < |ids|
        ensures HasId(found[i], ids[i])
      {
        assert ids[i] in ids;
        assert Consistent(db) && entityType in db && ids[i] in db[entityType];
      }
      IdsCoverRecords(ids, records);
      GetCollection(entityType);
      r := CollectionQuery(entityType, found, None);
      if r.Success? {
        EntitiesCoverRecords(entityType, ids, records, r.value);
      }
    }

    /** Collection.save: upserts the document under its own `_id`. */
    method CollectionSave(entityType: string, doc: Doc)
      requires Valid() && "_id" in doc && doc["_id"].Str?
      modifies this
      ensures Valid()
      ensures db == Upsert(old(db), entityType, doc["_id"].s, doc)
      ensures collections == old(collections) + {entityType}
      ensures upserts == old(upserts) + [doc["_id"].s]
      ensures registry == old(registry)
    {
      GetCollection(entityType);
      UpsertKeepsConsistent(db, entityType, doc["_id"].s, doc);
      db := Upsert(db, entityType, doc["_id"].s, doc);
      upserts := upserts + [doc["_id"].s];
    }

    /** remove(key): deletes the record with that `_id` from the collection its key names. */
    method Remove(key: string)
      requires Valid()
      modifies this
      ensures Valid()
      ensures db == RemoveRecord(old(db), ExtractTypeFromKey(key), key)
      ensures Lookup(db, ExtractTypeFromKey(key), key) == None
      ensures collections == old(collections) + {ExtractTypeFromKey(key)}
      ensures registry == old(registry) && upserts == old(upserts)
    {
      GetCollection(ExtractTypeFromKey(key));
      RemoveKeepsConsistent(db, ExtractTypeFromKey(key), key);
      db := RemoveRecord(db, ExtractTypeFromKey(key), key);
    }

    /** query(type): a new builder over the type, with no filter and no options. */
    method Query(entityType: string) returns (q: BaseQuery)
      ensures fresh(q) && q.entityType == entityType && q.State() == EmptyQuery
    {
      q := new BaseQuery(entityType);
    }

    /**
     * getEntity: a key is looked up in the collection of the given type; a
     * DBObject is its own entity; any other object gets a new document
     * whose only field is a fresh key of the type; anything else has none.
     * `freshId` stands for the random UUID.
     */
    method GetEntity(entityType: string, arg: Arg, freshId: string) returns (r: Result<Resolved, Error>)
      requires Valid()
      modifies this
      ensures Valid()
      ensures registry == old(registry) && db == old(db) && upserts == old(upserts)
      ensures arg.Plain? && IsKey(registry.Keys, arg.v) ==>
        && collections == old(collections) + {entityType}
        && (Lookup(db, entityType, arg.v.s).None? ==> r == Success(Loaded(None)))
        && (Lookup(db, entityType, arg.v.s).Some? ==>
              r == if entityType in registry then Success(Loaded(Some(Entity(entityType, arg.v.s))))
                   else Failure(UndefinedEntity(entityType)))
      ensures !(arg.Plain? && IsKey(registry.Keys, arg.v)) ==> collections == old(collections) && r.Success?
      ensures arg.Document? ==> r == Success(Given(arg.doc))
      ensures r.Success? && r.value.Fresh? ==>
        && (arg.Properties? || (arg.Plain? && IsObject(arg.v)))
        && r.value.doc == FreshDocument(entityType, freshId)
      ensures arg.Properties? || (arg.Plain? && IsObject(arg.v)) ==> r.Success? && r.value.Fresh?
      ensures r == Success(NoEntity) <==> arg.Plain? && !IsKey(registry.Keys, arg.v) && !IsObject(arg.v)
    {
      if arg.Plain? && IsKey(registry.Keys, arg.v) {
        var found := CollectionGet(entityType, arg.v.s);
        r := if found.Failure? then Failure(found.error) else Success(Loaded(found.value));
      } else if arg.Document? {
        r := Success(Given(arg.doc));
      } else if arg.Properties? || IsObject(arg.v) {
        r := Success(Fresh(FreshDocument(entityType, freshId)));
      } else {
        r := Success(NoEntity);
      }
    }

    /**
     * getKey: a DBObject's `_id` (null when it has none), a key as it is,
     * null for anything else.
     */
    function GetKey(entityType: string, arg: Arg): (r: Value)
      reads this
      ensures arg.Document? ==> r == if "_id" in arg.doc then arg.doc["_id"] else Null
      ensures arg.Plain? && IsKey(registry.Keys, arg.v) ==> r == arg.v
      ensures !arg.Document? && r != Null ==> arg.Plain? && IsKey(registry.Keys, r) && r == arg.v
    {
      if arg.Document? then
        (if "_id" in arg.doc then arg.doc["_id"] else Null)
      else if arg.Plain? && IsKey(registry.Keys, arg.v) then arg.v
      else Null
    }

    /** getId: a key is its own id; anything else has none. */
    function GetId(key: Value): (r: Value)
      reads this
      ensures IsKey(registry.Keys, key) ==> r == key
      ensures r != Null ==>
        (r == key && r.Str? && ':' in r.s &&
         var t := ExtractTypeFromKey(r.s); t in registry && r.s == CreateKey(t, r.s[|t| + 1..]))
    {
      if IsKey(registry.Keys, key) then KeyIsCreatedKey(registry.Keys, key); key else Null
    }

    /** equalKeys: keys are equal as strings, and equal keys name the same type. */
    function EqualKeys(a: string, b: string): (r: bool)
      ensures r <==> a == b
      ensures r ==> ExtractTypeFromKey(a) == ExtractTypeFromKey(b)
    {
      a == b
    }

    /**
     * getProperties: every field of the document, with keys (other than
     * `_id`) turned into entities, lists into arrays of decoded elements and
     * java Dates into Dates.
     */
    method GetProperties(entity: Doc) returns (props: map<string, Value>)
      ensures props == DecodeDoc(registry.Keys, entity)
    {
      props := map[];
      var pending := entity.Keys;
      ghost var done: set<string> := {};
      while pending != {}
        invariant pending !! done && pending + done == entity.Keys
        invariant props == DecodeFields(registry.Keys, entity, done)
        decreases pending
      {
        var name :| name in pending;
        var value := ReadField(name, entity[name]);
        props := props[name := value];
        pending := pending - {name};
        done := done + {name};
      }
    }

    /** One round of getProperties' loop: field `name` of the document, as it is read back. */
    method ReadField(name: string, value: Value) returns (r: Value)
      ensures r == DecodeField(registry.Keys, name, value)
    {
      if IsKey(registry.Keys, value) && name != "_id" {
        var created := Create(registry.Keys, ExtractTypeFromKey(value.s), value.s);
        r := created.value;
      } else if value.JavaList? {
        var items := ReadList(value.items);
        r := JsArray(items);
      } else if value.JavaDate? {
        r := JsDate(value.millis);
      } else {
        r := value;
      }
    }

    /** The JavaScript array getProperties builds from a java list: each key becomes an entity. */
    method ReadList(list: seq<Value>) returns (items: seq<Value>)
      ensures |items| == |list|
      ensures forall j | 0 <= j < |list| :: items[j] == DecodeItem(registry.Keys, list[j])
    {
      items := [];
      var i := 0;
      while i < |list|
        invariant 0 <= i <= |list|
        invariant |items| == i
        invariant forall j | 0 <= j < i :: items[j] == DecodeItem(registry.Keys, list[j])
      {
        var obj := list[i];
        if IsKey(registry.Keys, obj) {
          var created := Create(registry.Keys, ExtractTypeFromKey(obj.s), obj.s);
          items := items + [created.value];
        } else {
          items := items + [obj];
        }
        i := i + 1;
      }
    }

    /**
     * save(props, entity, entities) for Storable n: the graph is walked from
     * n with the visited set given (Visit), and the root call (no set given)
     * then upserts every visited document into its collection. `docs` holds
     * the graph's documents, indexed like the graph.
     */
    method Save(g: Graph, docs: array<Doc>, n: nat, entities: Option<set<nat>>)
      returns (visited: set<nat>, ghost order: seq<nat>)
      requires Valid() && ValidGraph(g) && n < |g| && Prepared(g, docs[..])
      requires VisitedBefore(entities) <= Indices(g)
      modifies this, docs
      ensures Valid() && Prepared(g, docs[..])
      ensures VisitedBefore(entities) <= visited <= Indices(g) && n in visited
      ensures ClosedOutside(g, visited, VisitedBefore(entities))
      ensures LeastClosed(g, visited, VisitedBefore(entities), n)
      ensures forall m | 0 <= m < |g| ::
        docs[m] == if m in visited - VisitedBefore(entities) then SavedDoc(g, old(docs[m]), m) else old(docs[m])
      ensures registry == old(registry)
      ensures entities.Some? ==> db == old(db) && collections == old(collections) && upserts == old(upserts)
      ensures entities.None? ==> collections == old(collections) + TypesOf(g, visited)
      ensures entities.None? ==> |upserts| >= |old(upserts)| && upserts[..|old(upserts)|] == old(upserts)
      ensures entities.None? ==> Enumerates(order, visited) && upserts == old(upserts) + KeysIn(g, order)
      ensures entities.None? ==> FlushedAll(g, docs[..], visited, old(db), db)
    {
      visited := Visit(g, docs, n, VisitedBefore(entities));
      order := [];
      if entities.None? {
        order := Flush(g, docs, visited);
      }
    }


    /** One round of the flush: Storable m's document is upserted into the collection its key names. */
    method UpsertDocument(g: Graph, docs: array<Doc>, m: nat, ghost done: set<nat>, ghost order: seq<nat>,
                          ghost db0: Db, ghost coll0: set<string>, ghost log0: seq<string>)
      requires Valid() && ValidGraph(g) && Prepared(g, docs[..]) && m < |g| && m !in done
      requires FlushedSoFar(g, docs[..], done, order, db0, db, coll0, collections, log0, upserts)
      modifies this
      ensures Valid() && registry == old(registry)
      ensures FlushedSoFar(g, docs[..], done + {m}, order + [m], db0, db, coll0, collections, log0, upserts)
    {
      var entity := docs[m];
      assert HasId(entity, g[m].key);
      var key := entity["_id"].s;
      ghost var db1, coll1, log1 := db, collections, upserts;
      CollectionSave(ExtractTypeFromKey(key), entity);
      FlushedStep(g, docs[..], done, order, m, db0, db1, db, coll0, coll1, collections, log0, log1, upserts);
    }

    /**
     * The root call's flush: every visited document is upserted into the
     * collection its key names, each once; no order among the writes is
     * promised.
     */
    method Flush(g: Graph, docs: array<Doc>, visited: set<nat>) returns (ghost order: seq<nat>)
      requires Valid() && ValidGraph(g) && Prepared(g, docs[..]) && visited <= Indices(g)
      modifies this
      ensures Valid()
      ensures registry == old(registry)
      ensures collections == old(collections) + TypesOf(g, visited)
      ensures Enumerates(order, visited) && upserts == old(upserts) + KeysIn(g, order)
      ensures FlushedAll(g, docs[..], visited, old(db), db)
    {
      var pending := visited;
      ghost var done: set<nat> := {};
      order := [];
      while pending != {}
        invariant pending !! done && pending + done == visited
        invariant Valid() && registry == old(registry)
        invariant FlushedSoFar(g, docs[..], done, order, old(db), db, old(collections), collections, old(upserts), upserts)
        decreases pending
      {
        var m :| m in pending;
        UpsertDocument(g, docs, m, done, order, old(db), old(collections), old(upserts));
        pending := pending - {m};
        done := done + {m};
        order := order + [m];
      }
    }
  }

  /**
   * The walk save makes from Storable n with visited set `before`: a
   * Storable already visited is left alone; otherwise n is visited and
   * every property is put onto its document in encoded form, saving each
   * Storable it refers to with the same visited set. Nothing is written to
   * a collection.
   */
  method Visit(g: Graph, docs: array<Doc>, n: nat, before: set<nat>) returns (visited: set<nat>)
    requires ValidGraph(g) && n < |g| && Prepared(g, docs[..]) && before <= Indices(g)
    modifies docs
    decreases Indices(g) - before, 5
    ensures Prepared(g, docs[..])
    ensures before <= visited <= Indices(g) && n in visited
    ensures ClosedOutside(g, visited, before)
    ensures LeastClosed(g, visited, before, n)
    ensures forall m | 0 <= m < |g| ::
      docs[m] == if m in visited - before then SavedDoc(g, old(docs[m]), m) else old(docs[m])
  {
    if n in before {
      return before;
    }
    visited := before + {n};
    StartVisit(g, before, n, docs[..]);
    var pending := g[n].props.Keys;
    ghost var done: set<string> := {};
    while pending != {}
      invariant pending !! done && pending + done == g[n].props.Keys
      invariant Progress(g, before, n, visited, old(docs[..]), docs[..])
      invariant FieldsSaved(g, n, done, visited)
      invariant docs[n] == old(docs[n]) + EncodeFields(g, g[n].props, done)
      decreases pending
    {
      var name :| name in pending;
      visited := SaveField(g, docs, n, before, name, visited, done, old(docs[..]));
      pending := pending - {name};
      done := done + {name};
    }
    FinishVisit(g, before, n, visited, old(docs[..]), docs[..]);
  }

  /** One round of save's loop: property `name` of Storable n, encoded, is put onto n's document. */
  method SaveField(g: Graph, docs: array<Doc>, n: nat, before: set<nat>, name: string,
                   visited: set<nat>, ghost done: set<string>, ghost docs0: seq<Doc>)
    returns (visitedAfter: set<nat>)
    requires Progress(g, before, n, visited, docs0, docs[..])
    requires n !in before && name in g[n].props && FieldsSaved(g, n, done, visited)
    requires docs[n] == docs0[n] + EncodeFields(g, g[n].props, done)
    modifies docs
    decreases Indices(g) - before, 4
    ensures Progress(g, before, n, visitedAfter, docs0, docs[..])
    ensures FieldsSaved(g, n, done + {name}, visitedAfter)
    ensures docs[n] == docs0[n] + EncodeFields(g, g[n].props, done + {name})
  {
    var stored;
    stored, visitedAfter := SaveValue(g, docs, n, before, name, visited, docs0);
    ghost var prev := docs[..];
    PutField(g, before, n, visitedAfter, docs0, prev, done, name);
    docs[n] := docs[n][name := stored];
    assert docs[..] == prev[n := prev[n][name := stored]];
  }

  /**
   * Property `name` of Storable n as save puts it onto n's document: a
   * Storable is saved with the visited set and replaced by its `_id`, an
   * array becomes a java list, a Date a java Date, anything else stays.
   */
  method SaveValue(g: Graph, docs: array<Doc>, n: nat, before: set<nat>, name: string,
                   visited: set<nat>, ghost docs0: seq<Doc>)
    returns (stored: Value, visitedAfter: set<nat>)
    requires Progress(g, before, n, visited, docs0, docs[..])
    requires n !in before && name in g[n].props
    modifies docs
    decreases Indices(g) - before, 3
    ensures Progress(g, before, n, visitedAfter, docs0, docs[..])
    ensures visited <= visitedAfter && Children(g[n].props[name]) <= visitedAfter
    ensures stored == EncodeValue(g, g[n].props[name])
    ensures docs[n] == old(docs[n])
  {
    var value := g[n].props[name];
    if value.Node? {
      stored, visitedAfter := SaveReference(g, docs, n, before, name, value.id, visited, docs0);
    } else if value.JsArray? {
      var list;
      list, visitedAfter := SaveList(g, docs, n, before, name, visited, docs0);
      stored := JavaList(list);
    } else if value.Entity? {
      stored := Str(value.key);
      visitedAfter := visited;
    } else if value.JsDate? {
      stored := JavaDate(value.millis);
      visitedAfter := visited;
    } else {
      stored := value;
      visitedAfter := visited;
    }
  }

  /**
   * The java list save builds for an array property: each Storable
   * element is saved with the visited set and replaced by its `_id`, any
   * other element is kept.
   */
  method SaveList(g: Graph, docs: array<Doc>, n: nat, before: set<nat>, name: string,
                  visited: set<nat>, ghost docs0: seq<Doc>)
    returns (list: seq<Value>, visitedAfter: set<nat>)
    requires Progress(g, before, n, visited, docs0, docs[..])
    requires n !in before && name in g[n].props && g[n].props[name].JsArray?
    modifies docs
    decreases Indices(g) - before, 2
    ensures Progress(g, before, n, visitedAfter, docs0, docs[..])
    ensures visited <= visitedAfter && Children(g[n].props[name]) <= visitedAfter
    ensures JavaList(list) == EncodeValue(g, g[n].props[name])
    ensures docs[n] == old(docs[n])
  {
    var value := g[n].props[name];
    var items := value.items;
    ArrayChildren(g, value);
    list := [];
    visitedAfter := visited;
    var i := 0;
    while i < |items|
      invariant 0 <= i <= |items|
      invariant ItemsInGraph(g, items)
      invariant list == EncodeItems(g, items, i)
      invariant NodesSaved(items, i, visitedAfter)
      invariant Progress(g, before, n, visitedAfter, docs0, docs[..])
      invariant visited <= visitedAfter
      invariant docs[n] == old(docs[n])
    {
      list, visitedAfter := SaveElement(g, docs, n, before, name, i, list, visitedAfter, docs0);
      i := i + 1;
    }
    EncodedList(g, value);
    ChildrenWithin(value, visitedAfter);
  }

  /** Element i of array property `name`, as the java list gets it, appended to `list`. */
  method SaveElement(g: Graph, docs: array<Doc>, n: nat, before: set<nat>, name: string, i: nat,
                     list: seq<Value>, visited: set<nat>, ghost docs0: seq<Doc>)
    returns (listAfter: seq<Value>, visitedAfter: set<nat>)
    requires Progress(g, before, n, visited, docs0, docs[..])
    requires n !in before && name in g[n].props && g[n].props[name].JsArray? && i < |g[n].props[name].items|
    requires ItemsInGraph(g, g[n].props[name].items)
    requires list == EncodeItems(g, g[n].props[name].items, i)
    requires NodesSaved(g[n].props[name].items, i, visited)
    modifies docs
    decreases Indices(g) - before, 1
    ensures Progress(g, before, n, visitedAfter, docs0, docs[..])
    ensures listAfter == EncodeItems(g, g[n].props[name].items, i + 1)
    ensures NodesSaved(g[n].props[name].items, i + 1, visitedAfter)
    ensures visited <= visitedAfter
    ensures docs[n] == old(docs[n])
  {
    var obj := g[n].props[name].items[i];
    var element;
    if obj.Node? {
      ArrayChild(g[n].props[name], i);
      element, visitedAfter := SaveReference(g, docs, n, before, name, obj.id, visited, docs0);
    } else if obj.Entity? {
      element := Str(obj.key);
      visitedAfter := visited;
    } else {
      element := obj;
      visitedAfter := visited;
    }
    listAfter := list + [element];
  }

  /**
   * The save of one Storable that property `name` of Storable n refers
   * to, with the visited set so far (value.save(entities)); answers the
   * Storable's `_id` and the grown visited set.
   */
  method SaveReference(g: Graph, docs: array<Doc>, n: nat, before: set<nat>, name: string, c: nat,
                       visited: set<nat>, ghost docs0: seq<Doc>)
    returns (key: Value, visitedAfter: set<nat>)
    requires Progress(g, before, n, visited, docs0, docs[..])
    requires n !in before && name in g[n].props && c in Children(g[n].props[name])
    modifies docs
    decreases Indices(g) - before, 0
    ensures Progress(g, before, n, visitedAfter, docs0, docs[..])
    ensures visited <= visitedAfter && c in visitedAfter
    ensures docs[n] == old(docs[n])
    ensures key == Str(g[c].key)
  {
    assert c < |g|;
    assert n in Indices(g) - before && n !in Indices(g) - visited;
    visitedAfter := Visit(g, docs, c, visited);
    key := Str(g[c].key);
    ClosedOutsideExtend(g, visited, visitedAfter, before + {n});
    forall C: set<nat> | before <= C && n in C && ClosedOutside(g, C, before)
      ensures visitedAfter <= C
    {
      assert visited <= C;
      assert c in C;
      ClosedOutsideMonotonic(g, C, before, visited);
    }
  }


  /**
   * What a flush of the Storables `s` has done to the database, the
   * collection memo and the upsert log, from `db0`, `coll0` and `log0`.
   */
  ghost predicate FlushedSoFar(g: Graph, docs: seq<Doc>, s: set<nat>, order: seq<nat>, db0: Db, db: Db,
                               coll0: set<string>, coll: set<string>, log0: seq<string>, log: seq<string>)
  {
    FlushedLog(g, s, order, coll0, coll, log0, log) && FlushedAll(g, docs, s, db0, db)
  }

  /**
   * The collections of `s` are opened, and the upsert log has gained the
   * keys of `s`, each Storable once, in the order `order`.
   */
  ghost predicate FlushedLog(g: Graph, s: set<nat>, order: seq<nat>,
                             coll0: set<string>, coll: set<string>, log0: seq<string>, log: seq<string>)
  {
    && coll == coll0 + TypesOf(g, s)
    && Enumerates(order, s) && s <= Indices(g)
    && log == log0 + KeysIn(g, order)
  }

  /** One more upsert extends both halves of a partial flush. */
  lemma FlushedStep(g: Graph, docs: seq<Doc>, s: set<nat>, order: seq<nat>, m: nat,
                    db0: Db, db: Db, db': Db, coll0: set<string>, coll: set<string>, coll': set<string>,
                    log0: seq<string>, log: seq<string>, log': seq<string>)
    requires ValidGraph(g) && Prepared(g, docs) && m < |g| && m !in s
    requires FlushedSoFar(g, docs, s, order, db0, db, coll0, coll, log0, log)
    requires db' == Upsert(db, ExtractTypeFromKey(g[m].key), g[m].key, docs[m])
    requires coll' == coll + {ExtractTypeFromKey(g[m].key)} && log' == log + [g[m].key]
    ensures FlushedSoFar(g, docs, s + {m}, order + [m], db0, db', coll0, coll', log0, log')
  {
    FlushOne(g, s, order, m, coll0, coll, log0, log);
    FlushStep(g, docs, s, m, db0, db, db');
  }

  /** Upserting one more Storable's document extends the log of a flush of `s` to s + {m}. */
  lemma FlushOne(g: Graph, s: set<nat>, order: seq<nat>, m: nat,
                 coll0: set<string>, coll: set<string>, log0: seq<string>, log: seq<string>)
    requires m < |g| && m !in s
    requires FlushedLog(g, s, order, coll0, coll, log0, log)
    ensures var key := g[m].key;
      FlushedLog(g, s + {m}, order + [m], coll0, coll + {ExtractTypeFromKey(key)}, log0, log + [key])
  {
    KeysOfAdd(g, s, m);
    EnumeratesAdd(order, s, m);
    LogStep(g, order, m, log0, log);
  }

  /** Logging one more upsert extends the logged keys by that Storable's key. */
  lemma LogStep(g: Graph, order: seq<nat>, m: nat, log0: seq<string>, log: seq<string>)
    requires (forall i | 0 <= i < |order| :: order[i] < |g|) && m < |g|
    requires log == log0 + KeysIn(g, order)
    ensures log + [g[m].key] == log0 + KeysIn(g, order + [m])
  {
    KeysInAppend(g, order, m);
  }

  /** Upserting Storable m's document extends a flush of `s` to a flush of s + {m}. */
  lemma FlushStep(g: Graph, docs: seq<Doc>, s: set<nat>, m: nat, db0: Db, db: Db, db': Db)
    requires ValidGraph(g) && Prepared(g, docs) && m < |g| && m !in s
    requires FlushedAll(g, docs, s, db0, db)
    requires db' == Upsert(db, ExtractTypeFromKey(g[m].key), g[m].key, docs[m])
    ensures FlushedAll(g, docs, s + {m}, db0, db')
  {
    KeysOfAdd(g, s, m);
    forall m' | m' in s + {m} && m' < |g| && m' < |docs|
      ensures Lookup(db', ExtractTypeFromKey(g[m'].key), g[m'].key).Some?
      ensures Lookup(db', ExtractTypeFromKey(g[m'].key), g[m'].key).value in DocsWithKey(g, docs, s + {m}, g[m'].key)
    {
      var key := g[m'].key;
      if key == g[m].key {
        assert docs[m] in DocsWithKey(g, docs, s + {m}, key);
      } else {
        var d := Lookup(db, ExtractTypeFromKey(key), key).value;
        var m'' :| m'' in s && m'' < |g| && m'' < |docs| && g[m''].key == key && docs[m''] == d;
        assert docs[m''] in DocsWithKey(g, docs, s + {m}, key);
      }
    }
  }
}
