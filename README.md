# MongoDB store for RingoJS Storables — a Dafny model

This project models the core of `lib/ringo/storage/mongodbstore.js`, the
MongoDB back end of RingoJS's `Storable` persistence layer:

- **Keys and the type registry** (`keys.dfy`). An entity key is the
  string `"<type>:<id>"` (`createKey`). `extractTypeFromKey` reads the
  type back. `isKey` decides which strings are keys: a string is a key
  when it contains a colon and its type is registered. `create` turns a
  key into an entity of its type, and throws `Entity "<type>" is not
  defined` when the type is unknown.
- **The database** (`collections.dfy`). There is one collection per
  entity type. Each collection maps a document's `_id` to the document.
  `Collection.save` is an upsert by `_id`, and `Collection.remove` deletes
  by `_id`. Every stored document holds the id it is stored under
  (`Consistent`). The store keeps this invariant.
- **Save and getProperties** (`codec.dfy`, `store.dfy`).
  - `save` walks the object graph of Storables from the one being saved.
    It uses a shared visited set, so that every Storable reached is saved
    once, cycles included. Two Storables may carry the same key, as two
    separately loaded copies of one entity do.
  - Each property is put onto its Storable's document in stored form:
    - a Storable becomes its `_id`, whether it is one of the graph being
      saved or an entity loaded earlier;
    - an array becomes a java list, with Storable elements replaced by
      their `_id`;
    - a Date becomes a java Date.
  - The root call then upserts every visited document into the collection
    named by the type of its key. When two visited Storables share a key,
    the record under it is the document of one of them.
  - `getProperties` turns a document back into properties. Keys become
    entities, lists become arrays and java Dates become Dates.
  - The model proves that decoding undoes encoding (`DecodeSavedDoc`). It
    also shows which strings break that round trip.
- **Queries** (`query.dfy`, `store.dfy`).
  - `BaseQuery` is a chained builder. Its methods are `equals`, the four
    comparisons, `orderBy`, `limit`, `offset` and `range`. It has a filter
    document and options.
  - `select` runs it through `Collection.query` and
    `skipLimitAndSortCursor`. That function calls `limit` and `skip` on the
    cursor only for truthy values, then one `sort` per ordering, in call
    order.
  - A chain of builder calls is also modelled as a sequence of `Call`
    values (`Step` and `Run`). Lemmas state what a whole chain leaves:
    - the last condition per field;
    - the orderings in call order;
    - a throw exactly when an offset is negative.

The store is a class. Its fields are the registry, the memo of opened
collections, the database and a ghost log of upserts. The graph's
documents are an array that `save` updates in place. `Store.Visit` and its
helpers are mutually recursive, the way `value.save(entities)` re-enters
`save`. They are proved against the specification function
`Codec.SavedDoc`, and the set they visit is proved to be the least set
closed under references (`LeastClosed`).

Where the documented behaviour and the code differ, the model follows the
code:

- The root save writes the visited documents in the iteration order of a
  `java.util.HashSet`, so no order among the writes is promised. `Flush`
  states the outcome for every order: each visited document is upserted
  once, and when no two of them share a key each is stored under its own.
- `save` itself never checks that a type is defined. Only reading a
  document back (`create`) throws for an undefined type.
- `Collection.query` projects only for a truthy property, so an empty
  property name hydrates entities like no property at all.
- `skipLimitAndSortCursor` calls `limit`, then `skip`, then `sort`.

Other behaviour the model makes explicit:

- `range(from, from - 1)` sets a limit of 0. That limit is falsy, so no
  limit is applied at all (`EmptyRangeIsUnlimited`).
- A plain string property that reads as a key of a registered type comes
  back from `getProperties` as an entity (`KeyLikeStringComesBackAsEntity`).
  The round trip is stated only for unambiguous values.

## Model

| member | source | states |
|---|---|---|
| Keys.CreateKey | lib/ringo/storage/mongodbstore.js:326-328 | the key is the type, a colon and the id, for every type and id; a colon-free type is read back by extractTypeFromKey |
| Keys.ExtractTypeFromKey | lib/ringo/storage/mongodbstore.js:322-324 | the result is the prefix of the key before its first colon (all of it when there is none) and holds no colon |
| Keys.TypeOfCreatedKey | lib/ringo/storage/mongodbstore.js:322-328 | extractTypeFromKey(createKey(t, id)) == t for every colon-free type t and every id |
| Keys.CreatedKeyIsKey | lib/ringo/storage/mongodbstore.js:326-332 | a created key passes isKey exactly when its type is registered |
| Keys.KeyIsCreatedKey | lib/ringo/storage/mongodbstore.js:326-332 | every string isKey accepts has a registered type before its first colon and is the key createKey makes from that type and the rest of the string |
| Keys.IsKeyAsWritten | lib/ringo/storage/mongodbstore.js:330-332 | isKey as written, where `registry[type]` also finds Object.prototype members, accepts every string the registry-only isKey accepts |
| Keys.CreateAsWritten | lib/ringo/storage/mongodbstore.js:30-36 | create as written succeeds exactly for a registered type, as Create does; an inherited Object.prototype name fails with a TypeError for the missing createInstance; any other name with the not-defined error |
| Keys.Create | lib/ringo/storage/mongodbstore.js:30-36 | create succeeds exactly for a registered type, with an entity of that type and key; otherwise it fails with the undefined-entity error |
| Keys.KeysResolve | lib/ringo/storage/mongodbstore.js:129-130 | every string that isKey accepts can be turned into an entity by create without throwing |
| Keys.PrototypeNameIsKeyAsWritten | lib/ringo/storage/mongodbstore.js:330-332 | with an empty registry, "constructor:1" passes isKey as written, but create fails for it; the registry-only isKey rejects it |
| Keys.IsKeyAgreesOffPrototype | lib/ringo/storage/mongodbstore.js:330-332 | the registry-only isKey and isKey as written agree on every type name not inherited from Object.prototype |
| Collections.Upsert | lib/ringo/storage/mongodbstore.js:234-236 | after the upsert the record under the id is the document; every other record of every collection is unchanged |
| Collections.Lookup | lib/ringo/storage/mongodbstore.js:186-189 | a document is found exactly when the collection stores one under the id, and it is that stored document |
| Collections.RemoveRecord | lib/ringo/storage/mongodbstore.js:230-232 | the record under the id is gone and nothing else changes; the collection shrinks by one exactly when the id was stored |
| Collections.UpsertKeepsConsistent | lib/ringo/storage/mongodbstore.js:234-236 | upserting a document under its own `_id` keeps every stored document under its own `_id` |
| Collections.RemoveKeepsConsistent | lib/ringo/storage/mongodbstore.js:230-232 | removing a record keeps every stored document under its own `_id` |
| Codec.EncodeItems | lib/ringo/storage/mongodbstore.js:71-78 | the list built from the first i array elements has length i, and element j is element j encoded (a Storable as its key) |
| Values.ConvertJsValueToJava | lib/ringo/storage/mongodbstore.js:341-346 | a Date becomes a java Date with the same milliseconds; any other value is returned unchanged; no JavaScript Date is left |
| Codec.EncodeItem | lib/ringo/storage/mongodbstore.js:71-78 | an array element is stored with a Storable, of the graph or loaded, replaced by its key, and any other element unchanged |
| Codec.EncodeValue | lib/ringo/storage/mongodbstore.js:65-82 | the stored value is no Storable, no JavaScript array and no JavaScript Date: a Storable becomes its key, a Date a java Date with the same milliseconds, an array a java list of the same length none of whose elements is a Storable; anything else is unchanged |
| Codec.EncodedList | lib/ringo/storage/mongodbstore.js:69-79 | the list built element by element is the java list that save stores for the array |
| Codec.SavedDocKeepsId | lib/ringo/storage/mongodbstore.js:63-84 | putting every encoded property onto a document keeps the Storable's key as its `_id` |
| Codec.DecodeEncodedValue | lib/ringo/storage/mongodbstore.js:127-145 | getProperties' decoding of a property that save encoded gives back the value, with each Storable as the entity of its key's type |
| Codec.DecodeItem | lib/ringo/storage/mongodbstore.js:135-136 | a list element that is a key becomes the entity of its type with that key; the result is never itself a key |
| Codec.DecodeField | lib/ringo/storage/mongodbstore.js:128-143 | a key in any field but `_id` becomes the entity of its type; a java list becomes an array of the same length, a java Date a Date with the same milliseconds; no java list or Date is left |
| Codec.DecodeDoc | lib/ringo/storage/mongodbstore.js:119-147 | getProperties gives exactly the document's fields, and the `_id` string comes back as it is stored |
| Codec.KeysInEnumeration | lib/ringo/storage/mongodbstore.js:85-90 | the keys upserted while going through the visited Storables are exactly the keys of the visited Storables |
| Codec.KeysInDistinct | lib/ringo/storage/mongodbstore.js:85-90 | when no two visited Storables share a key, no key is upserted twice |
| Codec.DateRoundTrip | lib/ringo/storage/mongodbstore.js:139-140 | a Date saved and read back has the same milliseconds |
| Codec.DecodeSavedDoc | lib/ringo/storage/mongodbstore.js:119-147 | reading back a saved document gives every property of the Storable, each Storable reference resolved to its entity |
| Codec.KeyLikeStringComesBackAsEntity | lib/ringo/storage/mongodbstore.js:129-130 | a plain string property that reads as a registered key comes back as an entity, so the round trip needs unambiguous values |
| QueryBuilder.ParseOrdering | lib/ringo/storage/mongodbstore.js:278-287 | the direction is -1 exactly when the expression matches `^-.+$`, and then the field is the expression without its minus sign; otherwise +1 on the whole expression |
| QueryBuilder.DescendingOrdering | lib/ringo/storage/mongodbstore.js:281-284 | orderBy("-f") sorts descending on f for every non-empty single-line f |
| QueryBuilder.AscendingOrdering | lib/ringo/storage/mongodbstore.js:281-284 | orderBy(f) sorts ascending on f when f does not start with a minus sign |
| QueryBuilder.Step | lib/ringo/storage/mongodbstore.js:249-305 | one builder call throws exactly when it passes a negative offset |
| QueryBuilder.RunAppend | lib/ringo/storage/mongodbstore.js:249-305 | a chain extended by one call is the chain followed by that call, and a throw stops the chain |
| QueryBuilder.Run | lib/ringo/storage/mongodbstore.js:249-305 | a chain of builder calls that does not throw keeps every filtered field and extends the orderings |
| QueryBuilder.RunFailsIffRejected | lib/ringo/storage/mongodbstore.js:294-311 | a chain of builder calls throws exactly when one of its offset or range calls has a negative offset |
| QueryBuilder.FilterIsLastCondition | lib/ringo/storage/mongodbstore.js:249-276 | after a chain, each field holds the condition of the last filter call on it; fields no call names keep their condition |
| QueryBuilder.OrderingsInCallOrder | lib/ringo/storage/mongodbstore.js:278-287 | after a chain, the orderings are the earlier ones followed by those of the orderBy calls, in call order |
| QueryBuilder.RangeIsOffsetThenLimit | lib/ringo/storage/mongodbstore.js:300-305 | range(from, to) has the same effect as offset(from) followed by limit(to - from + 1), error included |
| QueryBuilder.CursorCalls | lib/ringo/storage/mongodbstore.js:215-228 | a limit call exactly for a truthy limit and a skip call exactly for a truthy offset, with their values, then one sort per ordering in order |
| QueryBuilder.SkipLimitAndSortCursor | lib/ringo/storage/mongodbstore.js:215-228 | the calls made on the cursor are exactly CursorCalls of the limit, offset and orderings |
| QueryBuilder.EmptyRangeIsUnlimited | lib/ringo/storage/mongodbstore.js:300-305 | range(from, from - 1) succeeds and leaves the cursor with no limit call at all |
| QueryBuilder.RangeCursor | lib/ringo/storage/mongodbstore.js:300-305 | after range(from, to) with 0 < from <= to the cursor skips from and limits to to - from + 1 |
| QueryBuilder.BaseQuery.constructor | lib/ringo/storage/mongodbstore.js:239-243 | a new builder has the type, an empty filter, no orderings, no limit and no offset |
| QueryBuilder.BaseQuery.Select | lib/ringo/storage/mongodbstore.js:245-247 | select hands over the type, the filter, the property when it is non-empty, and the cursor calls of the options |
| QueryBuilder.BaseQuery.Equals | lib/ringo/storage/mongodbstore.js:249-252 | the field's condition becomes equality with the converted value; options are unchanged and the builder itself is returned |
| QueryBuilder.BaseQuery.Greater | lib/ringo/storage/mongodbstore.js:254-258 | the field's condition becomes `$gt` the converted value; nothing else changes |
| QueryBuilder.BaseQuery.GreaterEquals | lib/ringo/storage/mongodbstore.js:260-264 | the field's condition becomes `$gte` the converted value; nothing else changes |
| QueryBuilder.BaseQuery.Less | lib/ringo/storage/mongodbstore.js:266-270 | the field's condition becomes `$lt` the converted value; nothing else changes |
| QueryBuilder.BaseQuery.LessEquals | lib/ringo/storage/mongodbstore.js:272-276 | the field's condition becomes `$lte` the converted value; nothing else changes |
| QueryBuilder.BaseQuery.OrderBy | lib/ringo/storage/mongodbstore.js:278-287 | the parsed ordering is appended to the orderings; the filter is unchanged |
| QueryBuilder.BaseQuery.Limit | lib/ringo/storage/mongodbstore.js:289-292 | the limit is set to the value, unvalidated; nothing else changes |
| QueryBuilder.BaseQuery.Offset | lib/ringo/storage/mongodbstore.js:294-298 | a negative value throws and changes nothing; otherwise the offset is set and the builder returned |
| QueryBuilder.BaseQuery.Range | lib/ringo/storage/mongodbstore.js:300-305 | a negative from throws and changes nothing; otherwise offset from and limit to - from + 1 |
| Store.Store.constructor | lib/ringo/storage/mongodbstore.js:12-17 | a new store has an empty registry, no opened collections and the given database |
| Store.Store.DefineEntity | lib/ringo/storage/mongodbstore.js:19-28 | a defined type's constructor is returned unchanged; a new type gets a fresh constructor and only that registry entry is added |
| Store.Store.GetCollection | lib/ringo/storage/mongodbstore.js:153-159 | the type's collection is opened once and remembered; nothing else changes |
| Store.Store.Hydrate | lib/ringo/storage/mongodbstore.js:206-210 | each found document becomes an entity of the type keyed by its `_id`, in order; it throws exactly when a document is found and the type is undefined |
| Store.Store.Project | lib/ringo/storage/mongodbstore.js:196-199 | the result holds each document's value of the property, in order, null where it is missing |
| Store.Store.CollectionQuery | lib/ringo/storage/mongodbstore.js:191-213 | projected values when a non-empty property is asked for, entities otherwise (an empty name included); it throws exactly when it hydrates found documents of an undefined type |
| Store.Store.SelectFrom | lib/ringo/storage/mongodbstore.js:245-247 | select runs the builder's filter and cursor calls on its type's collection, which is opened; the result is each found document's value of a non-empty property, or the entities of the found documents, failing exactly when there are some and the type is undefined |
| Store.Store.CollectionGet | lib/ringo/storage/mongodbstore.js:186-189 | the entity stored under the id, null when none is stored, the undefined-entity error when one is stored and the type is undefined |
| Store.Store.CollectionAll | lib/ringo/storage/mongodbstore.js:182-184 | one entity per record of the collection, in cursor order; it throws exactly when the collection is non-empty and the type undefined |
| Store.Store.CollectionSave | lib/ringo/storage/mongodbstore.js:234-236 | the document is upserted under its `_id` in the type's collection and the store stays consistent |
| Store.Store.Remove | lib/ringo/storage/mongodbstore.js:50-52 | the record with the key is deleted from the collection its key names; no other record changes |
| Store.Store.Query | lib/ringo/storage/mongodbstore.js:46-48 | a new builder over the type with an empty filter and no options |
| Store.Store.GetEntity | lib/ringo/storage/mongodbstore.js:93-104 | a key is looked up in the type's collection, a DBObject returned as it is, any other object given a new document holding only a fresh key of the type, anything else null |
| Store.Store.GetKey | lib/ringo/storage/mongodbstore.js:106-113 | a DBObject's `_id`, null when it has none; a key as it is; null otherwise; a non-null result for anything but a DBObject is a key (see FreshEntityKey for getEntity's documents) |
| Store.Store.GetId | lib/ringo/storage/mongodbstore.js:115-117 | a key is its own id; a non-null result is a key createKey makes from its registered type (see FreshEntityKey) |
| Store.Store.EqualKeys | lib/ringo/storage/mongodbstore.js:149-151 | equal keys are equal strings, and so name the same type (see EqualCreatedKeys for createKey's injectivity) |
| Store.Store.GetProperties | lib/ringo/storage/mongodbstore.js:119-147 | the result is DecodeDoc of the document: every field, with keys other than `_id` as entities, lists as arrays of decoded elements and java Dates as Dates |
| Store.Store.ReadField | lib/ringo/storage/mongodbstore.js:128-143 | one round of getProperties' loop reads the field as DecodeField does |
| Store.Store.ReadList | lib/ringo/storage/mongodbstore.js:131-138 | the array built from a java list has its length, and each element is the list element as DecodeItem reads it |
| Store.Store.Save | lib/ringo/storage/mongodbstore.js:54-91 | exactly the Storables reachable without passing the given set are visited; each holds its saved document; a root call upserts each of them once, into the collection of its key's type, leaves under each key the document of a visited Storable with that key, and changes no other record |
| Store.Store.Flush | lib/ringo/storage/mongodbstore.js:85-90 | the upsert log grows by the keys of the visited Storables, each Storable once, in some order; under each key is the document of a visited Storable with that key; no other record changes |
| Store.Store.UpsertDocument | lib/ringo/storage/mongodbstore.js:86-89 | one more document is upserted, extending the flush's log, memo and records by that Storable |
| Store.Visit | lib/ringo/storage/mongodbstore.js:54-84 | a Storable already visited is left alone; otherwise the visited set is the least one closed under references, and every newly visited document holds SavedDoc |
| Store.SaveField | lib/ringo/storage/mongodbstore.js:64-83 | one round of the property loop: the encoded property is put onto the document, after every Storable it refers to is visited |
| Store.SaveValue | lib/ringo/storage/mongodbstore.js:65-82 | the stored value is EncodeValue of the property: a Storable of the graph is saved first and stored as its key, a loaded entity as its key; the Storables it refers to are visited |
| Store.SaveList | lib/ringo/storage/mongodbstore.js:69-79 | the java list built is the encoded array, and every Storable element has been visited |
| Store.SaveElement | lib/ringo/storage/mongodbstore.js:71-78 | one element is appended in encoded form, after it has been saved if it is a Storable of the graph; a loaded entity is appended as its key |
| Store.SaveReference | lib/ringo/storage/mongodbstore.js:66-68 | the referenced Storable is saved with the current visited set, and its `_id` is returned |
| Store.FlushOne | lib/ringo/storage/mongodbstore.js:86-89 | upserting one more visited document extends the database, collection memo and upsert log of the flush by that Storable |
| Store.FlushedStep | lib/ringo/storage/mongodbstore.js:86-89 | one more upsert extends a partial flush: its log, memo and records |
| Store.LogStep | lib/ringo/storage/mongodbstore.js:86-89 | the upsert log after one more upsert is the keys of the Storables written so far, in order |
| Store.FlushStep | lib/ringo/storage/mongodbstore.js:86-89 | after one more upsert every written key holds the document of a written Storable with that key, and no other record changes |
| Store.FlushedAllDistinct | lib/ringo/storage/mongodbstore.js:85-90 | when no two visited Storables share a key, each visited document is the record under its own key |
| Store.FreshDocument | lib/ringo/storage/mongodbstore.js:99-100 | the new document holds only `_id`, a key createKey makes from the type and the fresh id, and the type is read back from it |
| Store.EqualCreatedKeys | lib/ringo/storage/mongodbstore.js:149-151 | two created keys of colon-free types are equal exactly when their types and ids are |
| Store.FreshEntityKey | lib/ringo/storage/mongodbstore.js:93-117 | getKey of the document getEntity makes for a new entity is its fresh key, and getId returns that key exactly when the type is registered |

## Left out

- The MongoDB driver's query evaluation is not modelled. Filters, skip,
  limit and sort are not applied to data. `Collection.query` and
  `Collection.all` take the documents or ids the driver returns as
  parameters. CollectionAll requires that these are the
  stored records, each once. `Collection.get` reads the stored record
  under the id directly (`Lookup`).
- `openMongoDb`, `openCollection` and its `capped`/`size`/`max` options
  are not modelled. The database is a constructor parameter, and opening a
  collection is recorded as a name in the memo.
- `java.util.UUID.randomUUID()` in `getEntity` becomes the `freshId`
  parameter.
- The Storable host object is not modelled: `Storable.defineEntity`,
  `createInstance`, lazy loading and `isStorable`. An entity is
  represented by its type and key. A Storable being saved is a node of
  the graph. The document `create` receives is dropped.
- `ctor.all`, `ctor.get` and `ctor.query` are `bindArguments` bindings of
  `all`, `get` and `query`. They are modelled by CollectionAll,
  CollectionGet and Query, which take the type as an argument.
- `Context.javaToJS` in `getProperties` is treated as the identity.
- The `isStorable(entity)` branch of `getProperties` is not modelled. The
  document's fields are read directly, as in the `toMap()` branch.
- JavaScript numbers are modelled as unbounded integers. Floating point is
  not modelled.
- The `for-in` order over properties and the iteration order of the
  HashSet are not modelled. The contracts hold for every order.
- The logger is unused by the code and is not modelled.
- `getCollection`'s memo is a plain object. Like the registry, it also
  answers Object.prototype names, such as `collections["constructor"]`.
  The memo is modelled as the set of names actually opened, so this is
  not captured.
- Store.SaveValue: a loaded entity (a Storable made by `create`) is stored
  as its key, but its own `value.save(entities)` is not modelled. Loaded
  entities are not nodes of the graph, so their properties are not written
  back and they are not upserted.
- Store.SaveElement: the same holds for a loaded entity inside an array.
- Store.Store.Save: the visited set is modelled as a set of Storables
  (identity). In the code it is a `java.util.HashSet` of `BasicDBObject`s,
  which hashes and compares documents by content, and a document is added
  before its fields are put. So a shared Storable reached again after it
  was filled may be walked and upserted twice, and two documents with equal
  content count as one. Neither effect is captured.
- Store.Store.DefineEntity: models the registry lookup as the
  registry's own entries. As written, `defineEntity("constructor")`
  returns the inherited `Object` function and defines nothing (see
  Findings).

## Findings

| source | as written | input that shows it | evidently intended | confidence | as-written member | corrected member |
|---|---|---|---|---|---|---|
| lib/ringo/storage/mongodbstore.js:330-332 | `isKey` (and `create`, `defineEntity`) test `registry[type]` on a plain object, which also finds members inherited from Object.prototype | the string `"constructor:1"` with no type defined: `isKey` is truthy, and `getProperties` on a document holding it calls `create`, which finds the inherited `Object` function and throws a TypeError calling its missing `createInstance` (CreateAsWritten) | only defined entity types make a string a key, so every key can be turned into an entity | not executed | Keys.PrototypeNameIsKeyAsWritten | Keys.KeysResolve |
