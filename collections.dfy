/**
 * The MongoDB database behind the store, seen abstractly: one collection
 * per entity type, each mapping a document's `_id` to the document
 * (Collection.get, Collection.save and Collection.remove in
 * lib/ringo/storage/mongodbstore.js).
 */
module Collections {
  import opened Wrappers
  import opened Values

  /** A collection: the stored documents, by `_id`. */
  type Collection = map<string, Doc>

  /** The database: collections by name; a collection is named after its entity type. */
  type Db = map<string, Collection>

  /** The document with `_id == id` in collection `name`, if any. */
  function Lookup(db: Db, name: string, id: string): (r: Option<Doc>)
    ensures r.Some? <==> id in Records(db, name)
    ensures r.Some? ==> r.value == Records(db, name)[id]
  {
    if name in db && id in db[name] then Some(db[name][id]) else None
  }

  /** Every stored document holds, as its `_id`, the id it is stored under. */
  ghost predicate Consistent(db: Db)
  {
    forall name, id | name in db && id in db[name] :: HasId(db[name][id], id)
  }

  /** The records of collection `name`; a collection never written to is empty. */
  function Records(db: Db, name: string): Collection
  {
    if name in db then db[name] else map[]
  }

  /**
   * Collection.save: `update({_id: id}, doc, upsert)` replaces the record with
   * that `_id`, or inserts it, and touches no other record.
   */
  function Upsert(db: Db, name: string, id: string, doc: Doc): (r: Db)
    ensures Lookup(r, name, id) == Some(doc)
    ensures forall other, otherId | other != name || otherId != id ::
      Lookup(r, other, otherId) == Lookup(db, other, otherId)
  {
    db[name := Records(db, name)[id := doc]]
  }

  /**
   * Collection.remove: `remove({_id: id})` deletes that one record; removing
   * an id that is not stored changes nothing.
   */
  function RemoveRecord(db: Db, name: string, id: string): (r: Db)
    ensures Lookup(r, name, id) == None
    ensures forall other, otherId | other != name || otherId != id ::
      Lookup(r, other, otherId) == Lookup(db, other, otherId)
    ensures id in Records(db, name) ==> |Records(r, name)| == |Records(db, name)| - 1
    ensures id !in Records(db, name) ==> Records(r, name) == Records(db, name)
  {
    if name in db then db[name := db[name] - {id}] else db
  }

  /** An upsert of a document under its own `_id` keeps every document stored under its `_id`. */
  lemma UpsertKeepsConsistent(db: Db, name: string, id: string, doc: Doc)
    requires Consistent(db) && HasId(doc, id)
    ensures Consistent(Upsert(db, name, id, doc))
  {
    var r := Upsert(db, name, id, doc);
    forall name', id' | name' in r && id' in r[name']
      ensures HasId(r[name'][id'], id')
    {
      if name' != name || id' != id {
        assert Lookup(r, name', id') == Lookup(db, name', id');
        assert name' in db && id' in db[name'] && r[name'][id'] == db[name'][id'];
      }
    }
  }

  /** A removal keeps every remaining document stored under its `_id`. */
  lemma RemoveKeepsConsistent(db: Db, name: string, id: string)
    requires Consistent(db)
    ensures Consistent(RemoveRecord(db, name, id))
  {
    var r := RemoveRecord(db, name, id);
    forall name', id' | name' in r && id' in r[name']
      ensures HasId(r[name'][id'], id')
    {
      assert Lookup(r, name', id') == Lookup(db, name', id');
      assert name' in db && id' in db[name'] && r[name'][id'] == db[name'][id'];
    }
  }
}
