/**
 * The values that flow between the JavaScript entity layer and the
 * MongoDB document layer of the store (lib/ringo/storage/mongodbstore.js).
 */
module Values {

  /**
   * A property value. JavaScript numbers are modelled as integers.
   *  - `JsDate` is a JavaScript `Date`, `JavaDate` a `java.util.Date`
   *    (the driver's native timestamp); both carry milliseconds.
   *  - `Node(id)` is a Storable instance of the object graph being saved;
   *    `id` is the identity of that Storable's document.
   *  - `Entity(entityType, key)` is a Storable created by the store's `create`.
   *  - `JsArray` is a JavaScript array, `JavaList` a `java.util.List`.
   */
  datatype Value =
    | Null
    | Bool(b: bool)
    | Num(n: int)
    | Str(s: string)
    | JsDate(millis: int)
    | JavaDate(millis: int)
    | Node(id: nat)
    | Entity(entityType: string, key: string)
    | JsArray(items: seq<Value>)
    | JavaList(items: seq<Value>)

  /** A document: a DBObject, one value per property name. */
  type Doc = map<string, Value>

  /** The document holds `key` as its `_id`. */
  predicate HasId(doc: Doc, key: string)
  {
    "_id" in doc && doc["_id"] == Str(key)
  }

  /** The errors the store throws. */
  datatype Error =
    | UndefinedEntity(entityType: string)   // 'Entity "<type>" is not defined'
    | NegativeOffset(value: int)      // "Offset value mustn't be below zero."
    | NoCreateInstance(entityType: string)  // TypeError: the registry entry has no createInstance

  /** convertJsValueToJava: a JavaScript Date becomes a java.util.Date with the same time. */
  function ConvertJsValueToJava(v: Value): (r: Value)
    ensures v.JsDate? ==> r == JavaDate(v.millis)
    ensures !v.JsDate? ==> r == v
    ensures !r.JsDate?
  {
    if v.JsDate? then JavaDate(v.millis) else v
  }
}
