/**
 * Entity keys: the string "type:id" that stands for a stored entity, and the
 * type registry that decides which strings are keys
 * (createKey, extractTypeFromKey, isKey and create in
 * lib/ringo/storage/mongodbstore.js).
 */
module Keys {
  import opened Wrappers
  import opened Values

  /** createKey: the type, a colon, then the id. */
  function CreateKey(entityType: string, id: string): (key: string)
    ensures ':' in key
    ensures |key| == |entityType| + 1 + |id| && key[|entityType| + 1..] == id
    ensures key[..|entityType|] == entityType && key[|entityType|] == ':'
    ensures ':' !in entityType ==> ExtractTypeFromKey(key) == entityType
  {
    if ':' !in entityType then TypeOfCreatedKey(entityType, id); entityType + ":" + id
    else entityType + ":" + id
  }

  /**
   * extractTypeFromKey, `key.split(":")[0]`: the part of `key` before its
   * first colon, or all of `key` when it has none.
   */
  function ExtractTypeFromKey(key: string): (prefix: string)
    ensures prefix <= key
    ensures ':' !in prefix
    ensures |prefix| == |key| || key[|prefix|] == ':'
    ensures ':' in key ==> |prefix| < |key| && key == prefix + ":" + key[|prefix| + 1..]
  {
    if key == [] then []
    else if key[0] == ':' then
      assert key == [] + ":" + key[1..];
      []
    else
      assert ':' in key ==> ':' in key[1..] by {
        if ':' in key {
          var i :| 0 <= i < |key| && key[i] == ':';
          assert key[1..][i - 1] == ':';
        }
      }
      var rest := ExtractTypeFromKey(key[1..]);
      assert ':' in key ==> key == [key[0]] + rest + ":" + key[1..][|rest| + 1..];
      [key[0]] + rest
  }

  /** The type of a created key is the type it was created with, when that type has no colon. */
  lemma TypeOfCreatedKey(entityType: string, id: string)
    requires ':' !in entityType
    ensures ExtractTypeFromKey(entityType + ":" + id) == entityType
  {
    assert (entityType + ":" + id)[|entityType|] == ':';
  }

  /**
   * isKey: a string that contains a colon and whose type prefix is a type
   * registered in `registry`. Keys are relative to the registry.
   */
  predicate IsKey(registry: set<string>, v: Value)
  {
    v.Str? && ':' in v.s && ExtractTypeFromKey(v.s) in registry
  }

  /** Every key is the key createKey makes from its registered type and the text after its first colon. */
  lemma KeyIsCreatedKey(registry: set<string>, v: Value)
    requires IsKey(registry, v)
    ensures var t := ExtractTypeFromKey(v.s);
      t in registry && |t| < |v.s| && v.s == CreateKey(t, v.s[|t| + 1..])
  {
  }

  /** A created key is a key exactly when its type is registered. */
  lemma CreatedKeyIsKey(registry: set<string>, entityType: string, id: string)
    requires ':' !in entityType
    ensures IsKey(registry, Str(CreateKey(entityType, id))) <==> entityType in registry
  {
  }

  /**
   * create(type, key): a Storable of a registered type, or the error
   * 'Entity "<type>" is not defined'. The Storable is represented by its
   * type and key; the host object's lazy loading is not part of this model.
   */
  function Create(registry: set<string>, entityType: string, key: string): (r: Result<Value, Error>)
    ensures r.Success? <==> entityType in registry
    ensures r.Success? ==> r.value == Entity(entityType, key)
    ensures r.Failure? ==> r.error == UndefinedEntity(entityType)
  {
    if entityType !in registry then Failure(UndefinedEntity(entityType)) else Success(Entity(entityType, key))
  }

  /** Every key resolves: creating an entity from a key never throws. */
  lemma KeysResolve(registry: set<string>, v: Value)
    requires IsKey(registry, v)
    ensures Create(registry, ExtractTypeFromKey(v.s), v.s).Success?
  {
  }

  /*
   * The registry as written is a plain JavaScript object, and `registry[t]`
   * also finds the members every object inherits from Object.prototype.
   */

  /** Names every plain JavaScript object answers with a truthy value (Rhino's Object.prototype). */
  const ObjectPrototypeMembers: set<string> :=
    {"constructor", "toString", "toSource", "toLocaleString", "valueOf", "hasOwnProperty",
     "isPrototypeOf", "propertyIsEnumerable", "__proto__", "__defineGetter__",
     "__defineSetter__", "__lookupGetter__", "__lookupSetter__"}

  /** `registry[type]` is truthy, as the source tests it. */
  predicate RegistryFindsAsWritten(registry: set<string>, entityType: string)
  {
    entityType in registry || entityType in ObjectPrototypeMembers
  }

  /** isKey exactly as written, with the inherited members included. */
  predicate IsKeyAsWritten(registry: set<string>, v: Value)
    ensures IsKey(registry, v) ==> IsKeyAsWritten(registry, v)
  {
    v.Str? && ':' in v.s && RegistryFindsAsWritten(registry, ExtractTypeFromKey(v.s))
  }

  /**
   * create exactly as written: `registry[type]` for an inherited name is the
   * inherited member, which passes the `!ctor` test and then has no
   * `createInstance` to call, so create throws a TypeError instead of the
   * not-defined error. The registry never holds such a name as its own entry,
   * since defineEntity, testing `registry[type]` the same way, never adds one.
   */
  function CreateAsWritten(registry: set<string>, entityType: string, key: string): (r: Result<Value, Error>)
    ensures r.Success? <==> entityType in registry
    ensures r.Success? ==> r == Create(registry, entityType, key)
    ensures entityType !in registry && entityType in ObjectPrototypeMembers ==> r == Failure(NoCreateInstance(entityType))
    ensures entityType !in ObjectPrototypeMembers ==> r == Create(registry, entityType, key)
  {
    if entityType in registry then Success(Entity(entityType, key))
    else if entityType in ObjectPrototypeMembers then Failure(NoCreateInstance(entityType))
    else Failure(UndefinedEntity(entityType))
  }

  /**
   * With no type defined at all, the string "constructor:1" passes the
   * written isKey, yet no entity can be created for it: getProperties on a
   * document holding that string calls create, which throws a TypeError.
   * The registry-only IsKey rejects the string.
   */
  lemma PrototypeNameIsKeyAsWritten()
    ensures IsKeyAsWritten({}, Str("constructor:1"))
    ensures !IsKey({}, Str("constructor:1"))
    ensures CreateAsWritten({}, ExtractTypeFromKey("constructor:1"), "constructor:1") == Failure(NoCreateInstance("constructor"))
  {
    var v := Str("constructor:1");
    assert "constructor:1" == "constructor" + ":" + "1";
    TypeOfCreatedKey("constructor", "1");
    assert ':' in v.s by { assert v.s[11] == ':'; }
  }

  /** The registry-only IsKey agrees with the written one on every type name not inherited from Object.prototype. */
  lemma IsKeyAgreesOffPrototype(registry: set<string>, v: Value)
    requires v.Str? && ExtractTypeFromKey(v.s) !in ObjectPrototypeMembers
    ensures IsKey(registry, v) <==> IsKeyAsWritten(registry, v)
  {
  }
}
