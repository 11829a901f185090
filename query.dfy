/**
 * The query builder (BaseQuery) and the cursor options it compiles to
 * (skipLimitAndSortCursor) in lib/ringo/storage/mongodbstore.js.
 */
module QueryBuilder {
  import opened Wrappers
  import opened Values

  /** The condition a filter puts on one field: equality, or a `$gt`/`$gte`/`$lt`/`$lte` comparison. */
  datatype Condition = Is(value: Value) | Compare(operator: string, value: Value)

  /** A sort key: the field and +1 (ascending) or -1 (descending). */
  datatype Ordering = Ordering(field: string, direction: int)

  datatype QueryOptions = QueryOptions(orderings: seq<Ordering>, limit: Option<int>, offset: Option<int>)

  /** The builder's state: the filter document and the options. */
  datatype QueryState = QueryState(filter: map<string, Condition>, options: QueryOptions)

  /** A fresh builder: `new BasicDBObject()` and `{orderings: []}`. */
  const EmptyQuery := QueryState(map[], QueryOptions([], None, None))

  // ----- orderBy -----

  /** The characters `.` does not match in a JavaScript regular expression. */
  predicate IsLineTerminator(c: char)
  {
    c == '\n' || c == '\r' || c == '\U{2028}' || c == '\U{2029}'
  }

  /** `/^-.+$/.test(expression)`: a minus sign followed by at least one character, none a line terminator. */
  predicate IsDescending(expression: string)
  {
    |expression| >= 2 && expression[0] == '-' &&
    forall i | 1 <= i < |expression| :: !IsLineTerminator(expression[i])
  }

  /** The ordering orderBy appends: "-field" sorts descending on field, anything else ascending on itself. */
  function ParseOrdering(expression: string): (o: Ordering)
    ensures o.direction == 1 || o.direction == -1
    ensures o.direction == -1 <==> IsDescending(expression)
    ensures o.direction == -1 ==> "-" + o.field == expression && o.field != []
    ensures o.direction == 1 ==> o.field == expression
  {
    if IsDescending(expression) then Ordering(expression[1..], -1) else Ordering(expression, 1)
  }

  /** orderBy("-f") sorts descending on f, for every single-line field name f. */
  lemma DescendingOrdering(field: string)
    requires field != [] && forall i | 0 <= i < |field| :: !IsLineTerminator(field[i])
    ensures ParseOrdering("-" + field) == Ordering(field, -1)
  {
    var e := "-" + field;
    forall i | 1 <= i < |e| ensures !IsLineTerminator(e[i]) {
      assert e[i] == field[i - 1];
    }
  }

  /** orderBy(f) sorts ascending on f when f does not start with a minus sign. */
  lemma AscendingOrdering(field: string)
    requires field == [] || field[0] != '-'
    ensures ParseOrdering(field) == Ordering(field, 1)
  {
  }

  // ----- the builder calls -----

  /** One call on the builder. */
  datatype Call =
    | Equals(field: string, value: Value)
    | Greater(field: string, value: Value)
    | GreaterEquals(field: string, value: Value)
    | Less(field: string, value: Value)
    | LessEquals(field: string, value: Value)
    | OrderBy(expression: string)
    | Limit(limit: int)
    | Offset(offset: int)
    | Range(from: int, to: int)

  predicate IsFilterCall(call: Call)
  {
    call.Equals? || call.Greater? || call.GreaterEquals? || call.Less? || call.LessEquals?
  }

  /** The condition a filter call puts on its field, with Dates converted by convertJsValueToJava. */
  function ConditionOf(call: Call): Condition
    requires IsFilterCall(call)
  {
    var v := ConvertJsValueToJava(call.value);
    match call
    case Equals(_, _) => Is(v)
    case Greater(_, _) => Compare("$gt", v)
    case GreaterEquals(_, _) => Compare("$gte", v)
    case Less(_, _) => Compare("$lt", v)
    case LessEquals(_, _) => Compare("$lte", v)
  }

  /** offset(n) and range(from, to) throw when the offset is below zero. */
  predicate Rejected(call: Call)
  {
    (call.Offset? && call.offset < 0) || (call.Range? && call.from < 0)
  }

  /** The effect of one call on the builder's state, or the error it throws. */
  function Step(s: QueryState, call: Call): (r: Result<QueryState, Error>)
    ensures r.Failure? <==> Rejected(call)
  {
    if IsFilterCall(call) then
      Success(s.(filter := s.filter[call.field := ConditionOf(call)]))
    else match call
      case OrderBy(e) =>
        Success(s.(options := s.options.(orderings := s.options.orderings + [ParseOrdering(e)])))
      case Limit(n) =>
        Success(s.(options := s.options.(limit := Some(n))))
      case Offset(n) =>
        if n < 0 then Failure(NegativeOffset(n))
        else Success(s.(options := s.options.(offset := Some(n))))
      case Range(from, to) =>
        if from < 0 then Failure(NegativeOffset(from))
        else Success(s.(options := s.options.(offset := Some(from), limit := Some(to - from + 1))))
  }

  /** A chain of calls: each call acts on the state the previous one left; a throw ends the chain. */
  function Run(s: QueryState, calls: seq<Call>): (r: Result<QueryState, Error>)
    ensures r.Success? ==> s.filter.Keys <= r.value.filter.Keys
    ensures r.Success? ==> s.options.orderings <= r.value.options.orderings
    decreases |calls|
  {
    if calls == [] then Success(s)
    else match Step(s, calls[0])
      case Failure(e) => Failure(e)
      case Success(next) => Run(next, calls[1..])
  }

  lemma {:induction false} RunAppend(s: QueryState, calls: seq<Call>, call: Call)
    ensures Run(s, calls + [call]) ==
      match Run(s, calls)
      case Failure(e) => Failure(e)
      case Success(t) => Step(t, call)
    decreases |calls|
  {
    if calls == [] {
      assert [call][1..] == [];
    } else {
      assert (calls + [call])[1..] == calls[1..] + [call];
      match Step(s, calls[0])
      case Failure(_) =>
      case Success(next) => RunAppend(next, calls[1..], call);
    }
  }

  /** A chain throws exactly when one of its calls passes a negative offset. */
  lemma {:induction false} RunFailsIffRejected(s: QueryState, calls: seq<Call>)
    ensures Run(s, calls).Failure? <==> exists i | 0 <= i < |calls| :: Rejected(calls[i])
    decreases |calls|
  {
    if calls != [] {
      match Step(s, calls[0])
      case Failure(_) =>
      case Success(next) =>
        RunFailsIffRejected(next, calls[1..]);
        if exists i | 0 <= i < |calls| :: Rejected(calls[i]) {
          var i :| 0 <= i < |calls| && Rejected(calls[i]);
          assert calls[1..][i - 1] == calls[i];
        }
        if exists i | 0 <= i < |calls| - 1 :: Rejected(calls[1..][i]) {
          var i :| 0 <= i < |calls| - 1 && Rejected(calls[1..][i]);
          assert calls[i + 1] == calls[1..][i];
        }
    }
  }

  /** The condition the filter holds for `field`, if any. */
  function ConditionFor(filter: map<string, Condition>, field: string): Option<Condition>
  {
    if field in filter then Some(filter[field]) else None
  }

  /** The condition set by the last filter call on `field`, if any. */
  function LastCondition(calls: seq<Call>, field: string): Option<Condition>
  {
    if calls == [] then None
    else
      var last := calls[|calls| - 1];
      if IsFilterCall(last) && last.field == field then Some(ConditionOf(last))
      else LastCondition(calls[..|calls| - 1], field)
  }

  /**
   * The filter a chain leaves: on each field, the condition of the last
   * filter call on that field; a field no call names keeps what it had.
   */
  lemma {:induction false} FilterIsLastCondition(s: QueryState, calls: seq<Call>, field: string)
    requires Run(s, calls).Success?
    ensures ConditionFor(Run(s, calls).value.filter, field) ==
      if LastCondition(calls, field).Some? then LastCondition(calls, field) else ConditionFor(s.filter, field)
  {
    if calls != [] {
      var prefix, last := calls[..|calls| - 1], calls[|calls| - 1];
      assert calls == prefix + [last];
      RunAppend(s, prefix, last);
      FilterIsLastCondition(s, prefix, field);
    }
  }

  /** The orderings of the orderBy calls of a chain, in call order. */
  function OrderingsOf(calls: seq<Call>): seq<Ordering>
  {
    if calls == [] then []
    else (if calls[0].OrderBy? then [ParseOrdering(calls[0].expression)] else []) + OrderingsOf(calls[1..])
  }

  /** orderBy calls append in call order, whatever other calls come between them. */
  lemma {:induction false} OrderingsInCallOrder(s: QueryState, calls: seq<Call>)
    requires Run(s, calls).Success?
    ensures Run(s, calls).value.options.orderings == s.options.orderings + OrderingsOf(calls)
    decreases |calls|
  {
    if calls != [] {
      var next := Step(s, calls[0]).value;
      OrderingsInCallOrder(next, calls[1..]);
    }
  }

  /** range(from, to) is offset(from) followed by limit(to - from + 1). */
  lemma RangeIsOffsetThenLimit(s: QueryState, from: int, to: int)
    ensures Step(s, Range(from, to)) == Run(s, [Offset(from), Limit(to - from + 1)])
  {
    var calls := [Offset(from), Limit(to - from + 1)];
    assert calls[1..] == [Limit(to - from + 1)] && calls[1..][1..] == [];
    if from >= 0 {
      var next := Step(s, Offset(from)).value;
      assert Run(s, calls) == Run(next, calls[1..]);
      assert Run(next, calls[1..]) == Step(next, Limit(to - from + 1));
    }
  }

  // ----- skipLimitAndSortCursor -----

  /** A call made on the driver's cursor. */
  datatype CursorCall = CursorLimit(n: int) | CursorSkip(n: int) | CursorSort(ordering: Ordering)

  /** JavaScript truthiness of an option: present and not zero. */
  predicate Truthy(v: Option<int>)
  {
    v.Some? && v.value != 0
  }

  /**
   * The cursor calls for a set of options: limit and offset only when
   * truthy, then one sort per ordering, in order.
   */
  function CursorCalls(options: QueryOptions): (calls: seq<CursorCall>)
    ensures |calls| == (if Truthy(options.limit) then 1 else 0) + (if Truthy(options.offset) then 1 else 0) + |options.orderings|
    ensures forall c | c in calls && c.CursorLimit? :: options.limit == Some(c.n) && c.n != 0
    ensures Truthy(options.limit) ==> CursorLimit(options.limit.value) in calls
    ensures forall c | c in calls && c.CursorSkip? :: options.offset == Some(c.n) && c.n != 0
    ensures Truthy(options.offset) ==> CursorSkip(options.offset.value) in calls
    ensures forall i | 0 <= i < |options.orderings| ::
      calls[|calls| - |options.orderings| + i] == CursorSort(options.orderings[i])
  {
    (if Truthy(options.limit) then [CursorLimit(options.limit.value)] else []) +
    (if Truthy(options.offset) then [CursorSkip(options.offset.value)] else []) +
    seq(|options.orderings|, i requires 0 <= i < |options.orderings| => CursorSort(options.orderings[i]))
  }

  /** skipLimitAndSortCursor: the calls made on the cursor, in order. */
  method SkipLimitAndSortCursor(limit: Option<int>, offset: Option<int>, orderings: seq<Ordering>)
    returns (calls: seq<CursorCall>)
    ensures calls == CursorCalls(QueryOptions(orderings, limit, offset))
  {
    calls := [];
    if Truthy(limit) {
      calls := calls + [CursorLimit(limit.value)];
    }
    if Truthy(offset) {
      calls := calls + [CursorSkip(offset.value)];
    }
    ghost var head := calls;
    var i := 0;
    while i < |orderings|
      invariant 0 <= i <= |orderings|
      invariant calls == head + seq(i, j requires 0 <= j < i => CursorSort(orderings[j]))
    {
      calls := calls + [CursorSort(orderings[i])];
      i := i + 1;
    }
  }

  /**
   * range(from, from - 1) sets a limit of 0, which is not truthy: the
   * cursor gets no limit at all, and every result from `from` on is returned.
   */
  lemma EmptyRangeIsUnlimited(s: QueryState, from: int)
    requires from >= 0
    ensures Step(s, Range(from, from - 1)).Success?
    ensures forall c | c in CursorCalls(Step(s, Range(from, from - 1)).value.options) :: !c.CursorLimit?
  {
  }

  /** After range(from, to) with from > 0 and to >= from, the cursor skips `from` and limits to `to - from + 1`. */
  lemma RangeCursor(s: QueryState, from: int, to: int)
    requires 0 < from <= to
    ensures var o := Step(s, Range(from, to)).value.options;
      CursorSkip(from) in CursorCalls(o) && CursorLimit(to - from + 1) in CursorCalls(o)
  {
  }

  // ----- the builder object -----

  /** What select hands to Collection.query: the entity type, the filter, the projected property and the cursor calls. */
  datatype Selection = Selection(entityType: string, filter: map<string, Condition>, projection: Option<string>, cursor: seq<CursorCall>)

  /** BaseQuery: a builder over one entity type; every builder method returns the builder itself. */
  class BaseQuery {
    const entityType: string
    var filter: map<string, Condition>
    var options: QueryOptions

    function State(): QueryState
      reads this
    {
      QueryState(filter, options)
    }

    constructor (entityType: string)
      ensures this.entityType == entityType && State() == EmptyQuery
    {
      this.entityType := entityType;
      filter := map[];
      options := QueryOptions([], None, None);
    }

    /** select(property): the query is run on the current filter and options; the builder is left as it is. */
    method Select(property: Option<string>) returns (selection: Selection)
      ensures selection.entityType == entityType && selection.filter == filter
      ensures selection.projection == if property.Some? && property.value != "" then property else None
      ensures selection.cursor == CursorCalls(options)
    {
      var cursor := SkipLimitAndSortCursor(options.limit, options.offset, options.orderings);
      var projection := if property.Some? && property.value != "" then property else None;
      selection := Selection(entityType, filter, projection, cursor);
    }

    method Equals(field: string, value: Value) returns (self: BaseQuery)
      modifies this
      ensures self == this
      ensures filter == old(filter)[field := Is(ConvertJsValueToJava(value))] && options == old(options)
      ensures Step(old(State()), Call.Equals(field, value)) == Success(State())
    {
      filter := filter[field := Is(ConvertJsValueToJava(value))];
      self := this;
    }

    method Greater(field: string, value: Value) returns (self: BaseQuery)
      modifies this
      ensures self == this
      ensures filter == old(filter)[field := Compare("$gt", ConvertJsValueToJava(value))] && options == old(options)
      ensures Step(old(State()), Call.Greater(field, value)) == Success(State())
    {
      filter := filter[field := Compare("$gt", ConvertJsValueToJava(value))];
      self := this;
    }

    method GreaterEquals(field: string, value: Value) returns (self: BaseQuery)
      modifies this
      ensures self == this
      ensures filter == old(filter)[field := Compare("$gte", ConvertJsValueToJava(value))] && options == old(options)
      ensures Step(old(State()), Call.GreaterEquals(field, value)) == Success(State())
    {
      filter := filter[field := Compare("$gte", ConvertJsValueToJava(value))];
      self := this;
    }

    method Less(field: string, value: Value) returns (self: BaseQuery)
      modifies this
      ensures self == this
      ensures filter == old(filter)[field := Compare("$lt", ConvertJsValueToJava(value))] && options == old(options)
      ensures Step(old(State()), Call.Less(field, value)) == Success(State())
    {
      filter := filter[field := Compare("$lt", ConvertJsValueToJava(value))];
      self := this;
    }

    method LessEquals(field: string, value: Value) returns (self: BaseQuery)
      modifies this
      ensures self == this
      ensures filter == old(filter)[field := Compare("$lte", ConvertJsValueToJava(value))] && options == old(options)
      ensures Step(old(State()), Call.LessEquals(field, value)) == Success(State())
    {
      filter := filter[field := Compare("$lte", ConvertJsValueToJava(value))];
      self := this;
    }

    method OrderBy(expression: string) returns (self: BaseQuery)
      modifies this
      ensures self == this
      ensures filter == old(filter)
      ensures options == old(options).(orderings := old(options.orderings) + [ParseOrdering(expression)])
      ensures Step(old(State()), Call.OrderBy(expression)) == Success(State())
    {
      options := options.(orderings := options.orderings + [ParseOrdering(expression)]);
      self := this;
    }

    /** limit(value): not validated. */
    method Limit(value: int) returns (self: BaseQuery)
      modifies this
      ensures self == this
      ensures filter == old(filter) && options == old(options).(limit := Some(value))
      ensures Step(old(State()), Call.Limit(value)) == Success(State())
    {
      options := options.(limit := Some(value));
      self := this;
    }

    /** offset(value): throws, changing nothing, when value is below zero. */
    method Offset(value: int) returns (r: Result<BaseQuery, Error>)
      modifies this
      ensures value < 0 ==> r == Failure(NegativeOffset(value)) && State() == old(State())
      ensures value >= 0 ==> r == Success(this) && filter == old(filter) && options == old(options).(offset := Some(value))
      ensures r.Success? ==> Step(old(State()), Call.Offset(value)) == Success(State())
    {
      if value < 0 {
        return Failure(NegativeOffset(value));
      }
      options := options.(offset := Some(value));
      r := Success(this);
    }

    /** range(from, to): offset `from` and limit `to - from + 1`; throws, changing nothing, when from is below zero. */
    method Range(from: int, to: int) returns (r: Result<BaseQuery, Error>)
      modifies this
      ensures from < 0 ==> r == Failure(NegativeOffset(from)) && State() == old(State())
      ensures from >= 0 ==>
        r == Success(this) && filter == old(filter) &&
        options == old(options).(offset := Some(from), limit := Some(to - from + 1))
      ensures r.Success? ==> Step(old(State()), Call.Range(from, to)) == Success(State())
    {
      if from < 0 {
        return Failure(NegativeOffset(from));
      }
      options := options.(offset := Some(from));
      options := options.(limit := Some(to - from + 1));
      r := Success(this);
    }
  }
}
