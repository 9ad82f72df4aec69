/** The filter and sort compiler of the drizzle repository
    (packages/unstrap-drizzle/src/query-builder.ts): a nested filter object
    with `$and`/`$or` and operator leaves becomes a condition tree, and a
    sort list becomes an order-by list. The drizzle combinators are the
    constructors of `Cond` and `Order`. */
module QueryBuilder {
  import opened Values
  import opened Text
  import opened RequestParser

  /** A table, seen through the property lookup `table[field]`: the names
      of its columns. A column is denoted by its name. */
  type Table = set<string>

  /** A drizzle SQL condition. */
  datatype Cond =
    | Eq(column: string, value: Value)
    | Ne(column: string, value: Value)
    | Gt(column: string, value: Value)
    | Gte(column: string, value: Value)
    | Lt(column: string, value: Value)
    | Lte(column: string, value: Value)
    | InArray(column: string, values: seq<Value>)
    | NotInArray(column: string, values: seq<Value>)
    | Like(column: string, pattern: string)
    | ILike(column: string, pattern: string)
    | Not(cond: Cond)
    | IsNull(column: string)
    | IsNotNull(column: string)
    | Between(column: string, low: Value, high: Value)
    | And(conds: seq<Cond>)
    | Or(conds: seq<Cond>)

  // ----- template text -----

  /** `${value}`: the string conversion of a value. */
  function Stringify(v: Value): string {
    match v
    case Undefined => "undefined"
    case Null => "null"
    case Bool(b) => if b then "true" else "false"
    case Num(n) => IntToString(n)
    case Str(s) => s
    case Arr(items) => Join(ItemTexts(items), ',')
    case Obj(_) => "[object Object]"
  }

  /** The texts `Array.prototype.join` puts between commas: `null` and
      `undefined` elements become empty. */
  function ItemTexts(items: seq<Value>): (ts: seq<string>)
    ensures |ts| == |items|
    ensures forall i :: 0 <= i < |items| ==>
      ts[i] == (if items[i] == Null || items[i] == Undefined then "" else Stringify(items[i]))
  {
    if |items| == 0 then []
    else [if items[0] == Null || items[0] == Undefined then "" else Stringify(items[0])] + ItemTexts(items[1..])
  }

  // ----- applyOperator -----

  /** The operators `applyOperator` recognises. */
  const Operators: set<string> := {
    "$eq", "$ne", "$gt", "$gte", "$lt", "$lte", "$in", "$notIn", "$contains",
    "$notContains", "$containsi", "$startsWith", "$endsWith", "$null", "$notNull", "$between"}

  /** `$null` and `$notNull` test for exactly `true`. */
  function NullTest(column: string, operator: string, value: Value): Cond {
    if (value == Bool(true)) == (operator == "$null") then IsNull(column) else IsNotNull(column)
  }

  /** `applyOperator(column, operator, value)`: the condition of one
      operator leaf, or `None` for an unknown operator or an ill-shaped value. */
  function ApplyOperator(column: string, operator: string, value: Value): (c: Option<Cond>)
    ensures c.None? <==>
      || operator !in Operators
      || ((operator == "$in" || operator == "$notIn") && !value.Arr?)
      || (operator == "$between" && !(value.Arr? && |value.items| == 2))
    ensures operator == "$eq" ==> c == Some(Eq(column, value))
    ensures operator == "$ne" ==> c == Some(Ne(column, value))
    ensures operator == "$gt" ==> c == Some(Gt(column, value))
    ensures operator == "$gte" ==> c == Some(Gte(column, value))
    ensures operator == "$lt" ==> c == Some(Lt(column, value))
    ensures operator == "$lte" ==> c == Some(Lte(column, value))
    ensures operator == "$in" && value.Arr? ==> c == Some(InArray(column, value.items))
    ensures operator == "$notIn" && value.Arr? ==> c == Some(NotInArray(column, value.items))
    ensures operator == "$between" && value.Arr? && |value.items| == 2 ==>
      c == Some(Between(column, value.items[0], value.items[1]))
    ensures operator == "$contains" ==> c == Some(Like(column, "%" + Stringify(value) + "%"))
    ensures operator == "$notContains" ==> c == Some(Not(Like(column, "%" + Stringify(value) + "%")))
    ensures operator == "$containsi" ==> c == Some(ILike(column, "%" + Stringify(value) + "%"))
    ensures operator == "$startsWith" ==> c == Some(Like(column, Stringify(value) + "%"))
    ensures operator == "$endsWith" ==> c == Some(Like(column, "%" + Stringify(value)))
    ensures operator == "$null" ==> c == Some(if value == Bool(true) then IsNull(column) else IsNotNull(column))
    ensures operator == "$notNull" ==> c == Some(if value == Bool(true) then IsNotNull(column) else IsNull(column))
  {
    match operator
    case "$eq" => Some(Eq(column, value))
    case "$ne" => Some(Ne(column, value))
    case "$gt" => Some(Gt(column, value))
    case "$gte" => Some(Gte(column, value))
    case "$lt" => Some(Lt(column, value))
    case "$lte" => Some(Lte(column, value))
    case "$in" => if value.Arr? then Some(InArray(column, value.items)) else None
    case "$notIn" => if value.Arr? then Some(NotInArray(column, value.items)) else None
    case "$contains" => Some(Like(column, "%" + Stringify(value) + "%"))
    case "$notContains" => Some(Not(Like(column, "%" + Stringify(value) + "%")))
    case "$containsi" => Some(ILike(column, "%" + Stringify(value) + "%"))
    case "$startsWith" => Some(Like(column, Stringify(value) + "%"))
    case "$endsWith" => Some(Like(column, "%" + Stringify(value)))
    case "$null" => Some(NullTest(column, operator, value))
    case "$notNull" => Some(NullTest(column, operator, value))
    case "$between" =>
      if value.Arr? && |value.items| == 2 then Some(Between(column, value.items[0], value.items[1])) else None
    case _ => None
  }

  /** `$null: v` and `$notNull: v` always compile to opposite tests. */
  lemma NullMirror(column: string, value: Value)
    ensures ApplyOperator(column, "$null", value).Some? && ApplyOperator(column, "$notNull", value).Some?
    ensures ApplyOperator(column, "$null", value).value.IsNull? <==> ApplyOperator(column, "$notNull", value).value.IsNotNull?
    ensures ApplyOperator(column, "$null", value).value.IsNull? <==> value == Bool(true)
  {
  }

  // ----- buildWhereClause, specified -----

  /** The error `Object.entries` throws on `null` or `undefined`. */
  const EntriesOfNothing := JsError(OtherError, None, None, Some("Cannot convert undefined or null to object"),
    "TypeError: Cannot convert undefined or null to object")

  /** The conditions of an operator object's leaves, in entry order, the
      unknown and ill-shaped ones dropped. */
  function OperatorConditions(column: string, ops: seq<(string, Value)>): (cs: seq<Cond>)
    ensures |cs| <= |ops|
  {
    if |ops| == 0 then []
    else
      var last := ops[|ops| - 1];
      OperatorConditions(column, ops[..|ops| - 1]) + OptionToSeq(ApplyOperator(column, last.0, last.1))
  }

  /** The conditions from one entry of a filter object: a logical entry with
      an array value, an unknown field, an operator object or a plain value. */
  function EntryConditions(table: Table, entry: (string, Value)): Outcome<seq<Cond>>
    decreases entry, 2
  {
    var (field, value) := entry;
    if (field == "$and" || field == "$or") && value.Arr? then
      match ChildWheres(table, value.items)
      case Thrown(e) => Thrown(e)
      case Normal(cs) =>
        Normal(if |cs| == 0 then [] else if field == "$and" then [And(cs)] else [Or(cs)])
    else if field !in table then Normal([])
    else if value.Obj? then Normal(OperatorConditions(field, value.entries))
    else Normal([Eq(field, value)])
  }

  /** The conditions of a filter object's entries, in entry order; the first
      entry that throws makes the whole compilation throw. */
  function Conditions(table: Table, entries: seq<(string, Value)>): Outcome<seq<Cond>>
    decreases entries, 1
  {
    if |entries| == 0 then Normal([])
    else
      match EntryConditions(table, entries[0])
      case Thrown(e) => Thrown(e)
      case Normal(first) => Prepend(first, Conditions(table, entries[1..]))
  }

  /** Conditions found before a later outcome. */
  function Prepend(first: seq<Cond>, rest: Outcome<seq<Cond>>): Outcome<seq<Cond>> {
    match rest
    case Thrown(e) => Thrown(e)
    case Normal(cs) => Normal(first + cs)
  }

  /** `buildWhereClause(table, filters)` for a filter object: `and` of the
      collected conditions, or `None` (undefined) when there are none. */
  function Where(table: Table, entries: seq<(string, Value)>): (r: Outcome<Option<Cond>>)
    ensures |entries| == 0 ==> r == Normal(None)
    ensures r.Normal? && r.value.Some? ==> r.value.value.And? && |r.value.value.conds| > 0
    decreases entries, 3
  {
    match Conditions(table, entries)
    case Thrown(e) => Thrown(e)
    case Normal(cs) => Normal(if |cs| == 0 then None else Some(And(cs)))
  }

  /** One child of `$and`/`$or`. `Object.entries` throws on `null` and
      `undefined`; a string, array, number or boolean child has no entries
      naming a column, so it compiles to nothing. */
  function ChildWhere(table: Table, child: Value): Outcome<Option<Cond>>
    decreases child, 0
  {
    match child
    case Null => Thrown(EntriesOfNothing)
    case Undefined => Thrown(EntriesOfNothing)
    case Obj(es) => Where(table, es)
    case _ => Normal(None)
  }

  /** The surviving conditions of the children of `$and`/`$or`, in order. */
  function ChildWheres(table: Table, items: seq<Value>): Outcome<seq<Cond>>
    decreases items, 1
  {
    if |items| == 0 then Normal([])
    else
      match ChildWhere(table, items[0])
      case Thrown(e) => Thrown(e)
      case Normal(c) => Prepend(OptionToSeq(c), ChildWheres(table, items[1..]))
  }

  // ----- buildWhereClause, the procedure -----

  /** `buildWhereClause(table, filters)`: one pass over the entries,
      collecting conditions as it goes. */
  method BuildWhereClause(table: Table, filters: seq<(string, Value)>) returns (r: Outcome<Option<Cond>>)
    ensures r == Where(table, filters)
    decreases filters, 3
  {
    var conditions: seq<Cond> := [];
    assert filters[0..] == filters;
    PrependNothing(Conditions(table, filters));
    for i := 0 to |filters|
      invariant Conditions(table, filters) == Prepend(conditions, Conditions(table, filters[i..]))
    {
      ConditionsStep(table, filters, i);
      var found := EntryClauses(table, filters[i]);
      if found.Thrown? {
        r := Thrown(found.err);
        return;
      }
      PrependTwice(conditions, found.value, Conditions(table, filters[i + 1..]));
      conditions := conditions + found.value;
    }
    assert filters[|filters|..] == [];
    assert conditions + [] == conditions;
    r := Normal(if |conditions| > 0 then Some(And(conditions)) else None);
  }

  /** The body of the loop over a filter object's entries. */
  method EntryClauses(table: Table, entry: (string, Value)) returns (r: Outcome<seq<Cond>>)
    ensures r == EntryConditions(table, entry)
    decreases entry, 2
  {
    var (field, value) := entry;
    if field == "$and" && value.Arr? {
      var andConditions := ChildClauses(table, value.items);
      if andConditions.Thrown? {
        r := Thrown(andConditions.err);
        return;
      }
      r := Normal(if |andConditions.value| > 0 then [And(andConditions.value)] else []);
      return;
    }
    if field == "$or" && value.Arr? {
      var orConditions := ChildClauses(table, value.items);
      if orConditions.Thrown? {
        r := Thrown(orConditions.err);
        return;
      }
      r := Normal(if |orConditions.value| > 0 then [Or(orConditions.value)] else []);
      return;
    }
    if field !in table {
      r := Normal([]);
      return;
    }
    if value.Obj? {
      var conditions: seq<Cond> := [];
      var ops := value.entries;
      for j := 0 to |ops|
        invariant conditions == OperatorConditions(field, ops[..j])
      {
        var condition := ApplyOperator(field, ops[j].0, ops[j].1);
        if condition.Some? {
          conditions := conditions + [condition.value];
        }
        assert ops[..j + 1][..j] == ops[..j];
      }
      assert ops[..|ops|] == ops;
      r := Normal(conditions);
    } else {
      r := Normal([Eq(field, value)]);
    }
  }

  /** The children of `$and`/`$or`, each compiled by a recursive call; the
      undefined results are dropped. */
  method ChildClauses(table: Table, items: seq<Value>) returns (r: Outcome<seq<Cond>>)
    ensures r == ChildWheres(table, items)
    decreases items, 1
  {
    var found: seq<Cond> := [];
    assert items[0..] == items;
    PrependNothing(ChildWheres(table, items));
    for k := 0 to |items|
      invariant ChildWheres(table, items) == Prepend(found, ChildWheres(table, items[k..]))
    {
      ChildWheresStep(table, items, k);
      var w := ChildClause(table, items[k]);
      if w.Thrown? {
        r := Thrown(w.err);
        return;
      }
      PrependTwice(found, OptionToSeq(w.value), ChildWheres(table, items[k + 1..]));
      if w.value.Some? {
        found := found + [w.value.value];
      } else {
        assert found + OptionToSeq(w.value) == found;
      }
    }
    assert items[|items|..] == [];
    assert found + [] == found;
    r := Normal(found);
  }

  /** `buildWhereClause(table, child)` for one child of `$and`/`$or`. */
  method ChildClause(table: Table, child: Value) returns (r: Outcome<Option<Cond>>)
    ensures r == ChildWhere(table, child)
    decreases child, 0
  {
    match child
    case Null => r := Thrown(EntriesOfNothing);
    case Undefined => r := Thrown(EntriesOfNothing);
    case Obj(es) => r := BuildWhereClause(table, es);
    case _ => r := Normal(None);
  }

  lemma PrependNothing(o: Outcome<seq<Cond>>)
    ensures Prepend([], o) == o
  {
    if o.Normal? {
      assert [] + o.value == o.value;
    }
  }

  /** Prepending twice is prepending the concatenation. */
  lemma PrependTwice(a: seq<Cond>, b: seq<Cond>, o: Outcome<seq<Cond>>)
    ensures Prepend(a, Prepend(b, o)) == Prepend(a + b, o)
  {
    if o.Normal? {
      assert a + (b + o.value) == (a + b) + o.value;
    }
  }

  /** One more entry: the specification takes one step. */
  lemma ConditionsStep(table: Table, filters: seq<(string, Value)>, i: nat)
    requires i < |filters|
    ensures Conditions(table, filters[i..]) ==
      match EntryConditions(table, filters[i])
      case Thrown(e) => Thrown(e)
      case Normal(first) => Prepend(first, Conditions(table, filters[i + 1..]))
  {
    assert filters[i..][1..] == filters[i + 1..];
  }

  lemma ChildWheresStep(table: Table, items: seq<Value>, k: nat)
    requires k < |items|
    ensures ChildWheres(table, items[k..]) ==
      match ChildWhere(table, items[k])
      case Thrown(e) => Thrown(e)
      case Normal(c) => Prepend(OptionToSeq(c), ChildWheres(table, items[k + 1..]))
  {
    assert items[k..][1..] == items[k + 1..];
  }

  // ----- properties of the compiler -----

  /** A field that is no column and no logical entry with an array value. */
  predicate Skipped(table: Table, entry: (string, Value)) {
    entry.0 !in table && !((entry.0 == "$and" || entry.0 == "$or") && entry.1.Arr?)
  }

  /** A filter made only of unknown fields compiles to no condition. */
  lemma {:induction false} UnknownFieldsOnly(table: Table, entries: seq<(string, Value)>)
    requires forall i :: 0 <= i < |entries| ==> Skipped(table, entries[i])
    ensures Conditions(table, entries) == Normal([])
    ensures Where(table, entries) == Normal(None)
  {
    if |entries| > 0 {
      assert Skipped(table, entries[0]);
      assert EntryConditions(table, entries[0]) == Normal([]);
      assert forall i :: 0 <= i < |entries[1..]| ==> entries[1..][i] == entries[i + 1];
      UnknownFieldsOnly(table, entries[1..]);
      var none: seq<Cond> := [];
      assert none + none == none;
    }
  }

  /** Conditions concatenate over the entries of a filter object. */
  lemma {:induction false} ConditionsAppend(table: Table, a: seq<(string, Value)>, b: seq<(string, Value)>)
    ensures Conditions(table, a + b) ==
      match Conditions(table, a)
      case Thrown(e) => Thrown(e)
      case Normal(ca) => Prepend(ca, Conditions(table, b))
  {
    if |a| == 0 {
      assert a + b == b;
      PrependNothing(Conditions(table, b));
    } else {
      assert (a + b)[0] == a[0];
      assert (a + b)[1..] == a[1..] + b;
      ConditionsAppend(table, a[1..], b);
      var head := EntryConditions(table, a[0]);
      if head.Normal? {
        var rest := Conditions(table, a[1..]);
        if rest.Normal? {
          PrependTwice(head.value, rest.value, Conditions(table, b));
        }
      }
    }
  }

  /** Inserting unknown fields anywhere in a filter changes nothing. */
  lemma UnknownFieldIgnored(table: Table, a: seq<(string, Value)>, entry: (string, Value), b: seq<(string, Value)>)
    requires Skipped(table, entry)
    ensures Where(table, a + [entry] + b) == Where(table, a + b)
  {
    ConditionsAppend(table, a + [entry], b);
    ConditionsAppend(table, a, [entry]);
    ConditionsAppend(table, a, b);
    UnknownFieldsOnly(table, [entry]);
    var ca := Conditions(table, a);
    if ca.Normal? {
      assert Conditions(table, a + [entry]) == Normal(ca.value + []);
      assert ca.value + [] == ca.value;
    }
  }

  /** A plain (non-object) value of a known column is an equality, and alone
      it compiles to `and(eq(column, value))`. */
  lemma PlainValueIsEquality(table: Table, field: string, value: Value)
    requires field in table && !value.Obj?
    requires !((field == "$and" || field == "$or") && value.Arr?)
    ensures EntryConditions(table, (field, value)) == Normal([Eq(field, value)])
    ensures Where(table, [(field, value)]) == Normal(Some(And([Eq(field, value)])))
  {
    assert [(field, value)][1..] == [];
    assert Conditions(table, [(field, value)]) == Prepend([Eq(field, value)], Conditions(table, []));
    assert [Eq(field, value)] + [] == [Eq(field, value)];
  }

  /** A logical entry whose children all compile to nothing adds no condition. */
  lemma {:induction false} LogicalWithoutSurvivors(table: Table, field: string, items: seq<Value>)
    requires field == "$and" || field == "$or"
    requires forall i :: 0 <= i < |items| ==> ChildWhere(table, items[i]) == Normal(None)
    ensures ChildWheres(table, items) == Normal([])
    ensures EntryConditions(table, (field, Arr(items))) == Normal([])
  {
    if |items| > 0 {
      assert ChildWhere(table, items[0]) == Normal(None);
      assert forall i :: 0 <= i < |items[1..]| ==> items[1..][i] == items[i + 1];
      LogicalWithoutSurvivors(table, field, items[1..]);
      assert OptionToSeq<Cond>(None) + [] == [];
    }
  }

  /** An operator object with only recognised, well-shaped leaves yields one
      condition per leaf, in order. */
  lemma {:induction false} OperatorConditionsAllKnown(column: string, ops: seq<(string, Value)>)
    requires forall i :: 0 <= i < |ops| ==> ApplyOperator(column, ops[i].0, ops[i].1).Some?
    ensures |OperatorConditions(column, ops)| == |ops|
    ensures forall i :: 0 <= i < |ops| ==> OperatorConditions(column, ops)[i] == ApplyOperator(column, ops[i].0, ops[i].1).value
  {
    if |ops| > 0 {
      var n := |ops| - 1;
      OperatorConditionsAllKnown(column, ops[..n]);
      assert ApplyOperator(column, ops[n].0, ops[n].1).Some?;
    }
  }

  /** Operator leaves concatenate; so an unknown operator anywhere is dropped. */
  lemma {:induction false} OperatorConditionsAppend(column: string, a: seq<(string, Value)>, b: seq<(string, Value)>)
    ensures OperatorConditions(column, a + b) == OperatorConditions(column, a) + OperatorConditions(column, b)
    decreases |b|
  {
    if |b| == 0 {
      assert a + b == a;
    } else {
      var b' := b[..|b| - 1];
      assert (a + b)[..|a + b| - 1] == a + b';
      OperatorConditionsAppend(column, a, b');
    }
  }

  lemma UnknownOperatorIgnored(column: string, a: seq<(string, Value)>, op: string, v: Value, b: seq<(string, Value)>)
    requires op !in Operators
    ensures OperatorConditions(column, a + [(op, v)] + b) == OperatorConditions(column, a + b)
  {
    var e := [(op, v)];
    OperatorConditionsAppend(column, a + e, b);
    OperatorConditionsAppend(column, a, e);
    OperatorConditionsAppend(column, a, b);
    UnknownOperatorAlone(column, op, v);
    var x := OperatorConditions(column, a);
    assert x + [] == x;
  }

  lemma UnknownOperatorAlone(column: string, op: string, v: Value)
    requires op !in Operators
    ensures OperatorConditions(column, [(op, v)]) == []
  {
    assert ApplyOperator(column, op, v) == None;
    assert [(op, v)][..0] == [];
  }

  /** The surviving children are at most as many as the children. */
  lemma {:induction false} ChildWheresBound(table: Table, items: seq<Value>)
    ensures ChildWheres(table, items).Normal? ==> |ChildWheres(table, items).value| <= |items|
  {
    if |items| > 0 {
      ChildWheresBound(table, items[1..]);
    }
  }

  /** A `null` child of `$and`/`$or` makes the whole compilation throw. */
  lemma NullChildThrows(table: Table, field: string, a: seq<Value>, b: seq<Value>)
    requires field == "$and" || field == "$or"
    requires forall i :: 0 <= i < |a| ==> ChildWhere(table, a[i]).Normal?
    ensures Where(table, [(field, Arr(a + [Null] + b))]) == Thrown(EntriesOfNothing)
  {
    ChildWheresThrow(table, a, b);
    assert EntryConditions(table, (field, Arr(a + [Null] + b))) == Thrown(EntriesOfNothing);
    assert Conditions(table, [(field, Arr(a + [Null] + b))]) == Thrown(EntriesOfNothing);
  }

  lemma {:induction false} ChildWheresThrow(table: Table, a: seq<Value>, b: seq<Value>)
    requires forall i :: 0 <= i < |a| ==> ChildWhere(table, a[i]).Normal?
    ensures ChildWheres(table, a + [Null] + b) == Thrown(EntriesOfNothing)
  {
    if |a| == 0 {
      assert (a + [Null] + b)[0] == Null;
    } else {
      assert (a + [Null] + b)[0] == a[0];
      assert (a + [Null] + b)[1..] == a[1..] + [Null] + b;
      assert ChildWhere(table, a[0]).Normal?;
      ChildWheresThrow(table, a[1..], b);
    }
  }

  // ----- buildOrderBy -----

  /** A drizzle ordering. */
  datatype Order = Asc(column: string) | Desc(column: string)

  /** `'asc'` orders ascending; any other order descending. */
  function OrderOf(e: SortEntry): Order {
    if e.order == "asc" then Asc(e.field) else Desc(e.field)
  }

  /** `buildOrderBy(table, sorts)`: the orderings of the known fields. */
  function BuildOrderBy(table: Table, sorts: seq<SortEntry>): (os: seq<Order>)
    ensures |os| <= |sorts|
    ensures forall k :: 0 <= k < |os| ==> os[k].column in table
  {
    if |sorts| == 0 then []
    else
      var last := sorts[|sorts| - 1];
      BuildOrderBy(table, sorts[..|sorts| - 1]) + (if last.field in table then [OrderOf(last)] else [])
  }

  /** The orderings are those of the known fields, in their relative order,
      and every known field has one. */
  lemma {:induction false} OrderBySubsequence(table: Table, sorts: seq<SortEntry>) returns (idx: seq<nat>)
    ensures var os := BuildOrderBy(table, sorts);
      && |idx| == |os|
      && (forall k :: 0 <= k < |idx| ==> idx[k] < |sorts| && sorts[idx[k]].field in table && os[k] == OrderOf(sorts[idx[k]]))
      && (forall k, l :: 0 <= k < l < |idx| ==> idx[k] < idx[l])
      && (forall i :: 0 <= i < |sorts| && sorts[i].field in table ==> i in idx)
  {
    if |sorts| == 0 {
      idx := [];
    } else {
      var n := |sorts| - 1;
      var prefix := sorts[..n];
      idx := OrderBySubsequence(table, prefix);
      forall k | 0 <= k < |idx| ensures sorts[idx[k]] == prefix[idx[k]] { }
      assert forall i :: 0 <= i < n ==> sorts[i] == prefix[i];
      if sorts[n].field in table {
        idx := idx + [n];
      }
    }
  }

  /** Orderings concatenate over the sort list. */
  lemma {:induction false} OrderByAppend(table: Table, a: seq<SortEntry>, b: seq<SortEntry>)
    ensures BuildOrderBy(table, a + b) == BuildOrderBy(table, a) + BuildOrderBy(table, b)
    decreases |b|
  {
    if |b| == 0 {
      assert a + b == a;
    } else {
      var b' := b[..|b| - 1];
      assert (a + b)[..|a + b| - 1] == a + b';
      OrderByAppend(table, a, b');
    }
  }

  /** When every field is known, nothing is dropped and each entry keeps its
      position. */
  lemma {:induction false} OrderByAllKnown(table: Table, sorts: seq<SortEntry>)
    requires forall i :: 0 <= i < |sorts| ==> sorts[i].field in table
    ensures |BuildOrderBy(table, sorts)| == |sorts|
    ensures forall i :: 0 <= i < |sorts| ==> BuildOrderBy(table, sorts)[i] == OrderOf(sorts[i])
  {
    if |sorts| > 0 {
      var n := |sorts| - 1;
      OrderByAllKnown(table, sorts[..n]);
      assert sorts[n].field in table;
    }
  }

  /** Example: a known field with an operator and an unknown field. */
  lemma WhereExample()
    ensures Where({"name", "age"}, [("name", Obj([("$startsWith", Str("jo"))])), ("nickname", Num(1))])
      == Normal(Some(And([Like("name", "jo%")])))
  {
    var entries := [("name", Obj([("$startsWith", Str("jo"))])), ("nickname", Num(1))];
    var ops := [("$startsWith", Str("jo"))];
    assert ops[..0] == [];
    assert "jo" + "%" == "jo%";
    assert ApplyOperator("name", "$startsWith", Str("jo")) == Some(Like("name", "jo%"));
    assert OperatorConditions("name", ops) == [Like("name", "jo%")];
    var table: Table := {"name", "age"};
    assert EntryConditions(table, entries[0]) == Normal([Like("name", "jo%")]);
    assert "nickname" != "name" && "nickname" != "age";
    assert Skipped(table, entries[1]);
    UnknownFieldsOnly(table, entries[1..]);
    assert Conditions(table, entries) == Prepend([Like("name", "jo%")], Conditions(table, entries[1..]));
    assert [Like("name", "jo%")] + [] == [Like("name", "jo%")];
  }
}
