/**
 * OrderField: an order column that, when a row is saved without an order, takes
 * one more than the largest order among the stored rows sharing the values of
 * the `for_fields` relations with the row being saved, or 0 when there are none.
 *
 * Rows are reduced to what the rule reads: the values of their relation
 * (foreign-key) attributes, by attribute name, and their order.
 */
module Fields {
  import opened Wrappers

  type FieldName = string

  /** Primary key of a related row: the value a relation attribute is compared by. */
  type Key = nat

  /** A stored row: its relation values and its order (a non-negative column that is never null). */
  datatype Row = Row(refs: map<FieldName, Key>, order: nat)

  datatype SaveError =
    | NoSuchAttribute(field: FieldName)  // a `for_fields` name the model has no attribute for
    | NullRelation                       // a required relation is unset when the row is inserted
    | NegativeOrder                      // the order column refuses a negative value on insert

  /** What evaluating the filter of `for_fields` ends in. */
  datatype Lookup =
    | Query(q: map<FieldName, Key>)      // the filter, relation name to key
    | RelationUnset                      // a relation is unset: "related object does not exist"
    | Missing(field: FieldName)          // no such attribute on the instance

  /** The relation names the order is scoped by; None and the empty list both mean "no scope". */
  function ScopeFields(forFields: Option<seq<FieldName>>): seq<FieldName> {
    if forFields.Some? then forFields.value else []
  }

  /** The filter `pre_save` evaluates: none at all when there are no scoping fields. */
  function ScopeLookup(forFields: Option<seq<FieldName>>, columns: set<FieldName>, refs: map<FieldName, Key>): Lookup {
    var fields := ScopeFields(forFields);
    if fields == [] then Query(map[]) else BuildQuery(fields, columns, refs)
  }

  /** A stored row is a sibling of the instance when it agrees on every scoping relation. */
  predicate Sibling(row: Row, fields: seq<FieldName>, refs: map<FieldName, Key>) {
    forall f :: f in fields ==> f in refs && f in row.refs && row.refs[f] == refs[f]
  }

  predicate Matches(row: Row, q: map<FieldName, Key>) {
    forall f :: f in q ==> f in row.refs && row.refs[f] == q[f]
  }

  /**
   * `fields[i]` is the first scoping name whose evaluation fails: it is not an
   * attribute of the model or its relation is unset, while every earlier name
   * is an attribute whose relation is set.
   */
  predicate FailsFirstAt(fields: seq<FieldName>, columns: set<FieldName>, refs: map<FieldName, Key>, i: int) {
    && 0 <= i < |fields|
    && (fields[i] !in columns || fields[i] !in refs)
    && forall j :: 0 <= j < i ==> fields[j] in columns && fields[j] in refs
  }

  /** Past a first name that evaluates, the first failure is the first failure of the rest. */
  lemma FailsFirstShift(fields: seq<FieldName>, columns: set<FieldName>, refs: map<FieldName, Key>)
    requires fields != [] && fields[0] in columns && fields[0] in refs
    ensures forall i :: FailsFirstAt(fields[1..], columns, refs, i) ==> FailsFirstAt(fields, columns, refs, i + 1)
    ensures forall k :: FailsFirstAt(fields, columns, refs, k) ==> k >= 1 && FailsFirstAt(fields[1..], columns, refs, k - 1)
  {
  }

  /**
   * Builds the filter field by field in the order of `fields`; the first field
   * that is not an attribute, or whose relation is unset, ends the evaluation.
   */
  function BuildQuery(fields: seq<FieldName>, columns: set<FieldName>, refs: map<FieldName, Key>): (l: Lookup)
    ensures l.Query? <==> forall f :: f in fields ==> f in columns && f in refs
    ensures l.Query? ==> (forall g :: g in l.q <==> g in fields) && forall g :: g in l.q ==> l.q[g] == refs[g]
    ensures l.Missing? <==> exists i :: FailsFirstAt(fields, columns, refs, i) && fields[i] !in columns
    ensures l.Missing? ==> exists i :: FailsFirstAt(fields, columns, refs, i) && fields[i] == l.field && l.field !in columns
    ensures l.RelationUnset? <==> exists i :: FailsFirstAt(fields, columns, refs, i) && fields[i] in columns
  {
    if fields == [] then Query(map[])
    else
      var f := fields[0];
      if f !in columns then Missing(f)
      else if f !in refs then RelationUnset
      else
        match BuildQuery(fields[1..], columns, refs)
        case Query(q) =>
          assert forall g :: g in fields <==> g == f || g in fields[1..];
          Query(q[f := refs[f]])
        case other =>
          FailsFirstShift(fields, columns, refs);
          assert forall g :: g in fields[1..] ==> g in fields;
          other
  }

  /** The stored rows the filter selects, in table order. */
  function Filter(rows: seq<Row>, q: map<FieldName, Key>): (r: seq<Row>)
    ensures forall row :: row in r <==> row in rows && Matches(row, q)
  {
    if rows == [] then []
    else (if Matches(rows[0], q) then [rows[0]] else []) + Filter(rows[1..], q)
  }

  /** The order of the latest row by order, None for no rows. */
  function MaxOrder(rows: seq<Row>): (m: Option<nat>)
    ensures m.None? <==> rows == []
    ensures m.Some? ==> (exists row :: row in rows && row.order == m.value)
                        && forall row :: row in rows ==> row.order <= m.value
  {
    if rows == [] then None
    else
      var rest := MaxOrder(rows[1..]);
      if rest.Some? && rest.value > rows[0].order then rest else Some(rows[0].order)
  }

  /**
   * `v` is the order that follows the siblings among `rows`: above every
   * sibling's order, and either 0 or one more than some sibling's order. So
   * it is 0 exactly when there are no siblings, else the largest sibling order plus 1.
   */
  ghost predicate IsNextOrder(v: nat, rows: seq<Row>, fields: seq<FieldName>, refs: map<FieldName, Key>) {
    && (forall row :: row in rows && Sibling(row, fields, refs) ==> row.order < v)
    && (v == 0 || exists row :: row in rows && Sibling(row, fields, refs) && row.order + 1 == v)
  }

  /**
   * The order the rule computes for an instance with relation values `refs`
   * (of a model whose relation attributes are `columns`) against the stored `rows`:
   * one more than the largest sibling order, 0 without siblings, or the
   * attribute error the filter raises.
   */
  function AutoOrder(forFields: Option<seq<FieldName>>, columns: set<FieldName>,
                     refs: map<FieldName, Key>, rows: seq<Row>): (r: Result<nat, SaveError>)
    ensures (forall f :: f in ScopeFields(forFields) ==> f in columns) ==> r.Ok?
    ensures r.Err? <==> exists i :: FailsFirstAt(ScopeFields(forFields), columns, refs, i)
                                    && ScopeFields(forFields)[i] !in columns
    ensures r.Err? ==> exists i :: FailsFirstAt(ScopeFields(forFields), columns, refs, i)
                                   && r.error == NoSuchAttribute(ScopeFields(forFields)[i])
                                   && ScopeFields(forFields)[i] !in columns
    ensures (exists i :: FailsFirstAt(ScopeFields(forFields), columns, refs, i) && ScopeFields(forFields)[i] in columns)
            ==> r == Ok(0)
    ensures r.Ok? ==> IsNextOrder(r.value, rows, ScopeFields(forFields), refs)
  {
    var fields := ScopeFields(forFields);
    match ScopeLookup(forFields, columns, refs)
    case Missing(f) => Err(NoSuchAttribute(f))
    case RelationUnset => Ok(0)
    case Query(q) =>
      assert forall row :: Matches(row, q) <==> Sibling(row, fields, refs);
      match MaxOrder(Filter(rows, q))
      case None => Ok(0)
      case Some(m) => Ok(m + 1)
  }

  /** What `pre_save` yields: the instance's own order if it has one, else the computed one. */
  function PreSaveValue(forFields: Option<seq<FieldName>>, columns: set<FieldName>,
                        refs: map<FieldName, Key>, order: Option<int>, rows: seq<Row>): Result<int, SaveError>
  {
    if order.Some? then Ok(order.value) else AutoOrder(forFields, columns, refs, rows)
  }

  /** The relation values of `refs` restricted to the model's relation attributes. */
  function Restrict(refs: map<FieldName, Key>, columns: set<FieldName>): (r: map<FieldName, Key>)
    requires columns <= refs.Keys
    ensures r.Keys == columns && forall f :: f in columns ==> r[f] == refs[f]
  {
    map f | f in columns :: refs[f]
  }

  /** The row a save inserts, or the error it ends in. */
  function SaveResult(forFields: Option<seq<FieldName>>, columns: set<FieldName>,
                      refs: map<FieldName, Key>, order: Option<int>, rows: seq<Row>): Result<Row, SaveError>
  {
    match PreSaveValue(forFields, columns, refs, order, rows)
    case Err(e) => Err(e)
    case Ok(v) =>
      if !(columns <= refs.Keys) then Err(NullRelation)
      else if v < 0 then Err(NegativeOrder)
      else Ok(Row(Restrict(refs, columns), v))
  }

  /** A model instance as far as the rule sees it. */
  class Instance {
    /** The relation attributes the instance's model declares. */
    const columns: set<FieldName>
    /** The relations that are set, with the key of the related row. */
    const refs: map<FieldName, Key>
    /** The order attribute; None until assigned. A caller may assign any integer. */
    var order: Option<int>

    constructor (columns: set<FieldName>, refs: map<FieldName, Key>, order: Option<int>)
      ensures this.columns == columns && this.refs == refs && this.order == order
    {
      this.columns := columns;
      this.refs := refs;
      this.order := order;
    }
  }

  class OrderField {
    /** The relation names the order is scoped by, as given to the field. */
    const forFields: Option<seq<FieldName>>

    constructor (forFields: Option<seq<FieldName>>)
      ensures this.forFields == forFields
    {
      this.forFields := forFields;
    }

    /**
     * Runs before the row is written: an instance that has an order keeps it and
     * that order is returned; otherwise the computed order is written into the
     * instance and returned. `rows` are the model's stored rows.
     */
    method PreSave(inst: Instance, rows: seq<Row>) returns (r: Result<int, SaveError>)
      modifies inst`order
      ensures old(inst.order).Some? ==> r == Ok(old(inst.order).value) && inst.order == old(inst.order)
      ensures old(inst.order).None? ==> r == AutoOrder(forFields, inst.columns, inst.refs, rows)
      ensures inst.order == if r.Ok? then Some(r.value) else old(inst.order)
    {
      if inst.order.None? {
        r := AutoOrder(forFields, inst.columns, inst.refs, rows);
        if r.Ok? {
          inst.order := Some(r.value);
        }
      } else {
        r := Ok(inst.order.value);
      }
    }
  }

  /** The stored rows of one model, whose order column is `field`. */
  class Table {
    const columns: set<FieldName>
    const field: OrderField
    var rows: seq<Row>

    /**
     * Every stored row has a value for each relation attribute of the model:
     * the relation columns are NOT NULL, so a stored row never has an unset
     * relation, in particular never an unset scoping relation.
     */
    ghost predicate Valid()
      reads this
    {
      forall row :: row in rows ==> row.refs.Keys == columns
    }

    constructor (columns: set<FieldName>, field: OrderField)
      ensures Valid() && this.columns == columns && this.field == field && rows == []
    {
      this.columns := columns;
      this.field := field;
      rows := [];
    }

    /**
     * Saves a new instance: `pre_save` of the order field, then the insert, which
     * fails when a relation of the model is unset or the order is negative
     * (the unset relation is reported first). Stored rows never change; a
     * successful save appends exactly the new row.
     */
    method Save(inst: Instance) returns (r: Result<int, SaveError>)
      requires Valid() && inst.columns == columns
      modifies this`rows, inst`order
      ensures Valid()
      ensures var pre := PreSaveValue(field.forFields, columns, inst.refs, old(inst.order), old(rows));
              inst.order == if pre.Ok? then Some(pre.value) else old(inst.order)
      ensures var s := SaveResult(field.forFields, columns, inst.refs, old(inst.order), old(rows));
              && (s.Ok? ==> r == Ok(s.value.order) && rows == old(rows) + [s.value])
              && (s.Err? ==> r == Err(s.error) && rows == old(rows))
    {
      var v := field.PreSave(inst, rows);
      if v.Err? {
        r := Err(v.error);
      } else if !(columns <= inst.refs.Keys) {
        r := Err(NullRelation);
      } else if v.value < 0 {
        r := Err(NegativeOrder);
      } else {
        rows := rows + [Row(Restrict(inst.refs, columns), v.value)];
        r := v;
      }
    }
  }

  /** The siblings of an instance among `rows`, in table order. */
  function Siblings(rows: seq<Row>, fields: seq<FieldName>, refs: map<FieldName, Key>): (r: seq<Row>)
    ensures forall row :: row in r <==> row in rows && Sibling(row, fields, refs)
  {
    if rows == [] then []
    else (if Sibling(rows[0], fields, refs) then [rows[0]] else []) + Siblings(rows[1..], fields, refs)
  }
}

/** Properties of the ordering rule that relate several saves or several tables. */
module FieldsProperties {
  import opened Wrappers
  import opened Fields

  /** Tables with the same siblings have the same next order. */
  lemma NextOrderUnique(v1: nat, v2: nat, rows1: seq<Row>, rows2: seq<Row>,
                        fields: seq<FieldName>, refs: map<FieldName, Key>)
    requires forall row :: (row in rows1 && Sibling(row, fields, refs)) <==> (row in rows2 && Sibling(row, fields, refs))
    requires IsNextOrder(v1, rows1, fields, refs) && IsNextOrder(v2, rows2, fields, refs)
    ensures v1 == v2
  {
    if v1 > 0 {
      var x :| x in rows1 && Sibling(x, fields, refs) && x.order + 1 == v1;
      assert x in rows2;
    }
    if v2 > 0 {
      var y :| y in rows2 && Sibling(y, fields, refs) && y.order + 1 == v2;
      assert y in rows1;
    }
  }

  /**
   * The computed order depends on the stored rows only through the siblings:
   * two tables holding the same sibling rows give the same result, whatever
   * rows of other scopes they hold.
   */
  lemma SameSiblingsSameOrder(forFields: Option<seq<FieldName>>, columns: set<FieldName>,
                              refs: map<FieldName, Key>, rows1: seq<Row>, rows2: seq<Row>)
    requires forall row :: (row in rows1 && Sibling(row, ScopeFields(forFields), refs))
                       <==> (row in rows2 && Sibling(row, ScopeFields(forFields), refs))
    ensures AutoOrder(forFields, columns, refs, rows1) == AutoOrder(forFields, columns, refs, rows2)
  {
    var fields := ScopeFields(forFields);
    var r1 := AutoOrder(forFields, columns, refs, rows1);
    var r2 := AutoOrder(forFields, columns, refs, rows2);
    if r1.Ok? {
      NextOrderUnique(r1.value, r2.value, rows1, rows2, fields, refs);
    }
  }

  /**
   * The first scoping name that fails decides: an unset relation before an
   * unknown name gives 0, an unknown name before an unset relation fails.
   */
  lemma FirstFailureDecides()
    ensures AutoOrder(Some(["course", "module"]), {"course"}, map[], []) == Ok(0)
    ensures AutoOrder(Some(["module", "course"]), {"course"}, map[], []) == Err(NoSuchAttribute("module"))
  {
    assert FailsFirstAt(["course", "module"], {"course"}, map[], 0);
    assert FailsFirstAt(["module", "course"], {"course"}, map[], 0);
  }

  /**
   * An order the caller gives is stored as given when it is not negative and
   * every relation is set; a negative one is never stored.
   */
  lemma GivenOrderStored(forFields: Option<seq<FieldName>>, columns: set<FieldName>,
                         refs: map<FieldName, Key>, order: int, rows: seq<Row>)
    ensures var s := SaveResult(forFields, columns, refs, Some(order), rows);
            && (order >= 0 && columns <= refs.Keys ==> s.Ok? && s.value.order == order && s.value.refs.Keys == columns)
            && (order < 0 ==> s.Err?)
  {
  }

  /** Only the siblings of the instance are consulted. */
  lemma OnlySiblingsCount(forFields: Option<seq<FieldName>>, columns: set<FieldName>,
                          refs: map<FieldName, Key>, rows: seq<Row>)
    ensures AutoOrder(forFields, columns, refs, rows)
         == AutoOrder(forFields, columns, refs, Siblings(rows, ScopeFields(forFields), refs))
  {
    SameSiblingsSameOrder(forFields, columns, refs, rows, Siblings(rows, ScopeFields(forFields), refs));
  }

  lemma {:induction false} FilterNoConditions(rows: seq<Row>)
    ensures Filter(rows, map[]) == rows
  {
    if rows != [] {
      FilterNoConditions(rows[1..]);
      assert rows == [rows[0]] + rows[1..];
    }
  }

  /** Without scoping fields every stored row is consulted: the order follows the largest one. */
  lemma NoScopeUsesAllRows(forFields: Option<seq<FieldName>>, columns: set<FieldName>,
                           refs: map<FieldName, Key>, rows: seq<Row>)
    requires forFields.None? || forFields.value == []
    ensures AutoOrder(forFields, columns, refs, rows)
         == if rows == [] then Ok(0) else Ok(MaxOrder(rows).value + 1)
  {
    FilterNoConditions(rows);
  }

  /** A row stored in another scope leaves the order computed for this one as it was. */
  lemma OtherScopeRowIgnored(forFields: Option<seq<FieldName>>, columns: set<FieldName>,
                             refs: map<FieldName, Key>, rows: seq<Row>, row: Row)
    requires !Sibling(row, ScopeFields(forFields), refs)
    ensures AutoOrder(forFields, columns, refs, rows + [row]) == AutoOrder(forFields, columns, refs, rows)
  {
    SameSiblingsSameOrder(forFields, columns, refs, rows + [row], rows);
  }

  /**
   * The table after `n` saves, one after another, of new instances with relation
   * values `refs` and no order. The relations the order is scoped by are
   * attributes of the model and every relation is set, so each save succeeds.
   */
  function SaveUnordered(forFields: Option<seq<FieldName>>, columns: set<FieldName>,
                         refs: map<FieldName, Key>, rows: seq<Row>, n: nat): (r: seq<Row>)
    requires forall f :: f in ScopeFields(forFields) ==> f in columns
    requires columns <= refs.Keys
    ensures |r| == |rows| + n && r[..|rows|] == rows
  {
    if n == 0 then rows
    else
      var prev := SaveUnordered(forFields, columns, refs, rows, n - 1);
      var s := SaveResult(forFields, columns, refs, None, prev);
      assert s.Ok?;
      prev + [s.value]
  }

  /** A row saved from relation values `refs` is a sibling of every instance with those values. */
  lemma SavedRowIsSibling(fields: seq<FieldName>, columns: set<FieldName>, refs: map<FieldName, Key>, v: nat)
    requires forall f :: f in fields ==> f in columns
    requires columns <= refs.Keys
    ensures Sibling(Row(Restrict(refs, columns), v), fields, refs)
  {
  }

  /**
   * The rows of `table` before `start` are not siblings; those from `start` on
   * are siblings carrying the orders 0, 1, 2, ... in table order.
   */
  ghost predicate NumberedFrom(table: seq<Row>, start: nat, fields: seq<FieldName>, refs: map<FieldName, Key>) {
    && start <= |table|
    && (forall j :: 0 <= j < start ==> !Sibling(table[j], fields, refs))
    && forall j :: start <= j < |table| ==> Sibling(table[j], fields, refs) && table[j].order == j - start
  }

  /** What follows siblings numbered 0, ..., k-1 is k. */
  lemma NextAfterNumbered(v: nat, table: seq<Row>, start: nat, fields: seq<FieldName>, refs: map<FieldName, Key>)
    requires NumberedFrom(table, start, fields, refs)
    requires IsNextOrder(v, table, fields, refs)
    ensures v == |table| - start
  {
    if start < |table| {
      assert table[|table| - 1] in table;
    }
    if v > 0 {
      var x :| x in table && Sibling(x, fields, refs) && x.order + 1 == v;
      var j :| 0 <= j < |table| && table[j] == x;
    }
  }

  /** One more save without an order continues the numbering. */
  lemma SaveContinuesNumbering(forFields: Option<seq<FieldName>>, columns: set<FieldName>,
                               refs: map<FieldName, Key>, table: seq<Row>, start: nat)
    requires forall f :: f in ScopeFields(forFields) ==> f in columns
    requires columns <= refs.Keys
    requires NumberedFrom(table, start, ScopeFields(forFields), refs)
    ensures SaveResult(forFields, columns, refs, None, table).Ok?
    ensures NumberedFrom(table + [SaveResult(forFields, columns, refs, None, table).value], start, ScopeFields(forFields), refs)
  {
    var fields := ScopeFields(forFields);
    var v := AutoOrder(forFields, columns, refs, table).value;
    NextAfterNumbered(v, table, start, fields, refs);
    SavedRowIsSibling(fields, columns, refs, v);
    var next := table + [Row(Restrict(refs, columns), v)];
    assert forall j :: 0 <= j < |table| ==> next[j] == table[j];
  }

  lemma SaveUnorderedStep(forFields: Option<seq<FieldName>>, columns: set<FieldName>,
                          refs: map<FieldName, Key>, rows: seq<Row>, n: nat)
    requires forall f :: f in ScopeFields(forFields) ==> f in columns
    requires columns <= refs.Keys
    requires n > 0
    ensures var prev := SaveUnordered(forFields, columns, refs, rows, n - 1);
            SaveUnordered(forFields, columns, refs, rows, n) == prev + [SaveResult(forFields, columns, refs, None, prev).value]
  {
  }

  /** Rows without siblings are numbered from their end. */
  lemma NoSiblingsNumbered(rows: seq<Row>, fields: seq<FieldName>, refs: map<FieldName, Key>)
    requires forall row :: row in rows ==> !Sibling(row, fields, refs)
    ensures NumberedFrom(rows, |rows|, fields, refs)
  {
    assert forall j :: 0 <= j < |rows| ==> rows[j] in rows;
  }

  /** The numbering of the first `n - 1` saves carries over to the `n`-th. */
  lemma SaveUnorderedContinues(forFields: Option<seq<FieldName>>, columns: set<FieldName>,
                               refs: map<FieldName, Key>, rows: seq<Row>, n: nat)
    requires forall f :: f in ScopeFields(forFields) ==> f in columns
    requires columns <= refs.Keys
    requires n > 0
    requires NumberedFrom(SaveUnordered(forFields, columns, refs, rows, n - 1), |rows|, ScopeFields(forFields), refs)
    ensures NumberedFrom(SaveUnordered(forFields, columns, refs, rows, n), |rows|, ScopeFields(forFields), refs)
  {
    var prev := SaveUnordered(forFields, columns, refs, rows, n - 1);
    SaveContinuesNumbering(forFields, columns, refs, prev, |rows|);
    SaveUnorderedStep(forFields, columns, refs, rows, n);
  }

  /**
   * Saving `n` instances without an order into a scope that has no rows yet
   * gives them the orders 0, 1, ..., n-1, in the order they were saved (the
   * rows stored before stay as they were: see SaveUnordered).
   */
  lemma {:induction false} SequentialSavesCountFromZero(forFields: Option<seq<FieldName>>, columns: set<FieldName>,
                                                        refs: map<FieldName, Key>, rows: seq<Row>, n: nat)
    requires forall f :: f in ScopeFields(forFields) ==> f in columns
    requires columns <= refs.Keys
    requires forall row :: row in rows ==> !Sibling(row, ScopeFields(forFields), refs)
    ensures NumberedFrom(SaveUnordered(forFields, columns, refs, rows, n), |rows|, ScopeFields(forFields), refs)
  {
    NoSiblingsNumbered(rows, ScopeFields(forFields), refs);
    var k := 0;
    while k < n
      invariant k <= n
      invariant NumberedFrom(SaveUnordered(forFields, columns, refs, rows, k), |rows|, ScopeFields(forFields), refs)
    {
      k := k + 1;
      SaveUnorderedContinues(forFields, columns, refs, rows, k);
    }
  }

  /** The orders of `rows`, in table order. */
  function Orders(rows: seq<Row>): (r: seq<int>)
    ensures |r| == |rows| && forall i :: 0 <= i < |rows| ==> r[i] == rows[i].order
  {
    if rows == [] then [] else Orders(rows[..|rows| - 1]) + [rows[|rows| - 1].order]
  }

  lemma OrdersAppend(prev: seq<Row>, row: Row, start: nat)
    requires start <= |prev|
    ensures Orders((prev + [row])[start..]) == Orders(prev[start..]) + [row.order]
  {
    assert (prev + [row])[start..] == prev[start..] + [row];
    var t := prev[start..] + [row];
    assert t[..|t| - 1] == prev[start..];
  }

  /** Siblings numbered from `start` carry the orders 0, 1, 2, ... */
  lemma NumberedOrders(table: seq<Row>, start: nat, fields: seq<FieldName>, refs: map<FieldName, Key>)
    requires NumberedFrom(table, start, fields, refs)
    ensures forall k :: 0 <= k < |table| - start ==> Orders(table[start..])[k] == k
  {
    forall k | 0 <= k < |table| - start ensures Orders(table[start..])[k] == k {
      assert table[start..][k] == table[start + k];
    }
  }

  /** The orders of `n` saves into a scope with no rows yet are 0, 1, ..., n-1. */
  lemma SavesFromZeroOrders(forFields: Option<seq<FieldName>>, columns: set<FieldName>,
                            refs: map<FieldName, Key>, rows: seq<Row>, n: nat)
    requires forall f :: f in ScopeFields(forFields) ==> f in columns
    requires columns <= refs.Keys
    requires forall row :: row in rows ==> !Sibling(row, ScopeFields(forFields), refs)
    ensures forall k :: 0 <= k < n ==> Orders(SaveUnordered(forFields, columns, refs, rows, n)[|rows|..])[k] == k
  {
    SequentialSavesCountFromZero(forFields, columns, refs, rows, n);
    NumberedOrders(SaveUnordered(forFields, columns, refs, rows, n), |rows|, ScopeFields(forFields), refs);
  }

  /**
   * One more save of a new instance with relation values `refs` and no order,
   * into a table that holds `before` followed by `k` such saves: it appends
   * the row of save `k + 1` and returns its order.
   */
  method SaveNext(table: Table, refs: map<FieldName, Key>, ghost before: seq<Row>, ghost k: nat) returns (order: int)
    requires table.Valid()
    requires forall f :: f in ScopeFields(table.field.forFields) ==> f in table.columns
    requires table.columns <= refs.Keys
    requires table.rows == SaveUnordered(table.field.forFields, table.columns, refs, before, k)
    modifies table`rows
    ensures table.Valid()
    ensures table.rows == SaveUnordered(table.field.forFields, table.columns, refs, before, k + 1)
    ensures Orders(table.rows[|before|..]) == Orders(old(table.rows)[|before|..]) + [order]
  {
    ghost var prev := table.rows;
    var inst := new Instance(table.columns, refs, None);
    SaveUnorderedStep(table.field.forFields, table.columns, refs, before, k + 1);
    var r := table.Save(inst);
    order := r.value;
    OrdersAppend(prev, table.rows[|prev|], |before|);
  }

  /**
   * Saves `n` new instances with relation values `refs` and no order into
   * `table`, one after another, and returns the orders they were given. Into a
   * scope with no stored rows, those are 0, 1, ..., n-1.
   */
  method SaveMany(table: Table, refs: map<FieldName, Key>, n: nat) returns (orders: seq<int>)
    requires table.Valid()
    requires forall f :: f in ScopeFields(table.field.forFields) ==> f in table.columns
    requires table.columns <= refs.Keys
    modifies table`rows
    ensures table.Valid()
    ensures table.rows == SaveUnordered(table.field.forFields, table.columns, refs, old(table.rows), n)
    ensures orders == Orders(table.rows[|old(table.rows)|..])
    ensures (forall row :: row in old(table.rows) ==> !Sibling(row, ScopeFields(table.field.forFields), refs))
            ==> forall k :: 0 <= k < n ==> orders[k] == k
  {
    ghost var before := table.rows;
    orders := [];
    var k := 0;
    while k < n
      invariant k <= n && table.Valid()
      invariant table.rows == SaveUnordered(table.field.forFields, table.columns, refs, before, k)
      invariant orders == Orders(table.rows[|before|..])
    {
      var order := SaveNext(table, refs, before, k);
      orders := orders + [order];
      k := k + 1;
    }
    if forall row :: row in before ==> !Sibling(row, ScopeFields(table.field.forFields), refs) {
      SavesFromZeroOrders(table.field.forFields, table.columns, refs, before, n);
    }
  }

  /** Rows of one course ordered 1 and 2 are followed by 3. */
  lemma ExampleNextOrder(rows: seq<Row>, refs: map<FieldName, Key>)
    requires refs == map["course" := 7]
    requires rows == [Row(Restrict(refs, {"course"}), 1), Row(Restrict(refs, {"course"}), 2)]
    ensures AutoOrder(Some(["course"]), {"course"}, refs, rows) == Ok(3)
  {
    assert Sibling(rows[1], ["course"], refs);
    assert rows[1] in rows;
    assert rows[0] in rows;
  }

  /**
   * The example of the field's documentation: with rows ordered 1 and 2 in a
   * course, a third module of that course saved without an order gets 3.
   */
  method DocumentedExample() returns (r: Result<int, SaveError>)
    ensures r == Ok(3)
  {
    var field := new OrderField(Some(["course"]));
    var table := new Table({"course"}, field);
    var refs := map["course" := 7];
    var first := new Instance({"course"}, refs, Some(1));
    var _ := table.Save(first);
    assert table.rows == [Row(Restrict(refs, {"course"}), 1)];
    var second := new Instance({"course"}, refs, Some(2));
    var _ := table.Save(second);
    assert table.rows == [Row(Restrict(refs, {"course"}), 1), Row(Restrict(refs, {"course"}), 2)];
    ExampleNextOrder(table.rows, refs);
    var third := new Instance({"course"}, refs, None);
    r := table.Save(third);
  }
}
