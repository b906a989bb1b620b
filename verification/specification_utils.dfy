/** Query filters. A database row is an active flag plus the string attributes
    a search may name; an attribute that is null (or that the entity does not
    have) is absent from the map. A Specification is the predicate the query
    applies to each row. */
module SpecificationUtils {
  import opened Common
  import opened StringUtils
  import opened SharedDomain

  datatype Row = Row(active: bool, fields: map<string, string>)

  type Specification = Row -> bool

  /** cb.conjunction(): the predicate every row satisfies. */
  function Conjunction(): Specification { row => true }

  /** Specification.and / allOf. */
  function And(a: Specification, b: Specification): Specification { row => a(row) && b(row) }

  /** Specification.or. */
  function Or(a: Specification, b: Specification): Specification { row => a(row) || b(row) }

  /** withActive: TRUE keeps the active rows, FALSE the inactive ones, BOTH every row. */
  function WithActive(active: TriStateBoolean): (spec: Specification)
    ensures forall row :: spec(row) <==> (active.IsTrue() ==> row.active) && (active.IsFalse() ==> !row.active)
  {
    match active
    case TRUE => (row: Row) => row.active
    case FALSE => (row: Row) => !row.active
    case BOTH => Conjunction()
  }

  /** The SQL test `lower(field) LIKE '%' || lower(term) || '%'`, read as
      substring containment; a null field never matches. */
  predicate FieldContains(row: Row, field: string, term: string) {
    field in row.fields && Contains(LowerAscii(row.fields[field]), LowerAscii(term))
  }

  /** withSearch: no restriction for a null or blank term, otherwise the rows
      whose field contains the term, ignoring case. */
  function WithSearch(search: Option<string>, field: string): (spec: Specification)
    ensures search.None? || IsBlank(search.value) ==> forall row :: spec(row)
    ensures search.Some? && !IsBlank(search.value) ==>
              forall row :: spec(row) <==> FieldContains(row, field, search.value)
  {
    if search.None? || IsBlank(search.value) then Conjunction()
    else (row: Row) => FieldContains(row, field, search.value)
  }

  /** What WithActive and WithSearch select, for one row. */
  lemma SelectsRow(active: TriStateBoolean, search: Option<string>, field: string, row: Row)
    ensures WithActive(active)(row) <==> (active.IsTrue() ==> row.active) && (active.IsFalse() ==> !row.active)
    ensures WithSearch(search, field)(row) <==>
              search.None? || IsBlank(search.value) || FieldContains(row, field, search.value)
  {
  }

  /** BOTH selects exactly the union of what TRUE and FALSE select. */
  lemma BothIsUnion(row: Row)
    ensures WithActive(BOTH)(row) <==> WithActive(TRUE)(row) || WithActive(FALSE)(row)
    ensures !(WithActive(TRUE)(row) && WithActive(FALSE)(row))
  {
  }

  /** A null term and a blank term select the same rows. */
  lemma NullAndBlankAgree(blank: string, field: string, row: Row)
    requires IsBlank(blank)
    ensures WithSearch(Some(blank), field)(row) == WithSearch(None, field)(row)
  {
  }

  /** Lowering the term first changes nothing: the comparison already ignores case. */
  lemma {:induction false} LoweredTermAgrees(search: Option<string>, field: string, row: Row)
    ensures search.Some? ==>
              WithSearch(Some(LowerAscii(search.value)), field)(row) == WithSearch(search, field)(row)
  {
    if search.Some? {
      var term := search.value;
      LowerAsciiKeepsBlank(term);
      LowerAsciiIdempotent(term);
    }
  }

  /** The filter's own predicate on the flag: a filter built without a flag
      selects rows regardless of it. */
  lemma NoFlagIgnoresActive(search: Option<string>, row: Row)
    ensures WithActive(EntityStatefulFilter(search, None).GetActive())(row)
    ensures WithActive(EntityStatefulFilter(search, None).GetActive())(row.(active := !row.active))
  {
  }
}
