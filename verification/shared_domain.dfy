/** The shared domain: the three-valued filter flag, the listing filter, and
    the active flag every stateful entity carries. */
module SharedDomain {
  import opened Common

  // ---------------------------------------------------------------------------
  // TriStateBoolean

  /** A filter on the active flag: only active, only inactive, or either. */
  datatype TriStateBoolean = TRUE | FALSE | BOTH
  {
    predicate IsTrue() { this == TRUE }

    predicate IsFalse() { this == FALSE }

    /** The value names one of the two booleans. */
    predicate IsBoolean()
      ensures IsBoolean() <==> IsTrue() || IsFalse()
    {
      this == TRUE || this == FALSE
    }

    /** The value asks for no restriction at all. */
    predicate IsBoth()
      ensures IsBoth() <==> !IsBoolean()
    {
      this == BOTH
    }
  }

  /** Every value answers exactly one of isTrue, isFalse, isBoth. */
  lemma ExactlyOneQuery(v: TriStateBoolean)
    ensures v.IsTrue() ==> !v.IsFalse() && !v.IsBoth()
    ensures v.IsFalse() ==> !v.IsTrue() && !v.IsBoth()
    ensures v.IsBoth() ==> !v.IsTrue() && !v.IsFalse()
    ensures v.IsTrue() || v.IsFalse() || v.IsBoth()
  {
  }

  // ---------------------------------------------------------------------------
  // EntityStatefulFilter

  /** The listing filter: an optional free-text term and an optional flag. */
  datatype EntityStatefulFilter = EntityStatefulFilter(search: Option<string>, active: Option<TriStateBoolean>)
  {
    /** The search term, absent when none was supplied. */
    function GetSearch(): Option<string> { search }

    /** The flag to filter on: BOTH when none was supplied. */
    function GetActive(): (a: TriStateBoolean)
      ensures active.None? ==> a.IsBoth()
      ensures active.Some? ==> a == active.value
    {
      if active.None? then BOTH else active.value
    }
  }

  // ---------------------------------------------------------------------------
  // AbstractStatefulAuditableEntity and its tenant-scoped variants

  /** A persisted entity with an active flag. A tenant-scoped one (a subclass of
      one of the tenant base entities) also carries the owning tenant. */
  class StatefulEntity {
    const tenantScoped: bool
    var active: bool
    var tenant: Option<Uuid>

    /** A new entity starts active and, before the write hook runs, without a tenant. */
    constructor(tenantScoped: bool)
      ensures this.tenantScoped == tenantScoped
      ensures active && tenant.None?
    {
      this.tenantScoped := tenantScoped;
      active := true;
      tenant := None;
    }

    method Activate()
      modifies this`active
      ensures active
    {
      active := true;
    }

    method Deactivate()
      modifies this`active
      ensures !active
    {
      active := false;
    }
  }
}
