/** The hook run before every insert and update of an entity: tenant-scoped
    entities are stamped with the tenant bound to the current context. */
module TenantListener {
  import opened Common
  import opened SharedDomain
  import opened Config

  /** The IllegalStateException raised when no tenant is bound. */
  datatype ListenerError = NoTenantInContext

  /** setTenant: an entity outside the tenant hierarchy is left alone; a
      tenant-scoped one fails when no tenant is bound and otherwise gets the
      bound tenant, replacing whatever tenant it had. Only the entity's tenant
      is written; the bound tenant reads the same afterwards. */
  method SetTenant(entity: StatefulEntity, context: ContextHolder) returns (r: Outcome<ListenerError>)
    modifies entity`tenant, context
    ensures !entity.tenantScoped ==> r == Pass && entity.tenant == old(entity.tenant)
    ensures entity.tenantScoped && old(context.CurrentTenant()).None? ==>
              r == Fail(NoTenantInContext) && entity.tenant == old(entity.tenant)
    ensures entity.tenantScoped && old(context.CurrentTenant()).Some? ==>
              r == Pass && entity.tenant == old(context.CurrentTenant())
    ensures context.CurrentTenant() == old(context.CurrentTenant())
    ensures old(context.slot).Some? ==> context.slot == old(context.slot)
    ensures old(context.slot).None? ==> context.slot.None? || fresh(context.slot.value)
  {
    if !entity.tenantScoped {
      return Pass;
    }
    var tenant := context.GetCurrentTenant();
    if tenant.None? {
      return Fail(NoTenantInContext);
    }
    entity.tenant := tenant;
    r := Pass;
  }

  /** The hook runs on persist and again on every update: the second run
      under the same context changes nothing and answers the same. */
  method PersistThenUpdate(entity: StatefulEntity, context: ContextHolder)
    returns (first: Outcome<ListenerError>, second: Outcome<ListenerError>)
    modifies entity`tenant, context
    ensures second == first
    ensures first.Pass? && entity.tenantScoped ==> entity.tenant == old(context.CurrentTenant())
    ensures entity.active == old(entity.active)
  {
    first := SetTenant(entity, context);
    var stamped := entity.tenant;
    second := SetTenant(entity, context);
    assert entity.tenant == stamped;
  }

  /** A tenant already on an entity is overwritten by the bound one: nothing
      checks that the entity keeps the tenant it was created under. */
  method RestampOverwrites(owner: Uuid, other: Uuid) returns (before: Option<Uuid>, after: Option<Uuid>)
    requires owner != other
    ensures before == Some(owner)
    ensures after == Some(other)
  {
    var context := new ContextHolder();
    var entity := new StatefulEntity(true);
    context.SetCurrentTenant(Some(owner));
    var _ := SetTenant(entity, context);
    before := entity.tenant;
    context.SetCurrentTenant(Some(other));
    var _ := SetTenant(entity, context);
    after := entity.tenant;
  }
}
