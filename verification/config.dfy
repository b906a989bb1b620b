/** The request-scoped context holding the current tenant. The source keeps
    one context per thread; this model has a single unit of work, so the
    per-thread slot is one object, `ContextHolder`. */
module Config {
  import opened Common

  /** The context object: the tenant the current unit of work acts for. */
  class ApplicationContext {
    var currentTenant: Option<Uuid>

    /** The no-argument constructor, also the slot's initial value. */
    constructor()
      ensures currentTenant.None?
    {
      currentTenant := None;
    }

    /** The all-arguments constructor and builder. */
    constructor WithTenant(tenant: Option<Uuid>)
      ensures currentTenant == tenant
    {
      currentTenant := tenant;
    }
  }

  /** The slot holding the current context. An empty slot reads as a fresh
      context, which `Get` then stores. */
  class ContextHolder {
    var slot: Option<ApplicationContext>

    /** A slot no context has been stored in yet. */
    constructor()
      ensures slot.None?
      ensures CurrentTenant().None?
    {
      slot := None;
    }

    /** The objects the current tenant is read from. */
    function Footprint(): set<object>
      reads this
    {
      if slot.Some? then {slot.value} else {}
    }

    /** getCurrentTenant as an observation: the stored context's tenant, or
        none when the slot is empty (a fresh context holds none). */
    function CurrentTenant(): Option<Uuid>
      reads this, Footprint()
    {
      if slot.Some? then slot.value.currentTenant else None
    }

    /** get: the stored context, creating and storing a fresh one first when
        the slot is empty. */
    method Get() returns (ctx: ApplicationContext)
      modifies this
      ensures old(slot).Some? ==> ctx == old(slot).value && slot == old(slot)
      ensures old(slot).None? ==> fresh(ctx) && ctx.currentTenant.None? && slot == Some(ctx)
      ensures CurrentTenant() == old(CurrentTenant())
    {
      if slot.None? {
        ctx := new ApplicationContext();
        slot := Some(ctx);
      } else {
        ctx := slot.value;
      }
    }

    /** set: stores the given context; a following get returns it. */
    method Set(ctx: ApplicationContext)
      modifies this
      ensures slot == Some(ctx)
      ensures CurrentTenant() == ctx.currentTenant
    {
      slot := Some(ctx);
    }

    /** clear: empties the slot, so the tenant reads as none again. */
    method Clear()
      modifies this
      ensures slot.None?
      ensures CurrentTenant().None?
    {
      slot := None;
    }

    /** getCurrentTenant, going through get. */
    method GetCurrentTenant() returns (tenant: Option<Uuid>)
      modifies this
      ensures tenant == old(CurrentTenant())
      ensures CurrentTenant() == old(CurrentTenant())
      ensures old(slot).Some? ==> slot == old(slot)
      ensures old(slot).None? ==> slot.Some? && fresh(slot.value)
    {
      var ctx := Get();
      tenant := ctx.currentTenant;
    }

    /** setCurrentTenant: writes the tenant into the current context (fresh
        if the slot was empty) and stores that context back, overwriting any
        tenant bound before. A null tenant leaves the context empty. */
    method SetCurrentTenant(tenant: Option<Uuid>)
      modifies this, Footprint()
      ensures CurrentTenant() == tenant
      ensures old(slot).Some? ==> slot == old(slot)
      ensures old(slot).None? ==> slot.Some? && fresh(slot.value)
    {
      var ctx := Get();
      ctx.currentTenant := tenant;
      Set(ctx);
    }
  }

  /** One unit of work: binding a tenant, reading it back, rebinding, clearing
      at the end, and installing a prepared context that get then returns. */
  method UnitOfWork(first: Uuid, second: Uuid)
    returns (seen: Option<Uuid>, rebound: Option<Uuid>, after: Option<Uuid>, restored: bool)
    ensures seen == Some(first)
    ensures rebound == Some(second)
    ensures after.None?
    ensures restored
  {
    var holder := new ContextHolder();
    holder.SetCurrentTenant(Some(first));
    seen := holder.GetCurrentTenant();
    holder.SetCurrentTenant(Some(second));
    rebound := holder.GetCurrentTenant();
    holder.Clear();
    after := holder.GetCurrentTenant();
    var prepared := new ApplicationContext.WithTenant(Some(first));
    holder.Set(prepared);
    var got := holder.Get();
    restored := got == prepared;
  }
}
