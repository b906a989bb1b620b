/** Tenants: creation with a slug derived from the display name and made
    unique against the store, update, the active toggle and the listing filter. */
module TenantService {
  import opened Common
  import opened StringUtils
  import opened SlugUtils
  import opened SharedDomain
  import opened SpecificationUtils

  datatype Tenant = Tenant(name: string, slug: string, active: bool)

  /** The EntityNotFoundException of getByIdThrowingException. */
  datatype TenantError = EntityNotFound

  // ---------------------------------------------------------------------------
  // The slugs the generator tries

  /** The k-th fallback slug: the base, a hyphen and k in decimal. */
  function Candidate(base: string, k: nat): (c: string)
    ensures |c| > |base| + 1 && c[..|base|] == base && c[|base|] == '-'
  {
    base + "-" + DecimalString(k)
  }

  /** Different counters give different fallback slugs, all different from the base. */
  lemma CandidateInjective(base: string, j: nat, k: nat)
    requires Candidate(base, j) == Candidate(base, k)
    ensures j == k
  {
    var cj, ck := Candidate(base, j), Candidate(base, k);
    assert cj[|base| + 1..] == DecimalString(j);
    assert ck[|base| + 1..] == DecimalString(k);
    DecimalStringInjective(j, k);
  }

  /** The fallback slugs for counters 1..n. */
  function CandidatesUpTo(base: string, n: nat): (cs: set<string>)
    ensures base !in cs
    ensures forall k :: 1 <= k <= n ==> Candidate(base, k) in cs
  {
    if n == 0 then {} else CandidatesUpTo(base, n - 1) + {Candidate(base, n)}
  }

  /** Every member of CandidatesUpTo(base, n) is the candidate of a counter in 1..n. */
  lemma {:induction false} CandidatesUpToMembers(base: string, n: nat, c: string)
    requires c in CandidatesUpTo(base, n)
    ensures exists k :: 1 <= k <= n && c == Candidate(base, k)
  {
    if c != Candidate(base, n) {
      CandidatesUpToMembers(base, n - 1, c);
    }
  }

  /** The n fallback slugs are pairwise different. */
  lemma {:induction false} CandidatesUpToSize(base: string, n: nat)
    ensures |CandidatesUpTo(base, n)| == n
  {
    if n > 0 {
      CandidatesUpToSize(base, n - 1);
      if Candidate(base, n) in CandidatesUpTo(base, n - 1) {
        CandidatesUpToMembers(base, n - 1, Candidate(base, n));
        var k :| 1 <= k <= n - 1 && Candidate(base, n) == Candidate(base, k);
        CandidateInjective(base, n, k);
      }
    }
  }

  /** A subset is no larger than its superset. */
  lemma {:induction false} SubsetSize<T>(a: set<T>, b: set<T>)
    requires a <= b
    ensures |a| <= |b|
  {
    if a != {} {
      var x :| x in a;
      SubsetSize(a - {x}, b - {x});
    }
  }

  /** The base and the first n - 1 fallbacks are n different taken slugs, so
      n cannot exceed the number of taken slugs. */
  lemma TriedSlugsAreTaken(taken: set<string>, base: string, n: nat)
    requires n >= 1 && base in taken && CandidatesUpTo(base, n - 1) <= taken
    ensures n <= |taken|
  {
    var tried := CandidatesUpTo(base, n - 1) + {base};
    CandidatesUpToSize(base, n - 1);
    assert |tried| == n;
    SubsetSize(tried, taken);
  }

  /** The generator's promise: the base when it is free; otherwise the first
      fallback slug that is free, every earlier one being taken. */
  ghost predicate IsGeneratedSlug(taken: set<string>, base: string, slug: string) {
    slug !in taken &&
    (slug == base ||
     (base in taken &&
      exists k: nat :: 1 <= k && slug == Candidate(base, k) &&
        forall j: nat :: 1 <= j < k ==> Candidate(base, j) in taken))
  }

  /** At most one slug meets the generator's promise. */
  lemma GeneratedSlugIsUnique(taken: set<string>, base: string, s1: string, s2: string)
    requires IsGeneratedSlug(taken, base, s1) && IsGeneratedSlug(taken, base, s2)
    ensures s1 == s2
  {
    if s1 != base && s2 != base {
      var k1: nat :| 1 <= k1 && s1 == Candidate(base, k1) &&
        forall j: nat :: 1 <= j < k1 ==> Candidate(base, j) in taken;
      var k2: nat :| 1 <= k2 && s2 == Candidate(base, k2) &&
        forall j: nat :: 1 <= j < k2 ==> Candidate(base, j) in taken;
      assert !(k1 < k2) && !(k2 < k1);
    }
  }

  // ---------------------------------------------------------------------------
  // The listing filter

  /** The attributes a tenant search can name. */
  function TenantRow(t: Tenant): Row {
    Row(t.active, map["name" := t.name, "slug" := t.slug])
  }

  /** paged: the flag condition AND a search on the name with the raw term. */
  function PagedSpec(filter: EntityStatefulFilter): Specification {
    And(WithActive(filter.GetActive()), WithSearch(filter.GetSearch(), "name"))
  }

  /** A tenant is listed iff its flag matches the filter (any flag when none is
      given) and, for a term that is not blank, its name contains the term
      ignoring case. */
  lemma PagedSelects(filter: EntityStatefulFilter, t: Tenant)
    ensures PagedSpec(filter)(TenantRow(t)) <==>
              (filter.active == Some(TRUE) ==> t.active) &&
              (filter.active == Some(FALSE) ==> !t.active) &&
              (filter.search.Some? && !IsBlank(filter.search.value) ==>
                 Contains(LowerAscii(t.name), LowerAscii(filter.search.value)))
  {
    var row := TenantRow(t);
    assert "name" in row.fields && row.fields["name"] == t.name;
  }

  /** PagedSelects for every tenant of a store. */
  lemma PagedSelectsAll(filter: EntityStatefulFilter, store: map<Uuid, Tenant>)
    ensures forall id :: id in store ==>
              (PagedSpec(filter)(TenantRow(store[id])) <==>
                 (filter.active == Some(TRUE) ==> store[id].active) &&
                 (filter.active == Some(FALSE) ==> !store[id].active) &&
                 (filter.search.Some? && !IsBlank(filter.search.value) ==>
                    Contains(LowerAscii(store[id].name), LowerAscii(filter.search.value))))
  {
    forall id | id in store {
      PagedSelects(filter, store[id]);
    }
  }

  // ---------------------------------------------------------------------------
  // The service

  class TenantServiceImpl {
    var repository: map<Uuid, Tenant>

    constructor()
      ensures repository == map[]
    {
      repository := map[];
    }

    /** The slugs in use. */
    function Slugs(): set<string>
      reads this
    {
      set id | id in repository :: repository[id].slug
    }

    /** The store's unique constraint on slugs. */
    predicate SlugsDistinct()
      reads this
    {
      forall a, b :: a in repository && b in repository && a != b ==> repository[a].slug != repository[b].slug
    }

    /** existsBySlug. */
    predicate ExistsBySlug(slug: string)
      reads this
      ensures ExistsBySlug(slug) <==> slug in Slugs()
    {
      exists id :: id in repository && repository[id].slug == slug
    }

    /** generateUniqueSlug: tries the base, then base-1, base-2, ... and
        returns the first slug no tenant uses. The loop ends because every
        slug it skips is a different slug of the finite store. */
    method GenerateUniqueSlug(baseSlug: string) returns (slug: string)
      ensures slug !in Slugs()
      ensures IsGeneratedSlug(Slugs(), baseSlug, slug)
    {
      ghost var taken := Slugs();
      slug := baseSlug;
      var counter: nat := 1;
      while ExistsBySlug(slug)
        invariant counter >= 1
        invariant counter == 1 ==> slug == baseSlug
        invariant counter >= 2 ==> slug == Candidate(baseSlug, counter - 1)
        invariant counter >= 2 ==> baseSlug in taken && CandidatesUpTo(baseSlug, counter - 2) <= taken
        decreases |taken| + 1 - counter
      {
        assert CandidatesUpTo(baseSlug, counter - 1) <= taken;
        TriedSlugsAreTaken(taken, baseSlug, counter);
        slug := Candidate(baseSlug, counter);
        counter := counter + 1;
      }
      if counter >= 2 {
        forall j: nat | 1 <= j < counter - 1
          ensures Candidate(baseSlug, j) in taken
        {
          assert Candidate(baseSlug, j) in CandidatesUpTo(baseSlug, counter - 2);
        }
      }
    }

    /** create: one new active tenant named as given, whose slug is generated
        from the slug of that name; a store with distinct slugs keeps them. */
    method Create(displayName: string, id: Uuid) returns (t: Tenant)
      requires id !in repository
      modifies this
      ensures repository == old(repository)[id := t]
      ensures t.name == displayName && t.active
      ensures IsGeneratedSlug(old(Slugs()), ToSlug(Some(displayName)).value, t.slug)
      ensures old(SlugsDistinct()) ==> SlugsDistinct()
    {
      var baseSlug := ToSlug(Some(displayName)).value;
      var slug := GenerateUniqueSlug(baseSlug);
      t := Tenant(displayName, slug, true);
      repository := repository[id := t];
    }

    /** update: an unknown id fails and changes nothing. Otherwise the name is
        replaced and the slug is the one supplied, taken verbatim, or a
        generated one (the tenant's own current slug counting as taken). */
    method Update(id: Uuid, displayName: string, slug: Option<string>) returns (r: Result<Tenant, TenantError>)
      modifies this
      ensures id !in old(repository) ==> r == Failure(EntityNotFound) && repository == old(repository)
      ensures id in old(repository) ==>
                r.Success? && repository == old(repository)[id := r.value] &&
                r.value.name == displayName && r.value.active == old(repository[id].active)
      ensures id in old(repository) && slug.Some? ==> r.Success? && r.value.slug == slug.value
      ensures id in old(repository) && slug.None? ==>
                r.Success? && IsGeneratedSlug(old(Slugs()), ToSlug(Some(displayName)).value, r.value.slug)
    {
      if id !in repository {
        return Failure(EntityNotFound);
      }
      var entity := repository[id];
      var newSlug: string;
      if slug.None? {
        newSlug := GenerateUniqueSlug(ToSlug(Some(displayName)).value);
      } else {
        newSlug := slug.value;
      }
      var updated := entity.(name := displayName, slug := newSlug);
      repository := repository[id := updated];
      r := Success(updated);
    }

    /** toggleActiveStatus: flips the tenant's flag and nothing else. */
    method ToggleActiveStatus(id: Uuid) returns (r: Result<Tenant, TenantError>)
      modifies this
      ensures id !in old(repository) ==> r == Failure(EntityNotFound) && repository == old(repository)
      ensures id in old(repository) ==>
                r == Success(old(repository[id]).(active := !old(repository[id]).active)) &&
                repository == old(repository)[id := r.value]
    {
      if id !in repository {
        return Failure(EntityNotFound);
      }
      var tenant := repository[id];
      var toggled := tenant.(active := !tenant.active);
      repository := repository[id := toggled];
      r := Success(toggled);
    }

    /** The tenants paged lists, before pagination: those whose flag matches
        and, for a term that is not blank, whose name contains the term. */
    function Paged(filter: EntityStatefulFilter): (ids: set<Uuid>)
      reads this
      ensures forall id :: id in ids <==>
                id in repository &&
                (filter.active == Some(TRUE) ==> repository[id].active) &&
                (filter.active == Some(FALSE) ==> !repository[id].active) &&
                (filter.search.Some? && !IsBlank(filter.search.value) ==>
                   Contains(LowerAscii(repository[id].name), LowerAscii(filter.search.value)))
    {
      PagedSelectsAll(filter, repository);
      set id | id in repository && PagedSpec(filter)(TenantRow(repository[id]))
    }
  }

  /** The first two fallbacks of "acme". */
  lemma AcmeCandidates()
    ensures Candidate("acme", 1) == "acme-1" && Candidate("acme", 2) == "acme-2"
  {
    assert DecimalString(1) == "1" && DecimalString(2) == "2";
  }

  /** The fallbacks in order: a free base is used as it is, a taken base gives
      base-1, and base-2 when base-1 is taken too. */
  lemma GeneratedSlugExamples(s0: string, s1: string, s2: string)
    requires IsGeneratedSlug({}, "acme", s0)
    requires IsGeneratedSlug({"acme"}, "acme", s1)
    requires IsGeneratedSlug({"acme", "acme-1"}, "acme", s2)
    ensures s0 == "acme" && s1 == "acme-1" && s2 == "acme-2"
  {
    AcmeCandidates();
    var k1: nat :| 1 <= k1 && s1 == Candidate("acme", k1) &&
      forall j: nat :: 1 <= j < k1 ==> Candidate("acme", j) in {"acme"};
    assert k1 <= 1;
    var k2: nat :| 1 <= k2 && s2 == Candidate("acme", k2) &&
      forall j: nat :: 1 <= j < k2 ==> Candidate("acme", j) in {"acme", "acme-1"};
    assert k2 <= 2;
  }

  /** The service answers the example above on its own store. */
  method SlugExamples() returns (s0: string, s1: string, s2: string)
    ensures s0 == "acme" && s1 == "acme-1" && s2 == "acme-2"
  {
    var service := new TenantServiceImpl();
    s0 := service.GenerateUniqueSlug("acme");
    service.repository := map[0 := Tenant("Acme", "acme", true)];
    assert service.repository[0].slug == "acme";
    assert service.Slugs() == {"acme"};
    s1 := service.GenerateUniqueSlug("acme");
    service.repository := service.repository[1 := Tenant("Acme", "acme-1", true)];
    assert service.repository[0].slug == "acme" && service.repository[1].slug == "acme-1";
    assert service.Slugs() == {"acme", "acme-1"};
    s2 := service.GenerateUniqueSlug("acme");
    GeneratedSlugExamples(s0, s1, s2);
  }
}
