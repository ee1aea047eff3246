/** `create` and `rename` over a tenants table updated in place. */
module TenantsServices {
  import opened Wrappers
  import opened SlugAllocation
  import Slugify
  import Tenancy

  datatype Error = TenantNotFound(id: nat) | TenantSlugConflict(slug: string) | TenantSlugExhausted(slug: string)

  class TenantsService {
    const fold: string -> string
    var tenants: Tenants

    constructor (fold: string -> string)
      ensures this.fold == fold && tenants == []
    {
      this.fold := fold;
      tenants := [];
    }

    /** `findBySlugIncludingDeleted` */
    method FindBySlugIncludingDeleted(slug: string) returns (r: Option<nat>)
      ensures r.Some? <==> Taken(tenants, slug)
      ensures r.Some? ==> r.value < |tenants| && tenants[r.value].slug == slug
    {
      r := None;
      for i := 0 to |tenants|
        invariant r.Some? ==> r.value < |tenants| && tenants[r.value].slug == slug
        invariant r.None? ==> forall j :: 0 <= j < i ==> tenants[j].slug != slug
      {
        if tenants[i].slug == slug && r.None? { r := Some(i); }
      }
    }

    /** An insert refused by the unique index yields none. */
    method TryCreate(name: string, slug: string) returns (r: Option<nat>)
      modifies this`tenants
      ensures r.None? <==> Taken(old(tenants), slug)
      ensures r.None? ==> tenants == old(tenants)
      ensures r.Some? ==>
                r.value == |old(tenants)| && tenants == old(tenants) + [Tenancy.Tenant(slug, name, None)]
    {
      var taken := FindBySlugIncludingDeleted(slug);
      if taken.Some? { return None; }
      r := Some(|tenants|);
      tenants := tenants + [Tenancy.Tenant(slug, name, None)];
    }

    method CreateWithSlugRetry(name: string, baseSlug: string) returns (r: Result<nat, Error>)
      modifies this`tenants
      ensures r.Failure? <==> TakenBelow(old(tenants), baseSlug, MAX_SLUG_SUFFIX_ATTEMPTS + 1)
      ensures r.Failure? ==> r.error == TenantSlugExhausted(baseSlug) && tenants == old(tenants)
      ensures
        r.Success? ==>
          exists k: nat ::
            && 1 <= k <= MAX_SLUG_SUFFIX_ATTEMPTS && TakenBelow(old(tenants), baseSlug, k)
            && !Taken(old(tenants), Candidate(baseSlug, k)) && r.value == |old(tenants)|
            && tenants == old(tenants) + [Tenancy.Tenant(Candidate(baseSlug, k), name, None)]
    {
      assert Candidate(baseSlug, 1) == baseSlug;
      var initial := FindBySlugIncludingDeleted(baseSlug);
      if initial.None? {
        var created := TryCreate(name, baseSlug);
        if created.Some? { return Success(created.value); }
      }
      for suffix := 2 to MAX_SLUG_SUFFIX_ATTEMPTS + 1
        invariant tenants == old(tenants) && TakenBelow(tenants, baseSlug, suffix)
      {
        var candidate := Candidate(baseSlug, suffix);
        var existing := FindBySlugIncludingDeleted(candidate);
        if existing.None? {
          var created := TryCreate(name, candidate);
          if created.Some? { return Success(created.value); }
        }
      }
      r := Failure(TenantSlugExhausted(baseSlug));
    }

    method Create(name: string, slug: Option<string>) returns (r: Result<nat, Error>)
      modifies this`tenants
      ensures
        var base := CappedSlugify(fold, if slug.Some? then slug.value else name);
        && (r.Failure? <==> TakenBelow(old(tenants), base, MAX_SLUG_SUFFIX_ATTEMPTS + 1))
        && (r.Failure? ==> r.error == TenantSlugExhausted(base) && tenants == old(tenants))
      ensures old(DistinctSlugs(tenants)) ==> DistinctSlugs(tenants)
      ensures
        r.Success? ==>
          && r.value == |old(tenants)| && |tenants| == |old(tenants)| + 1
          && tenants[..|old(tenants)|] == old(tenants)
          && tenants[r.value].name == name && tenants[r.value].deletedAt == None
          && |tenants[r.value].slug| <= 63
      ensures
        var base := CappedSlugify(fold, if slug.Some? then slug.value else name);
        r.Success? ==>
          exists k: nat :: 1 <= k <= 100 && tenants[r.value].slug == Candidate(base, k)
            && TakenBelow(old(tenants), base, k) && !Taken(old(tenants), Candidate(base, k))
    {
      var input := if slug.Some? then slug.value else name;
      var base := CappedSlugify(fold, input);
      r := CreateWithSlugRetry(name, base);
      if r.Success? {
        ghost var k: nat :|
          1 <= k <= MAX_SLUG_SUFFIX_ATTEMPTS && TakenBelow(old(tenants), base, k)
          && !Taken(old(tenants), Candidate(base, k))
          && tenants == old(tenants) + [Tenancy.Tenant(Candidate(base, k), name, None)];
        CandidateFits(fold, input, k);
      }
    }

    /** A rename to another tenant's slug is refused; to its own it is not. */
    method Rename(id: nat, name: Option<string>, slug: Option<string>) returns (r: Result<Tenancy.Tenant, Error>)
      requires DistinctSlugs(tenants)
      modifies this`tenants
      ensures DistinctSlugs(tenants)
      ensures
        var was := old(tenants);
        var desired := CappedSlugify(fold, if slug.Some? then slug.value else "");
        var clash := slug.Some? && exists j :: 0 <= j < |was| && j != id && was[j].slug == desired;
        if id >= |was| || was[id].deletedAt.Some? then r == Failure(TenantNotFound(id)) && tenants == was
        else if clash then r == Failure(TenantSlugConflict(desired)) && tenants == was
        else
          && r == Success(Tenancy.Tenant(
                              if slug.Some? then desired else was[id].slug,
                              if name.Some? then name.value else was[id].name, None))
          && tenants == was[id := r.value]
    {
      if id >= |tenants| || tenants[id].deletedAt.Some? { return Failure(TenantNotFound(id)); }
      var patch := tenants[id];
      if name.Some? { patch := patch.(name := name.value); }
      if slug.Some? {
        var desired := CappedSlugify(fold, slug.value);
        var collision := FindBySlugIncludingDeleted(desired);
        if collision.Some? && collision.value != id {
          return Failure(TenantSlugConflict(desired));
        }
        assert forall j :: 0 <= j < |tenants| && j != id ==> tenants[j] in tenants && tenants[j].slug != desired;
        patch := patch.(slug := desired);
      }
      tenants := tenants[id := patch];
      r := Success(patch);
    }
  }
}
