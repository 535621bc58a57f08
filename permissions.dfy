/**
 * apps/core/permissions.py: the scoping mixin for class-based views and the
 * `require_company_access` decorator for function views.  Rows of any model
 * are values of a type `T`; `attr(obj, name)` reads the attribute `name` of a
 * row the way `getattr(obj, name, None)` does, `None` for an absent attribute
 * or a NULL foreign key.
 */
module Permissions {
  import opened Wrappers
  import opened Seqs
  import opened CoreModels
  import opened Selectors

  /** The class attributes `company_field` and `is_company_model` of a view. */
  datatype Scope = Scope(companyField: string, isCompanyModel: bool)

  const DefaultScope: Scope := Scope("company", false)

  /** The ways a scoped lookup fails: Http404 and PermissionDenied. */
  datatype AccessError = NotFound | PermissionDenied

  /** The attribute that holds a row's company id. */
  function OwnerAttribute(scope: Scope): (a: string)
    ensures scope.isCompanyModel ==> a == "id"
    ensures !scope.isCompanyModel ==> a == scope.companyField + "_id"
  {
    if scope.isCompanyModel then "id" else scope.companyField + "_id"
  }

  /** The row's owning company is one of `allowed`. */
  predicate InScope<T>(allowed: set<CompanyId>, scope: Scope, attr: (T, string) -> Option<nat>, obj: T)
  {
    var owner := attr(obj, OwnerAttribute(scope));
    owner.Some? && owner.value in allowed
  }

  /** `filter_queryset_by_scope`: superusers see the queryset as is; others only their companies' rows. */
  function ScopeFilter<T(==)>(user: User, allowed: set<CompanyId>, scope: Scope,
                              attr: (T, string) -> Option<nat>, qs: seq<T>): (r: seq<T>)
    ensures user.isSuperuser ==> r == qs
    ensures |r| <= |qs|
    ensures forall i :: 0 <= i < |r| ==> r[i] in qs && (user.isSuperuser || InScope(allowed, scope, attr, r[i]))
    ensures forall i :: 0 <= i < |qs| && InScope(allowed, scope, attr, qs[i]) ==> qs[i] in r
  {
    if user.isSuperuser then qs
    else Keep(qs, (x: T) => InScope(allowed, scope, attr, x))
  }

  /** The filter neither duplicates nor loses a kept row, and keeps the queryset's order. */
  lemma ScopeFilterCounts<T>(user: User, allowed: set<CompanyId>, scope: Scope,
                             attr: (T, string) -> Option<nat>, qs: seq<T>, x: T)
    ensures multiset(ScopeFilter(user, allowed, scope, attr, qs))[x]
         == if user.isSuperuser || InScope(allowed, scope, attr, x) then multiset(qs)[x] else 0
  {
    if !user.isSuperuser {
      KeepCount(qs, (y: T) => InScope(allowed, scope, attr, y), x);
    }
  }

  /** Filtering a concatenation filters each part: the relative order of rows is kept. */
  lemma ScopeFilterConcat<T>(user: User, allowed: set<CompanyId>, scope: Scope,
                             attr: (T, string) -> Option<nat>, qs: seq<T>, qt: seq<T>)
    ensures ScopeFilter(user, allowed, scope, attr, qs + qt)
         == ScopeFilter(user, allowed, scope, attr, qs) + ScopeFilter(user, allowed, scope, attr, qt)
  {
    if !user.isSuperuser {
      KeepConcat(qs, qt, (y: T) => InScope(allowed, scope, attr, y));
    }
  }

  /** The mixin's `get_object` check on a row the parent view already fetched. */
  function CheckObject<T>(user: User, allowed: set<CompanyId>, scope: Scope,
                          attr: (T, string) -> Option<nat>, obj: T): (r: Result<T, AccessError>)
    ensures r.Ok? ==> r.value == obj
    ensures r.Err? ==> r.error == PermissionDenied
    ensures r.Ok? <==> user.isSuperuser || InScope(allowed, scope, attr, obj)
  {
    if user.isSuperuser then Ok(obj)
    else if InScope(allowed, scope, attr, obj) then Ok(obj)
    else Err(PermissionDenied)
  }

  /** A superuser's object check never consults the allowed set. */
  lemma CheckObjectSuperuserIgnoresScope<T>(user: User, a: set<CompanyId>, b: set<CompanyId>, scope: Scope,
                                            attr: (T, string) -> Option<nat>, obj: T)
    requires user.isSuperuser
    ensures CheckObject(user, a, scope, attr, obj) == CheckObject(user, b, scope, attr, obj) == Ok(obj)
  {
  }

  /** SingleObjectMixin's lookup of `pk` in a queryset (the first row whose id is `pk`). */
  function LookupPk<T>(attr: (T, string) -> Option<nat>, qs: seq<T>, pk: nat): (r: Option<T>)
    ensures r.Some? ==> r.value in qs && attr(r.value, "id") == Some(pk)
    ensures r.None? <==> forall i :: 0 <= i < |qs| ==> attr(qs[i], "id") != Some(pk)
  {
    if qs == [] then None
    else if attr(qs[0], "id") == Some(pk) then Some(qs[0])
    else LookupPk(attr, qs[1..], pk)
  }

  /**
   * `get_object(queryset)` of a DetailView or UpdateView under the mixin: with
   * no queryset the parent looks `pk` up in `self.get_queryset()`, which is the
   * scoped one, then the mixin checks the owner of what it found.
   */
  function ScopedGetObject<T(==)>(user: User, relations: Store, scope: Scope, attr: (T, string) -> Option<nat>,
                                  base: seq<T>, queryset: Option<seq<T>>, pk: nat): (r: Result<T, AccessError>)
  {
    var allowed := AllowedCompanyIds(Some(user), relations);
    var qs := if queryset.Some? then queryset.value else ScopeFilter(user, allowed, scope, attr, base);
    match LookupPk(attr, qs, pk)
    case None => Err(NotFound)
    case Some(obj) => CheckObject(user, allowed, scope, attr, obj)
  }

  /**
   * Through the views' own call (no queryset), PermissionDenied cannot be
   * raised: a row outside the user's companies is already filtered out, so the
   * answer is Http404; a row is returned exactly when it exists and is visible.
   */
  lemma ScopedGetObjectNeverDenies<T>(user: User, relations: Store, scope: Scope,
                                      attr: (T, string) -> Option<nat>, base: seq<T>, pk: nat)
    ensures ScopedGetObject(user, relations, scope, attr, base, None, pk) != Err(PermissionDenied)
    ensures var r := ScopedGetObject(user, relations, scope, attr, base, None, pk);
      r.Ok? <==> exists i :: 0 <= i < |base| && attr(base[i], "id") == Some(pk)
                     && (user.isSuperuser || InScope(AllowedCompanyIds(Some(user), relations), scope, attr, base[i]))
    ensures var r := ScopedGetObject(user, relations, scope, attr, base, None, pk);
      r.Ok? ==> r.value in base && attr(r.value, "id") == Some(pk)
  {
    var allowed := AllowedCompanyIds(Some(user), relations);
    var qs := ScopeFilter(user, allowed, scope, attr, base);
    var found := LookupPk(attr, qs, pk);
    if found.Some? {
      assert user.isSuperuser || InScope(allowed, scope, attr, found.value);
    } else {
      forall i | 0 <= i < |base| && attr(base[i], "id") == Some(pk)
        ensures !(user.isSuperuser || InScope(allowed, scope, attr, base[i]))
      {
        if user.isSuperuser || InScope(allowed, scope, attr, base[i]) {
          assert false;
        }
      }
    }
  }

  /** When a caller passes a queryset of its own, the mixin's check is what refuses a foreign row. */
  lemma ExplicitQuerysetDenies<T>(user: User, relations: Store, scope: Scope,
                                  attr: (T, string) -> Option<nat>, base: seq<T>, qs: seq<T>, pk: nat)
    requires !user.isSuperuser
    requires LookupPk(attr, qs, pk).Some?
    requires !InScope(AllowedCompanyIds(Some(user), relations), scope, attr, LookupPk(attr, qs, pk).value)
    ensures ScopedGetObject(user, relations, scope, attr, base, Some(qs), pk) == Err(PermissionDenied)
  {
  }

  /**
   * `require_company_access(get_company_id)(view)(args)`: a superuser reaches
   * the view untouched; anyone else only when the resource's company is
   * allowed to them, and otherwise gets PermissionDenied.
   */
  function RequireCompanyAccess<A, R>(user: User, relations: Store, getCompanyId: A -> CompanyId,
                                      view: A -> R, args: A): (r: Result<R, AccessError>)
    ensures user.isSuperuser ==> r == Ok(view(args))
    ensures !user.isSuperuser ==> (r.Ok? <==> getCompanyId(args) in AllowedCompanyIds(Some(user), relations))
    ensures r.Ok? ==> r.value == view(args)
    ensures r.Err? ==> r.error == PermissionDenied
  {
    if user.isSuperuser then Ok(view(args))
    else
      var allowed := AllowedCompanyIds(Some(user), relations);
      var cid := getCompanyId(args);
      if cid in allowed then Ok(view(args)) else Err(PermissionDenied)
  }

  /** A refusal does not depend on the wrapped view. */
  lemma DenialIgnoresView<A, R>(user: User, relations: Store, getCompanyId: A -> CompanyId,
                                v: A -> R, w: A -> R, args: A)
    requires RequireCompanyAccess(user, relations, getCompanyId, v, args).Err?
    ensures RequireCompanyAccess(user, relations, getCompanyId, w, args) == RequireCompanyAccess(user, relations, getCompanyId, v, args)
  {
  }

  /** The decorator and the mixin agree: both admit an object exactly when its company is allowed. */
  lemma DecoratorAgreesWithMixin<A, R, T>(user: User, relations: Store, getCompanyId: A -> CompanyId,
                                          view: A -> R, args: A, companyField: string,
                                          attr: (T, string) -> Option<nat>, obj: T)
    requires attr(obj, "id") == Some(getCompanyId(args))
    ensures RequireCompanyAccess(user, relations, getCompanyId, view, args).Ok?
        <==> CheckObject(user, AllowedCompanyIds(Some(user), relations), Scope(companyField, true), attr, obj).Ok?
  {
  }

  /**
   * CompanyScopeMixin on one view instance.  `_allowed_ids` is a cached
   * property: `cache` holds it once computed, and `selectorCalls` counts the
   * evaluations of the selector, which happen at most once per instance.
   */
  class CompanyScopeMixin<T(==)> {
    const user: User
    const relations: Store
    const scope: Scope
    const attr: (T, string) -> Option<nat>
    var cache: Option<set<CompanyId>>
    ghost var selectorCalls: nat

    ghost predicate Valid()
      reads this
    {
      && selectorCalls <= 1
      && (cache.None? <==> selectorCalls == 0)
      && (cache.Some? ==> cache.value == AllowedCompanyIds(Some(user), relations))
    }

    constructor (user: User, relations: Store, scope: Scope, attr: (T, string) -> Option<nat>)
      ensures Valid() && cache == None
      ensures this.user == user && this.relations == relations && this.scope == scope && this.attr == attr
    {
      this.user := user;
      this.relations := relations;
      this.scope := scope;
      this.attr := attr;
      cache := None;
      selectorCalls := 0;
    }

    /** `_allowed_ids`: computed on first use, then served from the cache. */
    method AllowedIds() returns (ids: set<CompanyId>)
      requires Valid()
      modifies this
      ensures Valid()
      ensures ids == AllowedCompanyIds(Some(user), relations)
      ensures cache == Some(ids)
      ensures old(cache).Some? ==> selectorCalls == old(selectorCalls)
    {
      if cache.Some? {
        ids := cache.value;
      } else {
        ids := AllowedCompanyIds(Some(user), relations);
        selectorCalls := selectorCalls + 1;
        cache := Some(ids);
      }
    }

    /** `filter_queryset_by_scope`; a superuser's call does not touch the cache. */
    method FilterQuerysetByScope(qs: seq<T>) returns (r: seq<T>)
      requires Valid()
      modifies this
      ensures Valid()
      ensures r == ScopeFilter(user, AllowedCompanyIds(Some(user), relations), scope, attr, qs)
      ensures user.isSuperuser ==> cache == old(cache) && selectorCalls == old(selectorCalls)
    {
      if user.isSuperuser {
        return qs;
      }
      var allowed := AllowedIds();
      r := Keep(qs, (x: T) => InScope(allowed, scope, attr, x));
    }

    /** `get_queryset`: the parent's queryset `base`, scoped. */
    method GetQueryset(base: seq<T>) returns (r: seq<T>)
      requires Valid()
      modifies this
      ensures Valid()
      ensures r == ScopeFilter(user, AllowedCompanyIds(Some(user), relations), scope, attr, base)
    {
      r := FilterQuerysetByScope(base);
    }

    /** `get_object(queryset)` over the parent's queryset `base`. */
    method GetObject(base: seq<T>, queryset: Option<seq<T>>, pk: nat) returns (r: Result<T, AccessError>)
      requires Valid()
      modifies this
      ensures Valid()
      ensures r == ScopedGetObject(user, relations, scope, attr, base, queryset, pk)
    {
      var qs: seq<T>;
      if queryset.Some? {
        qs := queryset.value;
      } else {
        qs := GetQueryset(base);
      }
      var found := LookupPk(attr, qs, pk);
      if found.None? {
        return Err(NotFound);
      }
      var obj := found.value;
      if user.isSuperuser {
        return Ok(obj);
      }
      var allowed := AllowedIds();
      var companyId := attr(obj, OwnerAttribute(scope));
      if companyId.Some? && companyId.value in allowed {
        return Ok(obj);
      }
      return Err(PermissionDenied);
    }
  }
}
