/**
 * apps/core/admin.py: the Django admin for companies, scoped to the companies
 * a staff user is allowed, with the advisor field limited to and defaulted to
 * the current user.
 */
module CoreAdmin {
  import opened Wrappers
  import opened Seqs
  import opened CoreModels
  import opened Selectors

  /** CompanyScopedAdmin.get_queryset: the changelist a user sees. */
  function AdminGetQueryset(user: User, relations: Store, qs: seq<Company>): (r: seq<Company>)
    ensures user.isSuperuser ==> r == qs
    ensures forall c :: c in r ==> c in qs && (user.isSuperuser || c.id in AllowedCompanyIds(Some(user), relations))
    ensures forall c :: c in qs && c.id in AllowedCompanyIds(Some(user), relations) ==> c in r
  {
    if user.isSuperuser then qs
    else
      var allowed := AllowedCompanyIds(Some(user), relations);
      assert forall c :: c in qs && c.id in allowed ==> c in Keep(qs, (x: Company) => x.id in allowed) by {
        forall c | c in qs && c.id in allowed ensures c in Keep(qs, (x: Company) => x.id in allowed) {
          var i :| 0 <= i < |qs| && qs[i] == c;
        }
      }
      Keep(qs, (c: Company) => c.id in allowed)
  }

  /** The object-level admin permissions. */
  datatype AdminAction = View | Change | Delete

  /**
   * has_view_permission, has_change_permission and has_delete_permission: the
   * three are written alike, so `action` does not enter into the answer.
   */
  function HasObjectPermission(action: AdminAction, user: User, relations: Store, obj: Option<Company>): (b: bool)
    ensures user.isSuperuser ==> b
    ensures obj.None? ==> b
    ensures !user.isSuperuser && obj.Some? ==> (b <==> obj.value.id in AllowedCompanyIds(Some(user), relations))
  {
    if user.isSuperuser then true
    else if obj.None? then true
    else obj.value.id in AllowedCompanyIds(Some(user), relations)
  }

  /** View, change and delete are granted on exactly the same objects. */
  lemma AdminPermissionIgnoresAction(a: AdminAction, b: AdminAction, user: User, relations: Store, obj: Option<Company>)
    ensures HasObjectPermission(a, user, relations, obj) == HasObjectPermission(b, user, relations, obj)
  {
  }

  /** An object of the table has permission exactly when it appears in the scoped changelist. */
  lemma ObjectPermissionMatchesChangelist(action: AdminAction, user: User, relations: Store, qs: seq<Company>, c: Company)
    requires c in qs
    ensures HasObjectPermission(action, user, relations, Some(c)) <==> c in AdminGetQueryset(user, relations, qs)
  {
  }

  /** A value of a form-field keyword argument. */
  datatype Kwarg =
    | UserQueryset(ids: set<UserId>) // a queryset of users
    | UserPk(pk: UserId)             // a user's primary key
    | Given(tag: nat)                // anything else a caller passed

  /** The advisor field is restricted: a request by a logged-in non-superuser. */
  predicate LimitsAdvisor(fieldName: string, request: Option<User>)
  {
    fieldName == "advisor" && request.Some? && request.value.isAuthenticated && !request.value.isSuperuser
  }

  /**
   * The keyword arguments CompanyAdmin.formfield_for_foreignkey hands to the
   * default implementation: for a restricted advisor field the queryset holds
   * only the current user and `initial` defaults to them.
   */
  function FormfieldKwargs(fieldName: string, request: Option<User>, kwargs: map<string, Kwarg>): (r: map<string, Kwarg>)
    ensures !LimitsAdvisor(fieldName, request) ==> r == kwargs
    ensures LimitsAdvisor(fieldName, request) ==>
      && "queryset" in r && r["queryset"] == UserQueryset({request.value.id})
      && "initial" in r && r["initial"] == (if "initial" in kwargs then kwargs["initial"] else UserPk(request.value.id))
      && (forall k :: k in r && k != "queryset" && k != "initial" ==> k in kwargs && r[k] == kwargs[k])
      && (forall k :: k in kwargs ==> k in r)
  {
    if LimitsAdvisor(fieldName, request) then
      var u := request.value;
      var withQs := kwargs["queryset" := UserQueryset({u.id})];
      if "initial" in withQs then withQs else withQs["initial" := UserPk(u.id)]
  else kwargs
  }

  /** get_changeform_initial_data: `data` is what the default implementation returns. */
  function ChangeformInitialData(user: User, data: map<string, Kwarg>): (r: map<string, Kwarg>)
    ensures !(user.isAuthenticated && !user.isSuperuser) ==> r == data
    ensures user.isAuthenticated && !user.isSuperuser ==>
      && "advisor" in r
      && r["advisor"] == (if "advisor" in data then data["advisor"] else UserPk(user.id))
      && (forall k :: k in r && k != "advisor" ==> k in data && r[k] == data[k])
      && (forall k :: k in data ==> k in r)
  {
    if user.isAuthenticated && !user.isSuperuser && "advisor" !in data then data["advisor" := UserPk(user.id)]
    else data
  }

  /** The instance save_model stores: an empty advisor becomes the current user unless they are a superuser. */
  function SaveModelData(user: User, obj: CompanyData): (d: CompanyData)
    ensures obj.advisor.None? && !user.isSuperuser ==> d.advisor == Some(user.id)
    ensures obj.advisor.Some? || user.isSuperuser ==> d.advisor == obj.advisor
    ensures d.(advisor := obj.advisor) == obj
  {
    if obj.advisor.None? && !user.isSuperuser then obj.(advisor := Some(user.id)) else obj
  }

  /**
   * Adding a company through the admin as a staff, non-superuser user: the
   * advisor can only be picked from the limited queryset or left empty, and
   * either way the saved company is advised by that user and so is visible
   * to them.
   */
  lemma AdminAddKeepsCompanyVisible(user: User, kwargs: map<string, Kwarg>, obj: CompanyData, s: Store, id: CompanyId)
    requires user.isAuthenticated && !user.isSuperuser
    requires UniqueIds(s.companies)
    requires obj.advisor.Some? ==> obj.advisor.value in FormfieldKwargs("advisor", Some(user), kwargs)["queryset"].ids
    ensures SaveModelData(user, obj).advisor == Some(user.id)
    ensures id in AllowedCompanyIds(Some(user), Store(Upsert(s.companies, id, SaveModelData(user, obj)), s.analysts))
  {
    AdvisorSaveGrants(Some(user), s, id, SaveModelData(user, obj));
  }

  /** ModelAdmin.save_model on the company table. */
  method SaveModel(table: CompanyTable, user: User, pk: Option<CompanyId>, obj: CompanyData)
    returns (r: Result<CompanyId, DbError>)
    requires table.Valid()
    modifies table
    ensures table.Valid()
    ensures r.Err? <==> TaxIdTaken(old(table.store.companies), obj.taxId, pk)
    ensures r.Err? ==> table.store == old(table.store)
    ensures r.Ok? ==> table.store == Store(Upsert(old(table.store.companies), r.value, SaveModelData(user, obj)), old(table.store.analysts))
    ensures r.Ok? && user.isAuthenticated && !user.isSuperuser && obj.advisor.None? ==>
      r.value in AllowedCompanyIds(Some(user), table.store)
  {
    var d := SaveModelData(user, obj);
    r := table.Save(pk, d);
    if r.Ok? && user.isAuthenticated && obj.advisor.None? && !user.isSuperuser {
      AdvisorSaveGrants(Some(user), old(table.store), r.value, d);
    }
  }
}
