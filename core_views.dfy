/**
 * apps/core/views.py: the plain-text company views (function views) and the
 * class-based list, detail, create and update views.  Templates are not
 * rendered: a page is the template name together with what it would show.
 */
module CoreViews {
  import opened Wrappers
  import opened Seqs
  import opened PyStr
  import opened CoreModels
  import opened Selectors
  import opened Permissions

  datatype Response =
    | Text(content: string)                             // HttpResponse(content_type="text/plain")
    | LoginRedirect(loginUrl: string)                   // redirect to the login page
    | RedirectToName(urlName: string)                   // redirect to a named URL
    | Forbidden                                         // PermissionDenied: 403
    | Http404                                           // Http404: 404
    | ListPage(template: string, companies: seq<Company>)
    | DetailPage(template: string, company: Company)
    | FormPage(template: string, instance: Option<Company>)

  const AdminLoginUrl: string := "/admin/login/"
  const ListLimit: nat := 50
  const ListTemplate: string := "core/company_list.html"
  const DetailTemplate: string := "core/company_detail.html"
  const FormTemplate: string := "core/company_form.html"
  const SuccessUrlName: string := "company_list"

  /** Company's Meta.ordering: by name, strings compared by code point. */
  predicate NameLe(a: Company, b: Company)
  {
    StrLe(a.data.name, b.data.name)
  }

  lemma NameLeIsPreorder()
    ensures TotalPreorder(NameLe)
  {
    forall a: Company, b: Company ensures NameLe(a, b) || NameLe(b, a) {
      StrLeTotal(a.data.name, b.data.name);
    }
    forall a: Company, b: Company, c: Company | NameLe(a, b) && NameLe(b, c) ensures NameLe(a, c) {
      StrLeTransitive(a.data.name, b.data.name, c.data.name);
    }
  }

  /** `Company.objects.all()` in its default ordering; ties keep the table's order. */
  function Ordered(cs: seq<Company>): (r: seq<Company>)
    ensures multiset(r) == multiset(cs)
    ensures SortedBy(r, NameLe)
  {
    NameLeIsPreorder();
    SortBy(cs, NameLe)
  }

  /** `getattr(company, name, None)` for the attributes scoping reads. */
  function CompanyAttr(c: Company, name: string): Option<nat>
  {
    if name == "id" then Some(c.id)
    else if name == "organization_id" then Some(c.data.organization)
    else if name == "advisor_id" then c.data.advisor
    else None
  }

  /** The scope of the class views, which all set `is_company_model = True`. */
  const CompanyScope: Scope := Scope("company", true)

  /** `user.has_perm(codename)`: a superuser holds every permission. */
  predicate HasPerm(user: User, perms: set<string>, codename: string)
  {
    user.isSuperuser || codename in perms
  }

  // ---- company_list -------------------------------------------------------

  /** The companies company_list reads, in order, before the slice. */
  function VisibleCompanies(user: User, relations: Store): seq<Company>
  {
    if user.isSuperuser then Ordered(relations.companies)
    else
      var allowed := AllowedCompanyIds(Some(user), relations);
      Keep(Ordered(relations.companies), (c: Company) => c.id in allowed)
  }

  predicate Visible(user: User, relations: Store, c: Company)
  {
    c in relations.companies && (user.isSuperuser || c.id in AllowedCompanyIds(Some(user), relations))
  }

  /** `qs[:50]` of company_list. */
  function CompanyListing(user: User, relations: Store): seq<Company>
  {
    Take(VisibleCompanies(user, relations), ListLimit)
  }

  /**
   * The plain-text list holds at most fifty visible companies sorted by name,
   * and when a visible company is missing the list is full and nothing in it
   * sorts after that company.
   */
  lemma CompanyListingIsFirstByName(user: User, relations: Store)
    ensures var r := CompanyListing(user, relations);
      && |r| <= ListLimit
      && SortedBy(r, NameLe)
      && (forall c :: c in r ==> Visible(user, relations, c))
      && (forall c :: Visible(user, relations, c) && c !in r ==>
            |r| == ListLimit && forall i :: 0 <= i < |r| ==> NameLe(r[i], c))
  {
    var allowed := AllowedCompanyIds(Some(user), relations);
    var ordered := Ordered(relations.companies);
    var vis := VisibleCompanies(user, relations);
    if !user.isSuperuser {
      KeepSorted(ordered, (c: Company) => c.id in allowed, NameLe);
    }
    forall c ensures c in vis <==> Visible(user, relations, c) {
      assert c in ordered <==> c in multiset(ordered);
      assert c in relations.companies <==> c in multiset(relations.companies);
      if Visible(user, relations, c) && !user.isSuperuser {
        var i :| 0 <= i < |ordered| && ordered[i] == c;
      }
    }
    var r := Take(vis, ListLimit);
    forall c | Visible(user, relations, c) && c !in r
      ensures |r| == ListLimit && forall i :: 0 <= i < |r| ==> NameLe(r[i], c)
    {
      TakeSortedIsSmallest(vis, NameLe, ListLimit, c);
    }
    TakeSorted(vis, NameLe, ListLimit);
  }

  function CompanyLine(c: Company): string
  {
    "- " + c.data.name + " (" + c.data.taxId + ")"
  }

  /**
   * A line splits back into the company's fields: "- ", the name, " (", the
   * tax id and ")", so a reader who knows either field's length recovers both.
   */
  lemma CompanyLineFields(c: Company)
    ensures var l, n, t := CompanyLine(c), |c.data.name|, |c.data.taxId|;
      && |l| == n + t + 5
      && l[..2] == "- " && l[2..2 + n] == c.data.name && l[2 + n..4 + n] == " ("
      && l[4 + n..4 + n + t] == c.data.taxId && l[4 + n + t..] == ")"
  {
    var l, n, t := CompanyLine(c), |c.data.name|, |c.data.taxId|;
    assert l == "- " + c.data.name + " (" + c.data.taxId + ")";
  }

  /** The listing's lines: CompanyLine over each company, in order. */
  function CompanyLines(cs: seq<Company>): seq<string>
  {
    seq(|cs|, i requires 0 <= i < |cs| => CompanyLine(cs[i]))
  }

  /** The body of company_list. */
  function CompanyListContent(cs: seq<Company>): string
  {
    "Companies:\n" + Join("\n", CompanyLines(cs))
  }

  predicate OneLine(c: Company)
  {
    '\n' !in c.data.name && '\n' !in c.data.taxId
  }

  /**
   * When no name or tax id holds a newline, the body's lines are the heading
   * and then one line per listed company, in order (an empty list leaves one
   * empty line after the heading).
   */
  lemma CompanyListContentLines(cs: seq<Company>)
    requires forall c :: c in cs ==> OneLine(c)
    ensures Split(CompanyListContent(cs), '\n') == ["Companies:"] + (if cs == [] then [""] else CompanyLines(cs))
  {
    var parts := ["Companies:"] + (if cs == [] then [""] else CompanyLines(cs));
    ContentIsJoin(cs);
    forall k | 0 <= k < |parts| ensures '\n' !in parts[k] {
      if k > 0 && cs != [] {
        assert parts[k] == CompanyLine(cs[k - 1]);
        CompanyLineOneLine(cs[k - 1]);
      }
    }
    SplitJoin(parts, '\n');
  }

  lemma ContentIsJoin(cs: seq<Company>)
    ensures CompanyListContent(cs) == Join("\n", ["Companies:"] + (if cs == [] then [""] else CompanyLines(cs)))
  {
    var parts := ["Companies:"] + (if cs == [] then [""] else CompanyLines(cs));
    assert parts[1..] == (if cs == [] then [""] else CompanyLines(cs));
  }

  lemma CompanyLineOneLine(c: Company)
    requires OneLine(c)
    ensures '\n' !in CompanyLine(c)
  {
  }

  /** company_list: login required (to the admin login page), then the plain-text listing. */
  function CompanyList(user: User, relations: Store): (resp: Response)
    ensures !user.isAuthenticated ==> resp == LoginRedirect(AdminLoginUrl)
    ensures user.isAuthenticated ==> resp == Text(CompanyListContent(CompanyListing(user, relations)))
  {
    if !user.isAuthenticated then LoginRedirect(AdminLoginUrl)
    else Text(CompanyListContent(CompanyListing(user, relations)))
  }

  // ---- company_detail -----------------------------------------------------

  function DetailContent(c: Company): string
  {
    "Company: " + c.data.name + "\nNIT: " + c.data.taxId + "\nMunicipio: " + c.data.municipality
  }

  /** The view under `require_company_access`: `login_required`, then get_object_or_404. */
  function LoginRequiredDetail(user: User, relations: Store, pk: CompanyId): Response
  {
    if !user.isAuthenticated then LoginRedirect(AdminLoginUrl)
    else match FindCompany(relations.companies, pk)
      case None => Http404
      case Some(c) => Text(DetailContent(c))
  }

  /** company_detail: the access decorator sits outside `login_required`. */
  function CompanyDetail(user: User, relations: Store, pk: CompanyId): Response
  {
    match RequireCompanyAccess(user, relations, (p: CompanyId) => p, (p: CompanyId) => LoginRequiredDetail(user, relations, p), pk)
    case Ok(resp) => resp
    case Err(_) => Forbidden
  }

  /**
   * A user who is not a superuser gets 403 for every company outside their
   * set, whether or not it exists and even when not logged in (so an anonymous
   * visitor is refused rather than sent to log in); inside their set the
   * company is shown.
   */
  lemma CompanyDetailForRestricted(user: User, relations: Store, pk: CompanyId)
    requires !user.isSuperuser
    requires ValidStore(relations)
    ensures pk !in AllowedCompanyIds(Some(user), relations) ==> CompanyDetail(user, relations, pk) == Forbidden
    ensures pk in AllowedCompanyIds(Some(user), relations) ==>
      exists c :: c in relations.companies && c.id == pk && CompanyDetail(user, relations, pk) == Text(DetailContent(c))
    ensures !user.isAuthenticated ==> CompanyDetail(user, relations, pk) == Forbidden
  {
    AllowedAreCompanies(Some(user), relations);
    if pk in AllowedCompanyIds(Some(user), relations) {
      var c := FindCompany(relations.companies, pk).value;
      assert CompanyDetail(user, relations, pk) == Text(DetailContent(c));
    }
  }

  /** A superuser sees any existing company and gets 404 for the others. */
  lemma CompanyDetailForSuperuser(user: User, relations: Store, pk: CompanyId)
    requires user.isSuperuser && user.isAuthenticated
    ensures pk !in CompanyIds(relations.companies) ==> CompanyDetail(user, relations, pk) == Http404
    ensures pk in CompanyIds(relations.companies) ==>
      CompanyDetail(user, relations, pk) == Text(DetailContent(FindCompany(relations.companies, pk).value))
  {
  }

  // ---- class-based views --------------------------------------------------

  /**
   * LoginRequiredMixin then PermissionRequiredMixin: anonymous users go to the
   * login page, logged-in users lacking the permission get 403.
   */
  function AccessMixins(user: User, perms: set<string>, codename: string, loginUrl: string): (r: Option<Response>)
    ensures r == None <==> user.isAuthenticated && HasPerm(user, perms, codename)
    ensures !user.isAuthenticated ==> r == Some(LoginRedirect(loginUrl))
    ensures user.isAuthenticated && !HasPerm(user, perms, codename) ==> r == Some(Forbidden)
  {
    if !user.isAuthenticated then Some(LoginRedirect(loginUrl))
    else if !HasPerm(user, perms, codename) then Some(Forbidden)
    else None
  }

  /** The scoped queryset of the list, detail and update views. */
  function ScopedCompanies(user: User, relations: Store): seq<Company>
  {
    ScopeFilter(user, AllowedCompanyIds(Some(user), relations), CompanyScope, CompanyAttr, Ordered(relations.companies))
  }

  /** CompanyListView (no pagination): the scoped companies in name order. */
  function CompanyListView(user: User, perms: set<string>, loginUrl: string, relations: Store): Response
  {
    match AccessMixins(user, perms, "core.view_company", loginUrl)
    case Some(resp) => resp
    case None => ListPage(ListTemplate, ScopedCompanies(user, relations))
  }

  /** The class-based list and the plain-text list show the same companies, the latter cut at fifty. */
  lemma ListViewsAgree(user: User, perms: set<string>, loginUrl: string, relations: Store)
    requires user.isAuthenticated && HasPerm(user, perms, "core.view_company")
    ensures CompanyListView(user, perms, loginUrl, relations).ListPage?
    ensures Take(CompanyListView(user, perms, loginUrl, relations).companies, ListLimit) == CompanyListing(user, relations)
  {
    if !user.isSuperuser {
      var allowed := AllowedCompanyIds(Some(user), relations);
      KeepExtensional(Ordered(relations.companies),
        (x: Company) => InScope(allowed, CompanyScope, CompanyAttr, x),
        (c: Company) => c.id in allowed);
    }
  }

  /** The object a detail or update view works on, from get_object() with no queryset. */
  function CompanyObject(user: User, relations: Store, pk: CompanyId): Result<Company, AccessError>
  {
    ScopedGetObject(user, relations, CompanyScope, CompanyAttr, Ordered(relations.companies), None, pk)
  }

  function ObjectResponse(r: Result<Company, AccessError>, page: Company -> Response): Response
  {
    match r
    case Ok(c) => page(c)
    case Err(NotFound) => Http404
    case Err(PermissionDenied) => Forbidden
  }

  /** CompanyDetailView, GET. */
  function CompanyDetailView(user: User, perms: set<string>, loginUrl: string, relations: Store, pk: CompanyId): Response
  {
    match AccessMixins(user, perms, "core.view_company", loginUrl)
    case Some(resp) => resp
    case None => ObjectResponse(CompanyObject(user, relations, pk), (c: Company) => DetailPage(DetailTemplate, c))
  }

  /** CompanyUpdateView, GET: the form bound to the scoped object. */
  function CompanyUpdateView(user: User, perms: set<string>, loginUrl: string, relations: Store, pk: CompanyId): Response
  {
    match AccessMixins(user, perms, "core.change_company", loginUrl)
    case Some(resp) => resp
    case None => ObjectResponse(CompanyObject(user, relations, pk), (c: Company) => FormPage(FormTemplate, Some(c)))
  }

  /**
   * Once the access mixins let a request through, the scoped object lookup
   * answers 404 for a company outside the user's set, never 403; a company
   * inside it (or any, for a superuser) is the one stored under `pk`.
   */
  lemma ObjectViewsAnswerNotFound(user: User, perms: set<string>, loginUrl: string, relations: Store, pk: CompanyId)
    requires user.isAuthenticated && HasPerm(user, perms, "core.view_company")
    requires UniqueIds(relations.companies)
    ensures CompanyDetailView(user, perms, loginUrl, relations, pk) != Forbidden
    ensures !user.isSuperuser && pk !in AllowedCompanyIds(Some(user), relations) ==>
      CompanyDetailView(user, perms, loginUrl, relations, pk) == Http404
    ensures (user.isSuperuser || pk in AllowedCompanyIds(Some(user), relations)) && pk in CompanyIds(relations.companies) ==>
      CompanyDetailView(user, perms, loginUrl, relations, pk) == DetailPage(DetailTemplate, FindCompany(relations.companies, pk).value)
  {
    var base := Ordered(relations.companies);
    ScopedGetObjectNeverDenies(user, relations, CompanyScope, CompanyAttr, base, pk);
    var r := CompanyObject(user, relations, pk);
    if r.Ok? {
      assert r.value in multiset(base);
      FindCompanyUnique(relations.companies, r.value);
    }
    if (user.isSuperuser || pk in AllowedCompanyIds(Some(user), relations)) && pk in CompanyIds(relations.companies) {
      var c := FindCompany(relations.companies, pk).value;
      assert c in multiset(base);
      var i :| 0 <= i < |base| && base[i] == c;
      assert CompanyAttr(base[i], "id") == Some(pk);
    }
  }

  /**
   * CompanyCreateView, POST.  `formValid` is CompanyForm's verdict on
   * everything but the unique tax id, which is checked against the table.
   * form_valid makes the current user the advisor before saving.  The form
   * has no status field, so a new company takes the column default "active"
   * whatever `d.status` holds.
   */
  method CompanyCreatePost(table: CompanyTable, user: User, perms: set<string>, loginUrl: string,
                           formValid: bool, d: CompanyData) returns (resp: Response)
    requires table.Valid()
    modifies table
    ensures table.Valid()
    ensures resp != RedirectToName(SuccessUrlName) ==> table.store == old(table.store)
    ensures resp == RedirectToName(SuccessUrlName) <==>
      user.isAuthenticated && HasPerm(user, perms, "core.add_company") && formValid
      && !TaxIdTaken(old(table.store.companies), d.taxId, None)
    ensures resp == RedirectToName(SuccessUrlName) ==>
      table.store.companies == old(table.store.companies) + [Company(old(table.nextId), d.(advisor := Some(user.id), status := "active"))]
      && table.store.analysts == old(table.store.analysts)
    ensures resp == RedirectToName(SuccessUrlName) && !user.isSuperuser ==>
      old(table.nextId) in AllowedCompanyIds(Some(user), table.store)
  {
    var denied := AccessMixins(user, perms, "core.add_company", loginUrl);
    if denied.Some? {
      return denied.value;
    }
    if !formValid || exists c :: c in table.store.companies && c.data.taxId == d.taxId {
      return FormPage(FormTemplate, None);
    }
    var obj := d.(advisor := Some(user.id), status := "active");
    assert old(table.nextId) !in CompanyIds(table.store.companies);
    var r := table.Save(None, obj);
    if !user.isSuperuser {
      AdvisorSaveGrants(Some(user), old(table.store), old(table.nextId), obj);
    }
    resp := RedirectToName(SuccessUrlName);
  }

  /**
   * CompanyUpdateView, POST: the scoped object is looked up first, so a user
   * who is not a superuser can change only a company in their set; any other
   * pk answers 404 and leaves the table alone.  The form has no status
   * field, so the company keeps the status it had whatever `d.status` holds.
   */
  method CompanyUpdatePost(table: CompanyTable, user: User, perms: set<string>, loginUrl: string,
                           pk: CompanyId, formValid: bool, d: CompanyData) returns (resp: Response)
    requires table.Valid()
    modifies table
    ensures table.Valid()
    ensures resp != RedirectToName(SuccessUrlName) ==> table.store == old(table.store)
    ensures !user.isSuperuser && pk !in AllowedCompanyIds(Some(user), old(table.store)) ==>
      table.store == old(table.store) && resp != RedirectToName(SuccessUrlName)
    ensures resp == RedirectToName(SuccessUrlName) ==>
      pk in CompanyIds(old(table.store.companies))
      && table.store == Store(Upsert(old(table.store.companies), pk,
                                     d.(status := FindCompany(old(table.store.companies), pk).value.data.status)),
                              old(table.store.analysts))
  {
    var denied := AccessMixins(user, perms, "core.change_company", loginUrl);
    if denied.Some? {
      return denied.value;
    }
    var obj := CompanyObject(user, table.store, pk);
    if obj.Err? {
      return if obj.error == NotFound then Http404 else Forbidden;
    }
    assert obj.value in multiset(Ordered(table.store.companies));
    assert obj.value.id == pk;
    if !formValid || exists c :: c in table.store.companies && c.data.taxId == d.taxId && c.id != pk {
      return FormPage(FormTemplate, Some(obj.value));
    }
    FindCompanyUnique(table.store.companies, obj.value);
    var r := table.Save(Some(pk), d.(status := obj.value.data.status));
    resp := RedirectToName(SuccessUrlName);
  }
}
