/**
 * apps/inventory/views.py: the inventory page of a company with its tabs, and
 * the four HTMX views `crud_factory` builds for each of the ten tables.  Every
 * view only needs a login; none of them looks at the companies the user may
 * see, so any logged-in user reaches the inventory of any company.
 */
module InventoryViews {
  import opened Wrappers
  import opened Seqs
  import opened Ordering
  import opened CoreModels
  import opened Selectors
  import opened InventoryModels
  import opened InventoryForms

  // ---- the inventory page -------------------------------------------------------

  /** The tabs of the page, as (slug, title), in display order. */
  const Tabs: seq<(string, string)> := [
    ("equipment", "Equipos"),
    ("maintenance", "Mantenimiento"),
    ("services", "Servicios técnicos"),
    ("methods", "Métodos"),
    ("layout", "Layout"),
    ("software", "Software"),
    ("materials", "Materiales"),
    ("investments", "Inversiones"),
    ("workforce", "Talento"),
    ("disciplines", "Saberes/Disciplinas"),
    ("summary", "Resumen & Validación")]

  const DefaultTab := "equipment"

  predicate IsTab(slug: string)
  {
    exists i :: 0 <= i < |Tabs| && Tabs[i].0 == slug
  }

  /** `request.GET.get("tab", "equipment")`, replaced by "equipment" when it is not a tab. */
  function SelectTab(tab: Option<string>): (t: string)
    ensures IsTab(t)
    ensures tab.Some? && IsTab(tab.value) ==> t == tab.value
    ensures tab.None? || !IsTab(tab.value) ==> t == DefaultTab
  {
    assert Tabs[0].0 == DefaultTab;
    if tab.Some? && IsTab(tab.value) then tab.value else DefaultTab
  }

  function PartialFor(tab: string): string
  {
    "inventory/tabs/_" + tab + ".html"
  }

  datatype HttpMethod = Get | Head | Post | Put | Patch | Delete | Options

  datatype Action = CreateAction | UpdateAction

  /** What an inventory view answers. */
  datatype Page =
    | LoginRedirect
    | MethodNotAllowed
    | Http404
    | ServerError
    | ManagePage(company: Company, tabs: seq<(string, string)>, currentTab: string, partial: string, title: string)
    | ListPage(company: Company, objects: seq<Record>)
    | FormPage(owner: CompanyId, kind: Kind, action: Action, object: Option<Record>, equipmentOf: Option<CompanyId>)
    | Trigger(status: int, payload: map<string, bool>)

  /** `InventoryManageView.get`: login, the company or 404, then the selected tab and its partial. */
  function InventoryManage(user: User, s: Store, companyId: CompanyId, tab: Option<string>): (p: Page)
    ensures !user.isAuthenticated ==> p == LoginRedirect
    ensures user.isAuthenticated && companyId !in CompanyIds(s.companies) ==> p == Http404
    ensures user.isAuthenticated && companyId in CompanyIds(s.companies) ==>
      && p.ManagePage? && p.company in s.companies && p.company.id == companyId
      && p.tabs == Tabs && IsTab(p.currentTab) && p.partial == PartialFor(p.currentTab)
      && p.title == "Inventario tecnológico — " + p.company.data.name
  {
    if !user.isAuthenticated then LoginRedirect
    else match FindCompany(s.companies, companyId)
      case None => Http404
      case Some(c) =>
        var t := SelectTab(tab);
        ManagePage(c, Tabs, t, PartialFor(t), "Inventario tecnológico — " + c.data.name)
  }

  // ---- the HX-Trigger answer ------------------------------------------------------

  const CloseModal := "modal:close"

  /** `_hx_trigger`: 204 with the event set to true, and "modal:close" when the modal is to close. */
  function HxTrigger(event: string, closeModal: bool): (p: Page)
    ensures p.Trigger? && p.status == 204
    ensures event in p.payload
    ensures CloseModal in p.payload <==> closeModal || event == CloseModal
    ensures forall k :: k in p.payload ==> k == event || k == CloseModal
    ensures forall k :: k in p.payload ==> p.payload[k]
  {
    var payload := map[event := true];
    Trigger(204, if closeModal then payload[CloseModal := true] else payload)
  }

  /** The event each table's views send to refresh it. */
  function EventName(kind: Kind): string
  {
    match kind
    case EquipmentKind => "equipment:refresh"
    case ServiceKind => "services:refresh"
    case MaintenanceKind => "maintenance:refresh"
    case MethodKind => "methods:refresh"
    case LayoutKind => "layout:refresh"
    case SoftwareKind => "software:refresh"
    case MaterialKind => "materials:refresh"
    case InvestmentKind => "investments:refresh"
    case WorkforceKind => "workforce:refresh"
    case DisciplineKind => "disciplines:refresh"
  }

  /** No table's event is the modal signal, so every answer closes the modal too. */
  lemma EventNamesAreNotCloseModal(kind: Kind)
    ensures EventName(kind) != CloseModal
    ensures HxTrigger(EventName(kind), true).payload.Keys == {EventName(kind), CloseModal}
  {
    assert EventName(kind)[|EventName(kind)| - 1] == 'h';
    assert CloseModal[|CloseModal| - 1] == 'e';
  }

  // ---- the list querysets -----------------------------------------------------------

  function EquipmentNameOf(rs: seq<Record>, equipment: RecordId): string
  {
    match FindRecord(rs, EquipmentKind, equipment)
    case Some(e) => e.name
    case None => ""
  }

  /**
   * The `order_by` of each table's `qs_by_company`.  Maintenance sorts by its
   * equipment's name, the latest date first; investments by date and year,
   * both latest first, then newest first (`-created_at`, which follows the ids
   * the table hands out).
   */
  function ListKey(rs: seq<Record>, r: Record): seq<Cell>
  {
    match r
    case EquipmentRec(_, _, name, _, _, _, _, _) => [Text(Some(name))]
    case ServiceRec(_, _, serviceType, providerName, _) => [Text(Some(serviceType)), Text(Some(providerName))]
    case MaintenanceRec(_, equipment, maintenanceType, _, lastDate) =>
      [Text(Some(EquipmentNameOf(rs, equipment))), Desc(lastDate), Text(Some(maintenanceType))]
    case MethodRec(_, _, modality, _) => [Text(Some(modality))]
    case LayoutRec(_, _, layoutType) => [Text(Some(layoutType))]
    case SoftwareRec(_, _, usage, name) => [Text(Some(usage)), Text(Some(name))]
    case MaterialRec(_, _, category, name, _, _, _) => [Text(Some(category)), Text(Some(name))]
    case InvestmentRec(id, _, _, _, _, _, _, date, year, _, _, _) => [Desc(date), Desc(year), Desc(Some(id))]
    case WorkforceRec(_, _, area, _, _, _) => [Text(Some(area))]
    case DisciplineRec(_, _, item, _, _) => [Text(Some(item))]
  }

  predicate ListLe(rs: seq<Record>, a: Record, b: Record)
  {
    KeysLe(ListKey(rs, a), ListKey(rs, b))
  }

  /** The filter of `qs_by_company`: `company=company`, or `equipment__company=company` for maintenance. */
  predicate InCompany(rs: seq<Record>, kind: Kind, company: CompanyId, r: Record)
  {
    KindOf(r) == kind && CompanyOf(rs, r) == Some(company)
  }

  /** `qs_by_company(company)` of the table `kind`. */
  function ListRecords(rs: seq<Record>, kind: Kind, company: CompanyId): (qs: seq<Record>)
    ensures multiset(qs) == multiset(Keep(rs, (r: Record) => InCompany(rs, kind, company, r)))
    ensures SortedBy(qs, (a: Record, b: Record) => ListLe(rs, a, b))
  {
    KeyOrderIsPreorder((a: Record, b: Record) => ListLe(rs, a, b), (r: Record) => ListKey(rs, r));
    SortBy(Keep(rs, (r: Record) => InCompany(rs, kind, company, r)), (a: Record, b: Record) => ListLe(rs, a, b))
  }

  /**
   * A list shows exactly the company's records of its table; a maintenance
   * record is shown when its equipment belongs to the company.
   */
  lemma ListedRecords(rs: seq<Record>, kind: Kind, company: CompanyId, r: Record)
    ensures r in ListRecords(rs, kind, company) <==> r in rs && KindOf(r) == kind && CompanyOf(rs, r) == Some(company)
    ensures r in ListRecords(rs, kind, company) && r.MaintenanceRec? ==>
      exists e :: e in rs && e.EquipmentRec? && e.id == r.equipment && e.company == company
  {
    var p := (x: Record) => InCompany(rs, kind, company, x);
    KeepCount(rs, p, r);
    assert r in ListRecords(rs, kind, company) <==> r in multiset(ListRecords(rs, kind, company));
    assert r in rs <==> r in multiset(rs);
    if r in ListRecords(rs, kind, company) && r.MaintenanceRec? {
      var e := FindRecord(rs, EquipmentKind, r.equipment).value;
      assert e in rs && e.EquipmentRec? && e.id == r.equipment && e.company == company;
    }
  }

  /** `list_view`: login, GET only, the company or 404, then its records. */
  function ListView(user: User, s: Store, st: InventoryStore, kind: Kind, companyId: CompanyId, m: HttpMethod): (p: Page)
    ensures !user.isAuthenticated ==> p == LoginRedirect
    ensures user.isAuthenticated && m != Get ==> p == MethodNotAllowed
    ensures user.isAuthenticated && m == Get && companyId !in CompanyIds(s.companies) ==> p == Http404
    ensures user.isAuthenticated && m == Get && companyId in CompanyIds(s.companies) ==>
      p.ListPage? && p.company in s.companies && p.company.id == companyId && p.objects == ListRecords(st.records, kind, companyId)
  {
    if !user.isAuthenticated then LoginRedirect
    else if m != Get then MethodNotAllowed
    else match FindCompany(s.companies, companyId)
      case None => Http404
      case Some(c) => ListPage(c, ListRecords(st.records, kind, companyId))
  }

  // ---- the views that write ----------------------------------------------------------

  /** A submitted form: the record it describes, whether every field parsed and fit, and today's date. */
  datatype Submission = Submission(input: Record, fieldsOk: bool, today: int)

  /** What a view answers, with the tables and the next id it leaves. */
  datatype Outcome = Outcome(page: Page, store: InventoryStore, nextId: RecordId)

  /** `form_kwargs_fn`: the maintenance and investment forms get the company. */
  function FormCompany(kind: Kind, company: CompanyId): Option<CompanyId>
  {
    if kind == MaintenanceKind || kind == InvestmentKind then Some(company) else None
  }

  /** The record with another primary key (what a save of a new row assigns). */
  function WithId(r: Record, id: RecordId): (u: Record)
    ensures KindOf(u) == KindOf(r) && u.id == id && FieldsValid(u) == FieldsValid(r)
    ensures !r.MaintenanceRec? ==> u.company == r.company
    ensures r.MaintenanceRec? ==> u.equipment == r.equipment
    ensures r.InvestmentRec? ==> u.linkedEquipment == r.linkedEquipment
  {
    match r
    case EquipmentRec(_, c, n, cat, q, y, o, u) => EquipmentRec(id, c, n, cat, q, y, o, u)
    case ServiceRec(_, c, t, p, l) => ServiceRec(id, c, t, p, l)
    case MaintenanceRec(_, e, t, f, d) => MaintenanceRec(id, e, t, f, d)
    case MethodRec(_, c, m, n) => MethodRec(id, c, m, n)
    case LayoutRec(_, c, l) => LayoutRec(id, c, l)
    case SoftwareRec(_, c, u, n) => SoftwareRec(id, c, u, n)
    case MaterialRec(_, c, cat, n, o, p, pct) => MaterialRec(id, c, cat, n, o, p, pct)
    case InvestmentRec(_, c, cat, n, mo, a, f, d, y, st, e, ec) => InvestmentRec(id, c, cat, n, mo, a, f, d, y, st, e, ec)
    case WorkforceRec(_, c, a, p, e, x) => WorkforceRec(id, c, a, p, e, x)
    case DisciplineRec(_, c, i, sc, ad) => DisciplineRec(id, c, i, sc, ad)
  }

  /** The record owned by another company; a maintenance record has no company of its own. */
  function WithCompany(r: Record, company: CompanyId): (u: Record)
    ensures KindOf(u) == KindOf(r) && u.id == r.id && FieldsValid(u) == FieldsValid(r)
    ensures !r.MaintenanceRec? ==> u.company == company
    ensures r.MaintenanceRec? ==> u == r
    ensures r.InvestmentRec? ==> u.linkedEquipment == r.linkedEquipment
  {
    match r
    case EquipmentRec(id, _, n, cat, q, y, o, u) => EquipmentRec(id, company, n, cat, q, y, o, u)
    case ServiceRec(id, _, t, p, l) => ServiceRec(id, company, t, p, l)
    case MaintenanceRec(_, _, _, _, _) => r
    case MethodRec(id, _, m, n) => MethodRec(id, company, m, n)
    case LayoutRec(id, _, l) => LayoutRec(id, company, l)
    case SoftwareRec(id, _, u, n) => SoftwareRec(id, company, u, n)
    case MaterialRec(id, _, cat, n, o, p, pct) => MaterialRec(id, company, cat, n, o, p, pct)
    case InvestmentRec(id, _, cat, n, mo, a, f, d, y, st, e, ec) => InvestmentRec(id, company, cat, n, mo, a, f, d, y, st, e, ec)
    case WorkforceRec(id, _, a, p, e, x) => WorkforceRec(id, company, a, p, e, x)
    case DisciplineRec(id, _, i, sc, ad) => DisciplineRec(id, company, i, sc, ad)
  }

  /** A new row: `before_create` sets the URL's company (every table but maintenance), the save a fresh id. */
  function Stamp(input: Record, company: CompanyId, id: RecordId): (r: Record)
    ensures KindOf(r) == KindOf(input) && r.id == id && FieldsValid(r) == FieldsValid(input)
    ensures !r.MaintenanceRec? ==> r.company == company
    ensures r.MaintenanceRec? ==> r.equipment == input.equipment
    ensures r.InvestmentRec? ==> r.linkedEquipment == input.linkedEquipment
  {
    WithId(WithCompany(input, company), id)
  }

  /** `form.save()` on an instance: the form's fields change, the id and the company stay. */
  function Restamp(obj: Record, input: Record): (r: Record)
    requires KindOf(input) == KindOf(obj)
    ensures KindOf(r) == KindOf(obj) && r.id == obj.id && FieldsValid(r) == FieldsValid(input)
    ensures !r.MaintenanceRec? ==> r.company == obj.company
    ensures r.MaintenanceRec? ==> r.equipment == input.equipment
    ensures r.InvestmentRec? ==> r.linkedEquipment == input.linkedEquipment
  {
    if input.MaintenanceRec? then WithId(input, obj.id) else WithId(WithCompany(input, obj.company), obj.id)
  }

  /**
   * `create_view`: login, GET or POST, the company or 404.  A valid POST saves
   * the stamped record and answers the refresh event, unless its unique key is
   * taken, which the form does not check and the database refuses (500).
   * Anything else shows the form and changes nothing.
   */
  function CreateView(st: InventoryStore, nextId: RecordId, user: User, s: Store, kind: Kind,
                      companyId: CompanyId, m: HttpMethod, sub: Submission): (o: Outcome)
    ensures !o.page.Trigger? ==> o.store == st && o.nextId == nextId
    ensures o.page.Trigger? <==>
      && user.isAuthenticated && m == Post && companyId in CompanyIds(s.companies)
      && IsValid(kind, st.records, companyId, sub.input, sub.today, sub.fieldsOk)
      && !UniqueKeyTaken(st.records, Stamp(sub.input, companyId, nextId))
    ensures o.page.Trigger? ==>
      && o.page == HxTrigger(EventName(kind), true)
      && o.store == st.(records := SaveRecord(st.records, Stamp(sub.input, companyId, nextId)))
      && o.nextId == nextId + 1
    ensures user.isAuthenticated && (m == Get || m == Post) && companyId in CompanyIds(s.companies)
            && !(m == Post && IsValid(kind, st.records, companyId, sub.input, sub.today, sub.fieldsOk)) ==>
      o.page == FormPage(companyId, kind, CreateAction, None, FormCompany(kind, companyId))
  {
    if !user.isAuthenticated then Outcome(LoginRedirect, st, nextId)
    else if m != Get && m != Post then Outcome(MethodNotAllowed, st, nextId)
    else match FindCompany(s.companies, companyId)
      case None => Outcome(Http404, st, nextId)
      case Some(company) =>
        if m == Post && IsValid(kind, st.records, company.id, sub.input, sub.today, sub.fieldsOk) then
          var obj := Stamp(sub.input, company.id, nextId);
          if UniqueKeyTaken(st.records, obj) then Outcome(ServerError, st, nextId)
          else Outcome(HxTrigger(EventName(kind), true), st.(records := SaveRecord(st.records, obj)), nextId + 1)
        else Outcome(FormPage(company.id, kind, CreateAction, None, FormCompany(kind, company.id)), st, nextId)
  }

  /**
   * `update_view`: login, GET or POST, the record or 404; its company is its
   * own or, for maintenance, its equipment's.  A valid POST saves the form's
   * fields onto the record exactly when the unique key is free (else 500); a GET
   * or an invalid POST shows the form bound to the record and changes nothing.
   */
  function UpdateView(st: InventoryStore, nextId: RecordId, user: User, kind: Kind, pk: RecordId,
                      m: HttpMethod, sub: Submission): (o: Outcome)
    ensures o.nextId == nextId
    ensures !o.page.Trigger? ==> o.store == st
    ensures o.page.Trigger? ==>
      && user.isAuthenticated && m == Post && FindRecord(st.records, kind, pk).Some?
      && var obj := FindRecord(st.records, kind, pk).value;
      && CompanyOf(st.records, obj).Some?
      && IsValid(kind, st.records, CompanyOf(st.records, obj).value, sub.input, sub.today, sub.fieldsOk)
      && !UniqueKeyTaken(st.records, Restamp(obj, sub.input))
      && o.page == HxTrigger(EventName(kind), true)
      && o.store == st.(records := SaveRecord(st.records, Restamp(obj, sub.input)))
    ensures user.isAuthenticated && m == Post && FindRecord(st.records, kind, pk).Some? ==>
      var obj := FindRecord(st.records, kind, pk).value;
      CompanyOf(st.records, obj).Some?
      && IsValid(kind, st.records, CompanyOf(st.records, obj).value, sub.input, sub.today, sub.fieldsOk)
      && !UniqueKeyTaken(st.records, Restamp(obj, sub.input))
      ==> o.page.Trigger?
    ensures user.isAuthenticated && (m == Get || m == Post) && FindRecord(st.records, kind, pk).None? ==> o.page == Http404
    ensures user.isAuthenticated && (m == Get || m == Post) && FindRecord(st.records, kind, pk).Some? ==>
      var obj := FindRecord(st.records, kind, pk).value;
      CompanyOf(st.records, obj).Some?
      && !(m == Post && IsValid(kind, st.records, CompanyOf(st.records, obj).value, sub.input, sub.today, sub.fieldsOk))
      ==> var company := CompanyOf(st.records, obj).value;
          o.page == FormPage(company, kind, UpdateAction, Some(obj), FormCompany(kind, company))
  {
    if !user.isAuthenticated then Outcome(LoginRedirect, st, nextId)
    else if m != Get && m != Post then Outcome(MethodNotAllowed, st, nextId)
    else match FindRecord(st.records, kind, pk)
      case None => Outcome(Http404, st, nextId)
      case Some(obj) =>
        match CompanyOf(st.records, obj)
        case None => Outcome(ServerError, st, nextId)
        case Some(company) =>
          if m == Post && IsValid(kind, st.records, company, sub.input, sub.today, sub.fieldsOk) then
            var saved := Restamp(obj, sub.input);
            if UniqueKeyTaken(st.records, saved) then Outcome(ServerError, st, nextId)
            else Outcome(HxTrigger(EventName(kind), true), st.(records := SaveRecord(st.records, saved)), nextId)
          else Outcome(FormPage(company, kind, UpdateAction, Some(obj), FormCompany(kind, company)), st, nextId)
  }

  /** `delete_view`: login, POST or DELETE, the record or 404, then `obj.delete()`. */
  function DeleteView(st: InventoryStore, nextId: RecordId, user: User, kind: Kind, pk: RecordId, m: HttpMethod): (o: Outcome)
    ensures o.nextId == nextId
    ensures !o.page.Trigger? ==> o.store == st
    ensures o.page.Trigger? <==> user.isAuthenticated && (m == Post || m == Delete) && FindRecord(st.records, kind, pk).Some?
    ensures o.page.Trigger? ==> o.page == HxTrigger(EventName(kind), true) && o.store == DeleteRecord(st, kind, pk)
  {
    if !user.isAuthenticated then Outcome(LoginRedirect, st, nextId)
    else if m != Post && m != Delete then Outcome(MethodNotAllowed, st, nextId)
    else match FindRecord(st.records, kind, pk)
      case None => Outcome(Http404, st, nextId)
      case Some(_) => Outcome(HxTrigger(EventName(kind), true), DeleteRecord(st, kind, pk), nextId)
  }

  // ---- properties of the views ------------------------------------------------------

  /** Every id handed out so far is below `nextId`. */
  predicate IdsBelow(st: InventoryStore, nextId: RecordId)
  {
    forall r :: r in st.records ==> r.id < nextId
  }

  /** In a consistent inventory every record has a company, so `company_from_obj` never fails. */
  lemma OwnerExists(st: InventoryStore, companies: set<CompanyId>, r: Record)
    requires ValidInventory(st, companies)
    requires r in st.records
    ensures CompanyOf(st.records, r).Some?
    ensures CompanyOf(st.records, r).value in companies
  {
    if r.MaintenanceRec? {
      var e :| e in st.records && e.EquipmentRec? && e.id == r.equipment;
      assert KindOf(e) == EquipmentKind;
      var found := FindRecord(st.records, EquipmentKind, r.equipment);
      assert found.value.EquipmentRec?;
      assert References(found.value, companies, EquipmentIds(st.records));
    }
  }

  /** The equipment of a company's choice list is that company's equipment in the table. */
  lemma CompanyEquipmentIds(rs: seq<Record>, company: CompanyId, id: RecordId)
    requires id in Ids(CompanyEquipment(rs, company))
    ensures id in EquipmentIds(rs)
    ensures FindRecord(rs, EquipmentKind, id).Some?
    ensures DistinctBy(rs, RecordKey) ==> FindRecord(rs, EquipmentKind, id).value.company == company
  {
    var e :| e in CompanyEquipment(rs, company) && e.id == id;
    CompanyEquipmentMembers(rs, company, e);
    assert KindOf(e) == EquipmentKind;
    if DistinctBy(rs, RecordKey) {
      FindRecordUnique(rs, e);
    }
  }

  /** What the form lets through refers to existing rows and passes the database's checks. */
  lemma ValidFormReferences(st: InventoryStore, companies: set<CompanyId>, kind: Kind, company: CompanyId,
                            r: Record, sub: Submission)
    requires ValidInventory(st, companies)
    requires company in companies
    requires IsValid(kind, st.records, company, sub.input, sub.today, sub.fieldsOk)
    requires KindOf(r) == KindOf(sub.input) && FieldsValid(r)
    requires !r.MaintenanceRec? ==> r.company == company
    requires r.MaintenanceRec? ==> r.equipment == sub.input.equipment
    requires r.InvestmentRec? ==> r.linkedEquipment == sub.input.linkedEquipment
    ensures References(r, companies, EquipmentIds(st.records)) && PositiveColumns(r)
  {
    FieldsValidArePositive(r);
    if r.MaintenanceRec? {
      CompanyEquipmentIds(st.records, company, r.equipment);
    }
    if r.InvestmentRec? && r.linkedEquipment.Some? {
      CompanyEquipmentIds(st.records, company, r.linkedEquipment.value);
    }
  }

  /**
   * A successful create appends one record with the next id; it belongs to the
   * URL's company (a maintenance record through its equipment), so that
   * company's list shows it.
   */
  lemma CreateAppends(st: InventoryStore, nextId: RecordId, user: User, s: Store, kind: Kind,
                      companyId: CompanyId, m: HttpMethod, sub: Submission)
    requires ValidInventory(st, CompanyIds(s.companies)) && IdsBelow(st, nextId)
    requires CreateView(st, nextId, user, s, kind, companyId, m, sub).page.Trigger?
    ensures var o := CreateView(st, nextId, user, s, kind, companyId, m, sub);
      var obj := Stamp(sub.input, companyId, nextId);
      && o.store.records == st.records + [obj]
      && KindOf(obj) == kind
      && CompanyOf(o.store.records, obj) == Some(companyId)
      && obj in ListRecords(o.store.records, kind, companyId)
  {
    var obj := Stamp(sub.input, companyId, nextId);
    assert !exists x :: x in st.records && RecordKey(x) == RecordKey(obj);
    var t := st.records + [obj];
    if obj.MaintenanceRec? {
      CompanyEquipmentIds(st.records, companyId, obj.equipment);
      FindRecordAppend(st.records, obj, EquipmentKind, obj.equipment);
    }
    ListedRecords(t, kind, companyId, obj);
  }

  /** Appending a record of another table does not change what a lookup finds. */
  lemma {:induction false} FindRecordAppend(rs: seq<Record>, r: Record, kind: Kind, id: RecordId)
    requires KindOf(r) != kind
    ensures FindRecord(rs + [r], kind, id) == FindRecord(rs, kind, id)
  {
    if rs == [] {
      assert FindRecord([r][1..], kind, id) == None;
    } else {
      assert (rs + [r])[1..] == rs[1..] + [r];
      FindRecordAppend(rs[1..], r, kind, id);
    }
  }

  /** Create keeps the constraints of the tables and the ids below the next one. */
  lemma CreateKeepsValid(st: InventoryStore, nextId: RecordId, user: User, s: Store, kind: Kind,
                         companyId: CompanyId, m: HttpMethod, sub: Submission)
    requires ValidInventory(st, CompanyIds(s.companies)) && IdsBelow(st, nextId)
    ensures var o := CreateView(st, nextId, user, s, kind, companyId, m, sub);
      ValidInventory(o.store, CompanyIds(s.companies)) && IdsBelow(o.store, o.nextId)
  {
    var o := CreateView(st, nextId, user, s, kind, companyId, m, sub);
    if o.page.Trigger? {
      var obj := Stamp(sub.input, companyId, nextId);
      ValidFormReferences(st, CompanyIds(s.companies), kind, companyId, obj, sub);
      SaveRecordValid(st, CompanyIds(s.companies), obj);
    }
  }

  /**
   * A successful update keeps the record's key and its company, and replaces
   * the record in place.
   */
  lemma UpdateInPlace(st: InventoryStore, companies: set<CompanyId>, nextId: RecordId, user: User, kind: Kind,
                      pk: RecordId, m: HttpMethod, sub: Submission)
    requires ValidInventory(st, companies)
    requires UpdateView(st, nextId, user, kind, pk, m, sub).page.Trigger?
    ensures var obj := FindRecord(st.records, kind, pk).value;
      var saved := Restamp(obj, sub.input);
      && RecordKey(saved) == RecordKey(obj) == (kind, pk)
      && CompanyOf(st.records, saved) == CompanyOf(st.records, obj)
      && UpdateView(st, nextId, user, kind, pk, m, sub).store.records == ReplaceRecord(st.records, saved)
  {
    var obj := FindRecord(st.records, kind, pk).value;
    var saved := Restamp(obj, sub.input);
    var company := CompanyOf(st.records, obj).value;
    if obj.MaintenanceRec? {
      CompanyEquipmentIds(st.records, company, saved.equipment);
    }
  }

  /** Update keeps the constraints of the tables. */
  lemma UpdateKeepsValid(st: InventoryStore, companies: set<CompanyId>, nextId: RecordId, user: User, kind: Kind,
                         pk: RecordId, m: HttpMethod, sub: Submission)
    requires ValidInventory(st, companies) && IdsBelow(st, nextId)
    ensures var o := UpdateView(st, nextId, user, kind, pk, m, sub);
      ValidInventory(o.store, companies) && IdsBelow(o.store, o.nextId)
  {
    var o := UpdateView(st, nextId, user, kind, pk, m, sub);
    if o.page.Trigger? {
      var obj := FindRecord(st.records, kind, pk).value;
      var company := CompanyOf(st.records, obj).value;
      OwnerExists(st, companies, obj);
      var saved := Restamp(obj, sub.input);
      assert References(obj, companies, EquipmentIds(st.records));
      ValidFormReferences(st, companies, kind, company, saved, sub);
      SaveRecordValid(st, companies, saved);
    }
  }

  /**
   * Delete removes exactly the record with the key; equipment takes its
   * maintenances and energy links along and leaves no investment pointing at it.
   */
  lemma DeleteRemoves(st: InventoryStore, nextId: RecordId, user: User, kind: Kind, pk: RecordId, m: HttpMethod)
    requires DeleteView(st, nextId, user, kind, pk, m).page.Trigger?
    ensures var after := DeleteView(st, nextId, user, kind, pk, m).store;
      && (kind != EquipmentKind ==>
            (forall x :: x in after.records <==> x in st.records && RecordKey(x) != (kind, pk)) && after.links == st.links)
      && (kind == EquipmentKind ==>
            && (forall x: Record :: !x.InvestmentRec? ==>
                  (x in after.records <==> x in st.records && SurvivesEquipment(x, {pk})))
            && (forall x :: x in after.records && x.InvestmentRec? ==> x.linkedEquipment != Some(pk))
            && (forall y :: y in st.records && y.InvestmentRec? ==> Unlink(y, {pk}) in after.records)
            && (forall x :: x in after.records && x.InvestmentRec? ==>
                  exists y :: y in st.records && y.InvestmentRec? && x == Unlink(y, {pk}))
            && (forall l :: l in after.links <==> l in st.links && l.equipment != pk))
  {
    if kind == EquipmentKind {
      DeleteEquipmentEffect(st, pk);
    } else {
      DeleteOtherEffect(st, kind, pk);
    }
  }

  lemma DeleteKeepsValid(st: InventoryStore, companies: set<CompanyId>, nextId: RecordId, user: User, kind: Kind,
                         pk: RecordId, m: HttpMethod)
    requires ValidInventory(st, companies) && IdsBelow(st, nextId)
    ensures var o := DeleteView(st, nextId, user, kind, pk, m);
      ValidInventory(o.store, companies) && IdsBelow(o.store, o.nextId)
  {
    DeleteRecordValid(st, companies, kind, pk);
    var o := DeleteView(st, nextId, user, kind, pk, m);
    forall r | r in o.store.records ensures r.id < nextId {
      if kind == EquipmentKind {
        DeleteWithEquipmentMembers(st, (x: Record) => false, {pk}, r);
      } else {
        DeleteWithEquipmentMembers(st, (x: Record) => KindOf(x) == kind && x.id == pk, {}, r);
      }
    }
  }

  /**
   * No inventory view consults the allowed set: two logged-in users, whatever
   * companies they may see, get the same answers and the same changes.
   */
  lemma ViewsIgnoreWhoAsks(u: User, v: User, s: Store, st: InventoryStore, nextId: RecordId, kind: Kind,
                           companyId: CompanyId, pk: RecordId, m: HttpMethod, sub: Submission, tab: Option<string>)
    requires u.isAuthenticated && v.isAuthenticated
    ensures InventoryManage(u, s, companyId, tab) == InventoryManage(v, s, companyId, tab)
    ensures ListView(u, s, st, kind, companyId, m) == ListView(v, s, st, kind, companyId, m)
    ensures CreateView(st, nextId, u, s, kind, companyId, m, sub) == CreateView(st, nextId, v, s, kind, companyId, m, sub)
    ensures UpdateView(st, nextId, u, kind, pk, m, sub) == UpdateView(st, nextId, v, kind, pk, m, sub)
    ensures DeleteView(st, nextId, u, kind, pk, m) == DeleteView(st, nextId, v, kind, pk, m)
  {
  }

  /** A logged-in analyst sees the inventory of a company outside their allowed set. */
  lemma RestrictedUserReachesAnyCompany(u: User, s: Store, st: InventoryStore, kind: Kind, c: Company)
    requires Restricted(Some(u))
    requires c in s.companies && c.id !in AllowedCompanyIds(Some(u), s)
    ensures ListView(u, s, st, kind, c.id, Get).ListPage?
    ensures InventoryManage(u, s, c.id, None).ManagePage?
  {
    assert c.id in CompanyIds(s.companies);
  }

  // ---- the tables as the views change them ------------------------------------------

  /** The inventory tables, and the id the next saved row gets. */
  class InventoryDb {
    var store: InventoryStore
    var nextId: RecordId

    /** The tables are consistent against the company table `companies`, and every id is below `nextId`. */
    predicate Valid(companies: set<CompanyId>)
      reads this
    {
      ValidInventory(store, companies) && IdsBelow(store, nextId)
    }

    constructor (st: InventoryStore, next: RecordId)
      ensures store == st && nextId == next
    {
      store := st;
      nextId := next;
    }

    /** `obj.save()` of a new row: it gets the next id, unless its unique key is taken (IntegrityError). */
    method InsertRow(obj: Record) returns (saved: Option<Record>)
      modifies this
      ensures saved.Some? <==> !UniqueKeyTaken(old(store.records), WithId(obj, old(nextId)))
      ensures saved.None? ==> store == old(store) && nextId == old(nextId)
      ensures saved.Some? ==>
        && saved.value == WithId(obj, old(nextId))
        && store == old(store).(records := SaveRecord(old(store.records), saved.value))
        && nextId == old(nextId) + 1
    {
      var row := WithId(obj, nextId);
      if UniqueKeyTaken(store.records, row) {
        return None;
      }
      store := store.(records := SaveRecord(store.records, row));
      nextId := nextId + 1;
      return Some(row);
    }

    /** `obj.save()` of an existing row, unless its unique key is taken (IntegrityError). */
    method UpdateRow(obj: Record) returns (ok: bool)
      modifies this
      ensures ok <==> !UniqueKeyTaken(old(store.records), obj)
      ensures !ok ==> store == old(store)
      ensures ok ==> store == old(store).(records := SaveRecord(old(store.records), obj))
      ensures nextId == old(nextId)
    {
      if UniqueKeyTaken(store.records, obj) {
        return false;
      }
      store := store.(records := SaveRecord(store.records, obj));
      return true;
    }

    method Create(user: User, s: Store, kind: Kind, companyId: CompanyId, m: HttpMethod, sub: Submission) returns (page: Page)
      requires Valid(CompanyIds(s.companies))
      modifies this
      ensures Valid(CompanyIds(s.companies))
      ensures Outcome(page, store, nextId) == CreateView(old(store), old(nextId), user, s, kind, companyId, m, sub)
    {
      CreateKeepsValid(store, nextId, user, s, kind, companyId, m, sub);
      if !user.isAuthenticated {
        return LoginRedirect;
      }
      if m != Get && m != Post {
        return MethodNotAllowed;
      }
      var found := FindCompany(s.companies, companyId);
      if found.None? {
        return Http404;
      }
      var company := found.value;
      assert company.id == companyId;
      if m == Post && IsValid(kind, store.records, company.id, sub.input, sub.today, sub.fieldsOk) {
        var obj := sub.input;
        // before_create
        obj := WithCompany(obj, company.id);
        assert WithId(obj, nextId) == Stamp(sub.input, companyId, nextId);
        var saved := InsertRow(obj);
        if saved.None? {
          return ServerError;
        }
        return HxTrigger(EventName(kind), true);
      }
      return FormPage(company.id, kind, CreateAction, None, FormCompany(kind, company.id));
    }

    method Update(ghost companies: set<CompanyId>, user: User, kind: Kind, pk: RecordId, m: HttpMethod, sub: Submission)
      returns (page: Page)
      requires Valid(companies)
      modifies this
      ensures Valid(companies)
      ensures Outcome(page, store, nextId) == UpdateView(old(store), old(nextId), user, kind, pk, m, sub)
    {
      UpdateKeepsValid(store, companies, nextId, user, kind, pk, m, sub);
      if !user.isAuthenticated {
        return LoginRedirect;
      }
      if m != Get && m != Post {
        return MethodNotAllowed;
      }
      var found := FindRecord(store.records, kind, pk);
      if found.None? {
        return Http404;
      }
      var obj := found.value;
      var owner := CompanyOf(store.records, obj);
      if owner.None? {
        return ServerError;
      }
      if m == Post && IsValid(kind, store.records, owner.value, sub.input, sub.today, sub.fieldsOk) {
        var ok := UpdateRow(Restamp(obj, sub.input));
        if !ok {
          return ServerError;
        }
        return HxTrigger(EventName(kind), true);
      }
      return FormPage(owner.value, kind, UpdateAction, Some(obj), FormCompany(kind, owner.value));
    }

    method Remove(ghost companies: set<CompanyId>, user: User, kind: Kind, pk: RecordId, m: HttpMethod) returns (page: Page)
      requires Valid(companies)
      modifies this
      ensures Valid(companies)
      ensures Outcome(page, store, nextId) == DeleteView(old(store), old(nextId), user, kind, pk, m)
    {
      DeleteKeepsValid(store, companies, nextId, user, kind, pk, m);
      if !user.isAuthenticated {
        return LoginRedirect;
      }
      if m != Post && m != Delete {
        return MethodNotAllowed;
      }
      var found := FindRecord(store.records, kind, pk);
      if found.None? {
        return Http404;
      }
      store := DeleteRecord(store, kind, pk);
      return HxTrigger(EventName(kind), true);
    }
  }
}
