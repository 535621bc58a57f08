/**
 * apps/inventory/models.py: the technology inventory of a company.  Every
 * record of the ten inventory tables is a `Record`; energy sources and the
 * equipment-energy bridge table are kept apart.  Decimal columns are integers
 * in units of their last decimal place (hundredths, or tenths for
 * `avg_experience_years`), dates are day numbers.  Free-text columns
 * (descriptions and notes) are not part of this model.
 */
module InventoryModels {
  import opened Wrappers
  import opened Seqs
  import opened CoreModels

  type RecordId = nat

  /** A choice of a `TextChoices` catalogue: stored value and displayed text. */
  datatype Choice = Choice(value: string, display: string)

  function Values(cs: seq<Choice>): set<string>
  {
    set c | c in cs :: c.value
  }

  const EquipmentCategories: seq<Choice> :=
    [Choice("CORE", "Core / Medular"), Choice("AUXILIARY", "Auxiliary / Periférico")]
  const EnergyTypeCodes: set<string> :=
    {"ELECTRICITY", "DIESEL", "GASOLINE", "NATURAL_GAS", "LPG", "SOLAR", "STEAM", "MANUAL", "OTHER"}
  const ServiceTypes: set<string> :=
    {"MAINTENANCE", "CALIBRATION", "REPAIR", "SOFTWARE_SUPPORT", "TRAINING", "OTHER"}
  const ServiceLocations: seq<Choice> :=
    [Choice("ON_SITE", "On-site"), Choice("OFF_SITE", "Off-site"), Choice("OTHER", "Other")]
  const MaintenanceTypes: set<string> := {"PREVENTIVE", "CORRECTIVE", "PREDICTIVE", "CALIBRATION", "OTHER"}
  const MaintenanceFrequencies: set<string> :=
    {"DAILY", "WEEKLY", "MONTHLY", "QUARTERLY", "SEMIANNUAL", "ANNUAL", "USAGE_BASED"}
  const WorkModalities: set<string> :=
    {"CONTINUOUS", "BATCH", "MAKE_TO_ORDER", "OUTSOURCING_MAQUILA", "SERVUCTION_FRONT_BACK", "OTHER"}
  const LayoutTypes: set<string> :=
    {"FUNCTIONAL", "PRODUCT_LINE", "CELLULAR", "FIXED_POSITION", "HYBRID", "WAREHOUSE"}
  const SoftwareUsages: set<string> :=
    {"ERP", "CRM", "ACCOUNTING", "INVENTORY", "PRODUCTION", "QUALITY", "MAINTENANCE", "PAYROLL", "BI", "OFFICE", "OTHER"}
  const MaterialCategories: set<string> := {"RAW_MATERIAL", "SUPPLY"}
  const MaterialOrigins: set<string> := {"NATIONAL", "IMPORTED", "LOCAL", "OWN_PRODUCTION", "OTHER"}
  const InventoryPolicies: set<string> :=
    {"NO_FORMAL", "MIN_MAX", "ABC", "JIT", "KANBAN", "FIFO", "LIFO", "FEFO", "CONSIGNMENT", "OTHER"}
  const InvestmentCategories: set<string> := {"EQUIPMENT", "TECH_DEVELOPMENT"}
  const InvestmentMotives: set<string> :=
    {"REPLACEMENT", "CAPACITY_EXPANSION", "MODERNIZATION_AUTOMATION", "QUALITY_COMPLIANCE", "NEW_PRODUCT",
     "ENERGY_EFFICIENCY", "DIGITALIZATION", "R_AND_D", "CERTIFICATION", "OTHER"}
  const FundingSources: set<string> :=
    {"OWN_FUNDS", "BANK_CREDIT", "SUPPLIER_CREDIT", "LEASING", "PUBLIC_GRANT", "COFINANCING", "VENTURE", "OTHER"}
  const InvestmentStatuses: seq<Choice> :=
    [Choice("PLANNED", "Planned"), Choice("APPROVED", "Approved"),
     Choice("IN_PROGRESS", "In progress"), Choice("EXECUTED", "Executed")]
  const EducationLevels: set<string> :=
    {"BASICA", "MEDIA", "TECNICO", "TECNOLOGO", "PROFESIONAL", "ESPECIALIZACION", "MAESTRIA", "DOCTORADO"}
  const PurchaseOrigins: set<string> := {"NATIONAL", "IMPORTED", "DONATION", "LEASE", "IN_HOUSE", "OTHER"}

  /** The largest values of Django's positive integer columns. */
  const MaxPositiveSmall := 32767
  const MaxPositive := 2147483647

  /** The ten inventory tables that the CRUD views serve. */
  datatype Kind =
    | EquipmentKind | ServiceKind | MaintenanceKind | MethodKind | LayoutKind
    | SoftwareKind | MaterialKind | InvestmentKind | WorkforceKind | DisciplineKind

  /**
   * One inventory record.  `company` is the owning company of every table but
   * EquipmentMaintenance, which belongs to a company through its equipment.
   */
  datatype Record =
    | EquipmentRec(id: RecordId, company: CompanyId, name: string, category: string, quantity: int,
                   purchaseYear: Option<int>, purchaseOrigin: Option<string>, utilizationPct: Option<int>)
    | ServiceRec(id: RecordId, company: CompanyId, serviceType: string, providerName: string,
                 serviceLocation: Option<string>)
    | MaintenanceRec(id: RecordId, equipment: RecordId, maintenanceType: string, frequency: Option<string>,
                     lastDate: Option<int>)
    | MethodRec(id: RecordId, company: CompanyId, modality: string, shiftsCount: Option<int>)
    | LayoutRec(id: RecordId, company: CompanyId, layoutType: string)
    | SoftwareRec(id: RecordId, company: CompanyId, usage: string, name: string)
    | MaterialRec(id: RecordId, company: CompanyId, category: string, name: string, origin: Option<string>,
                  inventoryManagement: Option<string>, costSharePct: int)
    | InvestmentRec(id: RecordId, company: CompanyId, category: string, itemName: string, motive: string,
                    amountCop: int, fundingSource: string, investmentDate: Option<int>, investmentYear: Option<int>,
                    status: Option<string>, linkedEquipment: Option<RecordId>, equipmentCategory: Option<string>)
    // `avg_experience_years` is `decimal(4,1)`, so it is held in tenths (0 to 9999).
    | WorkforceRec(id: RecordId, company: CompanyId, area: string, peopleCount: int, educationLevel: string,
                   avgExperienceYears: Option<int>)
    | DisciplineRec(id: RecordId, company: CompanyId, item: string, importanceScore: int, adoptionLevel: int)

  datatype EnergySource = EnergySource(id: RecordId, code: string, name: string, isActive: bool)

  /** A row of the EquipmentEnergy bridge of the equipment's `energy_sources`. */
  datatype EquipmentEnergy = EquipmentEnergy(id: RecordId, equipment: RecordId, energySource: RecordId)

  datatype InventoryStore = InventoryStore(sources: seq<EnergySource>, links: seq<EquipmentEnergy>, records: seq<Record>)

  function KindOf(r: Record): (k: Kind)
    ensures k == EquipmentKind <==> r.EquipmentRec?
    ensures k == MaintenanceKind <==> r.MaintenanceRec?
    ensures k == InvestmentKind <==> r.InvestmentRec?
  {
    match r
    case EquipmentRec(_, _, _, _, _, _, _, _) => EquipmentKind
    case ServiceRec(_, _, _, _, _) => ServiceKind
    case MaintenanceRec(_, _, _, _, _) => MaintenanceKind
    case MethodRec(_, _, _, _) => MethodKind
    case LayoutRec(_, _, _) => LayoutKind
    case SoftwareRec(_, _, _, _) => SoftwareKind
    case MaterialRec(_, _, _, _, _, _, _) => MaterialKind
    case InvestmentRec(_, _, _, _, _, _, _, _, _, _, _, _) => InvestmentKind
    case WorkforceRec(_, _, _, _, _, _) => WorkforceKind
    case DisciplineRec(_, _, _, _, _) => DisciplineKind
  }

  /** Equipment as the form's defaults leave it: quantity 1, every optional column empty. */
  function NewEquipment(id: RecordId, company: CompanyId, name: string, category: string): (e: Record)
    ensures e.EquipmentRec? && e.quantity == 1
    ensures e.purchaseYear == None && e.purchaseOrigin == None && e.utilizationPct == None
    ensures e.id == id && e.company == company && e.name == name && e.category == category
  {
    EquipmentRec(id, company, name, category, 1, None, None, None)
  }

  // ---- field validators (what `full_clean` checks column by column) -------

  predicate Between(x: int, lo: int, hi: int)
  {
    lo <= x <= hi
  }

  /** A nullable integer column: NULL, or a value in the range. */
  predicate OptBetween(x: Option<int>, lo: int, hi: int)
  {
    x.None? || lo <= x.value <= hi
  }

  /** A nullable column with choices: NULL, or one of them. */
  predicate OptChoice(x: Option<string>, values: set<string>)
  {
    x.None? || x.value in values
  }

  /**
   * The validators of every column: `choices`, non-blank required text,
   * Min/MaxValueValidator, the range of the positive integer columns and the
   * digits of the decimal columns.
   */
  predicate FieldsValid(r: Record)
  {
    match r
    case EquipmentRec(_, _, name, category, quantity, purchaseYear, purchaseOrigin, utilizationPct) =>
      && name != "" && category in Values(EquipmentCategories)
      && Between(quantity, 0, MaxPositive)
      && OptBetween(purchaseYear, 1950, 3000)
      && OptChoice(purchaseOrigin, PurchaseOrigins)
      && OptBetween(utilizationPct, 0, 10000)
    case ServiceRec(_, _, serviceType, providerName, serviceLocation) =>
      serviceType in ServiceTypes && providerName != "" && OptChoice(serviceLocation, Values(ServiceLocations))
    case MaintenanceRec(_, _, maintenanceType, frequency, _) =>
      maintenanceType in MaintenanceTypes && OptChoice(frequency, MaintenanceFrequencies)
    case MethodRec(_, _, modality, shiftsCount) =>
      modality in WorkModalities && OptBetween(shiftsCount, 0, MaxPositiveSmall)
    case LayoutRec(_, _, layoutType) =>
      layoutType in LayoutTypes
    case SoftwareRec(_, _, usage, name) =>
      usage in SoftwareUsages && name != ""
    case MaterialRec(_, _, category, name, origin, inventoryManagement, costSharePct) =>
      && category in MaterialCategories && name != ""
      && OptChoice(origin, MaterialOrigins) && OptChoice(inventoryManagement, InventoryPolicies)
      && Between(costSharePct, 0, 10000)
    case InvestmentRec(_, _, category, itemName, motive, amountCop, fundingSource, _, investmentYear,
                       status, _, equipmentCategory) =>
      && category in InvestmentCategories && itemName != "" && motive in InvestmentMotives
      && Between(amountCop, 0, 99_999_999_999_999)
      && fundingSource in FundingSources
      && OptBetween(investmentYear, 1950, 3000)
      && OptChoice(status, Values(InvestmentStatuses))
      && OptChoice(equipmentCategory, Values(EquipmentCategories))
    case WorkforceRec(_, _, area, peopleCount, educationLevel, avgExperienceYears) =>
      && area != "" && Between(peopleCount, 0, MaxPositive) && educationLevel in EducationLevels
      && OptBetween(avgExperienceYears, 0, 9999)
    case DisciplineRec(_, _, item, importanceScore, adoptionLevel) =>
      item != "" && Between(importanceScore, 1, 5) && Between(adoptionLevel, 0, 4)
  }

  /** The CHECK constraints the database puts on positive integer columns. */
  predicate PositiveColumns(r: Record)
  {
    match r
    case EquipmentRec(_, _, _, _, quantity, purchaseYear, _, _) => quantity >= 0 && OptBetween(purchaseYear, 0, MaxPositiveSmall)
    case MethodRec(_, _, _, shiftsCount) => OptBetween(shiftsCount, 0, MaxPositiveSmall)
    case InvestmentRec(_, _, _, _, _, _, _, _, investmentYear, _, _, _) => OptBetween(investmentYear, 0, MaxPositiveSmall)
    case WorkforceRec(_, _, _, peopleCount, _, _) => peopleCount >= 0
    case DisciplineRec(_, _, _, importanceScore, adoptionLevel) => importanceScore >= 0 && adoptionLevel >= 0
    case _ => true
  }

  /** A record that passes its validators also passes the database's checks. */
  lemma FieldsValidArePositive(r: Record)
    requires FieldsValid(r)
    ensures PositiveColumns(r)
  {
  }

  /** Equipment with the defaults, a name and a listed category passes every validator. */
  lemma NewEquipmentValid(id: RecordId, company: CompanyId, name: string, category: string)
    requires name != "" && category in Values(EquipmentCategories)
    ensures FieldsValid(NewEquipment(id, company, name, category))
  {
  }

  // ---- keys and constraints ----------------------------------------------

  /** Each table has its own primary keys. */
  function RecordKey(r: Record): (Kind, RecordId)
  {
    (KindOf(r), r.id)
  }

  /**
   * The `unique_together` of the table, where it has one: (company, name) for
   * SoftwareAsset and Material, (company, area) for WorkforceProfile.
   */
  predicate HasUniqueKey(r: Record)
  {
    r.SoftwareRec? || r.MaterialRec? || r.WorkforceRec?
  }

  function UniqueKey(r: Record): (Kind, CompanyId, string)
    requires HasUniqueKey(r)
  {
    match r
    case SoftwareRec(_, company, _, name) => (SoftwareKind, company, name)
    case MaterialRec(_, company, _, name, _, _, _) => (MaterialKind, company, name)
    case WorkforceRec(_, company, area, _, _, _) => (WorkforceKind, company, area)
  }

  /** The key of `unique_together` of a record, or the record itself when its table has none. */
  function UniqueKeyOf(r: Record): Option<(Kind, CompanyId, string)>
  {
    if HasUniqueKey(r) then Some(UniqueKey(r)) else None
  }

  /**
   * `validate_unique`: another record of the same table, other than `r` itself,
   * already holds the unique key `r` would take.
   */
  predicate UniqueKeyTaken(rs: seq<Record>, r: Record)
  {
    HasUniqueKey(r) && exists x :: x in rs && HasUniqueKey(x) && RecordKey(x) != RecordKey(r) && UniqueKey(x) == UniqueKey(r)
  }

  function EquipmentIds(rs: seq<Record>): set<RecordId>
  {
    set r | r in rs && r.EquipmentRec? :: r.id
  }

  function SourceIds(ss: seq<EnergySource>): set<RecordId>
  {
    set s | s in ss :: s.id
  }

  function SourceCode(s: EnergySource): string
  {
    s.code
  }

  function SourceId(s: EnergySource): RecordId
  {
    s.id
  }

  function LinkId(l: EquipmentEnergy): RecordId
  {
    l.id
  }

  /** The `uq_equipment_energy_source` constraint's columns. */
  function LinkPair(l: EquipmentEnergy): (RecordId, RecordId)
  {
    (l.equipment, l.energySource)
  }

  /** The owner of `r` as its table stores it. */
  predicate Owned(r: Record, companies: set<CompanyId>)
  {
    r.MaintenanceRec? || r.company in companies
  }

  /** Every foreign key of `r` refers to an existing row. */
  predicate References(r: Record, companies: set<CompanyId>, equipment: set<RecordId>)
  {
    && Owned(r, companies)
    && (r.MaintenanceRec? ==> r.equipment in equipment)
    && (r.InvestmentRec? && r.linkedEquipment.Some? ==> r.linkedEquipment.value in equipment)
  }

  /**
   * The constraints the database enforces: primary keys, `unique=True` on the
   * energy code, the unique constraints of the tables, foreign keys and the
   * positive integer checks.  `companies` are the ids of the Company table.
   */
  predicate ValidInventory(st: InventoryStore, companies: set<CompanyId>)
  {
    && DistinctBy(st.records, RecordKey)
    && DistinctWhere(st.records, HasUniqueKey, UniqueKeyOf)
    && DistinctBy(st.sources, SourceId) && DistinctBy(st.sources, SourceCode)
    && DistinctBy(st.links, LinkId) && DistinctBy(st.links, LinkPair)
    && (forall r :: r in st.records ==> References(r, companies, EquipmentIds(st.records)) && PositiveColumns(r))
    && (forall l :: l in st.links ==> l.equipment in EquipmentIds(st.records) && l.energySource in SourceIds(st.sources))
  }

  /** `Model.objects.get(pk=id)` on the table `kind`. */
  function FindRecord(rs: seq<Record>, kind: Kind, id: RecordId): (r: Option<Record>)
    ensures r.Some? ==> r.value in rs && KindOf(r.value) == kind && r.value.id == id
    ensures r.None? <==> !exists x :: x in rs && KindOf(x) == kind && x.id == id
  {
    if rs == [] then None
    else if KindOf(rs[0]) == kind && rs[0].id == id then Some(rs[0])
    else
      var r := FindRecord(rs[1..], kind, id);
      assert forall x :: x in rs[1..] ==> x in rs;
      assert forall x :: x in rs && x != rs[0] ==> x in rs[1..];
      r
  }

  /** Under unique keys the lookup finds every record by its key. */
  lemma {:induction false} FindRecordUnique(rs: seq<Record>, r: Record)
    requires DistinctBy(rs, RecordKey)
    requires r in rs
    ensures FindRecord(rs, KindOf(r), r.id) == Some(r)
  {
    if rs[0] != r {
      var tail := rs[1..];
      assert DistinctBy(tail, RecordKey) by {
        forall i, j | 0 <= i < j < |tail| ensures RecordKey(tail[i]) != RecordKey(tail[j]) {
          assert tail[i] == rs[i + 1] && tail[j] == rs[j + 1];
        }
      }
      var k :| 0 <= k < |rs| && rs[k] == r;
      assert RecordKey(rs[0]) != RecordKey(rs[k]);
      FindRecordUnique(tail, r);
    }
  }

  /**
   * The company a record belongs to: its own `company`, or for a maintenance
   * record its equipment's (`obj.equipment.company`); None when the equipment
   * is missing.
   */
  function CompanyOf(rs: seq<Record>, r: Record): (c: Option<CompanyId>)
    ensures !r.MaintenanceRec? ==> c == Some(r.company)
    ensures r.MaintenanceRec? ==> (c.Some? <==> FindRecord(rs, EquipmentKind, r.equipment).Some?)
  {
    if r.MaintenanceRec? then
      match FindRecord(rs, EquipmentKind, r.equipment)
      case None => None
      case Some(e) => Some(e.company)
    else Some(r.company)
  }

  // ---- deletions -----------------------------------------------------------

  /** An investment that pointed at deleted equipment keeps no equipment (`on_delete=SET_NULL`). */
  function Unlink(r: Record, gone: set<RecordId>): (u: Record)
    ensures KindOf(u) == KindOf(r) && u.id == r.id && UniqueKeyOf(u) == UniqueKeyOf(r)
    ensures !r.InvestmentRec? ==> u == r
    ensures r.InvestmentRec? ==> u == r.(linkedEquipment := if r.linkedEquipment.Some? && r.linkedEquipment.value in gone then None else r.linkedEquipment)
  {
    if r.InvestmentRec? && r.linkedEquipment.Some? && r.linkedEquipment.value in gone then r.(linkedEquipment := None) else r
  }

  function UnlinkAll(rs: seq<Record>, gone: set<RecordId>): (us: seq<Record>)
    ensures |us| == |rs|
    ensures forall i :: 0 <= i < |rs| ==> us[i] == Unlink(rs[i], gone)
  {
    if rs == [] then [] else [Unlink(rs[0], gone)] + UnlinkAll(rs[1..], gone)
  }

  /** What a deletion of the equipment in `gone` leaves of a table: no maintenance of it. */
  predicate SurvivesEquipment(r: Record, gone: set<RecordId>)
  {
    !(r.EquipmentRec? && r.id in gone) && !(r.MaintenanceRec? && r.equipment in gone)
  }

  /**
   * Deleting the equipment in `gone`: their maintenances and energy links are
   * deleted (CASCADE) and investments that pointed at them keep no equipment
   * (SET_NULL).  `drop` says which other records go in the same deletion.
   */
  function DeleteWithEquipment(st: InventoryStore, drop: Record -> bool, gone: set<RecordId>): (r: InventoryStore)
    ensures r.sources == st.sources
    ensures forall l :: l in r.links <==> l in st.links && l.equipment !in gone
    ensures gone == {} ==> r.links == st.links
  {
    var kept := Keep(st.records, (x: Record) => !drop(x) && SurvivesEquipment(x, gone));
    if gone == {} then KeepAll(st.links, (l: EquipmentEnergy) => l.equipment !in gone); InventoryStore(st.sources, st.links, UnlinkAll(kept, gone)) else
    InventoryStore(st.sources, Keep(st.links, (l: EquipmentEnergy) => l.equipment !in gone), UnlinkAll(kept, gone))
  }

  /** `obj.delete()` on the record with key (`kind`, `id`), with the cascades of equipment. */
  function DeleteRecord(st: InventoryStore, kind: Kind, id: RecordId): (r: InventoryStore)
  {
    if kind == EquipmentKind then DeleteWithEquipment(st, (x: Record) => false, {id})
    else DeleteWithEquipment(st, (x: Record) => KindOf(x) == kind && x.id == id, {})
  }

  /** The rows a deletion keeps, up to the investments it unlinks. */
  lemma DeleteWithEquipmentMembers(st: InventoryStore, drop: Record -> bool, gone: set<RecordId>, x: Record)
    ensures x in DeleteWithEquipment(st, drop, gone).records <==>
      exists y :: y in st.records && !drop(y) && SurvivesEquipment(y, gone) && x == Unlink(y, gone)
  {
    var p := (x: Record) => !drop(x) && SurvivesEquipment(x, gone);
    var kept := Keep(st.records, p);
    assert DeleteWithEquipment(st, drop, gone).records == UnlinkAll(kept, gone);
    UnlinkAllMembers(kept, gone, x);
    if exists y :: y in st.records && !drop(y) && SurvivesEquipment(y, gone) && x == Unlink(y, gone) {
      var y :| y in st.records && !drop(y) && SurvivesEquipment(y, gone) && x == Unlink(y, gone);
      KeepMember(st.records, p, y);
    }
  }

  /** The records that `UnlinkAll` yields are the unlinked records of the table. */
  lemma UnlinkAllMembers(rs: seq<Record>, gone: set<RecordId>, x: Record)
    ensures x in UnlinkAll(rs, gone) <==> exists y :: y in rs && x == Unlink(y, gone)
  {
    var us := UnlinkAll(rs, gone);
    if x in us {
      var i :| 0 <= i < |us| && us[i] == x;
      assert rs[i] in rs;
    }
    if exists y :: y in rs && x == Unlink(y, gone) {
      var y :| y in rs && x == Unlink(y, gone);
      var i :| 0 <= i < |rs| && rs[i] == y;
      assert us[i] == x;
    }
  }

  /** An element that satisfies the filter is kept. */
  lemma KeepMember(s: seq<Record>, p: Record -> bool, y: Record)
    requires y in s && p(y)
    ensures y in Keep(s, p)
  {
    var i :| 0 <= i < |s| && s[i] == y;
  }

  /**
   * Deleting an equipment deletes exactly it and its maintenances, keeps every
   * other record, and keeps every investment with any link to it cleared
   * (SET_NULL): the investments after the deletion are exactly the old ones unlinked.
   */
  lemma DeleteEquipmentEffect(st: InventoryStore, id: RecordId)
    ensures forall x: Record :: !x.InvestmentRec? ==>
      (x in DeleteRecord(st, EquipmentKind, id).records <==> x in st.records && SurvivesEquipment(x, {id}))
    ensures forall x :: x in DeleteRecord(st, EquipmentKind, id).records && x.InvestmentRec? ==> x.linkedEquipment != Some(id)
    ensures forall y :: y in st.records && y.InvestmentRec? ==> Unlink(y, {id}) in DeleteRecord(st, EquipmentKind, id).records
    ensures forall x :: x in DeleteRecord(st, EquipmentKind, id).records && x.InvestmentRec? ==>
      exists y :: y in st.records && y.InvestmentRec? && x == Unlink(y, {id})
    ensures forall l :: l in DeleteRecord(st, EquipmentKind, id).links <==> l in st.links && l.equipment != id
  {
    var drop := (x: Record) => false;
    forall x ensures x in DeleteRecord(st, EquipmentKind, id).records <==>
      exists y :: y in st.records && !drop(y) && SurvivesEquipment(y, {id}) && x == Unlink(y, {id}) {
      DeleteWithEquipmentMembers(st, drop, {id}, x);
    }
  }

  /** Deleting a record of another table deletes exactly the records with its key. */
  lemma DeleteOtherEffect(st: InventoryStore, kind: Kind, id: RecordId)
    requires kind != EquipmentKind
    ensures forall x :: x in DeleteRecord(st, kind, id).records <==> x in st.records && RecordKey(x) != (kind, id)
    ensures DeleteRecord(st, kind, id).links == st.links
  {
    var drop := (x: Record) => KindOf(x) == kind && x.id == id;
    forall x ensures x in DeleteRecord(st, kind, id).records <==> x in st.records && RecordKey(x) != (kind, id) {
      DeleteWithEquipmentMembers(st, drop, {}, x);
      assert forall y :: Unlink(y, {}) == y;
    }
  }

  /** A filter that keeps every element is the identity. */
  lemma {:induction false} KeepAll<T>(s: seq<T>, p: T -> bool)
    requires forall x :: x in s ==> p(x)
    ensures Keep(s, p) == s
  {
    if s != [] {
      KeepAll(s[1..], p);
    }
  }

  /**
   * Deleting a company deletes every inventory record it owns (CASCADE), and
   * through its equipment their maintenances and energy links; an investment of
   * another company that pointed at its equipment keeps no equipment.
   */
  function DeleteCompanyInventory(st: InventoryStore, company: CompanyId): (r: InventoryStore)
  {
    var gone := set e | e in st.records && e.EquipmentRec? && e.company == company :: e.id;
    DeleteWithEquipment(st, (x: Record) => !x.MaintenanceRec? && x.company == company, gone)
  }

  /** The records a deletion keeps have distinct keys, in both senses of the tables' constraints. */
  lemma DeleteWithEquipmentKeys(st: InventoryStore, drop: Record -> bool, gone: set<RecordId>)
    requires DistinctBy(st.records, RecordKey) && DistinctWhere(st.records, HasUniqueKey, UniqueKeyOf)
    ensures DistinctBy(DeleteWithEquipment(st, drop, gone).records, RecordKey)
    ensures DistinctWhere(DeleteWithEquipment(st, drop, gone).records, HasUniqueKey, UniqueKeyOf)
  {
    var p := (x: Record) => !drop(x) && SurvivesEquipment(x, gone);
    var kept := Keep(st.records, p);
    KeepDistinctBy(st.records, p, RecordKey);
    KeepDistinctWhere(st.records, p, HasUniqueKey, UniqueKeyOf);
    var us := DeleteWithEquipment(st, drop, gone).records;
    assert us == UnlinkAll(kept, gone);
    forall i, j | 0 <= i < j < |us| ensures RecordKey(us[i]) != RecordKey(us[j]) {
      assert RecordKey(us[i]) == RecordKey(kept[i]) && RecordKey(us[j]) == RecordKey(kept[j]);
    }
    forall i, j | 0 <= i < j < |us| && HasUniqueKey(us[i]) && HasUniqueKey(us[j])
      ensures UniqueKeyOf(us[i]) != UniqueKeyOf(us[j])
    {
      assert UniqueKeyOf(us[i]) == UniqueKeyOf(kept[i]) && UniqueKeyOf(us[j]) == UniqueKeyOf(kept[j]);
    }
  }

  /** Equipment that a deletion neither drops nor lists in `gone` stays. */
  lemma DeleteWithEquipmentKeepsEquipment(st: InventoryStore, drop: Record -> bool, gone: set<RecordId>)
    requires forall x :: x in st.records && x.EquipmentRec? && drop(x) ==> x.id in gone
    ensures EquipmentIds(st.records) - gone <= EquipmentIds(DeleteWithEquipment(st, drop, gone).records)
  {
    forall e | e in EquipmentIds(st.records) - gone ensures e in EquipmentIds(DeleteWithEquipment(st, drop, gone).records) {
      var y :| y in st.records && y.EquipmentRec? && y.id == e;
      DeleteWithEquipmentMembers(st, drop, gone, y);
    }
  }

  /** A deletion keeps the constraints of the tables. */
  lemma DeleteWithEquipmentValid(st: InventoryStore, companies: set<CompanyId>, drop: Record -> bool,
                                 gone: set<RecordId>, owners: set<CompanyId>)
    requires ValidInventory(st, companies)
    requires forall x :: x in st.records && !Owned(x, companies - owners) ==> drop(x)
    requires forall x :: x in st.records && x.EquipmentRec? && drop(x) ==> x.id in gone
    ensures ValidInventory(DeleteWithEquipment(st, drop, gone), companies - owners)
  {
    var r := DeleteWithEquipment(st, drop, gone);
    DeleteWithEquipmentKeys(st, drop, gone);
    var q := (l: EquipmentEnergy) => l.equipment !in gone;
    KeepDistinctBy(st.links, q, LinkId);
    KeepDistinctBy(st.links, q, LinkPair);
    assert DistinctBy(r.links, LinkId) && DistinctBy(r.links, LinkPair);
    DeleteWithEquipmentKeepsEquipment(st, drop, gone);
    var eq := EquipmentIds(st.records);
    var eq' := EquipmentIds(r.records);
    forall x | x in r.records ensures References(x, companies - owners, eq') && PositiveColumns(x) {
      DeleteWithEquipmentMembers(st, drop, gone, x);
      var y :| y in st.records && !drop(y) && SurvivesEquipment(y, gone) && x == Unlink(y, gone);
      assert References(y, companies, eq);
    }
    forall l | l in r.links ensures l.equipment in eq' && l.energySource in SourceIds(r.sources) {
    }
  }

  /** The delete view keeps the constraints of the tables. */
  lemma DeleteRecordValid(st: InventoryStore, companies: set<CompanyId>, kind: Kind, id: RecordId)
    requires ValidInventory(st, companies)
    ensures ValidInventory(DeleteRecord(st, kind, id), companies)
  {
    if kind == EquipmentKind {
      DeleteWithEquipmentValid(st, companies, (x: Record) => false, {id}, {});
    } else {
      DeleteWithEquipmentValid(st, companies, (x: Record) => KindOf(x) == kind && x.id == id, {}, {});
    }
  }

  /** After a company's deletion no inventory record refers to it or to its equipment. */
  lemma DeleteCompanyInventoryValid(st: InventoryStore, companies: set<CompanyId>, company: CompanyId)
    requires ValidInventory(st, companies)
    ensures ValidInventory(DeleteCompanyInventory(st, company), companies - {company})
  {
    var gone := set e | e in st.records && e.EquipmentRec? && e.company == company :: e.id;
    DeleteWithEquipmentValid(st, companies, (x: Record) => !x.MaintenanceRec? && x.company == company, gone, {company});
  }

  /** Deleting an energy source deletes its equipment links (CASCADE). */
  function DeleteEnergySource(st: InventoryStore, id: RecordId): (r: InventoryStore)
    ensures r.records == st.records
    ensures forall s :: s in r.sources <==> s in st.sources && s.id != id
    ensures forall l :: l in r.links <==> l in st.links && l.energySource != id
  {
    InventoryStore(Keep(st.sources, (s: EnergySource) => s.id != id),
                   Keep(st.links, (l: EquipmentEnergy) => l.energySource != id),
                   st.records)
  }

  lemma DeleteEnergySourceValid(st: InventoryStore, companies: set<CompanyId>, id: RecordId)
    requires ValidInventory(st, companies)
    ensures ValidInventory(DeleteEnergySource(st, id), companies)
  {
    var ps := (s: EnergySource) => s.id != id;
    var pl := (l: EquipmentEnergy) => l.energySource != id;
    KeepDistinctBy(st.sources, ps, SourceId);
    KeepDistinctBy(st.sources, ps, SourceCode);
    KeepDistinctBy(st.links, pl, LinkId);
    KeepDistinctBy(st.links, pl, LinkPair);
    var r := DeleteEnergySource(st, id);
    forall l | l in r.links ensures l.energySource in SourceIds(r.sources) {
      var s :| s in st.sources && s.id == l.energySource;
      assert s in r.sources;
    }
  }

  // ---- saving ----------------------------------------------------------------

  /**
   * The update in place of `obj.save()` on an existing row: the records keep their
   * places and keys, the one with the key of `r` takes its values, and every other
   * record is left as it was.
   */
  function ReplaceRecord(rs: seq<Record>, r: Record): (t: seq<Record>)
    ensures |t| == |rs|
    ensures forall i :: 0 <= i < |rs| ==> RecordKey(t[i]) == RecordKey(rs[i])
    ensures forall i :: 0 <= i < |rs| && RecordKey(rs[i]) == RecordKey(r) ==> t[i] == r
    ensures forall i :: 0 <= i < |rs| && RecordKey(rs[i]) != RecordKey(r) ==> t[i] == rs[i]
    ensures (exists x :: x in rs && RecordKey(x) == RecordKey(r)) ==> r in t
  {
    seq(|rs|, i requires 0 <= i < |rs| => if RecordKey(rs[i]) == RecordKey(r) then r else rs[i])
  }

  /** `obj.save()`: the record with the key of `r` takes its values, or `r` is inserted. */
  function SaveRecord(rs: seq<Record>, r: Record): (t: seq<Record>)
    ensures forall x :: x in t <==> x == r || (x in rs && RecordKey(x) != RecordKey(r))
  {
    if exists x :: x in rs && RecordKey(x) == RecordKey(r) then
      var t := ReplaceRecord(rs, r);
      assert forall x :: x in t <==> x == r || (x in rs && RecordKey(x) != RecordKey(r)) by {
        forall x ensures x in t <==> x == r || (x in rs && RecordKey(x) != RecordKey(r)) {
          if x == r {
            var y :| y in rs && RecordKey(y) == RecordKey(r);
            var i :| 0 <= i < |rs| && rs[i] == y;
            assert t[i] == r;
          }
          if x in rs && RecordKey(x) != RecordKey(r) {
            var i :| 0 <= i < |rs| && rs[i] == x;
            assert t[i] == x;
          }
        }
      }
      t
    else
      rs + [r]
  }

  /** Replacing a record in place keeps the primary keys distinct. */
  lemma ReplaceRecordKeys(rs: seq<Record>, r: Record)
    requires DistinctBy(rs, RecordKey)
    ensures DistinctBy(ReplaceRecord(rs, r), RecordKey)
  {
    var t := ReplaceRecord(rs, r);
    forall i, j | 0 <= i < j < |t| ensures RecordKey(t[i]) != RecordKey(t[j]) {
      assert RecordKey(t[i]) == RecordKey(rs[i]) && RecordKey(t[j]) == RecordKey(rs[j]);
    }
  }

  /** Replacing a record in place by one that passes `validate_unique` keeps the unique constraints. */
  lemma ReplaceRecordUnique(rs: seq<Record>, r: Record)
    requires DistinctBy(rs, RecordKey) && DistinctWhere(rs, HasUniqueKey, UniqueKeyOf)
    requires !UniqueKeyTaken(rs, r)
    ensures DistinctWhere(ReplaceRecord(rs, r), HasUniqueKey, UniqueKeyOf)
  {
    var t := ReplaceRecord(rs, r);
    forall i, j | 0 <= i < j < |t| && HasUniqueKey(t[i]) && HasUniqueKey(t[j])
      ensures UniqueKeyOf(t[i]) != UniqueKeyOf(t[j])
    {
      assert RecordKey(rs[i]) != RecordKey(rs[j]);
      if RecordKey(rs[i]) == RecordKey(r) {
        assert rs[j] in rs && t[j] == rs[j];
      } else if RecordKey(rs[j]) == RecordKey(r) && RecordKey(rs[i]) != RecordKey(r) {
        assert rs[i] in rs && t[i] == rs[i];
      } else if RecordKey(rs[i]) != RecordKey(r) && RecordKey(rs[j]) != RecordKey(r) {
        assert t[i] == rs[i] && t[j] == rs[j];
      }
    }
  }

  /** Appending a record with a new key that passes `validate_unique` keeps both kinds of keys distinct. */
  lemma AppendRecordKeys(rs: seq<Record>, r: Record)
    requires DistinctBy(rs, RecordKey) && DistinctWhere(rs, HasUniqueKey, UniqueKeyOf)
    requires forall x :: x in rs ==> RecordKey(x) != RecordKey(r)
    requires !UniqueKeyTaken(rs, r)
    ensures DistinctBy(rs + [r], RecordKey) && DistinctWhere(rs + [r], HasUniqueKey, UniqueKeyOf)
  {
    var t := rs + [r];
    forall i, j | 0 <= i < j < |t| ensures RecordKey(t[i]) != RecordKey(t[j]) {
      if j == |rs| {
        assert rs[i] in rs;
      }
    }
    forall i, j | 0 <= i < j < |t| && HasUniqueKey(t[i]) && HasUniqueKey(t[j])
      ensures UniqueKeyOf(t[i]) != UniqueKeyOf(t[j])
    {
      if j == |rs| {
        assert rs[i] in rs;
      }
    }
  }

  /**
   * Saving a record that passes `validate_unique` and refers to existing rows
   * keeps the constraints of the tables.
   */
  lemma SaveRecordValid(st: InventoryStore, companies: set<CompanyId>, r: Record)
    requires ValidInventory(st, companies)
    requires References(r, companies, EquipmentIds(st.records)) && PositiveColumns(r)
    requires !UniqueKeyTaken(st.records, r)
    ensures ValidInventory(st.(records := SaveRecord(st.records, r)), companies)
  {
    var t := SaveRecord(st.records, r);
    SaveRecordKeys(st.records, r);
    SaveRecordEquipment(st.records, r);
    forall x | x in t ensures References(x, companies, EquipmentIds(t)) && PositiveColumns(x) {
    }
  }

  /** Saving a record that passes `validate_unique` keeps both kinds of keys distinct. */
  lemma SaveRecordKeys(rs: seq<Record>, r: Record)
    requires DistinctBy(rs, RecordKey) && DistinctWhere(rs, HasUniqueKey, UniqueKeyOf)
    requires !UniqueKeyTaken(rs, r)
    ensures DistinctBy(SaveRecord(rs, r), RecordKey) && DistinctWhere(SaveRecord(rs, r), HasUniqueKey, UniqueKeyOf)
  {
    if exists x :: x in rs && RecordKey(x) == RecordKey(r) {
      ReplaceRecordKeys(rs, r);
      ReplaceRecordUnique(rs, r);
    } else {
      AppendRecordKeys(rs, r);
    }
  }

  /** Saving a record loses no equipment id. */
  lemma SaveRecordEquipment(rs: seq<Record>, r: Record)
    ensures EquipmentIds(rs) <= EquipmentIds(SaveRecord(rs, r))
  {
    var t := SaveRecord(rs, r);
    forall e | e in EquipmentIds(rs) ensures e in EquipmentIds(t) {
      var y :| y in rs && y.EquipmentRec? && y.id == e;
      if RecordKey(y) == RecordKey(r) {
        assert r in t && r.EquipmentRec?;
      } else {
        assert y in t;
      }
    }
  }
}
