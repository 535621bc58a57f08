/**
 * apps/inventory/forms.py: what the `__init__` of the inventory model forms
 * changes in `self.fields`, the `clean_last_date` check, and the checks of
 * `is_valid` that the views depend on.  A form's fields start as Django's
 * ModelForm builds them from the model: a column with `blank=True` is not
 * required, a column with choices gets the blank choice "---------" first,
 * a foreign key is a choice of the rows of its queryset.
 */
module InventoryForms {
  import opened Wrappers
  import opened Seqs
  import opened PyStr
  import opened Ordering
  import opened CoreModels
  import opened InventoryModels

  const EmptyLabel: string := "---------"
  const BlankChoice: Choice := Choice("", EmptyLabel)

  /**
   * The attributes of a form field the initialisations touch: `required`,
   * an integer `initial`, `choices`, and for the equipment choice its
   * `queryset` and `empty_label`.
   */
  datatype FormField = FormField(
    required: bool,
    initial: Option<int>,
    choices: seq<Choice>,
    queryset: seq<Record>,
    emptyLabel: Option<string>)

  function PlainField(required: bool, initial: Option<int>): FormField
  {
    FormField(required, initial, [], [], None)
  }

  // ---- the equipment choice ------------------------------------------------

  function EquipmentName(r: Record): string
  {
    if r.EquipmentRec? then r.name else ""
  }

  /** `order_by("name")` on equipment. */
  predicate ByName(a: Record, b: Record)
  {
    KeysLe(NameKey(a), NameKey(b))
  }

  function NameKey(r: Record): seq<Cell>
  {
    [Text(Some(EquipmentName(r)))]
  }

  /** Equipment's Meta.ordering `("name", "id")`. */
  predicate ByNameThenId(a: Record, b: Record)
  {
    KeysLe(NameIdKey(a), NameIdKey(b))
  }

  function NameIdKey(r: Record): seq<Cell>
  {
    [Text(Some(EquipmentName(r))), Asc(Some(r.id))]
  }

  predicate OfCompany(r: Record, company: CompanyId)
  {
    r.EquipmentRec? && r.company == company
  }

  /** `Equipment.objects.filter(company=company).order_by("name")`. */
  function CompanyEquipment(rs: seq<Record>, company: CompanyId): (qs: seq<Record>)
    ensures multiset(qs) == multiset(Keep(rs, (r: Record) => OfCompany(r, company)))
    ensures SortedBy(qs, ByName)
  {
    KeyOrderIsPreorder(ByName, NameKey);
    SortBy(Keep(rs, (r: Record) => OfCompany(r, company)), ByName)
  }

  /** `Equipment.objects.all()` in its default ordering. */
  function AllEquipment(rs: seq<Record>): (qs: seq<Record>)
    ensures multiset(qs) == multiset(Keep(rs, (r: Record) => r.EquipmentRec?))
    ensures SortedBy(qs, ByNameThenId)
  {
    KeyOrderIsPreorder(ByNameThenId, NameIdKey);
    SortBy(Keep(rs, (r: Record) => r.EquipmentRec?), ByNameThenId)
  }

  lemma CompanyEquipmentMembers(rs: seq<Record>, company: CompanyId, r: Record)
    ensures r in CompanyEquipment(rs, company) <==> r in rs && OfCompany(r, company)
  {
    KeepCount(rs, (x: Record) => OfCompany(x, company), r);
    assert r in CompanyEquipment(rs, company) <==> r in multiset(CompanyEquipment(rs, company));
    assert r in rs <==> r in multiset(rs);
  }

  /** `get_FOO_display()`: the text of a stored value, or the value when it is not a listed choice. */
  function Display(cs: seq<Choice>, v: string): (d: string)
    ensures (forall c :: c in cs ==> c.value != v) ==> d == v
    ensures (exists c :: c in cs && c.value == v) ==> exists c :: c in cs && c.value == v && d == c.display
  {
    if cs == [] then v
    else if cs[0].value == v then cs[0].display
    else Display(cs[1..], v)
  }

  /** Equipment's `__str__`: the name and the category's display text. */
  function EquipmentLabel(r: Record): string
  {
    if r.EquipmentRec? then r.name + " (" + Display(EquipmentCategories, r.category) + ")" else ""
  }

  function EquipmentChoices(qs: seq<Record>): (cs: seq<Choice>)
    ensures |cs| == |qs|
    ensures forall i :: 0 <= i < |qs| ==> cs[i] == Choice(NatToStr(qs[i].id), EquipmentLabel(qs[i]))
  {
    if qs == [] then [] else [Choice(NatToStr(qs[0].id), EquipmentLabel(qs[0]))] + EquipmentChoices(qs[1..])
  }

  /** The choices of a ModelChoiceField: the empty label, when there is one, then one choice per row. */
  function ModelChoices(qs: seq<Record>, emptyLabel: Option<string>): (cs: seq<Choice>)
    ensures |cs| == |qs| + (if emptyLabel.Some? then 1 else 0)
    ensures emptyLabel.Some? ==> cs[0] == Choice("", emptyLabel.value)
  {
    (if emptyLabel.Some? then [Choice("", emptyLabel.value)] else []) + EquipmentChoices(qs)
  }

  /** The ModelChoiceField of a foreign key to Equipment. */
  function EquipmentField(required: bool, qs: seq<Record>): FormField
  {
    FormField(required, None, ModelChoices(qs, Some(EmptyLabel)), qs, Some(EmptyLabel))
  }

  /** Restricting the equipment choice to a queryset; its choices follow. */
  function WithQueryset(f: FormField, qs: seq<Record>): FormField
  {
    f.(queryset := qs, choices := ModelChoices(qs, f.emptyLabel))
  }

  // ---- the fields as the ModelForm builds them ---------------------------------

  /** EquipmentForm: `quantity` has the model default 1, `purchase_year` none. */
  function EquipmentBaseFields(): map<string, FormField>
  {
    map["quantity" := PlainField(true, Some(1)), "purchase_year" := PlainField(false, None)]
  }

  function TechnicalServiceBaseFields(): map<string, FormField>
  {
    map["service_type" := PlainField(true, None), "provider_name" := PlainField(true, None),
        "service_location" := FormField(false, None, [BlankChoice] + ServiceLocations, [], None)]
  }

  function MaintenanceBaseFields(rs: seq<Record>): map<string, FormField>
  {
    map["equipment" := EquipmentField(true, AllEquipment(rs)), "frequency" := PlainField(false, None)]
  }

  function InvestmentBaseFields(rs: seq<Record>): map<string, FormField>
  {
    map["status" := FormField(false, None, [BlankChoice] + InvestmentStatuses, [], None),
        "equipment" := EquipmentField(false, AllEquipment(rs)),
        "equipment_category" := FormField(false, None, [BlankChoice] + EquipmentCategories, [], None)]
  }

  // ---- what the initialisations compute ----------------------------------------

  /** Python's `initial or d` for an integer or None: 0 and None give `d`. */
  function OrDefault(initial: Option<int>, d: int): (r: int)
    ensures initial.Some? && initial.value != 0 ==> r == initial.value
    ensures initial.None? || initial.value == 0 ==> r == d
  {
    if initial.None? || initial.value == 0 then d else initial.value
  }

  /** The blank choice in front of the field's choices. */
  function PrependBlank(f: FormField): FormField
  {
    f.(choices := [BlankChoice] + f.choices)
  }

  /** The select names whose blank choice the investment form provides. */
  const OptionalSelects: seq<string> := ["status", "equipment", "equipment_category"]

  /** The investment form's loop over `names`: each optional field gets the blank choice in front. */
  function PrependBlankToOptional(fields: map<string, FormField>, names: seq<string>): (r: map<string, FormField>)
    ensures r.Keys == fields.Keys
  {
    if names == [] then fields
    else
      var before := PrependBlankToOptional(fields, names[..|names| - 1]);
      var name := names[|names| - 1];
      if name in before && !before[name].required then before[name := PrependBlank(before[name])] else before
  }

  /**
   * The loop over distinct names gives each listed optional field one more
   * blank choice and changes nothing else.
   */
  lemma {:induction false} PrependBlankToOptionalEffect(fields: map<string, FormField>, names: seq<string>, k: string)
    requires forall i, j :: 0 <= i < j < |names| ==> names[i] != names[j]
    requires k in fields
    ensures PrependBlankToOptional(fields, names)[k] ==
      if k in names && !fields[k].required then PrependBlank(fields[k]) else fields[k]
  {
    if names != [] {
      var init := names[..|names| - 1];
      assert forall i, j :: 0 <= i < j < |init| ==> init[i] != init[j];
      PrependBlankToOptionalEffect(fields, init, k);
      var before := PrependBlankToOptional(fields, init);
      if k == names[|names| - 1] {
        assert k !in init;
        assert before[k] == fields[k];
      } else {
        assert k in names <==> k in init;
      }
    }
  }

  /** EquipmentForm: `initial or 1` for the quantity, `initial or date.today().year` for the purchase year. */
  function EquipmentFields(fields: map<string, FormField>, currentYear: int): (r: map<string, FormField>)
    requires "quantity" in fields && "purchase_year" in fields
  {
    fields
      ["quantity" := fields["quantity"].(initial := Some(OrDefault(fields["quantity"].initial, 1)))]
      ["purchase_year" := fields["purchase_year"].(initial := Some(OrDefault(fields["purchase_year"].initial, currentYear)))]
  }

  /** Setting `empty_label`: the choices, which the ModelChoiceIterator builds on demand, follow. */
  function WithEmptyLabel(f: FormField, l: string): FormField
  {
    f.(emptyLabel := Some(l), choices := ModelChoices(f.queryset, Some(l)))
  }

  /** MaintenanceForm: the company's equipment when a company is given, the empty label, `frequency` optional. */
  function MaintenanceFields(fields: map<string, FormField>, company: Option<CompanyId>, rs: seq<Record>): (r: map<string, FormField>)
    requires "equipment" in fields && "frequency" in fields
  {
    var f := RestrictEquipment(fields, company, rs);
    f["equipment" := WithEmptyLabel(f["equipment"], EmptyLabel)]["frequency" := f["frequency"].(required := false)]
  }

  /** TechnicalServiceForm: two fields made required, the blank choice put in front of an optional location. */
  function TechnicalServiceFields(fields: map<string, FormField>): (r: map<string, FormField>)
    requires "service_type" in fields && "provider_name" in fields && "service_location" in fields
  {
    var f := fields["service_type" := fields["service_type"].(required := true)];
    var f := f["provider_name" := f["provider_name"].(required := true)];
    if !f["service_location"].required then f["service_location" := PrependBlank(f["service_location"])] else f
  }

  /** `if company is not None`: the equipment choice restricted to the company's equipment by name. */
  function RestrictEquipment(fields: map<string, FormField>, company: Option<CompanyId>, rs: seq<Record>): (r: map<string, FormField>)
    requires "equipment" in fields
    ensures r.Keys == fields.Keys
  {
    if company.Some? then fields["equipment" := WithQueryset(fields["equipment"], CompanyEquipment(rs, company.value))]
    else fields
  }

  /**
   * With a company the equipment field offers exactly that company's equipment,
   * its choices rebuilt from that queryset; every other field, and every other
   * attribute of the equipment field, stays as it was.  Without a company
   * nothing changes.
   */
  lemma RestrictEquipmentEffect(fields: map<string, FormField>, company: Option<CompanyId>, rs: seq<Record>)
    requires "equipment" in fields
    ensures var r := RestrictEquipment(fields, company, rs);
      && (company.None? ==> r == fields)
      && (forall k :: k in fields && k != "equipment" ==> r[k] == fields[k])
      && (company.Some? ==>
            && r["equipment"].queryset == CompanyEquipment(rs, company.value)
            && (forall x :: x in r["equipment"].queryset <==> x in rs && OfCompany(x, company.value))
            && r["equipment"].choices == ModelChoices(CompanyEquipment(rs, company.value), fields["equipment"].emptyLabel)
            && r["equipment"].required == fields["equipment"].required
            && r["equipment"].initial == fields["equipment"].initial
            && r["equipment"].emptyLabel == fields["equipment"].emptyLabel)
  {
    if company.Some? {
      forall x ensures x in CompanyEquipment(rs, company.value) <==> x in rs && OfCompany(x, company.value) {
        CompanyEquipmentMembers(rs, company.value, x);
      }
    }
  }

  /** InvestmentForm: the company's equipment, then the blank choice in front of each optional select. */
  function InvestmentFields(fields: map<string, FormField>, company: Option<CompanyId>, rs: seq<Record>): (r: map<string, FormField>)
    requires "equipment" in fields
  {
    var f := RestrictEquipment(fields, company, rs);
    PrependBlankToOptional(f, OptionalSelects)
  }

  /** A form's `self.fields`, changed in place by the `__init__` of each form. */
  class ModelFormFields {
    var fields: map<string, FormField>

    constructor (base: map<string, FormField>)
      ensures fields == base
    {
      fields := base;
    }

    /** EquipmentForm: quantity defaults to 1 and the purchase year to the current year, each only when unset. */
    method InitEquipmentForm(currentYear: int)
      requires "quantity" in fields && "purchase_year" in fields
      modifies this
      ensures fields == EquipmentFields(old(fields), currentYear)
    {
      var quantity := fields["quantity"];
      fields := fields["quantity" := quantity.(initial := Some(OrDefault(quantity.initial, 1)))];
      var year := fields["purchase_year"];
      fields := fields["purchase_year" := year.(initial := Some(OrDefault(year.initial, currentYear)))];
    }

    method InitTechnicalServiceForm()
      requires "service_type" in fields && "provider_name" in fields && "service_location" in fields
      modifies this
      ensures fields == TechnicalServiceFields(old(fields))
    {
      fields := fields["service_type" := fields["service_type"].(required := true)];
      fields := fields["provider_name" := fields["provider_name"].(required := true)];
      if fields["service_location"].required == false {
        fields := fields["service_location" := fields["service_location"].(choices := [BlankChoice] + fields["service_location"].choices)];
      }
    }

    /** MaintenanceForm: the equipment of the given company by name, the empty label, `frequency` optional. */
    method InitMaintenanceForm(company: Option<CompanyId>, rs: seq<Record>)
      requires "equipment" in fields && "frequency" in fields
      modifies this
      ensures fields == MaintenanceFields(old(fields), company, rs)
    {
      if company.Some? {
        fields := fields["equipment" := WithQueryset(fields["equipment"], CompanyEquipment(rs, company.value))];
      }
      fields := fields["equipment" := WithEmptyLabel(fields["equipment"], EmptyLabel)];
      fields := fields["frequency" := fields["frequency"].(required := false)];
    }

    method InitInvestmentForm(company: Option<CompanyId>, rs: seq<Record>)
      requires "equipment" in fields
      modifies this
      ensures fields == InvestmentFields(old(fields), company, rs)
    {
      if company.Some? {
        fields := fields["equipment" := WithQueryset(fields["equipment"], CompanyEquipment(rs, company.value))];
      }
      ghost var start := fields;
      var i := 0;
      while i < |OptionalSelects|
        invariant 0 <= i <= |OptionalSelects|
        invariant fields == PrependBlankToOptional(start, OptionalSelects[..i])
      {
        var name := OptionalSelects[i];
        assert OptionalSelects[..i + 1][..i] == OptionalSelects[..i];
        if name in fields && !fields[name].required {
          var choices := fields[name].choices;
          fields := fields[name := fields[name].(choices := [BlankChoice] + choices)];
        }
        i := i + 1;
      }
      assert OptionalSelects[..|OptionalSelects|] == OptionalSelects;
    }
  }

  // ---- properties of the initialisations -------------------------------------

  /** With the model default, the equipment form offers quantity 1 and the current year. */
  lemma EquipmentFormDefaults(currentYear: int)
    requires currentYear != 0
    ensures var f := EquipmentBaseFields();
      && OrDefault(f["quantity"].initial, 1) == 1
      && OrDefault(f["purchase_year"].initial, currentYear) == currentYear
  {
  }

  /** An initial quantity of 0 is falsy in Python, so it is replaced by 1 as if it were unset. */
  lemma EquipmentFormZeroQuantity()
    ensures OrDefault(Some(0), 1) == 1
  {
  }

  /**
   * The maintenance form for a company offers exactly that company's
   * equipment, by name, after the empty label; without a company it offers
   * every equipment in the default ordering.  Frequency is optional.
   */
  lemma MaintenanceFormEquipment(rs: seq<Record>, company: Option<CompanyId>, r: Record)
    ensures var f := MaintenanceFields(MaintenanceBaseFields(rs), company, rs);
      var e := f["equipment"];
      && (company.Some? ==> (r in e.queryset <==> r in rs && OfCompany(r, company.value)) && SortedBy(e.queryset, ByName))
      && (company.None? ==> e.queryset == AllEquipment(rs))
      && e.choices == [BlankChoice] + EquipmentChoices(e.queryset)
      && e.required
      && !f["frequency"].required
  {
    if company.Some? {
      CompanyEquipmentMembers(rs, company.value, r);
    }
  }

  /** The investment form's loop gives each optional select the blank choice in front; required selects are kept. */
  lemma InvestmentFormBlankChoices(fields: map<string, FormField>, company: Option<CompanyId>, rs: seq<Record>, k: string)
    requires "equipment" in fields && k in fields
    ensures var f := RestrictEquipment(fields, company, rs);
      InvestmentFields(fields, company, rs)[k] ==
        if k in OptionalSelects && !f[k].required then PrependBlank(f[k]) else f[k]
  {
    var f := RestrictEquipment(fields, company, rs);
    PrependBlankToOptionalEffect(f, OptionalSelects, k);
  }

  predicate BlankTwiceInFront(cs: seq<Choice>)
  {
    |cs| >= 2 && cs[0] == BlankChoice && cs[1] == BlankChoice
  }

  /** Counting the choices whose stored value is blank. */
  function BlankCount(cs: seq<Choice>): nat
  {
    if cs == [] then 0 else (if cs[0].value == "" then 1 else 0) + BlankCount(cs[1..])
  }

  lemma {:induction false} BlankCountAppend(a: seq<Choice>, b: seq<Choice>)
    ensures BlankCount(a + b) == BlankCount(a) + BlankCount(b)
  {
    if a == [] {
      assert a + b == b;
    } else {
      assert (a + b)[1..] == a[1..] + b;
      BlankCountAppend(a[1..], b);
    }
  }

  lemma {:induction false} NoBlankInCatalogue(cs: seq<Choice>)
    requires forall c :: c in cs ==> c.value != ""
    ensures BlankCount(cs) == 0
  {
    if cs != [] {
      NoBlankInCatalogue(cs[1..]);
    }
  }

  /** The equipment the investment form offers: the company's, or every equipment. */
  function InvestmentEquipment(rs: seq<Record>, company: Option<CompanyId>): seq<Record>
  {
    if company.Some? then CompanyEquipment(rs, company.value) else AllEquipment(rs)
  }

  /** The three selects of the investment form before its loop: optional, each starting with the blank choice. */
  lemma InvestmentSelects(rs: seq<Record>, company: Option<CompanyId>)
    ensures var f := RestrictEquipment(InvestmentBaseFields(rs), company, rs);
      && "status" in f && !f["status"].required && f["status"].choices == [BlankChoice] + InvestmentStatuses
      && "equipment_category" in f && !f["equipment_category"].required
      && f["equipment_category"].choices == [BlankChoice] + EquipmentCategories
      && "equipment" in f && !f["equipment"].required
      && f["equipment"].choices == [BlankChoice] + EquipmentChoices(InvestmentEquipment(rs, company))
  {
  }

  /**
   * As written, the optional selects of the investment form list the blank
   * choice twice: the ModelForm already put one in front, and the loop adds
   * another.
   */
  lemma InvestmentFormTwoBlanks(rs: seq<Record>, company: Option<CompanyId>)
    ensures var f := InvestmentFields(InvestmentBaseFields(rs), company, rs);
      && BlankTwiceInFront(f["status"].choices)
      && BlankTwiceInFront(f["equipment_category"].choices)
      && BlankTwiceInFront(f["equipment"].choices)
  {
    var base := InvestmentBaseFields(rs);
    InvestmentSelects(rs, company);
    InvestmentFormBlankChoices(base, company, rs, "status");
    InvestmentFormBlankChoices(base, company, rs, "equipment_category");
    InvestmentFormBlankChoices(base, company, rs, "equipment");
  }

  /** As written, the technical service form lists the blank location twice. */
  lemma TechnicalServiceFormTwoBlanks()
    ensures BlankTwiceInFront(TechnicalServiceFields(TechnicalServiceBaseFields())["service_location"].choices)
  {
  }

  /** The intended initialisation: the blank choice is put in front only when the field has none. */
  function EnsureBlank(f: FormField): FormField
  {
    if BlankCount(f.choices) == 0 then PrependBlank(f) else f
  }

  /** With the intended initialisation the investment form's optional selects list the blank choice exactly once. */
  function InvestmentFieldsIntended(fields: map<string, FormField>, company: Option<CompanyId>, rs: seq<Record>): (r: map<string, FormField>)
    requires "equipment" in fields
    ensures r.Keys == fields.Keys
  {
    var f := RestrictEquipment(fields, company, rs);
    map k | k in f :: if k in OptionalSelects && !f[k].required then EnsureBlank(f[k]) else f[k]
  }

  /** An equipment choice list holds no blank value: every key prints as digits. */
  lemma {:induction false} EquipmentChoicesNoBlank(qs: seq<Record>)
    ensures BlankCount(EquipmentChoices(qs)) == 0
  {
    if qs != [] {
      EquipmentChoicesNoBlank(qs[1..]);
      assert EquipmentChoices(qs)[1..] == EquipmentChoices(qs[1..]);
    }
  }

  lemma InvestmentFormOneBlank(rs: seq<Record>, company: Option<CompanyId>)
    ensures var f := InvestmentFieldsIntended(InvestmentBaseFields(rs), company, rs);
      && BlankCount(f["status"].choices) == 1
      && BlankCount(f["equipment_category"].choices) == 1
      && BlankCount(f["equipment"].choices) == 1
  {
    var base := InvestmentBaseFields(rs);
    var qs := InvestmentEquipment(rs, company);
    InvestmentSelects(rs, company);
    NoBlankInCatalogue(InvestmentStatuses);
    NoBlankInCatalogue(EquipmentCategories);
    EquipmentChoicesNoBlank(qs);
    IntendedOneBlank(base, company, rs, "status", InvestmentStatuses);
    IntendedOneBlank(base, company, rs, "equipment_category", EquipmentCategories);
    IntendedOneBlank(base, company, rs, "equipment", EquipmentChoices(qs));
  }

  /** An optional select that starts with the one blank choice keeps exactly one. */
  lemma IntendedOneBlank(fields: map<string, FormField>, company: Option<CompanyId>, rs: seq<Record>, k: string, cs: seq<Choice>)
    requires "equipment" in fields && k in OptionalSelects
    requires var f := RestrictEquipment(fields, company, rs); k in f && !f[k].required && f[k].choices == [BlankChoice] + cs
    requires BlankCount(cs) == 0
    ensures k in InvestmentFieldsIntended(fields, company, rs)
    ensures BlankCount(InvestmentFieldsIntended(fields, company, rs)[k].choices) == 1
  {
    BlankCountAppend([BlankChoice], cs);
  }

  /** The intended technical service form lists the blank location once. */
  function TechnicalServiceFieldsIntended(fields: map<string, FormField>): (r: map<string, FormField>)
    requires "service_type" in fields && "provider_name" in fields && "service_location" in fields
  {
    var f := fields["service_type" := fields["service_type"].(required := true)];
    var f := f["provider_name" := f["provider_name"].(required := true)];
    if !f["service_location"].required then f["service_location" := EnsureBlank(f["service_location"])] else f
  }

  lemma TechnicalServiceFormOneBlank()
    ensures BlankCount(TechnicalServiceFieldsIntended(TechnicalServiceBaseFields())["service_location"].choices) == 1
  {
    NoBlankInCatalogue(ServiceLocations);
    BlankCountAppend([BlankChoice], ServiceLocations);
  }

  /** The two fields the technical service form marks required were required already. */
  lemma TechnicalServiceRequiredIsNoChange()
    ensures var f := TechnicalServiceFields(TechnicalServiceBaseFields());
      f["service_type"] == TechnicalServiceBaseFields()["service_type"]
      && f["provider_name"] == TechnicalServiceBaseFields()["provider_name"]
  {
  }

  // ---- validation -----------------------------------------------------------------

  datatype FormError = FutureLastDate

  /** `clean_last_date`: a last date after today is refused; today, a past date or none is kept. */
  function CleanLastDate(lastDate: Option<int>, today: int): (r: Result<Option<int>, FormError>)
    ensures r.Err? <==> lastDate.Some? && lastDate.value > today
    ensures r.Ok? ==> r.value == lastDate
  {
    if lastDate.Some? && lastDate.value > today then Err(FutureLastDate) else Ok(lastDate)
  }

  function Ids(qs: seq<Record>): set<RecordId>
  {
    set r | r in qs :: r.id
  }

  /**
   * What `form.is_valid()` decides about the submitted record `input` of the
   * table `kind`, for the forms built for `company`: `fieldsOk` (every field
   * parses, required fields are present, lengths fit) and the validators of
   * the columns, the equipment choice among the company's equipment and
   * `clean_last_date`.  The unique constraints involve `company`, which is
   * not a form field, so `validate_unique` skips them.
   */
  predicate IsValid(kind: Kind, rs: seq<Record>, company: CompanyId, input: Record, today: int, fieldsOk: bool)
  {
    && fieldsOk
    && KindOf(input) == kind
    && FieldsValid(input)
    && (input.MaintenanceRec? ==>
          input.equipment in Ids(CompanyEquipment(rs, company)) && CleanLastDate(input.lastDate, today).Ok?)
    && (input.InvestmentRec? && input.linkedEquipment.Some? ==>
          input.linkedEquipment.value in Ids(CompanyEquipment(rs, company)))
  }

  /** A valid maintenance form names equipment of the company, which therefore exists. */
  lemma ValidMaintenanceEquipment(kind: Kind, rs: seq<Record>, company: CompanyId, input: Record, today: int, fieldsOk: bool)
    requires IsValid(kind, rs, company, input, today, fieldsOk) && input.MaintenanceRec?
    ensures input.equipment in EquipmentIds(rs)
    ensures exists e :: e in rs && OfCompany(e, company) && e.id == input.equipment
    ensures input.lastDate.None? || input.lastDate.value <= today
  {
    var e :| e in CompanyEquipment(rs, company) && e.id == input.equipment;
    CompanyEquipmentMembers(rs, company, e);
  }
}
