/**
 * The tenant relations of apps/core/models.py: companies with an optional single
 * advisor and a unique tax id, and AnalystCompany rows pairing a user with a
 * company at most once.  The ORM's tables are a `Store` value; `CompanyTable`
 * is the mutable table that views save companies into.
 */
module CoreModels {
  import opened Wrappers
  import opened Seqs

  type UserId = nat
  type CompanyId = nat

  /** The request's user; an anonymous user is one that is not authenticated. */
  datatype User = User(id: UserId, isAuthenticated: bool, isSuperuser: bool)

  /** Company.CompanyType: stored as "organization" or "entrepreneurship". */
  datatype OrgType = Organization | Entrepreneurship

  /** The columns of a company other than its primary key (an unsaved instance). */
  datatype CompanyData = CompanyData(
    organization: nat,
    name: string,
    taxId: string,
    municipality: string,
    orgType: OrgType,
    advisor: Option<UserId>,
    status: string)

  datatype Company = Company(id: CompanyId, data: CompanyData)

  /** An AnalystCompany row: `user` is assigned as an analyst of `company`. */
  datatype AnalystCompany = AnalystCompany(user: UserId, company: CompanyId)

  /** The Company and AnalystCompany tables, each in its listing order. */
  datatype Store = Store(companies: seq<Company>, analysts: seq<AnalystCompany>)

  datatype DbError = IntegrityError

  /** A company built from its required columns; org_type and status take their defaults. */
  function NewCompanyData(organization: nat, name: string, taxId: string, municipality: string): (d: CompanyData)
    ensures d.orgType == Organization && d.status == "active" && d.advisor == None
    ensures d.organization == organization && d.name == name && d.taxId == taxId && d.municipality == municipality
  {
    CompanyData(organization, name, taxId, municipality, Organization, None, "active")
  }

  function CompanyIds(cs: seq<Company>): set<CompanyId>
  {
    set c | c in cs :: c.id
  }

  predicate UniqueIds(cs: seq<Company>)
  {
    forall i, j :: 0 <= i < j < |cs| ==> cs[i].id != cs[j].id
  }

  /** `tax_id` is declared unique. */
  predicate UniqueTaxIds(cs: seq<Company>)
  {
    forall i, j :: 0 <= i < j < |cs| ==> cs[i].data.taxId != cs[j].data.taxId
  }

  /** `unique_together = ("user", "company")`. */
  predicate UniqueAssignments(rows: seq<AnalystCompany>)
  {
    forall i, j :: 0 <= i < j < |rows| ==> rows[i] != rows[j]
  }

  /** The constraints the database enforces on the two tables. */
  predicate ValidStore(s: Store)
  {
    && UniqueIds(s.companies)
    && UniqueTaxIds(s.companies)
    && UniqueAssignments(s.analysts)
    && (forall r :: r in s.analysts ==> r.company in CompanyIds(s.companies))
  }

  /** `Company.objects.get(pk=pk)`, `None` standing for DoesNotExist. */
  function FindCompany(cs: seq<Company>, pk: CompanyId): (r: Option<Company>)
    ensures r.Some? <==> pk in CompanyIds(cs)
    ensures r.Some? ==> r.value in cs && r.value.id == pk
  {
    if cs == [] then None
    else if cs[0].id == pk then Some(cs[0])
    else FindCompany(cs[1..], pk)
  }

  /** With unique ids, a company found by its id is the one stored under it. */
  lemma {:induction false} FindCompanyUnique(cs: seq<Company>, c: Company)
    requires UniqueIds(cs)
    requires c in cs
    ensures FindCompany(cs, c.id) == Some(c)
  {
    if cs[0] != c {
      assert UniqueIds(cs[1..]);
      FindCompanyUnique(cs[1..], c);
    }
  }

  /** Creating an AnalystCompany row; a repeated pair or an unknown company is refused. */
  function AssignAnalyst(s: Store, user: UserId, company: CompanyId): (r: Result<Store, DbError>)
    ensures r.Err? <==> AnalystCompany(user, company) in s.analysts || company !in CompanyIds(s.companies)
    ensures r.Ok? ==> r.value.companies == s.companies
    ensures r.Ok? ==> r.value.analysts == s.analysts + [AnalystCompany(user, company)]
  {
    if AnalystCompany(user, company) in s.analysts || company !in CompanyIds(s.companies) then Err(IntegrityError)
    else Ok(Store(s.companies, s.analysts + [AnalystCompany(user, company)]))
  }

  lemma AssignAnalystValid(s: Store, user: UserId, company: CompanyId)
    requires ValidStore(s)
    requires AssignAnalyst(s, user, company).Ok?
    ensures ValidStore(AssignAnalyst(s, user, company).value)
  {
    var rows := AssignAnalyst(s, user, company).value.analysts;
    forall i, j | 0 <= i < j < |rows| ensures rows[i] != rows[j] {
      if j == |rows| - 1 {
        assert rows[i] in s.analysts;
      }
    }
  }

  /** The advisor of `c` after the user it refers to is deleted (`on_delete=SET_NULL`). */
  function ClearAdvisor(c: Company, user: UserId): (r: Company)
    ensures r.id == c.id && r.data.advisor != Some(user)
    ensures c.data.advisor != Some(user) ==> r == c
  {
    if c.data.advisor == Some(user) then Company(c.id, c.data.(advisor := None)) else c
  }

  function ClearAdvisors(cs: seq<Company>, user: UserId): (r: seq<Company>)
    ensures |r| == |cs|
    ensures forall i :: 0 <= i < |r| ==> r[i] == ClearAdvisor(cs[i], user)
  {
    if cs == [] then [] else [ClearAdvisor(cs[0], user)] + ClearAdvisors(cs[1..], user)
  }

  /**
   * Deleting a user: their AnalystCompany rows are deleted (CASCADE) and the
   * companies they advised keep no advisor (SET_NULL).
   */
  function DeleteUser(s: Store, user: UserId): (r: Store)
    ensures CompanyIds(r.companies) == CompanyIds(s.companies)
    ensures forall c :: c in r.companies ==> c.data.advisor != Some(user)
    ensures forall row :: row in r.analysts <==> row in s.analysts && row.user != user
  {
    Store(ClearAdvisors(s.companies, user), Keep(s.analysts, (row: AnalystCompany) => row.user != user))
  }

  lemma DeleteUserValid(s: Store, user: UserId)
    requires ValidStore(s)
    ensures ValidStore(DeleteUser(s, user))
  {
    ClearAdvisorsKeys(s.companies, user);
    KeepUniqueAssignments(s.analysts, (row: AnalystCompany) => row.user != user);
  }

  /** Clearing advisors keeps every id and tax id where it was. */
  lemma ClearAdvisorsKeys(cs: seq<Company>, user: UserId)
    requires UniqueIds(cs) && UniqueTaxIds(cs)
    ensures UniqueIds(ClearAdvisors(cs, user)) && UniqueTaxIds(ClearAdvisors(cs, user))
    ensures CompanyIds(ClearAdvisors(cs, user)) == CompanyIds(cs)
  {
    var r := ClearAdvisors(cs, user);
    assert forall i :: 0 <= i < |r| ==> r[i].id == cs[i].id && r[i].data.taxId == cs[i].data.taxId;
  }

  /** Filtering a table without duplicate rows leaves none. */
  lemma KeepUniqueAssignments(rows: seq<AnalystCompany>, p: AnalystCompany -> bool)
    requires UniqueAssignments(rows)
    ensures UniqueAssignments(Keep(rows, p))
  {
    var kept := Keep(rows, p);
    forall row | row in rows ensures multiset(rows)[row] == 1 {
      CountOfUnique(rows, row);
    }
    forall i, j | 0 <= i < j < |kept| ensures kept[i] != kept[j] {
      if kept[i] == kept[j] {
        KeepCount(rows, p, kept[i]);
        TwoPositionsCount(kept, i, j);
        assert false;
      }
    }
  }

  /** Deleting a company deletes its AnalystCompany rows (CASCADE). */
  function DeleteCompany(s: Store, company: CompanyId): (r: Store)
    ensures CompanyIds(r.companies) == CompanyIds(s.companies) - {company}
    ensures forall row :: row in r.analysts <==> row in s.analysts && row.company != company
    ensures forall c :: c in r.companies <==> c in s.companies && c.id != company
  {
    var kept := Keep(s.companies, (c: Company) => c.id != company);
    assert forall c :: c in s.companies && c.id != company ==> c in kept by {
      forall c | c in s.companies && c.id != company ensures c in kept {
        var i :| 0 <= i < |s.companies| && s.companies[i] == c;
      }
    }
    Store(kept, Keep(s.analysts, (row: AnalystCompany) => row.company != company))
  }

  lemma {:induction false} CountOfUnique(rows: seq<AnalystCompany>, row: AnalystCompany)
    requires UniqueAssignments(rows)
    requires row in rows
    ensures multiset(rows)[row] == 1
  {
    assert rows == [rows[0]] + rows[1..];
    assert UniqueAssignments(rows[1..]);
    if rows[0] == row {
      assert row !in rows[1..];
    } else {
      CountOfUnique(rows[1..], row);
    }
  }

  /** Replaces the row with id `id` in place or appends a new one (an ORM save). */
  function Upsert(cs: seq<Company>, id: CompanyId, d: CompanyData): (r: seq<Company>)
    ensures id in CompanyIds(cs) ==> |r| == |cs|
    ensures id !in CompanyIds(cs) ==> r == cs + [Company(id, d)]
  {
    if id !in CompanyIds(cs) then cs + [Company(id, d)]
    else seq(|cs|, i requires 0 <= i < |cs| => if cs[i].id == id then Company(id, d) else cs[i])
  }

  /** A save stores the given columns under the id and leaves every other company alone. */
  lemma UpsertContents(cs: seq<Company>, id: CompanyId, d: CompanyData)
    requires UniqueIds(cs)
    ensures UniqueIds(Upsert(cs, id, d))
    ensures Company(id, d) in Upsert(cs, id, d)
    ensures CompanyIds(Upsert(cs, id, d)) == CompanyIds(cs) + {id}
    ensures forall c :: c in cs && c.id != id ==> c in Upsert(cs, id, d)
    ensures forall c :: c in Upsert(cs, id, d) ==> c == Company(id, d) || c in cs
  {
    var r := Upsert(cs, id, d);
    if id in CompanyIds(cs) {
      var k :| 0 <= k < |cs| && cs[k].id == id;
      assert r[k] == Company(id, d);
      forall c | c in cs && c.id != id ensures c in r {
        var i :| 0 <= i < |cs| && cs[i] == c;
        assert r[i] == c;
      }
      forall c | c in r ensures c == Company(id, d) || c in cs {
        var i :| 0 <= i < |r| && r[i] == c;
      }
      forall x | x in CompanyIds(r) ensures x in CompanyIds(cs) + {id} {
        var c :| c in r && c.id == x;
      }
      forall x | x in CompanyIds(cs) ensures x in CompanyIds(r) {
        var c :| c in cs && c.id == x;
        if x != id {
          assert c in r;
        }
      }
    }
  }

  /** `tax_id` is held by a row other than the one being saved. */
  predicate TaxIdTaken(cs: seq<Company>, taxId: string, pk: Option<CompanyId>)
  {
    exists c :: c in cs && c.data.taxId == taxId && pk != Some(c.id)
  }

  /**
   * The Company table as the views save into it.  `nextId` is the next value of
   * the auto-increment primary key.
   */
  class CompanyTable {
    var store: Store
    var nextId: CompanyId

    ghost predicate Valid()
      reads this
    {
      ValidStore(store) && forall c :: c in store.companies ==> c.id < nextId
    }

    constructor (s: Store, next: CompanyId)
      requires ValidStore(s)
      requires forall c :: c in s.companies ==> c.id < next
      ensures Valid() && store == s && nextId == next
    {
      store := s;
      nextId := next;
    }

    /**
     * `obj.save()`: an instance without a primary key is inserted under the next
     * id; one with a key updates that row, or inserts it when it is absent.  A
     * clash on the unique `tax_id` raises IntegrityError and changes nothing.
     */
    method Save(pk: Option<CompanyId>, d: CompanyData) returns (r: Result<CompanyId, DbError>)
      requires Valid()
      modifies this
      ensures Valid()
      ensures r.Err? <==> TaxIdTaken(old(store.companies), d.taxId, pk)
      ensures r.Err? ==> store == old(store) && nextId == old(nextId)
      ensures r.Ok? ==> r.value == if pk.Some? then pk.value else old(nextId)
      ensures r.Ok? ==> store == Store(Upsert(old(store.companies), r.value, d), old(store.analysts))
    {
      if exists c :: c in store.companies && c.data.taxId == d.taxId && pk != Some(c.id) {
        return Err(IntegrityError);
      }
      var id := if pk.Some? then pk.value else nextId;
      var cs := store.companies;
      UpsertContents(cs, id, d);
      var cs' := Upsert(cs, id, d);
      store := Store(cs', store.analysts);
      if id >= nextId {
        nextId := id + 1;
      }
      r := Ok(id);
    }
  }
}
