/**
 * apps/core/selectors.py: the set of company ids a user may see.  It is the
 * single source of truth for row-level scoping; superusers and anonymous users
 * get the empty set (superusers bypass scoping at every call site instead).
 */
module Selectors {
  import opened Wrappers
  import opened CoreModels

  /** `user` advises the company with id `company`. */
  predicate Advises(cs: seq<Company>, user: UserId, company: CompanyId)
  {
    exists c :: c in cs && c.id == company && c.data.advisor == Some(user)
  }

  /** A user for whom scoping applies: logged in and not a superuser. */
  predicate Restricted(user: Option<User>)
  {
    user.Some? && user.value.isAuthenticated && !user.value.isSuperuser
  }

  function AssignedIds(s: Store, user: UserId): set<CompanyId>
  {
    set row | row in s.analysts && row.user == user :: row.company
  }

  function AdvisedIds(s: Store, user: UserId): set<CompanyId>
  {
    set c | c in s.companies && c.data.advisor == Some(user) :: c.id
  }

  /** `get_allowed_company_ids(user)`; `None` stands for a missing user. */
  function AllowedCompanyIds(user: Option<User>, s: Store): (r: set<CompanyId>)
    ensures !Restricted(user) ==> r == {}
    ensures forall c :: c in r <==>
      Restricted(user) && (AnalystCompany(user.value.id, c) in s.analysts || Advises(s.companies, user.value.id, c))
  {
    if user.None? || !user.value.isAuthenticated then {}
    else if user.value.isSuperuser then {}
    else AssignedIds(s, user.value.id) + AdvisedIds(s, user.value.id)
  }

  /**
   * The result depends only on the user's own AnalystCompany rows, taken as a
   * set, and on which companies they advise: neither the rows of other users
   * nor the order of either table matters.
   */
  lemma AllowedDependsOnlyOnOwnRows(user: Option<User>, s: Store, t: Store)
    requires Restricted(user)
    requires forall c :: AnalystCompany(user.value.id, c) in s.analysts <==> AnalystCompany(user.value.id, c) in t.analysts
    requires forall c :: Advises(s.companies, user.value.id, c) <==> Advises(t.companies, user.value.id, c)
    ensures AllowedCompanyIds(user, s) == AllowedCompanyIds(user, t)
  {
    forall c | c in AllowedCompanyIds(user, s) ensures c in AllowedCompanyIds(user, t) { }
    forall c | c in AllowedCompanyIds(user, t) ensures c in AllowedCompanyIds(user, s) { }
  }

  /** Reordering the tables leaves every user's allowed set unchanged. */
  lemma AllowedIgnoresOrder(user: Option<User>, s: Store, t: Store)
    requires multiset(s.analysts) == multiset(t.analysts)
    requires multiset(s.companies) == multiset(t.companies)
    ensures AllowedCompanyIds(user, s) == AllowedCompanyIds(user, t)
  {
    if Restricted(user) {
      forall c ensures AnalystCompany(user.value.id, c) in s.analysts <==> AnalystCompany(user.value.id, c) in t.analysts {
        assert AnalystCompany(user.value.id, c) in s.analysts <==> AnalystCompany(user.value.id, c) in multiset(s.analysts);
        assert AnalystCompany(user.value.id, c) in t.analysts <==> AnalystCompany(user.value.id, c) in multiset(t.analysts);
      }
      forall c ensures Advises(s.companies, user.value.id, c) <==> Advises(t.companies, user.value.id, c) {
        if Advises(s.companies, user.value.id, c) {
          var x :| x in s.companies && x.id == c && x.data.advisor == Some(user.value.id);
          assert x in multiset(t.companies);
        }
        if Advises(t.companies, user.value.id, c) {
          var x :| x in t.companies && x.id == c && x.data.advisor == Some(user.value.id);
          assert x in multiset(s.companies);
        }
      }
      AllowedDependsOnlyOnOwnRows(user, s, t);
    }
  }

  /** Assigning a user as analyst of a company adds it to their set and removes nothing. */
  lemma AssignAnalystGrants(user: Option<User>, s: Store, company: CompanyId)
    requires Restricted(user)
    requires AssignAnalyst(s, user.value.id, company).Ok?
    ensures AllowedCompanyIds(user, AssignAnalyst(s, user.value.id, company).value)
         == AllowedCompanyIds(user, s) + {company}
  {
    var t := AssignAnalyst(s, user.value.id, company).value;
    var a, b := AllowedCompanyIds(user, s) + {company}, AllowedCompanyIds(user, t);
    forall c | c in b ensures c in a {
      if c != company {
        assert AnalystCompany(user.value.id, c) in s.analysts || Advises(s.companies, user.value.id, c);
      }
    }
    forall c | c in a ensures c in b {
      if c != company {
        assert AnalystCompany(user.value.id, c) in t.analysts || Advises(t.companies, user.value.id, c);
      } else {
        assert t.analysts[|t.analysts| - 1] == AnalystCompany(user.value.id, company);
      }
    }
  }

  /** Assigning some other user changes nothing for this one. */
  lemma AssignOtherUserIrrelevant(user: Option<User>, s: Store, other: UserId, company: CompanyId)
    requires Restricted(user) && other != user.value.id
    requires AssignAnalyst(s, other, company).Ok?
    ensures AllowedCompanyIds(user, AssignAnalyst(s, other, company).value) == AllowedCompanyIds(user, s)
  {
    AllowedDependsOnlyOnOwnRows(user, s, AssignAnalyst(s, other, company).value);
  }

  /** After a user is deleted, nothing is allowed to them, and every other user keeps their set. */
  lemma DeleteUserRevokes(user: Option<User>, s: Store)
    requires Restricted(user)
    ensures AllowedCompanyIds(user, DeleteUser(s, user.value.id)) == {}
    ensures forall v :: Restricted(v) && v.value.id != user.value.id ==>
      AllowedCompanyIds(v, DeleteUser(s, user.value.id)) == AllowedCompanyIds(v, s)
  {
    var u := user.value.id;
    var t := DeleteUser(s, u);
    forall c | c in AllowedCompanyIds(user, t) ensures false { }
    forall v | Restricted(v) && v.value.id != u
      ensures AllowedCompanyIds(v, t) == AllowedCompanyIds(v, s)
    {
      forall c ensures Advises(s.companies, v.value.id, c) <==> Advises(t.companies, v.value.id, c) {
        if Advises(s.companies, v.value.id, c) {
          var x :| x in s.companies && x.id == c && x.data.advisor == Some(v.value.id);
          var i :| 0 <= i < |s.companies| && s.companies[i] == x;
          assert t.companies[i] == x;
        }
        if Advises(t.companies, v.value.id, c) {
          var x :| x in t.companies && x.id == c && x.data.advisor == Some(v.value.id);
          var i :| 0 <= i < |t.companies| && t.companies[i] == x;
          assert s.companies[i] == x;
        }
      }
      AllowedDependsOnlyOnOwnRows(v, s, t);
    }
  }

  /** After a company is deleted, no user is allowed it. */
  lemma DeleteCompanyRevokes(user: Option<User>, s: Store, company: CompanyId)
    ensures company !in AllowedCompanyIds(user, DeleteCompany(s, company))
  {
  }

  /**
   * For every store, a restricted user's set is the union of the companies they
   * are assigned to and those they advise; a company in both is counted once.
   */
  lemma UnionOfAssignedAndAdvised(user: Option<User>, s: Store)
    requires Restricted(user)
    ensures var u := user.value.id;
      && (forall c :: c in AssignedIds(s, u) <==> AnalystCompany(u, c) in s.analysts)
      && (forall c :: c in AdvisedIds(s, u) <==> Advises(s.companies, u, c))
      && AllowedCompanyIds(user, s) == AssignedIds(s, u) + AdvisedIds(s, u)
      && |AllowedCompanyIds(user, s)| == |AssignedIds(s, u)| + |AdvisedIds(s, u)| - |AssignedIds(s, u) * AdvisedIds(s, u)|
  {
    var u := user.value.id;
    forall c ensures c in AssignedIds(s, u) <==> AnalystCompany(u, c) in s.analysts {
      if AnalystCompany(u, c) in s.analysts {
        assert c == AnalystCompany(u, c).company;
      }
    }
    UnionSize(AssignedIds(s, u), AdvisedIds(s, u));
  }

  /** Inclusion and exclusion for two finite sets. */
  lemma {:induction false} UnionSize<T>(a: set<T>, b: set<T>)
    ensures |a + b| == |a| + |b| - |a * b|
    decreases |a|
  {
    if a != {} {
      var x :| x in a;
      var a' := a - {x};
      UnionSize(a', b);
      assert a == a' + {x};
      if x in b {
        assert a + b == a' + b;
        assert a * b == (a' * b) + {x};
      } else {
        assert a + b == (a' + b) + {x};
        assert a * b == a' * b;
      }
    } else {
      assert a + b == b;
      assert a * b == {};
    }
  }

  /**
   * The union on a small store: assigned to companies 1 and 2, advising 2
   * and 3, the result is {1, 2, 3}; company 4, advised by another user, is out.
   */
  lemma UnionExample()
    ensures
      var d := NewCompanyData(1, "", "", "");
      var s := Store(
        [Company(1, d.(taxId := "1")), Company(2, d.(taxId := "2", advisor := Some(7))),
         Company(3, d.(taxId := "3", advisor := Some(7))), Company(4, d.(taxId := "4", advisor := Some(8)))],
        [AnalystCompany(7, 1), AnalystCompany(7, 2), AnalystCompany(8, 3)]);
      AllowedCompanyIds(Some(User(7, true, false)), s) == {1, 2, 3}
  {
    var d := NewCompanyData(1, "", "", "");
    var cs := [Company(1, d.(taxId := "1")), Company(2, d.(taxId := "2", advisor := Some(7))),
               Company(3, d.(taxId := "3", advisor := Some(7))), Company(4, d.(taxId := "4", advisor := Some(8)))];
    var s := Store(cs, [AnalystCompany(7, 1), AnalystCompany(7, 2), AnalystCompany(8, 3)]);
    ExampleAssigned(s);
    ExampleAdvised(s, d);
  }

  lemma ExampleAssigned(s: Store)
    requires s.analysts == [AnalystCompany(7, 1), AnalystCompany(7, 2), AnalystCompany(8, 3)]
    ensures AssignedIds(s, 7) == {1, 2}
  {
    assert s.analysts[0] in s.analysts && s.analysts[1] in s.analysts;
  }

  lemma ExampleAdvised(s: Store, d: CompanyData)
    requires s.companies == [Company(1, d.(taxId := "1")), Company(2, d.(taxId := "2", advisor := Some(7))),
                             Company(3, d.(taxId := "3", advisor := Some(7))), Company(4, d.(taxId := "4", advisor := Some(8)))]
    requires d.advisor == None
    ensures AdvisedIds(s, 7) == {2, 3}
  {
    assert s.companies[1] in s.companies && s.companies[2] in s.companies;
  }

  /** Saving a company with a restricted user as its advisor makes it visible to that user. */
  lemma AdvisorSaveGrants(user: Option<User>, s: Store, id: CompanyId, d: CompanyData)
    requires Restricted(user)
    requires UniqueIds(s.companies)
    requires d.advisor == Some(user.value.id)
    ensures id in AllowedCompanyIds(user, Store(Upsert(s.companies, id, d), s.analysts))
  {
    UpsertContents(s.companies, id, d);
    assert Advises(Upsert(s.companies, id, d), user.value.id, id);
  }

  /** In a consistent store every allowed id belongs to an existing company. */
  lemma AllowedAreCompanies(user: Option<User>, s: Store)
    requires ValidStore(s)
    ensures AllowedCompanyIds(user, s) <= CompanyIds(s.companies)
  {
    forall c | c in AllowedCompanyIds(user, s) ensures c in CompanyIds(s.companies) {
      if !(AnalystCompany(user.value.id, c) in s.analysts) {
        var x :| x in s.companies && x.id == c && x.data.advisor == Some(user.value.id);
      }
    }
  }
}
