/**
 * apps/profiles/views.py: the profile tabs of one company.  Every view needs a
 * login, then runs the same inline guard against the allowed set, then looks
 * the company up by the `company_id` string of the URL.  The guard lets an
 * empty allowed set through, which is what a superuser gets, but also what a
 * user with no assignment and no advised company gets.
 */
module ProfilesViews {
  import opened Wrappers
  import opened Seqs
  import opened PyStr
  import opened Ordering
  import opened CoreModels
  import opened Selectors
  import opened ProfilesModels
  import opened ProfilesFill

  const DefaultTab := "assessments"
  const ManageTemplate := "profiles/manage.html"
  /** `response_list` slices the assessments with `[:5]`. */
  const RecentLimit := 5

  /** The fields the assessment form supplies; the view sets company and analyst. */
  datatype AssessmentInput = AssessmentInput(instrumentCode: string, instrumentVersion: string, date: int, notes: string)

  /** An assessment with the responses `prefetch_related("responses__question")` attaches. */
  datatype AssessmentResponses = AssessmentResponses(assessment: Assessment, responses: seq<Response>)

  /** What a profiles view answers. */
  datatype Page =
    | LoginRedirect
    | Forbidden
    | Http404
    | ServerError
    | ManagePage(company: Company, currentTab: string, title: string, template: string)
    | AssessmentsTab(company: Company, assessments: seq<Assessment>)
    | AssessmentFormPage(company: Company)
    | RedirectToManage(companyId: string)
    | QuestionsTab(company: Company, questions: seq<Question>)
    | ResponsesTab(company: Company, recent: seq<AssessmentResponses>)
    | FillPage(company: Company, assessment: Assessment, grouped: seq<DimGroup>, existing: map<QuestionId, Response>)

  // ---- the prelude shared by every view -------------------------------------

  /** `login_required` lets an authenticated user through. */
  predicate LoggedIn(user: Option<User>)
  {
    user.Some? && user.value.isAuthenticated
  }

  /** `str(company_id) in [str(x) for x in allowed]`. */
  predicate Listed(allowed: set<CompanyId>, companyId: string)
  {
    exists x :: x in allowed && NatToStr(x) == companyId
  }

  /** The inline guard: `if allowed and str(company_id) not in [...]` answers 403. */
  predicate GuardPasses(allowed: set<CompanyId>, companyId: string)
  {
    allowed == {} || Listed(allowed, companyId)
  }

  /** `get_object_or_404(Company, id=company_id)`: `int()` of the string, then the lookup. */
  function LookupCompany(s: Store, companyId: string): (r: Result<Company, Page>)
    ensures ParseInt(companyId).None? <==> r == Err(ServerError)
    ensures r.Ok? <==> exists c :: c in s.companies && ParseInt(companyId) == Some(c.id as int)
    ensures r.Ok? ==> r.value in s.companies && ParseInt(companyId) == Some(r.value.id as int)
    ensures r.Err? ==> r.error == ServerError || r.error == Http404
  {
    match ParseInt(companyId)
    case None => Err(ServerError)
    case Some(n) =>
      if n < 0 then Err(Http404)
      else match FindCompany(s.companies, n)
        case None =>
          assert forall c :: c in s.companies ==> c.id in CompanyIds(s.companies);
          Err(Http404)
        case Some(c) => Ok(c)
  }

  /** Login, guard and company lookup, in that order. */
  function Prelude(user: Option<User>, s: Store, companyId: string): (r: Result<Company, Page>)
    ensures !LoggedIn(user) ==> r == Err(LoginRedirect)
    ensures LoggedIn(user) && !GuardPasses(AllowedCompanyIds(user, s), companyId) ==> r == Err(Forbidden)
    ensures LoggedIn(user) && GuardPasses(AllowedCompanyIds(user, s), companyId) ==> r == LookupCompany(s, companyId)
  {
    if !LoggedIn(user) then Err(LoginRedirect)
    else if !GuardPasses(AllowedCompanyIds(user, s), companyId) then Err(Forbidden)
    else LookupCompany(s, companyId)
  }

  /** The canonical string of a company id passes the guard iff the set is empty or holds that id. */
  lemma GuardOnCanonicalId(allowed: set<CompanyId>, n: CompanyId)
    ensures GuardPasses(allowed, NatToStr(n)) <==> allowed == {} || n in allowed
  {
    if Listed(allowed, NatToStr(n)) {
      var x :| x in allowed && NatToStr(x) == NatToStr(n);
      NatToStrInjective(x, n);
    }
  }

  /**
   * A zero-padded id ("07") resolves to the company but is never listed, so a
   * user with a non-empty allowed set is refused it even when the company is theirs.
   */
  lemma GuardRefusesPaddedId(allowed: set<CompanyId>, n: CompanyId)
    requires allowed != {}
    ensures !GuardPasses(allowed, "0" + NatToStr(n))
    ensures ParseInt("0" + NatToStr(n)) == Some(n as int)
  {
    ParseIntPadded(n);
  }

  lemma {:induction false} ParseIntPadded(n: nat)
    ensures ParseInt("0" + NatToStr(n)) == Some(n as int)
  {
    var d := NatToStr(n);
    var t := "0" + d;
    assert !IsSpace(t[0]) && t[|t| - 1] == d[|d| - 1];
    StripNoEdges(t);
    DigitsAreGroup(t);
    DigitsValueOfNatToStr(n);
    DigitsValueLeadingZero(d);
  }

  lemma {:induction false} DigitsValueLeadingZero(d: string)
    requires forall i :: 0 <= i < |d| ==> IsDigit(d[i]) || d[i] == '_'
    ensures forall i :: 0 <= i < |"0" + d| ==> IsDigit(("0" + d)[i]) || ("0" + d)[i] == '_'
    ensures DigitsValue("0" + d) == DigitsValue(d)
  {
    var t := "0" + d;
    if d != [] {
      assert t[..|t| - 1] == "0" + d[..|d| - 1];
      DigitsValueLeadingZero(d[..|d| - 1]);
    } else {
      assert t[..|t| - 1] == [];
    }
  }

  /**
   * Whoever the guard admits with a non-empty allowed set gets one of the
   * allowed companies.
   */
  lemma PreludeAdmitsOnlyAllowed(user: Option<User>, s: Store, companyId: string)
    requires AllowedCompanyIds(user, s) != {}
    requires Prelude(user, s, companyId).Ok?
    ensures Prelude(user, s, companyId).value.id in AllowedCompanyIds(user, s)
  {
    var allowed := AllowedCompanyIds(user, s);
    var x :| x in allowed && NatToStr(x) == companyId;
    ParseIntOfNatToStr(x);
  }

  /**
   * A logged-in user with an empty allowed set, a superuser or a user with no
   * assignment and no advised company alike, reaches every company.
   */
  lemma EmptyAllowedReachesEveryCompany(user: Option<User>, s: Store, c: Company)
    requires LoggedIn(user) && AllowedCompanyIds(user, s) == {}
    requires UniqueIds(s.companies) && c in s.companies
    ensures Prelude(user, s, NatToStr(c.id)) == Ok(c)
  {
    ParseIntOfNatToStr(c.id);
    FindCompanyUnique(s.companies, c);
  }

  /** A user with no assignment and no advised company is such a user. */
  lemma UnassignedUserReachesEveryCompany(user: User, s: Store, c: Company)
    requires user.isAuthenticated && !user.isSuperuser
    requires forall row :: row in s.analysts ==> row.user != user.id
    requires forall k :: k in s.companies ==> k.data.advisor != Some(user.id)
    requires UniqueIds(s.companies) && c in s.companies
    ensures Prelude(Some(user), s, NatToStr(c.id)) == Ok(c)
  {
    assert AllowedCompanyIds(Some(user), s) == {};
    EmptyAllowedReachesEveryCompany(Some(user), s, c);
  }

  // ---- orderings ---------------------------------------------------------------

  /** `order_by("-assessment_date")`. */
  predicate NewerFirst(a: Assessment, b: Assessment)
  {
    a.date >= b.date
  }

  lemma NewerFirstIsPreorder()
    ensures TotalPreorder(NewerFirst)
  {
  }

  /** `Assessment.objects.filter(company=company).order_by("-assessment_date")`; ties keep the table's order. */
  function CompanyAssessments(as_: seq<Assessment>, company: CompanyId): (r: seq<Assessment>)
    ensures multiset(r) == multiset(Keep(as_, (a: Assessment) => a.company == company))
    ensures SortedBy(r, NewerFirst)
  {
    NewerFirstIsPreorder();
    SortBy(Keep(as_, (a: Assessment) => a.company == company), NewerFirst)
  }

  lemma CompanyAssessmentsMembers(as_: seq<Assessment>, company: CompanyId, a: Assessment)
    ensures a in CompanyAssessments(as_, company) <==> a in as_ && a.company == company
  {
    var p := (x: Assessment) => x.company == company;
    KeepCount(as_, p, a);
    assert a in CompanyAssessments(as_, company) <==> a in multiset(CompanyAssessments(as_, company));
    assert a in as_ <==> a in multiset(as_);
  }

  /** `order_by("instrument_code", "code")`. */
  predicate CatalogLe(a: Question, b: Question)
  {
    KeysLe([Text(Some(a.instrumentCode)), Text(Some(a.code))], [Text(Some(b.instrumentCode)), Text(Some(b.code))])
  }

  lemma CatalogLeIsPreorder()
    ensures TotalPreorder(CatalogLe)
  {
    forall a: Question, b: Question ensures CatalogLe(a, b) || CatalogLe(b, a) {
      KeysLeTotal([Text(Some(a.instrumentCode)), Text(Some(a.code))], [Text(Some(b.instrumentCode)), Text(Some(b.code))]);
    }
    forall a: Question, b: Question, c: Question | CatalogLe(a, b) && CatalogLe(b, c) ensures CatalogLe(a, c) {
      KeysLeTransitive([Text(Some(a.instrumentCode)), Text(Some(a.code))], [Text(Some(b.instrumentCode)), Text(Some(b.code))],
        [Text(Some(c.instrumentCode)), Text(Some(c.code))]);
    }
  }

  /** `Question.objects.filter(is_active=True).order_by("instrument_code", "code")`. */
  function ActiveQuestions(qs: seq<Question>): (r: seq<Question>)
    ensures multiset(r) == multiset(Keep(qs, (q: Question) => q.isActive))
    ensures SortedBy(r, CatalogLe)
  {
    CatalogLeIsPreorder();
    SortBy(Keep(qs, (q: Question) => q.isActive), CatalogLe)
  }

  lemma ActiveQuestionsMembers(qs: seq<Question>, q: Question)
    ensures q in ActiveQuestions(qs) <==> q in qs && q.isActive
  {
    var p := (x: Question) => x.isActive;
    KeepCount(qs, p, q);
    assert q in ActiveQuestions(qs) <==> q in multiset(ActiveQuestions(qs));
    assert q in qs <==> q in multiset(qs);
  }

  /** The responses of assessment `aid`, in table order. */
  function ResponsesOf(rs: seq<Response>, aid: AssessmentId): (r: seq<Response>)
    ensures forall x :: x in r <==> x in rs && x.assessment == aid
  {
    Keep(rs, (x: Response) => x.assessment == aid)
  }

  /** The five newest assessments of the company. */
  function RecentAssessments(as_: seq<Assessment>, company: CompanyId): seq<Assessment>
  {
    Take(CompanyAssessments(as_, company), RecentLimit)
  }

  /**
   * `response_list` shows at most five of the company's assessments, newest first;
   * when one of them is left out, five are shown and none is older than it.
   */
  lemma RecentAssessmentsAreNewest(as_: seq<Assessment>, company: CompanyId)
    ensures var r := RecentAssessments(as_, company);
      && |r| <= RecentLimit
      && SortedBy(r, NewerFirst)
      && (forall a :: a in r ==> a in as_ && a.company == company)
      && (forall a :: a in as_ && a.company == company && a !in r ==>
            |r| == RecentLimit && forall i :: 0 <= i < |r| ==> r[i].date >= a.date)
  {
    var all := CompanyAssessments(as_, company);
    var r := Take(all, RecentLimit);
    TakeSorted(all, NewerFirst, RecentLimit);
    forall a | a in r ensures a in as_ && a.company == company {
      CompanyAssessmentsMembers(as_, company, a);
    }
    forall a | a in as_ && a.company == company && a !in r
      ensures |r| == RecentLimit && forall i :: 0 <= i < |r| ==> r[i].date >= a.date
    {
      CompanyAssessmentsMembers(as_, company, a);
      TakeSortedIsSmallest(all, NewerFirst, RecentLimit, a);
    }
  }

  function WithResponses(as_: seq<Assessment>, rs: seq<Response>): (r: seq<AssessmentResponses>)
    ensures |r| == |as_|
    ensures forall i :: 0 <= i < |r| ==> r[i].assessment == as_[i] && r[i].responses == ResponsesOf(rs, as_[i].id)
  {
    seq(|as_|, i requires 0 <= i < |as_| => AssessmentResponses(as_[i], ResponsesOf(rs, as_[i].id)))
  }

  // ---- the read-only views ------------------------------------------------------

  /** `assessment_manage`: the tab from `?tab=`, "assessments" when absent; a fragment for HTMX. */
  function AssessmentManage(user: Option<User>, s: Store, companyId: string, tab: Option<string>, htmx: bool): (r: Page)
    ensures Prelude(user, s, companyId).Err? ==> r == Prelude(user, s, companyId).error
    ensures Prelude(user, s, companyId).Ok? ==>
      && r.ManagePage?
      && r.company == Prelude(user, s, companyId).value
      && r.currentTab == (if tab.Some? then tab.value else DefaultTab)
      && r.title == "Perfiles / Diagnóstico — " + r.company.data.name
      && r.template == (if htmx then "profiles/tabs/_" + r.currentTab + ".html" else ManageTemplate)
  {
    match Prelude(user, s, companyId)
    case Err(page) => page
    case Ok(company) =>
      var current := if tab.Some? then tab.value else DefaultTab;
      ManagePage(company, current, "Perfiles / Diagnóstico — " + company.data.name,
                 if htmx then "profiles/tabs/_" + current + ".html" else ManageTemplate)
  }

  /** `assessment_list`: the company's assessments, newest first. */
  function AssessmentList(user: Option<User>, s: Store, ps: ProfilesStore, companyId: string): (r: Page)
    ensures Prelude(user, s, companyId).Err? ==> r == Prelude(user, s, companyId).error
    ensures Prelude(user, s, companyId).Ok? ==>
      r == AssessmentsTab(Prelude(user, s, companyId).value,
                          CompanyAssessments(ps.assessments, Prelude(user, s, companyId).value.id))
  {
    match Prelude(user, s, companyId)
    case Err(page) => page
    case Ok(company) => AssessmentsTab(company, CompanyAssessments(ps.assessments, company.id))
  }

  /** `question_list`: the whole active catalog, whatever the company. */
  function QuestionList(user: Option<User>, s: Store, ps: ProfilesStore, companyId: string): (r: Page)
    ensures Prelude(user, s, companyId).Err? ==> r == Prelude(user, s, companyId).error
    ensures Prelude(user, s, companyId).Ok? ==>
      r == QuestionsTab(Prelude(user, s, companyId).value, ActiveQuestions(ps.questions))
  {
    match Prelude(user, s, companyId)
    case Err(page) => page
    case Ok(company) => QuestionsTab(company, ActiveQuestions(ps.questions))
  }

  /** `response_list`: the five newest assessments with their responses. */
  function ResponseList(user: Option<User>, s: Store, ps: ProfilesStore, companyId: string): (r: Page)
    ensures Prelude(user, s, companyId).Err? ==> r == Prelude(user, s, companyId).error
    ensures Prelude(user, s, companyId).Ok? ==>
      && r.ResponsesTab?
      && r.company == Prelude(user, s, companyId).value
      && r.recent == WithResponses(RecentAssessments(ps.assessments, r.company.id), ps.responses)
  {
    match Prelude(user, s, companyId)
    case Err(page) => page
    case Ok(company) => ResponsesTab(company, WithResponses(RecentAssessments(ps.assessments, company.id), ps.responses))
  }

  /** `get_object_or_404(Assessment, id=assessment_id, company=company)`. */
  function FindAssessment(as_: seq<Assessment>, aid: AssessmentId, company: CompanyId): (r: Option<Assessment>)
    ensures r.Some? <==> exists a :: a in as_ && a.id == aid && a.company == company
    ensures r.Some? ==> r.value in as_ && r.value.id == aid && r.value.company == company
  {
    if as_ == [] then None
    else if as_[0].id == aid && as_[0].company == company then Some(as_[0])
    else
      var r := FindAssessment(as_[1..], aid, company);
      assert forall a :: a in as_[1..] ==> a in as_;
      assert forall a :: a in as_ && a != as_[0] ==> a in as_[1..];
      r
  }

  /** The questions assessment_fill works on. */
  function QuestionsToFill(ps: ProfilesStore, a: Assessment): seq<Question>
  {
    FillQuestions(ps.questions, NormalizeInstrumentCode(a.instrumentCode), a.instrumentVersion)
  }

  // ---- the profiles tables ---------------------------------------------------------

  /**
   * The Question, Assessment and Response tables as the views change them.
   * `nextAssessmentId` and `nextResponseId` stand for the fresh UUIDs new rows get.
   */
  class ProfilesDb {
    var store: ProfilesStore
    var nextAssessmentId: AssessmentId
    var nextResponseId: ResponseId

    ghost predicate Valid()
      reads this
    {
      && UniqueQuestions(store.questions)
      && UniqueAssessmentIds(store.assessments)
      && UniqueResponses(store.responses)
      && (forall a :: a in store.assessments ==> a.id < nextAssessmentId)
      && KeysBelow(store.responses, nextResponseId)
      && (forall r :: r in store.responses ==>
            r.assessment in AssessmentIds(store.assessments) && r.question in QuestionIds(store.questions))
    }

    constructor (ps: ProfilesStore, nextA: AssessmentId, nextR: ResponseId)
      requires UniqueQuestions(ps.questions) && UniqueAssessmentIds(ps.assessments) && UniqueResponses(ps.responses)
      requires forall a :: a in ps.assessments ==> a.id < nextA
      requires KeysBelow(ps.responses, nextR)
      requires forall r :: r in ps.responses ==> r.assessment in AssessmentIds(ps.assessments) && r.question in QuestionIds(ps.questions)
      ensures Valid() && store == ps && nextAssessmentId == nextA && nextResponseId == nextR
    {
      store := ps;
      nextAssessmentId := nextA;
      nextResponseId := nextR;
    }

    /** `form.save(commit=False)`, then the view sets company and analyst and saves. */
    method CreateAssessment(company: CompanyId, analyst: UserId, input: AssessmentInput) returns (a: Assessment)
      requires Valid()
      modifies this
      ensures Valid()
      ensures a == Assessment(old(nextAssessmentId), company, input.instrumentCode, input.instrumentVersion,
                              input.date, analyst, input.notes)
      ensures store == old(store).(assessments := old(store.assessments) + [a])
      ensures nextAssessmentId == old(nextAssessmentId) + 1 && nextResponseId == old(nextResponseId)
    {
      a := Assessment(nextAssessmentId, company, input.instrumentCode, input.instrumentVersion, input.date, analyst, input.notes);
      store := store.(assessments := store.assessments + [a]);
      nextAssessmentId := nextAssessmentId + 1;
      assert forall x :: x in old(store.assessments) ==> x in store.assessments;
    }

    /**
     * The POST of `assessment_fill` inside `transaction.atomic()`: for each question an
     * answered field updates the existing response or creates one; the first answer
     * that is not an integer, or whose score the column cannot hold, raises, and the
     * transaction leaves every table as it was.
     */
    method SaveAnswers(aid: AssessmentId, qs: seq<Question>, post: map<string, string>) returns (r: Result<(seq<Response>, ResponseId), FillError>)
      requires Valid()
      requires aid in AssessmentIds(store.assessments)
      requires DistinctBy(qs, QuestionKey)
      requires forall q :: q in qs ==> q.id in QuestionIds(store.questions)
      modifies this
      ensures Valid()
      ensures r == FillAnswers(old(store.responses), old(nextResponseId), aid, ExistingResponses(old(store.responses), aid), qs, post)
      ensures r.Err? ==> store == old(store) && nextResponseId == old(nextResponseId)
      ensures r.Ok? ==> store == old(store).(responses := r.value.0) && nextResponseId == r.value.1
      ensures nextAssessmentId == old(nextAssessmentId)
    {
      var rows0, next0 := store.responses, nextResponseId;
      var existing := ExistingResponses(rows0, aid);
      // The rows as the open transaction sees them; they are committed at the end.
      var rows, next := rows0, next0;
      var i := 0;
      while i < |qs|
        invariant 0 <= i <= |qs|
        invariant FillAnswers(rows0, next0, aid, existing, qs[..i], post) == Ok((rows, next))
        invariant store == old(store) && nextResponseId == next0 && nextAssessmentId == old(nextAssessmentId)
      {
        FillAnswersSnoc(rows0, next0, aid, existing, qs, i, post, (rows, next));
        var step := SaveAnswer(rows, next, aid, existing, qs[i], post);
        if step.Err? {
          FillAnswersAbortSticks(rows0, next0, aid, existing, qs, i + 1, post);
          return step;
        }
        rows, next := step.value.0, step.value.1;
        i := i + 1;
      }
      assert qs[..|qs|] == qs;
      FillAnswersStored(store, next0, aid, qs, post);
      store := store.(responses := rows);
      nextResponseId := next;
      r := Ok((rows, next));
    }
  }

  /**
   * One question of the POST loop of `assessment_fill`, on the rows the open
   * transaction sees: a blank answer is skipped, an answer that is not an
   * integer aborts, so does one whose score overflows the `decimal(6,2)` column
   * at the save, otherwise the existing response is updated or a new one is
   * created with the next key.
   */
  method SaveAnswer(rows: seq<Response>, next: ResponseId, aid: AssessmentId, existing: map<QuestionId, Response>,
                    q: Question, post: map<string, string>) returns (res: Result<(seq<Response>, ResponseId), FillError>)
    ensures res == ApplyAnswer(rows, next, aid, existing, q, post)
  {
    var answer := if AnswerKey(q.id) in post then post[AnswerKey(q.id)] else "";
    var observations := if ObservationsKey(q.id) in post then post[ObservationsKey(q.id)] else "";
    assert answer == AnswerText(post, q) && observations == Observations(post, q);
    if answer == "" {
      return Ok((rows, next));
    }
    var parsed := ParseInt(answer);
    if parsed.None? {
      return Err(InvalidAnswer(q.id));
    }
    var v := parsed.value;
    assert Answered(post, q) && ParseInt(AnswerText(post, q)) == Some(v);
    if !FitsScoreColumn(ScoreOf(v)) {
      // The database rejects the INSERT or UPDATE; the exception leaves the atomic block.
      return Err(ScoreOverflow(q.id));
    }
    if q.id in existing {
      var resp := existing[q.id].(answerValue := v, score := ScoreOf(v), observations := observations);
      return Ok((SaveRow(rows, resp), next));
    }
    var resp := Response(next, aid, q.id, v, ScoreOf(v), observations);
    return Ok((rows + [resp], next + 1));
  }

  /** One more question of the loop. */
  lemma FillAnswersSnoc(rows: seq<Response>, next: ResponseId, aid: AssessmentId, existing: map<QuestionId, Response>,
                        qs: seq<Question>, i: nat, post: map<string, string>, st: (seq<Response>, ResponseId))
    requires i < |qs|
    requires FillAnswers(rows, next, aid, existing, qs[..i], post) == Ok(st)
    ensures FillAnswers(rows, next, aid, existing, qs[..i + 1], post) == ApplyAnswer(st.0, st.1, aid, existing, qs[i], post)
  {
    assert qs[..i + 1][..i] == qs[..i] && qs[..i + 1][i] == qs[i];
  }

  /** A successful POST keeps the tables' invariants. */
  lemma FillAnswersStored(ps: ProfilesStore, next: ResponseId, aid: AssessmentId, qs: seq<Question>, post: map<string, string>)
    requires UniqueResponses(ps.responses) && KeysBelow(ps.responses, next)
    requires forall r :: r in ps.responses ==> r.assessment in AssessmentIds(ps.assessments) && r.question in QuestionIds(ps.questions)
    requires aid in AssessmentIds(ps.assessments)
    requires DistinctBy(qs, QuestionKey)
    requires forall q :: q in qs ==> q.id in QuestionIds(ps.questions)
    requires FillAnswers(ps.responses, next, aid, ExistingResponses(ps.responses, aid), qs, post).Ok?
    ensures var st := FillAnswers(ps.responses, next, aid, ExistingResponses(ps.responses, aid), qs, post).value;
      && UniqueResponses(st.0) && KeysBelow(st.0, st.1)
      && forall r :: r in st.0 ==> r.assessment in AssessmentIds(ps.assessments) && r.question in QuestionIds(ps.questions)
  {
    FillAnswersCorrect(ps.responses, next, aid, qs, post);
    FillAnswersOutcome(ps.responses, next, aid, qs, post);
    var st := FillAnswers(ps.responses, next, aid, ExistingResponses(ps.responses, aid), qs, post).value;
    forall r | r in st.0 ensures r.id < st.1 {
      var i :| 0 <= i < |st.0| && st.0[i] == r;
      if i < |ps.responses| {
        assert SameKeys(st.0[i], ps.responses[i]);
        assert ps.responses[i] in ps.responses;
      }
    }
    forall r | r in st.0 ensures r.assessment in AssessmentIds(ps.assessments) && r.question in QuestionIds(ps.questions) {
      if r !in ps.responses {
        var q :| q in qs && Wanted(aid, q, post, r);
      }
    }
  }

  // ---- the views that write -------------------------------------------------------

  /**
   * `assessment_create`: a valid POST saves an assessment stamped with the URL's
   * company and the requesting user, then answers the refreshed list to HTMX or
   * redirects to the manage page; anything else shows the form.
   */
  method AssessmentCreate(db: ProfilesDb, user: Option<User>, s: Store, companyId: string,
                          isPost: bool, formValid: bool, input: AssessmentInput, htmx: bool) returns (page: Page)
    requires db.Valid()
    modifies db
    ensures db.Valid()
    ensures Prelude(user, s, companyId).Err? ==> page == Prelude(user, s, companyId).error && unchanged(db)
    ensures Prelude(user, s, companyId).Ok? && !(isPost && formValid) ==>
      page == AssessmentFormPage(Prelude(user, s, companyId).value) && unchanged(db)
    ensures Prelude(user, s, companyId).Ok? && isPost && formValid ==>
      var company := Prelude(user, s, companyId).value;
      var a := Assessment(old(db.nextAssessmentId), company.id, input.instrumentCode, input.instrumentVersion,
                          input.date, user.value.id, input.notes);
      && db.store == old(db.store).(assessments := old(db.store.assessments) + [a])
      && page == if htmx then AssessmentsTab(company, CompanyAssessments(db.store.assessments, company.id))
                 else RedirectToManage(companyId)
  {
    match Prelude(user, s, companyId)
    case Err(p) => return p;
    case Ok(company) =>
      if isPost && formValid {
        var a := db.CreateAssessment(company.id, user.value.id, input);
        if htmx {
          return AssessmentsTab(company, CompanyAssessments(db.store.assessments, company.id));
        }
        return RedirectToManage(companyId);
      }
      return AssessmentFormPage(company);
  }

  /**
   * `assessment_fill`: the assessment must belong to the URL's company.  A POST saves
   * the answers all or nothing and shows the company's assessments; a GET shows the
   * questions to fill grouped by dimension and sub-dimension, with the saved responses.
   */
  method AssessmentFill(db: ProfilesDb, user: Option<User>, s: Store, companyId: string, aid: AssessmentId,
                        isPost: bool, post: map<string, string>) returns (page: Page)
    requires db.Valid()
    modifies db
    ensures db.Valid()
    ensures Prelude(user, s, companyId).Err? ==> page == Prelude(user, s, companyId).error && unchanged(db)
    ensures Prelude(user, s, companyId).Ok? &&
            FindAssessment(old(db.store.assessments), aid, Prelude(user, s, companyId).value.id).None? ==>
      page == Http404 && unchanged(db)
    ensures Prelude(user, s, companyId).Ok? && isPost &&
            FindAssessment(old(db.store.assessments), aid, Prelude(user, s, companyId).value.id).Some? ==>
      var company := Prelude(user, s, companyId).value;
      var a := FindAssessment(old(db.store.assessments), aid, company.id).value;
      var res := FillAnswers(old(db.store.responses), old(db.nextResponseId), aid,
                             ExistingResponses(old(db.store.responses), aid), QuestionsToFill(old(db.store), a), post);
      && (res.Err? ==> page == ServerError && db.store == old(db.store) && db.nextResponseId == old(db.nextResponseId))
      && (res.Ok? ==> db.store == old(db.store).(responses := res.value.0)
                      && page == AssessmentsTab(company, CompanyAssessments(db.store.assessments, company.id)))
    ensures Prelude(user, s, companyId).Ok? && !isPost &&
            FindAssessment(old(db.store.assessments), aid, Prelude(user, s, companyId).value.id).Some? ==>
      var company := Prelude(user, s, companyId).value;
      var a := FindAssessment(old(db.store.assessments), aid, company.id).value;
      && unchanged(db)
      && page.FillPage? && page.company == company && page.assessment == a
      && GroupedAs(page.grouped, QuestionsToFill(old(db.store), a))
      && page.existing == ExistingResponses(old(db.store.responses), aid)
  {
    match Prelude(user, s, companyId)
    case Err(p) => return p;
    case Ok(company) =>
      var found := FindAssessment(db.store.assessments, aid, company.id);
      if found.None? {
        return Http404;
      }
      var a := found.value;
      var qs := QuestionsToFill(db.store, a);
      var existing := ExistingResponses(db.store.responses, aid);
      if isPost {
        page := FillPost(db, company, a, post);
        return;
      }
      var grouped := GroupQuestions(qs);
      return FillPage(company, a, grouped, existing);
  }

  lemma QuestionsToFillFromCatalog(ps: ProfilesStore, a: Assessment)
    requires UniqueQuestions(ps.questions)
    ensures DistinctBy(QuestionsToFill(ps, a), QuestionKey)
    ensures forall q :: q in QuestionsToFill(ps, a) ==> q.id in QuestionIds(ps.questions)
  {
    var code := NormalizeInstrumentCode(a.instrumentCode);
    FillQuestionsDistinct(ps.questions, code, a.instrumentVersion);
    forall q | q in QuestionsToFill(ps, a) ensures q.id in QuestionIds(ps.questions) {
      FillQuestionsMembers(ps.questions, code, a.instrumentVersion, q);
    }
  }

  /** The POST branch of `assessment_fill`. */
  method FillPost(db: ProfilesDb, company: Company, a: Assessment, post: map<string, string>) returns (page: Page)
    requires db.Valid() && a in db.store.assessments
    modifies db
    ensures db.Valid()
    ensures var res := FillAnswers(old(db.store.responses), old(db.nextResponseId), a.id,
                                   ExistingResponses(old(db.store.responses), a.id), QuestionsToFill(old(db.store), a), post);
      && (res.Err? ==> page == ServerError && db.store == old(db.store) && db.nextResponseId == old(db.nextResponseId))
      && (res.Ok? ==> db.store == old(db.store).(responses := res.value.0)
                      && page == AssessmentsTab(company, CompanyAssessments(db.store.assessments, company.id)))
  {
    var qs := QuestionsToFill(db.store, a);
    QuestionsToFillFromCatalog(db.store, a);
    assert a.id in AssessmentIds(db.store.assessments);
    var saved := db.SaveAnswers(a.id, qs, post);
    if saved.Err? {
      return ServerError;
    }
    return AssessmentsTab(company, CompanyAssessments(db.store.assessments, company.id));
  }
}
