/**
 * apps/profiles/models.py: the question catalogue, the assessments of a
 * company and the responses to them.  Primary keys are UUIDs; a question's
 * key is kept as its string form, because the fill form builds field names
 * from it, while assessments and responses get fresh abstract keys.
 */
module ProfilesModels {
  import opened Wrappers
  import opened Seqs
  import opened CoreModels

  type QuestionId = string
  type AssessmentId = nat
  type ResponseId = nat

  /** A catalogue question; `weight` is decimal(5,2) in hundredths. */
  datatype Question = Question(
    id: QuestionId,
    instrumentCode: string,
    instrumentVersion: string,
    code: string,
    text: string,
    dimension: string,
    subDimension: Option<string>,
    weight: int,
    isActive: bool)

  /** An application of an instrument to a company on a date (a day number), by an analyst. */
  datatype Assessment = Assessment(
    id: AssessmentId,
    company: CompanyId,
    instrumentCode: string,
    instrumentVersion: string,
    date: int,
    analyst: UserId,
    notes: string)

  /**
   * A response: `answerValue` is any integer (the "1..4" of the source is a
   * comment, not a constraint) and `score` is decimal(6,2) in hundredths.
   */
  datatype Response = Response(
    id: ResponseId,
    assessment: AssessmentId,
    question: QuestionId,
    answerValue: int,
    score: int,
    observations: string)

  datatype ProfilesStore = ProfilesStore(questions: seq<Question>, assessments: seq<Assessment>, responses: seq<Response>)

  /** A question with only its required columns given: the others take their defaults. */
  function NewQuestion(id: QuestionId, instrumentCode: string, instrumentVersion: string, code: string, text: string): (q: Question)
    ensures q.weight == 100 && q.isActive
    ensures q.dimension == "" && q.subDimension == None
    ensures q.id == id && q.instrumentCode == instrumentCode && q.instrumentVersion == instrumentVersion
    ensures q.code == code && q.text == text
  {
    Question(id, instrumentCode, instrumentVersion, code, text, "", None, 100, true)
  }

  /** Question keys are unique, and so is (instrument_code, instrument_version, code). */
  predicate UniqueQuestions(qs: seq<Question>)
  {
    forall i, j :: 0 <= i < j < |qs| ==>
      qs[i].id != qs[j].id &&
      (qs[i].instrumentCode, qs[i].instrumentVersion, qs[i].code) != (qs[j].instrumentCode, qs[j].instrumentVersion, qs[j].code)
  }

  predicate UniqueAssessmentIds(as_: seq<Assessment>)
  {
    forall i, j :: 0 <= i < j < |as_| ==> as_[i].id != as_[j].id
  }

  /** Response keys are unique, and so is (assessment, question). */
  predicate UniqueResponses(rs: seq<Response>)
  {
    forall i, j :: 0 <= i < j < |rs| ==>
      rs[i].id != rs[j].id && (rs[i].assessment, rs[i].question) != (rs[j].assessment, rs[j].question)
  }

  function AssessmentIds(as_: seq<Assessment>): set<AssessmentId>
  {
    set a | a in as_ :: a.id
  }

  function QuestionIds(qs: seq<Question>): set<QuestionId>
  {
    set q | q in qs :: q.id
  }

  /** The database constraints, with `companies` the ids of the Company table. */
  predicate ValidProfiles(ps: ProfilesStore, companies: set<CompanyId>)
  {
    && UniqueQuestions(ps.questions)
    && UniqueAssessmentIds(ps.assessments)
    && UniqueResponses(ps.responses)
    && (forall a :: a in ps.assessments ==> a.company in companies)
    && (forall r :: r in ps.responses ==> r.assessment in AssessmentIds(ps.assessments) && r.question in QuestionIds(ps.questions))
  }

  /** Deleting an assessment deletes its responses (CASCADE). */
  function DeleteAssessment(ps: ProfilesStore, id: AssessmentId): (r: ProfilesStore)
    ensures r.questions == ps.questions
    ensures forall a :: a in r.assessments <==> a in ps.assessments && a.id != id
    ensures forall x :: x in r.responses <==> x in ps.responses && x.assessment != id
  {
    ProfilesStore(
      ps.questions,
      Keep(ps.assessments, (a: Assessment) => a.id != id),
      Keep(ps.responses, (x: Response) => x.assessment != id))
  }

  /** The ids of the company's assessments. */
  function CompanyAssessmentIds(as_: seq<Assessment>, company: CompanyId): set<AssessmentId>
  {
    set a | a in as_ && a.company == company :: a.id
  }

  /**
   * Deleting a company deletes its assessments (CASCADE), and through them
   * exactly their responses; every other response stays.
   */
  function DeleteCompanyProfiles(ps: ProfilesStore, company: CompanyId): (r: ProfilesStore)
    ensures r.questions == ps.questions
    ensures forall a :: a in r.assessments <==> a in ps.assessments && a.company != company
    ensures forall x :: x in r.responses <==>
      x in ps.responses && x.assessment !in CompanyAssessmentIds(ps.assessments, company)
  {
    var gone := CompanyAssessmentIds(ps.assessments, company);
    ProfilesStore(
      ps.questions,
      Keep(ps.assessments, (a: Assessment) => a.company != company),
      Keep(ps.responses, (x: Response) => x.assessment !in gone))
  }

  /** Deleting a question deletes its responses (CASCADE). */
  function DeleteQuestion(ps: ProfilesStore, id: QuestionId): (r: ProfilesStore)
    ensures r.assessments == ps.assessments
    ensures forall q :: q in r.questions <==> q in ps.questions && q.id != id
    ensures forall x :: x in r.responses <==> x in ps.responses && x.question != id
  {
    ProfilesStore(
      Keep(ps.questions, (q: Question) => q.id != id),
      ps.assessments,
      Keep(ps.responses, (x: Response) => x.question != id))
  }

  datatype ProtectedError = ProtectedError

  /** Deleting a user referenced as an assessment's analyst is refused (PROTECT). */
  function DeleteAnalyst(ps: ProfilesStore, user: UserId): (r: Result<ProfilesStore, ProtectedError>)
    ensures r.Err? <==> exists a :: a in ps.assessments && a.analyst == user
    ensures r.Ok? ==> r.value == ps
  {
    if exists a :: a in ps.assessments && a.analyst == user then Err(ProtectedError) else Ok(ps)
  }

  /**
   * Deleting a user across both apps.  The collector checks PROTECT first, so
   * an analyst of some assessment is refused with nothing changed, the
   * AnalystCompany CASCADE and the advisor SET_NULL included; anyone else is
   * deleted as the core models state, with the profiles untouched.
   */
  function DeleteUserEverywhere(s: Store, ps: ProfilesStore, user: UserId): (r: Result<(Store, ProfilesStore), ProtectedError>)
    ensures r.Err? <==> exists a :: a in ps.assessments && a.analyst == user
    ensures r.Ok? ==> r.value.1 == ps
    ensures r.Ok? ==> CompanyIds(r.value.0.companies) == CompanyIds(s.companies)
    ensures r.Ok? ==> forall c :: c in r.value.0.companies ==> c.data.advisor != Some(user)
    ensures r.Ok? ==> forall row :: row in r.value.0.analysts <==> row in s.analysts && row.user != user
  {
    match DeleteAnalyst(ps, user)
    case Err(e) => Err(e)
    case Ok(kept) => Ok((DeleteUser(s, user), kept))
  }

  lemma KeepUniqueResponses(rs: seq<Response>, p: Response -> bool)
    requires UniqueResponses(rs)
    ensures UniqueResponses(Keep(rs, p))
  {
    var ids := (x: Response) => x.id;
    var pairs := (x: Response) => (x.assessment, x.question);
    assert DistinctBy(rs, ids) && DistinctBy(rs, pairs);
    KeepDistinctBy(rs, p, ids);
    KeepDistinctBy(rs, p, pairs);
  }

  lemma KeepUniqueAssessments(as_: seq<Assessment>, p: Assessment -> bool)
    requires UniqueAssessmentIds(as_)
    ensures UniqueAssessmentIds(Keep(as_, p))
  {
    var ids := (x: Assessment) => x.id;
    assert DistinctBy(as_, ids);
    KeepDistinctBy(as_, p, ids);
  }

  /**
   * After a company's deletion the remaining profiles are consistent with
   * the remaining companies: no assessment of it and no response to one
   * of its assessments is left behind.
   */
  lemma DeleteCompanyProfilesValid(ps: ProfilesStore, companies: set<CompanyId>, company: CompanyId)
    requires ValidProfiles(ps, companies)
    ensures ValidProfiles(DeleteCompanyProfiles(ps, company), companies - {company})
  {
    var r := DeleteCompanyProfiles(ps, company);
    var gone := CompanyAssessmentIds(ps.assessments, company);
    KeepUniqueResponses(ps.responses, (x: Response) => x.assessment !in gone);
    KeepUniqueAssessments(ps.assessments, (a: Assessment) => a.company != company);
    forall x | x in r.responses ensures x.assessment in AssessmentIds(r.assessments) {
      var a :| a in ps.assessments && a.id == x.assessment;
      assert a.company != company;
      assert a in r.assessments;
    }
  }
}
