/**
 * The logic of `assessment_fill` in apps/profiles/views.py: normalising the
 * stored instrument code, selecting the questions to fill, saving a POST of
 * answers (one response per answered question, created or updated, all or
 * nothing), and grouping the questions by dimension and sub-dimension.
 */
module ProfilesFill {
  import opened Wrappers
  import opened Seqs
  import opened PyStr
  import opened Ordering
  import opened ProfilesModels

  // ---- instrument code ----------------------------------------------------

  /** Strip, drop every " v1", then every " V1", then every " 1", strip again. */
  function NormalizeInstrumentCode(raw: string): string
  {
    Strip(Replace(Replace(Replace(Strip(raw), " v1", ""), " V1", ""), " 1", ""))
  }

  predicate NoSpace(c: string)
  {
    forall i :: 0 <= i < |c| ==> !IsSpace(c[i])
  }

  /** A prefix without blanks is never part of an occurrence of a pattern that starts with a blank. */
  lemma {:induction false} ReplaceSkipsNoSpace(c: string, t: string, pat: string, rep: string)
    requires |pat| > 0 && pat[0] == ' '
    requires NoSpace(c)
    ensures Replace(c + t, pat, rep) == c + Replace(t, pat, rep)
  {
    if c == [] {
      assert c + t == t;
    } else {
      var s := c + t;
      assert s[0] == c[0] && s[1..] == c[1..] + t;
      NoSpaceTail(c);
      ReplaceSkipsNoSpace(c[1..], t, pat, rep);
      ReplaceBlankFirst(s, pat, rep);
      assert c == [c[0]] + c[1..];
    }
  }

  lemma NoSpaceTail(c: string)
    requires c != [] && NoSpace(c)
    ensures !IsSpace(c[0]) && NoSpace(c[1..])
  {
    forall i | 0 <= i < |c[1..]| ensures !IsSpace(c[1..][i]) {
      assert c[1..][i] == c[i + 1];
    }
  }

  /** A string that does not start with a blank does not start with the pattern. */
  lemma ReplaceBlankFirst(s: string, pat: string, rep: string)
    requires |pat| > 0 && pat[0] == ' ' && s != [] && !IsSpace(s[0])
    ensures Replace(s, pat, rep) == [s[0]] + Replace(s[1..], pat, rep)
  {
    assert IsSpace(' ');
    if |s| >= |pat| {
      assert s[..|pat|][0] == s[0];
    } else {
      assert Replace(s, pat, rep) == s;
      assert Replace(s[1..], pat, rep) == s[1..];
      assert s == [s[0]] + s[1..];
    }
  }

  lemma NoSpaceStrip(c: string)
    requires NoSpace(c)
    ensures Strip(c) == c
  {
    if c != [] {
      StripNoEdges(c);
    }
  }

  lemma ReplaceNoSpaceAlone(c: string, pat: string)
    requires |pat| > 0 && pat[0] == ' '
    requires NoSpace(c)
    ensures Replace(c, pat, "") == c
  {
    ReplaceSkipsNoSpace(c, [], pat, "");
    assert c + [] == c;
  }

  /** Stripping and removing the earlier patterns leave `c + sfx` as it is when `sfx` holds none of them. */
  lemma StripSuffixed(c: string, sfx: string)
    requires c != [] && NoSpace(c)
    requires sfx != [] && sfx[|sfx| - 1] == '1'
    ensures Strip(c + sfx) == c + sfx
  {
    var s := c + sfx;
    assert s[0] == c[0] && s[|s| - 1] == '1';
    StripNoEdges(s);
  }

  /** Normalising a blank-free code with no suffix gives it back. */
  lemma NormalizeBare(c: string)
    requires c != [] && NoSpace(c)
    ensures NormalizeInstrumentCode(c) == c
  {
    BareFacts(c);
    NormalizeVia(c, c, c, c, c);
  }

  /** No pattern occurs in a blank-free code. */
  lemma BareFacts(c: string)
    requires c != [] && NoSpace(c)
    ensures Strip(c) == c && Replace(c, " v1", "") == c && Replace(c, " V1", "") == c && Replace(c, " 1", "") == c
  {
    ReplaceNoSpaceAlone(c, " v1");
    ReplaceNoSpaceAlone(c, " V1");
    ReplaceNoSpaceAlone(c, " 1");
    NoSpaceStrip(c);
  }

  lemma ReplaceWhole(pat: string)
    requires |pat| > 0
    ensures Replace(pat, pat, "") == ""
  {
    assert pat[..|pat|] == pat;
    assert Replace(pat[|pat|..], pat, "") == "";
  }

  lemma ReplaceOtherOfSameLength(s: string, pat: string)
    requires |pat| > 0 && |s| == |pat| && s != pat
    ensures Replace(s, pat, "") == s
  {
    assert s[..|pat|] == s;
    assert Replace(s[1..], pat, "") == s[1..];
    assert s == [s[0]] + s[1..];
  }

  /** The four steps of the normalisation, one equation each. */
  lemma NormalizeVia(raw: string, t0: string, t1: string, t2: string, t3: string)
    requires Strip(raw) == t0 && Replace(t0, " v1", "") == t1 && Replace(t1, " V1", "") == t2
    requires Replace(t2, " 1", "") == t3 && Strip(t3) == t3
    ensures NormalizeInstrumentCode(raw) == t3
  {
  }

  /** Removing a suffix that starts with a blank from a blank-free code gives the code. */
  lemma DropSuffix(c: string, sfx: string)
    requires |sfx| > 0 && sfx[0] == ' ' && NoSpace(c)
    ensures Replace(c + sfx, sfx, "") == c
  {
    ReplaceSkipsNoSpace(c, sfx, sfx, "");
    ReplaceWhole(sfx);
    assert c + "" == c;
  }

  /** A suffix the pattern leaves alone leaves the whole code alone. */
  lemma KeepSuffix(c: string, sfx: string, pat: string)
    requires |pat| > 0 && pat[0] == ' ' && NoSpace(c)
    requires Replace(sfx, pat, "") == sfx
    ensures Replace(c + sfx, pat, "") == c + sfx
  {
    ReplaceSkipsNoSpace(c, sfx, pat, "");
  }

  lemma LowerV1Facts(c: string)
    requires c != [] && NoSpace(c)
    ensures Strip(c + " v1") == c + " v1" && Replace(c + " v1", " v1", "") == c
  {
    DropSuffix(c, " v1");
    StripSuffixed(c, " v1");
  }

  lemma UpperV1Facts(c: string)
    requires c != [] && NoSpace(c)
    ensures Strip(c + " V1") == c + " V1" && Replace(c + " V1", " v1", "") == c + " V1"
    ensures Replace(c + " V1", " V1", "") == c
  {
    ReplaceOtherOfSameLength(" V1", " v1");
    KeepSuffix(c, " V1", " v1");
    DropSuffix(c, " V1");
    StripSuffixed(c, " V1");
  }

  lemma BareOneFacts(c: string)
    requires c != [] && NoSpace(c)
    ensures Strip(c + " 1") == c + " 1" && Replace(c + " 1", " v1", "") == c + " 1"
    ensures Replace(c + " 1", " V1", "") == c + " 1" && Replace(c + " 1", " 1", "") == c
  {
    ShortSuffixKept();
    KeepSuffix(c, " 1", " v1");
    KeepSuffix(c, " 1", " V1");
    DropSuffix(c, " 1");
    StripSuffixed(c, " 1");
  }

  lemma ShortSuffixKept()
    ensures Replace(" 1", " v1", "") == " 1" && Replace(" 1", " V1", "") == " 1"
  {
  }

  lemma NormalizeLowerV1(c: string)
    requires c != [] && NoSpace(c)
    ensures NormalizeInstrumentCode(c + " v1") == c
  {
    LowerV1Facts(c);
    BareFacts(c);
    NormalizeVia(c + " v1", c + " v1", c, c, c);
  }

  lemma NormalizeUpperV1(c: string)
    requires c != [] && NoSpace(c)
    ensures NormalizeInstrumentCode(c + " V1") == c
  {
    UpperV1Facts(c);
    BareFacts(c);
    NormalizeVia(c + " V1", c + " V1", c + " V1", c, c);
  }

  lemma NormalizeBareOne(c: string)
    requires c != [] && NoSpace(c)
    ensures NormalizeInstrumentCode(c + " 1") == c
  {
    BareOneFacts(c);
    BareFacts(c);
    NormalizeVia(c + " 1", c + " 1", c + " 1", c + " 1", c);
  }

  /**
   * A blank-free code is its own normal form, and so are the stored variants
   * with the suffixes " v1", " V1" and " 1".
   */
  lemma NormalizeDropsVersionSuffix(c: string)
    requires c != [] && NoSpace(c)
    ensures NormalizeInstrumentCode(c) == c
    ensures NormalizeInstrumentCode(c + " v1") == c
    ensures NormalizeInstrumentCode(c + " V1") == c
    ensures NormalizeInstrumentCode(c + " 1") == c
  {
    NormalizeBare(c);
    NormalizeLowerV1(c);
    NormalizeUpperV1(c);
    NormalizeBareOne(c);
  }

  /** Codes made of capitals, digits and underscores have no blanks. */
  lemma IdentifierNoSpace(c: string)
    requires forall i :: 0 <= i < |c| ==> 'A' <= c[i] <= 'Z' || c[i] == '_'
    ensures NoSpace(c)
  {
  }

  /** The example the comment in the view gives. */
  lemma NormalizeInnovationProfile(c: string)
    requires c == "INNOVATION_PROFILE"
    ensures NormalizeInstrumentCode(c + " v1") == c
  {
    IdentifierNoSpace(c);
    NormalizeLowerV1(c);
  }

  // ---- questions_qs -------------------------------------------------------

  predicate FillCandidate(code: string, version: string, q: Question)
  {
    q.instrumentCode == code && q.instrumentVersion == version && q.isActive
  }

  /** order_by("dimension", "sub_dimension", "code"), a NULL sub-dimension first. */
  predicate FillLe(a: Question, b: Question)
  {
    KeysLe([Text(Some(a.dimension)), Text(a.subDimension), Text(Some(a.code))], [Text(Some(b.dimension)), Text(b.subDimension), Text(Some(b.code))])
  }

  lemma FillLeIsPreorder()
    ensures TotalPreorder(FillLe)
  {
    forall a: Question, b: Question ensures FillLe(a, b) || FillLe(b, a) {
      KeysLeTotal([Text(Some(a.dimension)), Text(a.subDimension), Text(Some(a.code))], [Text(Some(b.dimension)), Text(b.subDimension), Text(Some(b.code))]);
    }
    forall a: Question, b: Question, c: Question | FillLe(a, b) && FillLe(b, c) ensures FillLe(a, c) {
      KeysLeTransitive([Text(Some(a.dimension)), Text(a.subDimension), Text(Some(a.code))],
        [Text(Some(b.dimension)), Text(b.subDimension), Text(Some(b.code))], [Text(Some(c.dimension)), Text(c.subDimension), Text(Some(c.code))]);
    }
  }

  /** questions_qs: the active questions of the instrument and version, in fill order. */
  function FillQuestions(qs: seq<Question>, code: string, version: string): (r: seq<Question>)
    ensures SortedBy(r, FillLe)
    ensures multiset(r) == multiset(Keep(qs, (q: Question) => FillCandidate(code, version, q)))
  {
    FillLeIsPreorder();
    SortBy(Keep(qs, (q: Question) => FillCandidate(code, version, q)), FillLe)
  }

  /** The selection holds exactly the active questions of that instrument and version. */
  lemma FillQuestionsMembers(qs: seq<Question>, code: string, version: string, q: Question)
    ensures q in FillQuestions(qs, code, version) <==> q in qs && FillCandidate(code, version, q)
  {
    var p := (x: Question) => FillCandidate(code, version, x);
    KeepCount(qs, p, q);
    assert q in FillQuestions(qs, code, version) <==> q in multiset(FillQuestions(qs, code, version));
    assert q in qs <==> q in multiset(qs);
  }

  // ---- the POST -----------------------------------------------------------

  /** existing_responses: the assessment's responses by question, a later row replacing an earlier one. */
  function ExistingResponses(rows: seq<Response>, aid: AssessmentId): (m: map<QuestionId, Response>)
    ensures forall qid :: qid in m ==> m[qid] in rows && m[qid].assessment == aid && m[qid].question == qid
    ensures forall r :: r in rows && r.assessment == aid ==> r.question in m
  {
    if rows == [] then map[]
    else
      var m := ExistingResponses(rows[..|rows| - 1], aid);
      var last := rows[|rows| - 1];
      assert rows == rows[..|rows| - 1] + [last];
      if last.assessment == aid then m[last.question := last] else m
  }

  function AnswerKey(qid: QuestionId): string
  {
    "q_" + qid + "_answer_value"
  }

  function ObservationsKey(qid: QuestionId): string
  {
    "q_" + qid + "_observations"
  }

  /** `request.POST.get(key)`, an absent field reading as the empty string (both are skipped). */
  function AnswerText(post: map<string, string>, q: Question): string
  {
    if AnswerKey(q.id) in post then post[AnswerKey(q.id)] else ""
  }

  /** `request.POST.get(key, "")`. */
  function Observations(post: map<string, string>, q: Question): string
  {
    if ObservationsKey(q.id) in post then post[ObservationsKey(q.id)] else ""
  }

  /** `if not answer_value: continue` skips exactly the absent and empty fields. */
  predicate Answered(post: map<string, string>, q: Question)
  {
    AnswerText(post, q) != ""
  }

  /** A value in hundredths that the column `decimal(6,2)` holds: at most six digits. */
  predicate FitsScoreColumn(s: int)
  {
    -999999 <= s <= 999999
  }

  /** `Decimal(str(value))` in hundredths. */
  function ScoreOf(v: int): int
  {
    100 * v
  }

  /**
   * The score is the answer in whole units, and it fits the `score` column
   * exactly when the answer has at most four digits.
   */
  lemma ScoreOfUnits(v: int)
    ensures ScoreOf(v) % 100 == 0 && ScoreOf(v) / 100 == v
    ensures FitsScoreColumn(ScoreOf(v)) <==> -9999 <= v <= 9999
  {
  }

  /**
   * Why the POST loop stopped: `int(answer_value)` raised ValueError, or the
   * database refused the save because the score does not fit `decimal(6,2)`.
   */
  datatype FillError = InvalidAnswer(question: QuestionId) | ScoreOverflow(question: QuestionId)

  /** An answered field the loop cannot save: not an integer, or too large for the score column. */
  predicate Refused(text: string)
  {
    match ParseInt(text)
    case None => true
    case Some(v) => !FitsScoreColumn(ScoreOf(v))
  }

  /**
   * `resp.save()`: the rows keep their places and keys, the row with `r.id` takes
   * the values of `r`, and every other row is left as it was.
   */
  function SaveRow(rows: seq<Response>, r: Response): (t: seq<Response>)
    ensures |t| == |rows|
    ensures forall i :: 0 <= i < |rows| ==> t[i].id == rows[i].id
    ensures forall i :: 0 <= i < |rows| && rows[i].id == r.id ==> t[i] == r
    ensures forall i :: 0 <= i < |rows| && rows[i].id != r.id ==> t[i] == rows[i]
    ensures (exists i :: 0 <= i < |rows| && rows[i].id == r.id) ==> r in t
  {
    seq(|rows|, i requires 0 <= i < |rows| => if rows[i].id == r.id then r else rows[i])
  }

  /** One iteration of the loop over questions_qs; `next` is the key the next created response gets. */
  function ApplyAnswer(rows: seq<Response>, next: ResponseId, aid: AssessmentId, existing: map<QuestionId, Response>,
                       q: Question, post: map<string, string>): Result<(seq<Response>, ResponseId), FillError>
  {
    if !Answered(post, q) then Ok((rows, next))
    else match ParseInt(AnswerText(post, q))
      case None => Err(InvalidAnswer(q.id))
      case Some(v) =>
        if !FitsScoreColumn(ScoreOf(v)) then Err(ScoreOverflow(q.id))
        else if q.id in existing then
          Ok((SaveRow(rows, existing[q.id].(answerValue := v, score := ScoreOf(v), observations := Observations(post, q))), next))
        else
          Ok((rows + [Response(next, aid, q.id, v, ScoreOf(v), Observations(post, q))], next + 1))
  }

  /** The whole loop; the first invalid answer aborts it. */
  function FillAnswers(rows: seq<Response>, next: ResponseId, aid: AssessmentId, existing: map<QuestionId, Response>,
                       qs: seq<Question>, post: map<string, string>): Result<(seq<Response>, ResponseId), FillError>
  {
    if qs == [] then Ok((rows, next))
    else match FillAnswers(rows, next, aid, existing, qs[..|qs| - 1], post)
      case Err(e) => Err(e)
      case Ok(state) => ApplyAnswer(state.0, state.1, aid, existing, qs[|qs| - 1], post)
  }

  /** An aborted prefix aborts every continuation, with the same error. */
  lemma {:induction false} FillAnswersAbortSticks(rows: seq<Response>, next: ResponseId, aid: AssessmentId,
                                                  existing: map<QuestionId, Response>, qs: seq<Question>, n: nat,
                                                  post: map<string, string>)
    requires n <= |qs|
    requires FillAnswers(rows, next, aid, existing, qs[..n], post).Err?
    ensures FillAnswers(rows, next, aid, existing, qs, post) == FillAnswers(rows, next, aid, existing, qs[..n], post)
  {
    if n < |qs| {
      assert qs[..|qs| - 1][..n] == qs[..n];
      FillAnswersAbortSticks(rows, next, aid, existing, qs[..|qs| - 1], n, post);
      assert qs == qs[..|qs|];
    } else {
      assert qs[..n] == qs;
    }
  }

  // ---- what a successful POST leaves behind ---------------------------------

  function QuestionKey(q: Question): QuestionId
  {
    q.id
  }

  /** The questions come from the catalog, whose ids are unique. */
  lemma FillQuestionsDistinct(catalog: seq<Question>, code: string, version: string)
    requires UniqueQuestions(catalog)
    ensures DistinctBy(FillQuestions(catalog, code, version), QuestionKey)
  {
    var p := (q: Question) => FillCandidate(code, version, q);
    assert DistinctBy(catalog, QuestionKey);
    KeepDistinctBy(catalog, p, QuestionKey);
    PermutationDistinctBy(Keep(catalog, p), FillQuestions(catalog, code, version), QuestionKey);
  }

  /** The response the POST asks for question `q` of assessment `aid`. */
  predicate Wanted(aid: AssessmentId, q: Question, post: map<string, string>, r: Response)
  {
    && r.assessment == aid
    && r.question == q.id
    && ParseInt(AnswerText(post, q)) == Some(r.answerValue)
    && r.score == ScoreOf(r.answerValue)
    && FitsScoreColumn(r.score)
    && r.observations == Observations(post, q)
  }

  /** Same primary key, same assessment, same question. */
  predicate SameKeys(a: Response, b: Response)
  {
    a.id == b.id && a.assessment == b.assessment && a.question == b.question
  }

  /** Every row of `rows0` keeps its keys. */
  predicate KeysKept(rows0: seq<Response>, rows: seq<Response>)
  {
    |rows0| <= |rows| && forall i :: 0 <= i < |rows0| ==> SameKeys(rows[i], rows0[i])
  }

  /** The rows after those of `rows0` have the consecutive keys from `next0` on. */
  predicate FreshKeys(rows0: seq<Response>, next0: ResponseId, rows: seq<Response>)
  {
    forall i :: |rows0| <= i < |rows| ==> rows[i].id == next0 + (i - |rows0|)
  }

  /** Row `i` holds what the POST asks for some question of `done`. */
  ghost predicate WantedRow(aid: AssessmentId, done: seq<Question>, post: map<string, string>, rows: seq<Response>, i: int)
    requires 0 <= i < |rows|
  {
    exists q :: q in done && Wanted(aid, q, post, rows[i])
  }

  /** Every changed or created row holds what the POST asks for some question of `done`. */
  ghost predicate OnlyWanted(rows0: seq<Response>, aid: AssessmentId, done: seq<Question>, post: map<string, string>, rows: seq<Response>)
    requires |rows0| <= |rows|
  {
    forall i :: 0 <= i < |rows| && (i >= |rows0| || rows[i] != rows0[i]) ==> WantedRow(aid, done, post, rows, i)
  }

  /** Every answered question of `done` has its row. */
  ghost predicate Covered(aid: AssessmentId, done: seq<Question>, post: map<string, string>, rows: seq<Response>)
  {
    forall q :: q in done && Answered(post, q) ==> exists i :: 0 <= i < |rows| && Wanted(aid, q, post, rows[i])
  }

  /**
   * The responses `rows` (and the next fresh key `next`) after the questions `done` were
   * saved over `rows0`: the rows of `rows0` keep their keys and either are untouched or now
   * hold what the POST asks for; the rows after them were created with consecutive fresh
   * keys, each for a question of `done`; every answered question of `done` has a row.
   */
  ghost predicate Filled(rows0: seq<Response>, next0: ResponseId, aid: AssessmentId, done: seq<Question>,
                         post: map<string, string>, rows: seq<Response>, next: ResponseId)
  {
    && KeysKept(rows0, rows)
    && next == next0 + (|rows| - |rows0|)
    && UniqueResponses(rows)
    && FreshKeys(rows0, next0, rows)
    && OnlyWanted(rows0, aid, done, post, rows)
    && Covered(aid, done, post, rows)
  }

  /** Keys below `next`, as the loop needs for the responses it creates. */
  predicate KeysBelow(rows: seq<Response>, next: ResponseId)
  {
    forall r :: r in rows ==> r.id < next
  }

  lemma FilledStart(rows0: seq<Response>, next0: ResponseId, aid: AssessmentId, post: map<string, string>)
    requires UniqueResponses(rows0)
    ensures Filled(rows0, next0, aid, [], post, rows0, next0)
  {
  }

  /** A question appended to `done` does not take away a witness. */
  lemma OnlyWantedGrows(rows0: seq<Response>, aid: AssessmentId, done: seq<Question>, q: Question,
                        post: map<string, string>, rows: seq<Response>)
    requires |rows0| <= |rows|
    requires OnlyWanted(rows0, aid, done, post, rows)
    ensures OnlyWanted(rows0, aid, done + [q], post, rows)
  {
    forall i | 0 <= i < |rows| && (i >= |rows0| || rows[i] != rows0[i]) ensures WantedRow(aid, done + [q], post, rows, i) {
      assert WantedRow(aid, done, post, rows, i);
      var w :| w in done && Wanted(aid, w, post, rows[i]);
      assert w in done + [q];
    }
  }

  /** Where the ids are unique, saving `r` rewrites exactly the row with its id. */
  lemma SaveRowAt(rows: seq<Response>, i0: nat, r: Response)
    requires UniqueResponses(rows)
    requires i0 < |rows| && rows[i0].id == r.id
    ensures SaveRow(rows, r) == rows[i0 := r]
  {
    forall i | 0 <= i < |rows| ensures SaveRow(rows, r)[i] == rows[i0 := r][i] {
      if i < i0 {
        assert rows[i].id != rows[i0].id;
      } else if i > i0 {
        assert rows[i0].id != rows[i].id;
      }
    }
  }

  /** The row of the existing response of `q`. */
  lemma ExistingRowAt(rows0: seq<Response>, aid: AssessmentId, q: Question, rows: seq<Response>) returns (i0: nat)
    requires q.id in ExistingResponses(rows0, aid)
    requires KeysKept(rows0, rows)
    ensures i0 < |rows0|
    ensures rows0[i0] == ExistingResponses(rows0, aid)[q.id]
    ensures SameKeys(rows[i0], rows0[i0])
  {
    var e := ExistingResponses(rows0, aid)[q.id];
    i0 :| 0 <= i0 < |rows0| && rows0[i0] == e;
  }

  /** Rewriting row `i0` with the same keys and a wanted value keeps `OnlyWanted`. */
  lemma OnlyWantedUpdate(rows0: seq<Response>, aid: AssessmentId, done: seq<Question>, q: Question,
                         post: map<string, string>, rows: seq<Response>, i0: nat, e': Response)
    requires |rows0| <= |rows| && i0 < |rows|
    requires OnlyWanted(rows0, aid, done, post, rows)
    requires Wanted(aid, q, post, e')
    ensures OnlyWanted(rows0, aid, done + [q], post, rows[i0 := e'])
  {
    OnlyWantedGrows(rows0, aid, done, q, post, rows);
    var rows' := rows[i0 := e'];
    forall i | 0 <= i < |rows'| && (i >= |rows0| || rows'[i] != rows0[i]) ensures WantedRow(aid, done + [q], post, rows', i) {
      if i == i0 {
        assert q in done + [q];
      } else {
        assert WantedRow(aid, done + [q], post, rows, i);
      }
    }
  }

  /** Ids identify questions of a sequence with distinct ids. */
  lemma DistinctLast(done: seq<Question>, q: Question, w: Question)
    requires DistinctBy(done + [q], QuestionKey)
    requires w in done
    ensures w.id != q.id
  {
    var k :| 0 <= k < |done| && done[k] == w;
    assert (done + [q])[k] == w && (done + [q])[|done|] == q;
  }

  /** The rewritten row belongs to `q`, so the rows of the earlier questions survive. */
  lemma CoveredUpdate(aid: AssessmentId, done: seq<Question>, q: Question, post: map<string, string>,
                      rows: seq<Response>, i0: nat, e': Response)
    requires i0 < |rows| && rows[i0].question == q.id
    requires DistinctBy(done + [q], QuestionKey)
    requires Covered(aid, done, post, rows)
    requires Wanted(aid, q, post, e')
    ensures Covered(aid, done + [q], post, rows[i0 := e'])
  {
    var rows' := rows[i0 := e'];
    forall w | w in done + [q] && Answered(post, w) ensures exists i :: 0 <= i < |rows'| && Wanted(aid, w, post, rows'[i]) {
      if w == q {
        assert Wanted(aid, w, post, rows'[i0]);
      } else {
        assert w in done;
        DistinctLast(done, q, w);
        var i :| 0 <= i < |rows| && Wanted(aid, w, post, rows[i]);
        assert i != i0;
        assert Wanted(aid, w, post, rows'[i]);
      }
    }
  }

  /** Saving the update of an existing response. */
  lemma FillStepUpdate(rows0: seq<Response>, next0: ResponseId, aid: AssessmentId, done: seq<Question>, q: Question,
                       post: map<string, string>, rows: seq<Response>, next: ResponseId, v: int)
    requires DistinctBy(done + [q], QuestionKey)
    requires Filled(rows0, next0, aid, done, post, rows, next)
    requires ParseInt(AnswerText(post, q)) == Some(v) && FitsScoreColumn(ScoreOf(v))
    requires q.id in ExistingResponses(rows0, aid)
    ensures Filled(rows0, next0, aid, done + [q], post,
                   SaveRow(rows, ExistingResponses(rows0, aid)[q.id].(answerValue := v, score := ScoreOf(v), observations := Observations(post, q))),
                   next)
  {
    var e := ExistingResponses(rows0, aid)[q.id];
    var e' := e.(answerValue := v, score := ScoreOf(v), observations := Observations(post, q));
    var i0 := ExistingRowAt(rows0, aid, q, rows);
    SaveRowAt(rows, i0, e');
    assert Wanted(aid, q, post, e');
    assert SameKeys(e', rows[i0]);
    RewriteKeys(rows0, next0, rows, i0, e');
    OnlyWantedUpdate(rows0, aid, done, q, post, rows, i0, e');
    CoveredUpdate(aid, done, q, post, rows, i0, e');
  }

  /** Rewriting a row without changing its keys keeps every key constraint. */
  lemma RewriteKeys(rows0: seq<Response>, next0: ResponseId, rows: seq<Response>, i0: nat, e': Response)
    requires i0 < |rows| && SameKeys(e', rows[i0])
    requires KeysKept(rows0, rows) && UniqueResponses(rows) && FreshKeys(rows0, next0, rows)
    ensures KeysKept(rows0, rows[i0 := e']) && UniqueResponses(rows[i0 := e']) && FreshKeys(rows0, next0, rows[i0 := e'])
  {
    var rows' := rows[i0 := e'];
    forall i | 0 <= i < |rows0| ensures SameKeys(rows'[i], rows0[i]) {
      assert SameKeys(rows[i], rows0[i]);
    }
    forall i, j | 0 <= i < j < |rows'|
      ensures rows'[i].id != rows'[j].id && (rows'[i].assessment, rows'[i].question) != (rows'[j].assessment, rows'[j].question) {
      assert SameKeys(rows'[i], rows[i]) && SameKeys(rows'[j], rows[j]);
    }
    forall i | |rows0| <= i < |rows'| ensures rows'[i].id == next0 + (i - |rows0|) {
      assert SameKeys(rows'[i], rows[i]);
    }
  }

  /** No row yet carries the pair (assessment, question) of a question with no existing response. */
  lemma NoRowForNewQuestion(rows0: seq<Response>, next0: ResponseId, aid: AssessmentId, done: seq<Question>, q: Question,
                            post: map<string, string>, rows: seq<Response>, next: ResponseId, i: nat)
    requires KeysBelow(rows0, next0)
    requires DistinctBy(done + [q], QuestionKey)
    requires Filled(rows0, next0, aid, done, post, rows, next)
    requires q.id !in ExistingResponses(rows0, aid)
    requires i < |rows|
    ensures rows[i].id < next && (rows[i].assessment, rows[i].question) != (aid, q.id)
  {
    if i < |rows0| {
      assert SameKeys(rows[i], rows0[i]);
      assert rows0[i] in rows0;
      if rows0[i].assessment == aid {
        assert rows0[i].question in ExistingResponses(rows0, aid);
      }
    } else {
      assert WantedRow(aid, done, post, rows, i);
      var w :| w in done && Wanted(aid, w, post, rows[i]);
      DistinctLast(done, q, w);
    }
  }

  /** Creating the response of a question that had none. */
  lemma FillStepCreate(rows0: seq<Response>, next0: ResponseId, aid: AssessmentId, done: seq<Question>, q: Question,
                       post: map<string, string>, rows: seq<Response>, next: ResponseId, v: int)
    requires KeysBelow(rows0, next0)
    requires DistinctBy(done + [q], QuestionKey)
    requires Filled(rows0, next0, aid, done, post, rows, next)
    requires ParseInt(AnswerText(post, q)) == Some(v) && FitsScoreColumn(ScoreOf(v))
    requires q.id !in ExistingResponses(rows0, aid)
    ensures Filled(rows0, next0, aid, done + [q], post,
                   rows + [Response(next, aid, q.id, v, ScoreOf(v), Observations(post, q))], next + 1)
  {
    var n := Response(next, aid, q.id, v, ScoreOf(v), Observations(post, q));
    assert Wanted(aid, q, post, n);
    forall i | 0 <= i < |rows| ensures rows[i].id < n.id && (rows[i].assessment, rows[i].question) != (n.assessment, n.question) {
      NoRowForNewQuestion(rows0, next0, aid, done, q, post, rows, next, i);
    }
    AppendUnique(rows, n);
    AppendKeys(rows0, next0, rows, n);
    OnlyWantedAppend(rows0, aid, done, q, post, rows, n);
    CoveredAppend(aid, done, q, post, rows, n);
  }

  /** A row whose keys no row has yet keeps the keys unique. */
  lemma AppendUnique(rows: seq<Response>, n: Response)
    requires UniqueResponses(rows)
    requires forall i :: 0 <= i < |rows| ==> rows[i].id < n.id && (rows[i].assessment, rows[i].question) != (n.assessment, n.question)
    ensures UniqueResponses(rows + [n])
  {
    var rows' := rows + [n];
    forall i, j | 0 <= i < j < |rows'|
      ensures rows'[i].id != rows'[j].id && (rows'[i].assessment, rows'[i].question) != (rows'[j].assessment, rows'[j].question) {
      assert rows'[i] == rows[i];
      if j < |rows| {
        assert rows'[j] == rows[j];
      }
    }
  }

  /** A row with the next fresh key keeps the old keys and the run of fresh ones. */
  lemma AppendKeys(rows0: seq<Response>, next0: ResponseId, rows: seq<Response>, n: Response)
    requires KeysKept(rows0, rows) && FreshKeys(rows0, next0, rows)
    requires n.id == next0 + (|rows| - |rows0|)
    ensures KeysKept(rows0, rows + [n]) && FreshKeys(rows0, next0, rows + [n])
  {
    var rows' := rows + [n];
    forall i | 0 <= i < |rows0| ensures SameKeys(rows'[i], rows0[i]) {
      assert rows'[i] == rows[i];
    }
    forall i | |rows0| <= i < |rows'| ensures rows'[i].id == next0 + (i - |rows0|) {
      if i < |rows| {
        assert rows'[i] == rows[i];
      }
    }
  }

  /** A created row that holds what the POST asks for `q` is wanted by `done + [q]`. */
  lemma OnlyWantedAppend(rows0: seq<Response>, aid: AssessmentId, done: seq<Question>, q: Question,
                         post: map<string, string>, rows: seq<Response>, n: Response)
    requires |rows0| <= |rows|
    requires OnlyWanted(rows0, aid, done, post, rows)
    requires Wanted(aid, q, post, n)
    ensures OnlyWanted(rows0, aid, done + [q], post, rows + [n])
  {
    var rows' := rows + [n];
    var done' := done + [q];
    OnlyWantedGrows(rows0, aid, done, q, post, rows);
    forall i | 0 <= i < |rows'| && (i >= |rows0| || rows'[i] != rows0[i]) ensures WantedRow(aid, done', post, rows', i) {
      if i < |rows| {
        assert rows'[i] == rows[i];
        assert WantedRow(aid, done', post, rows, i);
      } else {
        assert rows'[i] == n && q in done';
      }
    }
  }

  /** With the row of `q` created, every answered question of `done + [q]` has its row. */
  lemma CoveredAppend(aid: AssessmentId, done: seq<Question>, q: Question, post: map<string, string>,
                      rows: seq<Response>, n: Response)
    requires Covered(aid, done, post, rows)
    requires Wanted(aid, q, post, n)
    ensures Covered(aid, done + [q], post, rows + [n])
  {
    var rows' := rows + [n];
    forall w | w in done + [q] && Answered(post, w) ensures exists i :: 0 <= i < |rows'| && Wanted(aid, w, post, rows'[i]) {
      if w == q {
        assert Wanted(aid, w, post, rows'[|rows|]);
      } else {
        assert w in done;
        var i :| 0 <= i < |rows| && Wanted(aid, w, post, rows[i]);
        assert rows'[i] == rows[i];
      }
    }
  }

  /** Some answered question of `qs` is not an integer or does not fit the score column. */
  predicate HasInvalidAnswer(qs: seq<Question>, post: map<string, string>)
  {
    exists q :: q in qs && Answered(post, q) && Refused(AnswerText(post, q))
  }

  /**
   * The POST loop as a whole: it fails exactly when some answered question is not an integer
   * or too large for the score column, and otherwise leaves every answered question with exactly the response the POST asks for,
   * every other response untouched, and fresh keys on the responses it created.
   */
  lemma {:induction false} FillAnswersCorrect(rows0: seq<Response>, next0: ResponseId, aid: AssessmentId,
                                              qs: seq<Question>, post: map<string, string>)
    requires UniqueResponses(rows0) && KeysBelow(rows0, next0)
    requires DistinctBy(qs, QuestionKey)
    ensures FillAnswers(rows0, next0, aid, ExistingResponses(rows0, aid), qs, post).Err? <==> HasInvalidAnswer(qs, post)
    ensures match FillAnswers(rows0, next0, aid, ExistingResponses(rows0, aid), qs, post)
              case Ok(st) => Filled(rows0, next0, aid, qs, post, st.0, st.1)
              case Err(_) => true
  {
    var existing := ExistingResponses(rows0, aid);
    if qs == [] {
      FilledStart(rows0, next0, aid, post);
    } else {
      var init := qs[..|qs| - 1];
      var q := qs[|qs| - 1];
      assert qs == init + [q];
      assert DistinctBy(init, QuestionKey) by {
        forall i, j | 0 <= i < j < |init| ensures QuestionKey(init[i]) != QuestionKey(init[j]) {
          assert init[i] == qs[i] && init[j] == qs[j];
        }
      }
      FillAnswersCorrect(rows0, next0, aid, init, post);
      match FillAnswers(rows0, next0, aid, existing, init, post)
      case Err(_) =>
        var w :| w in init && Answered(post, w) && Refused(AnswerText(post, w));
        assert w in qs;
      case Ok(st) =>
        assert HasInvalidAnswer(qs, post) <==> Answered(post, q) && Refused(AnswerText(post, q)) by {
          if HasInvalidAnswer(qs, post) {
            var w :| w in qs && Answered(post, w) && Refused(AnswerText(post, w));
            if w != q {
              assert w in init;
            }
          }
        }
        if Answered(post, q) && !Refused(AnswerText(post, q)) {
          var v := ParseInt(AnswerText(post, q)).value;
          if q.id in existing {
            FillStepUpdate(rows0, next0, aid, init, q, post, st.0, st.1, v);
          } else {
            FillStepCreate(rows0, next0, aid, init, q, post, st.0, st.1, v);
          }
        } else if !Answered(post, q) {
          assert Filled(rows0, next0, aid, init, post, st.0, st.1);
          OnlyWantedGrows(rows0, aid, init, q, post, st.0);
          assert Covered(aid, qs, post, st.0) by {
            forall w | w in qs && Answered(post, w) ensures exists i :: 0 <= i < |st.0| && Wanted(aid, w, post, st.0[i]) {
              assert w in init;
            }
          }
        }
    }
  }

  /** Response `r` belongs to the assessment and to a question the POST answers. */
  predicate Asked(aid: AssessmentId, qs: seq<Question>, post: map<string, string>, r: Response)
  {
    r.assessment == aid && exists q :: q in qs && Answered(post, q) && q.id == r.question
  }

  /**
   * After a successful POST each answered question has exactly one response of the
   * assessment, holding the posted values; every response the POST does not answer for
   * is still there unchanged; and nothing else was added.
   */
  lemma FillAnswersOutcome(rows0: seq<Response>, next0: ResponseId, aid: AssessmentId,
                           qs: seq<Question>, post: map<string, string>)
    requires UniqueResponses(rows0) && KeysBelow(rows0, next0)
    requires DistinctBy(qs, QuestionKey)
    requires FillAnswers(rows0, next0, aid, ExistingResponses(rows0, aid), qs, post).Ok?
    ensures var rows := FillAnswers(rows0, next0, aid, ExistingResponses(rows0, aid), qs, post).value.0;
      && UniqueResponses(rows)
      && (forall q :: q in qs && Answered(post, q) ==> exists r :: r in rows && Wanted(aid, q, post, r))
      && (forall r :: r in rows0 && !Asked(aid, qs, post, r) ==> r in rows)
      && (forall r :: r in rows && r !in rows0 ==> exists q :: q in qs && Wanted(aid, q, post, r))
  {
    FillAnswersCorrect(rows0, next0, aid, qs, post);
    var rows := FillAnswers(rows0, next0, aid, ExistingResponses(rows0, aid), qs, post).value.0;
    forall q | q in qs && Answered(post, q) ensures exists r :: r in rows && Wanted(aid, q, post, r) {
      var i :| 0 <= i < |rows| && Wanted(aid, q, post, rows[i]);
    }
    forall r | r in rows0 && !Asked(aid, qs, post, r) ensures r in rows {
      var i :| 0 <= i < |rows0| && rows0[i] == r;
      assert rows[i] == r;
    }
    forall r | r in rows && r !in rows0 ensures exists q :: q in qs && Wanted(aid, q, post, r) {
      var i :| 0 <= i < |rows| && rows[i] == r;
      if i < |rows0| {
        assert rows[i] != rows0[i];
      }
      assert WantedRow(aid, qs, post, rows, i);
    }
  }

  /** A POST that answers nothing changes nothing. */
  lemma {:induction false} FillAnswersNothingAnswered(rows: seq<Response>, next: ResponseId, aid: AssessmentId,
                                                      existing: map<QuestionId, Response>, qs: seq<Question>,
                                                      post: map<string, string>)
    requires forall q :: q in qs ==> !Answered(post, q)
    ensures FillAnswers(rows, next, aid, existing, qs, post) == Ok((rows, next))
  {
    if qs != [] {
      var init := qs[..|qs| - 1];
      assert forall q :: q in init ==> q in qs;
      FillAnswersNothingAnswered(rows, next, aid, existing, init, post);
      assert qs[|qs| - 1] in qs;
    }
  }

  // ---- the GET: grouping ---------------------------------------------------

  /** `q.dimension or "Sin dimensión"`. */
  function DimKey(q: Question): string
  {
    if q.dimension == "" then "Sin dimensión" else q.dimension
  }

  /** `q.sub_dimension or ""`. */
  function SubKey(q: Question): string
  {
    match q.subDimension
    case None => ""
    case Some(sub) => sub
  }

  /** One entry of the inner dict: a sub-dimension and its questions. */
  datatype SubGroup = SubGroup(key: string, questions: seq<Question>)

  /** One entry of the outer dict: a dimension and its sub-dimensions, in insertion order. */
  datatype DimGroup = DimGroup(key: string, subs: seq<SubGroup>)

  /** The questions of `qs` with keys (`d`, `s`), in the order of `qs`. */
  function Bucket(qs: seq<Question>, d: string, s: string): (b: seq<Question>)
    ensures forall q :: q in b <==> q in qs && DimKey(q) == d && SubKey(q) == s
  {
    if qs == [] then []
    else
      var init := qs[..|qs| - 1];
      var q := qs[|qs| - 1];
      assert qs == init + [q];
      Bucket(init, d, s) + if DimKey(q) == d && SubKey(q) == s then [q] else []
  }

  /** The keys of `ks` in the order they first appear. */
  function FirstAppearances(ks: seq<string>): (r: seq<string>)
    ensures forall k :: k in r <==> k in ks
  {
    if ks == [] then []
    else
      var init := FirstAppearances(ks[..|ks| - 1]);
      var k := ks[|ks| - 1];
      assert ks == ks[..|ks| - 1] + [k];
      if k in init then init else init + [k]
  }

  function SubKeys(subs: seq<SubGroup>): seq<string>
  {
    seq(|subs|, i requires 0 <= i < |subs| => subs[i].key)
  }

  function DimKeys(g: seq<DimGroup>): seq<string>
  {
    seq(|g|, i requires 0 <= i < |g| => g[i].key)
  }

  function DimKeysOf(qs: seq<Question>): seq<string>
  {
    seq(|qs|, i requires 0 <= i < |qs| => DimKey(qs[i]))
  }

  function SubKeysOf(qs: seq<Question>, d: string): seq<string>
  {
    if qs == [] then []
    else
      var q := qs[|qs| - 1];
      SubKeysOf(qs[..|qs| - 1], d) + if DimKey(q) == d then [SubKey(q)] else []
  }

  predicate Distinct(ks: seq<string>)
  {
    forall i, j :: 0 <= i < j < |ks| ==> ks[i] != ks[j]
  }

  /** `subs[s]`, an absent key reading as the empty list. */
  function SubLookup(subs: seq<SubGroup>, s: string): seq<Question>
  {
    if subs == [] then []
    else if subs[0].key == s then subs[0].questions
    else SubLookup(subs[1..], s)
  }

  /** `grouped[d]`, an absent key reading as the empty dict. */
  function DimLookup(g: seq<DimGroup>, d: string): seq<SubGroup>
  {
    if g == [] then []
    else if g[0].key == d then g[0].subs
    else DimLookup(g[1..], d)
  }

  /** `subs[s].append(q)` on a defaultdict(list): a missing key is added at the end. */
  function SubAppend(subs: seq<SubGroup>, s: string, q: Question): seq<SubGroup>
  {
    if subs == [] then [SubGroup(s, [q])]
    else if subs[0].key == s then [subs[0].(questions := subs[0].questions + [q])] + subs[1..]
    else [subs[0]] + SubAppend(subs[1..], s, q)
  }

  lemma {:induction false} SubAppendKeys(subs: seq<SubGroup>, s: string, q: Question)
    ensures SubKeys(SubAppend(subs, s, q)) == if s in SubKeys(subs) then SubKeys(subs) else SubKeys(subs) + [s]
  {
    if subs != [] {
      var rest := subs[1..];
      assert SubKeys(subs) == [subs[0].key] + SubKeys(rest);
      var r := SubAppend(subs, s, q);
      if subs[0].key == s {
        assert SubKeys(r) == [subs[0].key] + SubKeys(rest);
      } else {
        SubAppendKeys(rest, s, q);
        assert SubKeys(r) == [subs[0].key] + SubKeys(SubAppend(rest, s, q));
      }
    }
  }

  /** Appending under `s` adds `q` at the end of `s`'s list and touches no other key. */
  lemma {:induction false} SubAppendLookup(subs: seq<SubGroup>, s: string, q: Question, t: string)
    ensures SubLookup(SubAppend(subs, s, q), t) == SubLookup(subs, t) + if t == s then [q] else []
  {
    if subs != [] && subs[0].key != s && subs[0].key != t {
      SubAppendLookup(subs[1..], s, q, t);
    }
  }

  /** `grouped[d][s].append(q)` on the nested defaultdict. */
  function DimAppend(g: seq<DimGroup>, d: string, s: string, q: Question): seq<DimGroup>
  {
    if g == [] then [DimGroup(d, SubAppend([], s, q))]
    else if g[0].key == d then [g[0].(subs := SubAppend(g[0].subs, s, q))] + g[1..]
    else [g[0]] + DimAppend(g[1..], d, s, q)
  }

  lemma {:induction false} DimAppendKeys(g: seq<DimGroup>, d: string, s: string, q: Question)
    ensures DimKeys(DimAppend(g, d, s, q)) == if d in DimKeys(g) then DimKeys(g) else DimKeys(g) + [d]
  {
    if g != [] {
      var rest := g[1..];
      assert DimKeys(g) == [g[0].key] + DimKeys(rest);
      var r := DimAppend(g, d, s, q);
      if g[0].key == d {
        assert DimKeys(r) == [g[0].key] + DimKeys(rest);
      } else {
        DimAppendKeys(rest, d, s, q);
        assert DimKeys(r) == [g[0].key] + DimKeys(DimAppend(rest, d, s, q));
      }
    }
  }

  lemma {:induction false} DimAppendLookup(g: seq<DimGroup>, d: string, s: string, q: Question, e: string)
    ensures DimLookup(DimAppend(g, d, s, q), e) == if e == d then SubAppend(DimLookup(g, e), s, q) else DimLookup(g, e)
  {
    if g != [] && g[0].key != d && g[0].key != e {
      DimAppendLookup(g[1..], d, s, q, e);
    }
  }

  /** `grouped[d][s]`. */
  function Lookup(g: seq<DimGroup>, d: string, s: string): seq<Question>
  {
    SubLookup(DimLookup(g, d), s)
  }

  /**
   * The grouping of `qs`: dimensions in order of first appearance, in each the
   * sub-dimensions in order of first appearance, and under each pair of keys the
   * questions with those keys in the order of `qs`.
   */
  ghost predicate GroupedAs(g: seq<DimGroup>, qs: seq<Question>)
  {
    && DimKeys(g) == FirstAppearances(DimKeysOf(qs))
    && (forall d :: SubKeys(DimLookup(g, d)) == FirstAppearances(SubKeysOf(qs, d)))
    && (forall d, s :: Lookup(g, d, s) == Bucket(qs, d, s))
  }

  lemma FirstAppearancesSnoc(ks: seq<string>, k: string)
    ensures FirstAppearances(ks + [k]) == if k in FirstAppearances(ks) then FirstAppearances(ks) else FirstAppearances(ks) + [k]
  {
    assert (ks + [k])[..|ks|] == ks;
  }

  lemma BucketSnoc(qs: seq<Question>, q: Question, d: string, s: string)
    ensures Bucket(qs + [q], d, s) == Bucket(qs, d, s) + if DimKey(q) == d && SubKey(q) == s then [q] else []
  {
    assert (qs + [q])[..|qs|] == qs;
  }

  lemma SubKeysOfSnoc(qs: seq<Question>, q: Question, d: string)
    ensures SubKeysOf(qs + [q], d) == SubKeysOf(qs, d) + if DimKey(q) == d then [SubKey(q)] else []
  {
    assert (qs + [q])[..|qs|] == qs;
  }

  lemma GroupStepSubs(g: seq<DimGroup>, qs: seq<Question>, q: Question, d: string)
    requires SubKeys(DimLookup(g, d)) == FirstAppearances(SubKeysOf(qs, d))
    ensures SubKeys(DimLookup(DimAppend(g, DimKey(q), SubKey(q), q), d)) == FirstAppearances(SubKeysOf(qs + [q], d))
  {
    var dq, sq := DimKey(q), SubKey(q);
    var subs, subs' := DimLookup(g, d), DimLookup(DimAppend(g, dq, sq, q), d);
    var ks, ks' := SubKeysOf(qs, d), SubKeysOf(qs + [q], d);
    DimAppendLookup(g, dq, sq, q, d);
    SubKeysOfSnoc(qs, q, d);
    if d == dq {
      assert subs' == SubAppend(subs, sq, q);
      assert ks' == ks + [sq];
      SubAppendKeys(subs, sq, q);
      FirstAppearancesSnoc(ks, sq);
    } else {
      assert subs' == subs;
      assert ks' == ks;
    }
  }

  lemma GroupStepBucket(g: seq<DimGroup>, qs: seq<Question>, q: Question, d: string, s: string)
    requires Lookup(g, d, s) == Bucket(qs, d, s)
    ensures Lookup(DimAppend(g, DimKey(q), SubKey(q), q), d, s) == Bucket(qs + [q], d, s)
  {
    DimAppendLookup(g, DimKey(q), SubKey(q), q, d);
    BucketSnoc(qs, q, d, s);
    if d == DimKey(q) {
      SubAppendLookup(DimLookup(g, d), SubKey(q), q, s);
    }
  }

  lemma GroupStep(g: seq<DimGroup>, qs: seq<Question>, q: Question)
    requires GroupedAs(g, qs)
    ensures GroupedAs(DimAppend(g, DimKey(q), SubKey(q), q), qs + [q])
  {
    var g' := DimAppend(g, DimKey(q), SubKey(q), q);
    assert DimKeysOf(qs + [q]) == DimKeysOf(qs) + [DimKey(q)];
    DimAppendKeys(g, DimKey(q), SubKey(q), q);
    FirstAppearancesSnoc(DimKeysOf(qs), DimKey(q));
    forall d ensures SubKeys(DimLookup(g', d)) == FirstAppearances(SubKeysOf(qs + [q], d)) {
      GroupStepSubs(g, qs, q, d);
    }
    forall d, s ensures Lookup(g', d, s) == Bucket(qs + [q], d, s) {
      GroupStepBucket(g, qs, q, d, s);
    }
  }

  /** The GET loop over questions_qs filling `grouped`. */
  method GroupQuestions(qs: seq<Question>) returns (g: seq<DimGroup>)
    ensures GroupedAs(g, qs)
  {
    g := [];
    var i := 0;
    while i < |qs|
      invariant 0 <= i <= |qs|
      invariant GroupedAs(g, qs[..i])
    {
      var q := qs[i];
      GroupStep(g, qs[..i], q);
      assert qs[..i + 1] == qs[..i] + [q];
      g := DimAppend(g, DimKey(q), SubKey(q), q);
      i := i + 1;
    }
    assert qs[..|qs|] == qs;
  }

  lemma {:induction false} FirstAppearancesDistinct(ks: seq<string>)
    ensures Distinct(FirstAppearances(ks))
  {
    if ks != [] {
      FirstAppearancesDistinct(ks[..|ks| - 1]);
    }
  }

  /** With distinct keys, looking up an entry's key finds that entry. */
  lemma {:induction false} DimLookupEntry(g: seq<DimGroup>, i: nat)
    requires Distinct(DimKeys(g)) && i < |g|
    ensures DimLookup(g, g[i].key) == g[i].subs
  {
    if i > 0 {
      assert DimKeys(g)[0] != DimKeys(g)[i];
      assert Distinct(DimKeys(g[1..])) by {
        forall a, b | 0 <= a < b < |g[1..]| ensures DimKeys(g[1..])[a] != DimKeys(g[1..])[b] {
          assert DimKeys(g)[a + 1] != DimKeys(g)[b + 1];
        }
      }
      DimLookupEntry(g[1..], i - 1);
    }
  }

  lemma {:induction false} SubLookupEntry(subs: seq<SubGroup>, j: nat)
    requires Distinct(SubKeys(subs)) && j < |subs|
    ensures SubLookup(subs, subs[j].key) == subs[j].questions
  {
    if j > 0 {
      assert SubKeys(subs)[0] != SubKeys(subs)[j];
      assert Distinct(SubKeys(subs[1..])) by {
        forall a, b | 0 <= a < b < |subs[1..]| ensures SubKeys(subs[1..])[a] != SubKeys(subs[1..])[b] {
          assert SubKeys(subs)[a + 1] != SubKeys(subs)[b + 1];
        }
      }
      SubLookupEntry(subs[1..], j - 1);
    }
  }

  lemma {:induction false} SubKeysOfMember(qs: seq<Question>, d: string, s: string)
    requires s in SubKeysOf(qs, d)
    ensures exists q :: q in qs && DimKey(q) == d && SubKey(q) == s
  {
    var init := qs[..|qs| - 1];
    var q := qs[|qs| - 1];
    if s in SubKeysOf(init, d) {
      SubKeysOfMember(init, d, s);
      var w :| w in init && DimKey(w) == d && SubKey(w) == s;
      assert w in qs;
    } else {
      assert q in qs;
    }
  }

  /**
   * What the template iterates over: distinct dimensions, distinct sub-dimensions in each,
   * and under each pair of keys exactly the questions with those keys, in queryset order
   * and never none.
   */
  lemma GroupedEntries(g: seq<DimGroup>, qs: seq<Question>, i: nat, j: nat)
    requires GroupedAs(g, qs)
    requires i < |g| && j < |g[i].subs|
    ensures Distinct(DimKeys(g)) && Distinct(SubKeys(g[i].subs))
    ensures g[i].subs[j].questions == Bucket(qs, g[i].key, g[i].subs[j].key)
    ensures g[i].subs[j].questions != []
  {
    var d, sub := g[i].key, g[i].subs[j].key;
    FirstAppearancesDistinct(DimKeysOf(qs));
    DimLookupEntry(g, i);
    FirstAppearancesDistinct(SubKeysOf(qs, d));
    SubLookupEntry(g[i].subs, j);
    assert Lookup(g, d, sub) == g[i].subs[j].questions;
    assert SubKeys(g[i].subs)[j] == sub;
    SubKeysOfMember(qs, d, sub);
  }

  /** Each question sits in the bucket of its own keys and in no other. */
  lemma GroupedExactlyOnce(g: seq<DimGroup>, qs: seq<Question>, q: Question, d: string, s: string)
    requires GroupedAs(g, qs)
    requires q in qs
    ensures q in Lookup(g, DimKey(q), SubKey(q))
    ensures q in Lookup(g, d, s) ==> d == DimKey(q) && s == SubKey(q)
  {
    assert Lookup(g, DimKey(q), SubKey(q)) == Bucket(qs, DimKey(q), SubKey(q));
    assert Lookup(g, d, s) == Bucket(qs, d, s);
  }
}
