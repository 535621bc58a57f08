# ATEC company access layer, profiles and inventory — a Dafny model

ATEC is a Django application in which business analysts record data about
the companies they advise: an ATEC profile assessment (questions, assessments
and responses) and a technological inventory (equipment, maintenance,
services, methods, layout, software, materials, investments, workforce and
disciplines).  Its core is a row-level access layer: a user may see the
companies they are assigned to as an analyst (`AnalystCompany` rows) or
advise (`Company.advisor`), and every part of the application consults, or
fails to consult, that set.

This project models that core in Dafny, one module per source file:

- `Selectors` — `get_allowed_company_ids`: the allowed set over the two
  relations, the empty set for a missing, anonymous or superuser caller.
- `Permissions` — `CompanyScopeMixin` (queryset filter, object check, the
  allowed set cached once per view instance, as a class with a memo field)
  and the `require_company_access` decorator.
- `CoreAdmin` — `CompanyScopedAdmin` and `CompanyAdmin` (changelist filter,
  per-object permissions, advisor defaults and `save_model`).
- `CoreModels` — the `Company` and `AnalystCompany` tables, their unique
  constraints and cascades, and a `CompanyTable` class for saves.
- `CoreViews` — `company_list`, `company_detail` and the class-based list,
  detail, create and update views.
- `ProfilesModels`, `ProfilesViews`, `ProfilesFill` — the profile tables and
  their constraints, the inline guard of every profile view, and
  `assessment_fill` (instrument-code normalisation, the all-or-nothing
  response upsert loop, and the grouping loop by dimension).
- `InventoryModels`, `InventoryForms`, `InventoryViews` — the inventory
  records with their validators, unique keys and cascades; the forms'
  `__init__` edits of their fields (a `ModelFormFields` class) and
  `clean_last_date`; the manage view's tab, `_hx_trigger` and the CRUD
  factory's list, create, update and delete (an `InventoryDb` class).
- `InitRoles` — the `init_roles` management command: `perm_codename`,
  `ROLE_DEFS`, `TARGET_MODELS` and the nested loops of `handle` (an `AuthDb`
  class), with the closed form of what a run grants and prints.
- `Wrappers`, `Seqs`, `PyStr`, `Ordering` — Option/Result, filtering, sorting
  and taking from sequences, the Python string operations the code uses
  (`strip`, `replace`, `str(int)`, `int(str)`, `", ".join`), and SQL column
  ordering as SQLite applies it (NULL first ascending, last descending; text
  by code point).

The database is modelled as sequences of records in their default order;
a queryset is a filter and a stable sort of such a sequence.  Users are
`(id, is_authenticated, is_superuser)`.  Decimal columns are integers in
units of their last decimal place: hundredths for the two-place columns,
tenths for `avg_experience_years` (`decimal(4,1)`, at most 9999 tenths).
Dates are integers and "today" is a parameter.

Where the design of the system and its code disagree, the model follows the
code:

- A superuser's allowed set is the empty set, not a "no restriction"
  sentinel; every caller tests `is_superuser` itself.
- The profile views treat an empty allowed set as no restriction, so a user
  with no assignment and no advised company reaches every company, as a
  superuser does.  They compare `str(company_id)` with the stringified ids,
  so a zero-padded id such as "07" is refused even when company 7 is allowed.
- The class-based detail and update views look the row up in the scoped
  queryset, so a company outside the allowed set answers 404, not 403.
- The inventory CRUD views and the inventory manage view check only the
  login; they never consult the allowed set.

## Model

| member | source | states |
|---|---|---|
| Selectors.AllowedCompanyIds | apps/core/selectors.py:7-21 | a missing, anonymous or superuser caller gets the empty set; otherwise c is allowed iff an AnalystCompany row (user, c) exists or c's advisor is the user |
| Selectors.AllowedDependsOnlyOnOwnRows | apps/core/selectors.py:19-21 | the result depends only on the caller's own assignment rows and advised companies: other users' rows never affect it |
| Selectors.AllowedIgnoresOrder | apps/core/selectors.py:21 | the result is a set: reordering the rows or the companies does not change it |
| Selectors.AssignAnalystGrants | apps/core/selectors.py:19-21 | a new assignment (user, c) makes the allowed set grow by exactly c |
| Selectors.AssignOtherUserIrrelevant | apps/core/selectors.py:19 | assigning another user leaves the caller's allowed set unchanged |
| Selectors.DeleteUserRevokes | apps/core/selectors.py:19-21 | after the user is deleted (cascade on assignments, SET_NULL on advisor) nothing is allowed for that id, and every other user keeps exactly their set |
| Selectors.DeleteCompanyRevokes | apps/core/selectors.py:19-21 | a deleted company is in nobody's allowed set |
| Selectors.UnionOfAssignedAndAdvised | apps/core/selectors.py:19-21 | for every store, a restricted user's set is the companies of their AnalystCompany rows together with those they advise, each company once: its size is the two counts minus the companies in both |
| Selectors.UnionExample | apps/core/selectors.py:19-21 | on a store where the user is assigned 1 and 2 and advises 2 and 3, the set is {1, 2, 3}; a company advised by another user is out |
| Selectors.AdvisorSaveGrants | apps/core/selectors.py:20 | saving a company with the user as advisor puts its id in the user's allowed set |
| Selectors.AllowedAreCompanies | apps/core/selectors.py:19-21 | in a consistent store every allowed id names an existing company |
| CoreModels.NewCompanyData | apps/core/models.py:35-49 | a new company defaults to org_type "organization", status "active" and no advisor |
| CoreModels.FindCompany | apps/core/models.py:15 | the lookup by primary key succeeds iff a company with that id exists, and returns it |
| CoreModels.FindCompanyUnique | apps/core/models.py:15 | with unique ids the lookup returns the one company carrying the id |
| CoreModels.AssignAnalyst | apps/core/models.py:62-69 | inserting a (user, company) row fails iff the pair exists or the company does not; otherwise the row is appended and companies are unchanged |
| CoreModels.AssignAnalystValid | apps/core/models.py:68-69 | a successful insertion keeps every (user, company) pair unique |
| CoreModels.ClearAdvisors | apps/core/models.py:41-47 | SET_NULL: every company advised by the user loses its advisor, the rest are unchanged |
| CoreModels.DeleteUser | apps/core/models.py:44-63 | once PROTECT lets the delete through (see ProfilesModels.DeleteUserEverywhere), deleting a user keeps every company, clears it as advisor and removes exactly its AnalystCompany rows |
| CoreModels.DeleteUserValid | apps/core/models.py:27-69 | deleting a user keeps the store consistent |
| CoreModels.DeleteCompany | apps/core/models.py:64 | deleting a company removes it and exactly its AnalystCompany rows |
| CoreModels.Upsert | apps/core/models.py:15 | a save of an existing id keeps the table's length; a new id is appended |
| CoreModels.UpsertContents | apps/core/models.py:15-27 | after a save the table holds the saved company, every other company, and nothing else; ids stay unique |
| CoreModels.CompanyTable.Save | apps/core/models.py:27 | a save fails iff another company has the same tax_id, and then nothing changes; otherwise the row is updated or inserted under the next id |
| Permissions.OwnerAttribute | apps/core/permissions.py:43-47 | the owner attribute read is `id` for the company model and `<company_field>_id` otherwise |
| Permissions.ScopeFilter | apps/core/permissions.py:24-29 | a superuser's queryset is returned unchanged; otherwise exactly the rows whose owner id is allowed are kept, nothing is added |
| Permissions.ScopeFilterCounts | apps/core/permissions.py:27-29 | each kept row keeps its multiplicity, every other row disappears |
| Permissions.ScopeFilterConcat | apps/core/permissions.py:27-29 | filtering keeps the order of the rows |
| Permissions.CheckObject | apps/core/permissions.py:41-50 | the object is returned iff the user is a superuser or its owner id (None when absent) is allowed; otherwise PermissionDenied, never None |
| Permissions.CheckObjectSuperuserIgnoresScope | apps/core/permissions.py:41-42 | for a superuser the allowed set plays no part |
| Permissions.LookupPk | apps/core/permissions.py:40 | the parent lookup finds a row with the primary key iff one exists |
| Permissions.ScopedGetObjectNeverDenies | apps/core/permissions.py:32-50 | through the views' own call a foreign row is filtered first, so the answer is not-found rather than PermissionDenied; a row is returned iff it exists and is visible |
| Permissions.ExplicitQuerysetDenies | apps/core/permissions.py:48-50 | with a caller-supplied queryset a foreign row is refused with PermissionDenied |
| Permissions.RequireCompanyAccess | apps/core/permissions.py:53-69 | a superuser reaches the view; anyone else iff the resource's company id is allowed, and otherwise PermissionDenied without calling the view |
| Permissions.DenialIgnoresView | apps/core/permissions.py:64-67 | a refusal does not depend on the wrapped view |
| Permissions.DecoratorAgreesWithMixin | apps/core/permissions.py:41-67 | the decorator and the mixin's object check admit the same company |
| Permissions.CompanyScopeMixin.AllowedIds | apps/core/permissions.py:19-22 | the allowed set is the selector's answer, computed once per view instance and then reused |
| Permissions.CompanyScopeMixin.FilterQuerysetByScope | apps/core/permissions.py:24-29 | returns the scope filter of the queryset; a superuser never evaluates the allowed set |
| Permissions.CompanyScopeMixin.GetQueryset | apps/core/permissions.py:32-35 | the list queryset is the scope filter of the parent's queryset |
| Permissions.CompanyScopeMixin.GetObject | apps/core/permissions.py:38-50 | the detail lookup is the scoped lookup followed by the owner check |
| CoreAdmin.AdminGetQueryset | apps/core/admin.py:13-18 | the changelist is unfiltered for a superuser; otherwise it holds exactly the companies whose id is allowed |
| CoreAdmin.HasObjectPermission | apps/core/admin.py:20-39 | True for a superuser, True with no object, else iff the object's id is allowed |
| CoreAdmin.AdminPermissionIgnoresAction | apps/core/admin.py:20-39 | view, change and delete make the same decision |
| CoreAdmin.ObjectPermissionMatchesChangelist | apps/core/admin.py:13-39 | a listed company is exactly one the user may view, change and delete |
| CoreAdmin.FormfieldKwargs | apps/core/admin.py:64-72 | for the advisor field and an authenticated non-superuser, the choices are just that user and the initial value defaults to them; other fields and keys are untouched |
| CoreAdmin.ChangeformInitialData | apps/core/admin.py:75-82 | advisor defaults to the current user only when absent and only for authenticated non-superusers |
| CoreAdmin.SaveModelData | apps/core/admin.py:84-90 | an empty advisor becomes the non-superuser saving it; an existing advisor is never overwritten; nothing else changes |
| CoreAdmin.AdminAddKeepsCompanyVisible | apps/core/admin.py:69-89 | a company added in the admin by a non-superuser ends in that user's allowed set |
| CoreAdmin.SaveModel | apps/core/admin.py:84-90 | the save stores the company with the advisor rule applied, failing only on a duplicate tax_id |
| CoreViews.Ordered | apps/core/models.py:53-54 | the default ordering of companies is a permutation of the table sorted by name |
| CoreViews.CompanyListingIsFirstByName | apps/core/views.py:18-25 | `company_list` shows at most 50 companies, all visible to the user (every company for a superuser, else the allowed ones), sorted by name, and any visible company left out sorts after all 50 shown |
| CoreViews.CompanyLineFields | apps/core/views.py:25 | a listing line splits back into "- ", the company's name, " (", its tax_id and ")", so its length is the two fields' lengths plus five |
| CoreViews.CompanyListContentLines | apps/core/views.py:25 | the text splits into "Companies:" followed by the company lines joined by newlines |
| CoreViews.CompanyList | apps/core/views.py:16-26 | an anonymous user is sent to the admin login; anyone else gets the plain text of the listing |
| CoreViews.CompanyDetailForRestricted | apps/core/views.py:29-32 | for a non-superuser the guard runs first: any pk outside the allowed set, existing or not, gives 403, and an anonymous user is refused rather than redirected |
| CoreViews.CompanyDetailForSuperuser | apps/core/views.py:29-34 | a superuser sees any existing company and gets 404 for the others |
| CoreViews.AccessMixins | apps/core/views.py:36-37 | the login check comes first, then the Django permission; only a logged-in user holding it reaches the view |
| CoreViews.ListViewsAgree | apps/core/views.py:36-41 | the list view shows the same companies as `company_list`, filtered by company id |
| CoreViews.ObjectViewsAnswerNotFound | apps/core/views.py:43-71 | the detail view answers 404, never 403, for a company outside the allowed set, and shows the stored company otherwise |
| CoreViews.CompanyCreatePost | apps/core/views.py:49-63 | a valid POST saves the company with the current user as advisor and the default status "active", whatever the input supplied, and it enters their allowed set; anything else leaves the table unchanged |
| CoreViews.CompanyUpdatePost | apps/core/views.py:65-71 | an update can change only a company in the user's scope and keeps its status; any other pk leaves the table unchanged |
| ProfilesModels.NewQuestion | apps/profiles/models.py:28-37 | a new question has weight 1 (100 hundredths), is active, and a blank dimension with no sub-dimension |
| ProfilesModels.DeleteAssessment | apps/profiles/models.py:90-94 | deleting an assessment removes it and exactly its responses (CASCADE) |
| ProfilesModels.DeleteCompanyProfiles | apps/profiles/models.py:60-94 | deleting a company removes exactly its assessments and exactly the responses of those assessments; every other assessment and response stays |
| ProfilesModels.DeleteQuestion | apps/profiles/models.py:95-99 | deleting a question removes it and exactly its responses |
| ProfilesModels.DeleteAnalyst | apps/profiles/models.py:69-73 | deleting a user referenced as an assessment's analyst is refused (PROTECT); otherwise the profiles are untouched |
| ProfilesModels.DeleteUserEverywhere | apps/profiles/models.py:69-73 | deleting a user is refused as a whole iff some assessment names them as analyst; otherwise the profiles are untouched, every company is kept with the user cleared as advisor, and exactly their AnalystCompany rows go |
| ProfilesModels.KeepUniqueResponses | apps/profiles/models.py:109 | removing responses keeps (assessment, question) unique |
| ProfilesModels.KeepUniqueAssessments | apps/profiles/models.py:57 | removing assessments keeps their keys unique |
| ProfilesModels.DeleteCompanyProfilesValid | apps/profiles/models.py:42-109 | the cascade from a company keeps the catalogue unique per (instrument_code, instrument_version, code), responses unique per (assessment, question) and every reference resolved |
| ProfilesViews.LookupCompany | apps/profiles/views.py:33 | `get_object_or_404` on the string id: a non-integer id is an error (500), an unknown id 404, otherwise the company with that id |
| ProfilesViews.Prelude | apps/profiles/views.py:23-33 | login first, then the inline guard (403), then the company lookup |
| ProfilesViews.GuardOnCanonicalId | apps/profiles/views.py:28-31 | for a canonical id the guard passes iff the allowed set is empty or holds the id |
| ProfilesViews.GuardRefusesPaddedId | apps/profiles/views.py:30-33 | a zero-padded id ("07") names the company yet is refused whenever the allowed set is non-empty |
| ProfilesViews.PreludeAdmitsOnlyAllowed | apps/profiles/views.py:28-33 | with a non-empty allowed set only an allowed company is reached |
| ProfilesViews.EmptyAllowedReachesEveryCompany | apps/profiles/views.py:28-33 | an empty allowed set is no restriction: every company is reached |
| ProfilesViews.UnassignedUserReachesEveryCompany | apps/profiles/views.py:28-33 | a non-superuser with no assignment and no advised company reaches every company, like a superuser |
| ProfilesViews.CompanyAssessments | apps/profiles/views.py:59 | the company's assessments, and only those, newest first |
| ProfilesViews.CompanyAssessmentsMembers | apps/profiles/views.py:59 | an assessment is listed iff it belongs to the company |
| ProfilesViews.ActiveQuestions | apps/profiles/views.py:114 | the active questions ordered by (instrument_code, code) |
| ProfilesViews.ActiveQuestionsMembers | apps/profiles/views.py:114 | a question is listed iff it is active |
| ProfilesViews.ResponsesOf | apps/profiles/views.py:139 | the responses attached to an assessment are exactly its own |
| ProfilesViews.RecentAssessmentsAreNewest | apps/profiles/views.py:136-140 | `response_list` shows at most five of the company's assessments, newest first, and none left out is newer than those shown |
| ProfilesViews.WithResponses | apps/profiles/views.py:139 | each shown assessment carries its own responses |
| ProfilesViews.AssessmentManage | apps/profiles/views.py:23-46 | after the prelude, the page shows the company, the tab from `?tab=` or "assessments", the title, and the tab fragment for HTMX |
| ProfilesViews.AssessmentList | apps/profiles/views.py:49-65 | after the prelude, the company's assessments newest first |
| ProfilesViews.QuestionList | apps/profiles/views.py:104-122 | after the prelude, the active catalogue whatever the company |
| ProfilesViews.ResponseList | apps/profiles/views.py:125-149 | after the prelude, the five newest assessments with their responses |
| ProfilesViews.FindAssessment | apps/profiles/views.py:158 | the assessment is found only when it belongs to the URL's company |
| ProfilesViews.ProfilesDb.CreateAssessment | apps/profiles/views.py:79-82 | the saved assessment is stamped with the URL's company and the requesting user and appended |
| ProfilesViews.ProfilesDb.SaveAnswers | apps/profiles/views.py:182-207 | the transaction stores the loop's result, or nothing when it aborts on a non-integer answer or on a score the `decimal(6,2)` column cannot hold; the tables stay consistent |
| ProfilesViews.SaveAnswer | apps/profiles/views.py:183-207 | one iteration: skip a blank answer, abort on a non-integer, abort when the score overflows its column at the save, else update the existing response or create one |
| ProfilesViews.FillAnswersSnoc | apps/profiles/views.py:183 | the loop over a longer prefix is one more iteration |
| ProfilesViews.FillAnswersStored | apps/profiles/views.py:182-207 | a successful save keeps responses unique per (assessment, question) and every reference resolved |
| ProfilesViews.AssessmentCreate | apps/profiles/views.py:68-102 | a valid POST appends the stamped assessment and answers the refreshed list to HTMX or redirects; anything else shows the form and changes nothing |
| ProfilesViews.AssessmentFill | apps/profiles/views.py:151-240 | an assessment of another company is 404; a POST saves all answers or none (500 on a non-integer answer or one whose score overflows `decimal(6,2)`); a GET shows the questions grouped with the saved responses and changes nothing |
| ProfilesViews.QuestionsToFillFromCatalog | apps/profiles/views.py:169-173 | the questions to fill have distinct ids, all from the catalogue |
| ProfilesViews.FillPost | apps/profiles/views.py:181-219 | the POST branch stores the loop's result and shows the company's assessments, or answers 500 and rolls back when an answer is not an integer or overflows the score column |
| ProfilesFill.NormalizeDropsVersionSuffix | apps/profiles/views.py:160-167 | a blank-free code, alone or followed by " v1", " V1" or " 1", normalises to the bare code |
| ProfilesFill.NormalizeInnovationProfile | apps/profiles/views.py:160-167 | "INNOVATION_PROFILE v1" becomes "INNOVATION_PROFILE" |
| ProfilesFill.NormalizeBare | apps/profiles/views.py:161-167 | normalising is the identity on a blank-free code |
| ProfilesFill.NormalizeLowerV1 | apps/profiles/views.py:163 | the " v1" suffix is removed |
| ProfilesFill.NormalizeUpperV1 | apps/profiles/views.py:164 | the " V1" suffix is removed |
| ProfilesFill.NormalizeBareOne | apps/profiles/views.py:165 | the " 1" suffix is removed |
| ProfilesFill.FillQuestions | apps/profiles/views.py:169-173 | questions_qs holds the active questions of the instrument and version, ordered by (dimension, sub_dimension, code) |
| ProfilesFill.FillQuestionsMembers | apps/profiles/views.py:169-172 | a question is selected iff it is active and of the assessment's instrument and version |
| ProfilesFill.FillQuestionsDistinct | apps/profiles/views.py:169-173 | the selected questions have distinct ids |
| ProfilesFill.ExistingResponses | apps/profiles/views.py:176-178 | the map holds one of the assessment's responses per question it has |
| ProfilesFill.ScoreOfUnits | apps/profiles/views.py:192 | the score is the answer in whole units, and it fits the `decimal(6,2)` score column exactly when the answer lies between -9999 and 9999 |
| ProfilesFill.SaveRow | apps/profiles/views.py:194-199 | saving keeps every row in place with its key; the row with the response's key takes its values, every other row is untouched, and the saved response is present |
| ProfilesFill.FillAnswersAbortSticks | apps/profiles/views.py:182-191 | once an answer is not an integer the whole loop fails with that error |
| ProfilesFill.FillAnswersCorrect | apps/profiles/views.py:182-207 | the loop fails iff some answered question is not an integer or has a score the column cannot hold; otherwise every answered question has the posted response with a score that fits, other rows keep their keys and values, and created rows get fresh keys |
| ProfilesFill.FillAnswersOutcome | apps/profiles/views.py:183-207 | after a successful POST each answered question has exactly one response holding answer, score and observations; responses not asked for are unchanged; nothing else is added |
| ProfilesFill.FillAnswersNothingAnswered | apps/profiles/views.py:188-189 | a POST that answers nothing changes nothing |
| ProfilesFill.GroupQuestions | apps/profiles/views.py:222-232 | the GET loop groups the questions by dimension and sub-dimension in first-appearance order |
| ProfilesFill.GroupedEntries | apps/profiles/views.py:222-232 | dimension and sub-dimension keys are distinct, and each bucket holds exactly its questions in queryset order, never none |
| ProfilesFill.GroupedExactlyOnce | apps/profiles/views.py:224-227 | each question sits in the bucket keyed (dimension or "Sin dimensión", sub_dimension or "") and in no other |
| ProfilesFill.Bucket | apps/profiles/views.py:225-227 | a bucket holds exactly the questions with its keys |
| ProfilesFill.FirstAppearances | apps/profiles/views.py:227 | the dict's keys are exactly the keys met |
| ProfilesFill.SubAppendLookup | apps/profiles/views.py:227 | appending under one key adds the question at the end of that list and touches no other |
| ProfilesFill.DimAppendLookup | apps/profiles/views.py:227 | the nested append touches only its dimension |
| InventoryModels.KindOf | apps/inventory/models.py:158-430 | each record belongs to exactly the table of its constructor |
| InventoryModels.NewEquipment | apps/inventory/models.py:177-191 | new equipment has quantity 1 and NULL purchase year, origin and utilisation |
| InventoryModels.FieldsValidArePositive | apps/inventory/models.py:181-343 | a record that passes its field validators also meets the database's positive-integer checks |
| InventoryModels.NewEquipmentValid | apps/inventory/models.py:179-190 | equipment with the defaults, a non-empty name and a listed category passes every validator |
| InventoryModels.FindRecord | apps/inventory/models.py:158-430 | `get(pk=id)` finds a record of that table with that id, and finds none only when there is none |
| InventoryModels.FindRecordUnique | apps/inventory/models.py:158-430 | with distinct primary keys the lookup returns the record itself |
| InventoryModels.CompanyOf | apps/inventory/models.py:178-262 | a company-owned record names its company; a maintenance has one iff its equipment exists |
| InventoryModels.Unlink | apps/inventory/models.py:414 | an investment whose equipment is deleted keeps its row with the link set to NULL; nothing else changes |
| InventoryModels.UnlinkAll | apps/inventory/models.py:414 | SET_NULL applies to every row in place |
| InventoryModels.DeleteWithEquipment | apps/inventory/models.py:229 | the energy sources stay; the links of deleted equipment go and the others stay |
| InventoryModels.DeleteWithEquipmentMembers | apps/inventory/models.py:229-414 | a row survives iff it is not dropped and is not a maintenance of deleted equipment, investments unlinked |
| InventoryModels.DeleteEquipmentEffect | apps/inventory/models.py:229-414 | deleting equipment deletes it, its maintenances and its links; every investment stays, with the equipment unlinked, and no other investment appears; all else stays |
| InventoryModels.DeleteOtherEffect | apps/inventory/models.py:158-430 | deleting a record of another table deletes exactly that record |
| InventoryModels.DeleteWithEquipmentKeys | apps/inventory/models.py:317-386 | a deletion keeps primary keys and `unique_together` keys distinct |
| InventoryModels.DeleteWithEquipmentKeepsEquipment | apps/inventory/models.py:262 | equipment that is not deleted stays |
| InventoryModels.DeleteWithEquipmentValid | apps/inventory/models.py:178-414 | a deletion that also drops the rows of deleted owners leaves every foreign key resolved |
| InventoryModels.DeleteRecordValid | apps/inventory/models.py:229-414 | the delete view's `obj.delete()` keeps every constraint of the tables |
| InventoryModels.DeleteCompanyInventoryValid | apps/inventory/models.py:178-397 | deleting a company cascades to its inventory and leaves no row pointing at it |
| InventoryModels.DeleteEnergySource | apps/inventory/models.py:230 | deleting an energy source deletes exactly its links |
| InventoryModels.DeleteEnergySourceValid | apps/inventory/models.py:230 | that deletion keeps every constraint |
| InventoryModels.ReplaceRecord | apps/inventory/models.py:158-430 | an update keeps every record in place with its key; the one with the record's key takes its values, every other record is untouched, and the record is present |
| InventoryModels.SaveRecord | apps/inventory/models.py:158-430 | after `save()` the record is stored and every other row is kept |
| InventoryModels.ReplaceRecordKeys | apps/inventory/models.py:158-430 | an update keeps primary keys distinct |
| InventoryModels.ReplaceRecordUnique | apps/inventory/models.py:317-386 | an update that passes `validate_unique` keeps the unique constraints |
| InventoryModels.AppendRecordKeys | apps/inventory/models.py:317-386 | an insert with a fresh id that passes `validate_unique` keeps both kinds of key distinct |
| InventoryModels.SaveRecordValid | apps/inventory/models.py:158-430 | a save whose references resolve, whose columns are positive and whose unique key is free keeps every constraint |
| InventoryForms.CompanyEquipment | apps/inventory/forms.py:227-232 | the rows of `Equipment.objects.filter(company=...).order_by("name")`: the company's equipment, in order of name |
| InventoryForms.AllEquipment | apps/inventory/models.py:205 | the default queryset: every equipment, ordered by (name, id) |
| InventoryForms.CompanyEquipmentMembers | apps/inventory/forms.py:228-229 | an equipment is offered iff it is the company's |
| InventoryForms.Display | apps/inventory/models.py:224-225 | `get_FOO_display` gives the label of a listed value and the value itself otherwise |
| InventoryForms.EquipmentChoices | apps/inventory/forms.py:228-232 | one choice per equipment, keyed by its id |
| InventoryForms.ModelChoices | apps/inventory/forms.py:235 | a model choice field lists the empty label, when it has one, before one choice per row |
| InventoryForms.OrDefault | apps/inventory/forms.py:97-100 | Python's `initial or d`: an unset or zero initial becomes the default |
| InventoryForms.PrependBlankToOptional | apps/inventory/forms.py:410-413 | the loop keeps the form's fields |
| InventoryForms.PrependBlankToOptionalEffect | apps/inventory/forms.py:410-413 | each listed optional select gets the blank choice in front, every other field is unchanged |
| InventoryForms.RestrictEquipment | apps/inventory/forms.py:227-232 | the form keeps its fields |
| InventoryForms.RestrictEquipmentEffect | apps/inventory/forms.py:227-232 | with a company the equipment field offers exactly that company's equipment by name, its choices rebuilt from that queryset and its other attributes kept; without one the fields are unchanged; no other field changes |
| InventoryForms.InvestmentFieldsIntended | apps/inventory/forms.py:410-413 | the corrected loop keeps the form's fields |
| InventoryForms.ModelFormFields.constructor | apps/inventory/forms.py:95 | the form starts with the fields the ModelForm builds |
| InventoryForms.ModelFormFields.InitEquipmentForm | apps/inventory/forms.py:94-100 | `EquipmentForm.__init__` sets the quantity and purchase-year defaults |
| InventoryForms.ModelFormFields.InitTechnicalServiceForm | apps/inventory/forms.py:155-165 | `TechnicalServiceForm.__init__` marks two fields required and puts a blank location in front |
| InventoryForms.ModelFormFields.InitMaintenanceForm | apps/inventory/forms.py:219-236 | `MaintenanceForm.__init__` restricts the equipment, sets its empty label, and makes frequency optional |
| InventoryForms.ModelFormFields.InitInvestmentForm | apps/inventory/forms.py:404-413 | `InvestmentForm.__init__` restricts the equipment and prepends a blank to each optional select |
| InventoryForms.EquipmentFormDefaults | apps/inventory/forms.py:97-100 | the equipment form offers quantity 1 and the current year |
| InventoryForms.EquipmentFormZeroQuantity | apps/inventory/forms.py:97 | an initial quantity of 0 reads as unset and becomes 1 |
| InventoryForms.MaintenanceFormEquipment | apps/inventory/forms.py:227-236 | the maintenance form offers exactly the company's equipment by name (or every equipment), after the empty label; equipment is required and frequency is not |
| InventoryForms.InvestmentFormBlankChoices | apps/inventory/forms.py:410-413 | after the loop, each optional select of the three has a blank in front; any other field is unchanged |
| InventoryForms.InvestmentSelects | apps/inventory/forms.py:406-408 | before the loop, the three selects are optional and already start with the blank choice |
| InventoryForms.InvestmentFormTwoBlanks | apps/inventory/forms.py:410-413 | as written, status, equipment_category and equipment each list the blank choice twice |
| InventoryForms.TechnicalServiceFormTwoBlanks | apps/inventory/forms.py:162-165 | as written, service_location lists the blank choice twice |
| InventoryForms.InvestmentFormOneBlank | apps/inventory/forms.py:410-413 | with the blank added only when missing, each of the three selects lists it exactly once |
| InventoryForms.TechnicalServiceFormOneBlank | apps/inventory/forms.py:162-165 | with the same correction service_location lists the blank exactly once |
| InventoryForms.TechnicalServiceRequiredIsNoChange | apps/inventory/forms.py:158-159 | service_type and provider_name were required already, so those two lines change nothing |
| InventoryForms.CleanLastDate | apps/inventory/forms.py:238-246 | a last date after today is refused; no date, today or a past date is kept unchanged |
| InventoryForms.ValidMaintenanceEquipment | apps/inventory/forms.py:227-246 | a valid maintenance form names equipment of the URL's company and a last date no later than today |
| InventoryViews.SelectTab | apps/inventory/views.py:70-73 | the tab is the requested one when it is listed in TABS, otherwise "equipment" |
| InventoryViews.InventoryManage | apps/inventory/views.py:64-90 | login first, an unknown company is 404, otherwise the page of the company with the chosen tab and its fragment |
| InventoryViews.HxTrigger | apps/inventory/views.py:95-105 | a 204 whose payload holds the event, and "modal:close" iff asked for, all set to true |
| InventoryViews.EventNamesAreNotCloseModal | apps/inventory/views.py:216-350 | no table's event is "modal:close", so a closing trigger carries exactly two keys |
| InventoryViews.ListRecords | apps/inventory/views.py:217-351 | `qs_by_company`: the table's rows of the company, in the table's order |
| InventoryViews.ListedRecords | apps/inventory/views.py:247-249 | a row is listed iff it is of the table and its company (for maintenance, its equipment's) is the URL's |
| InventoryViews.ListView | apps/inventory/views.py:137-143 | login, then GET only (405), then the company or 404, then its listed rows |
| InventoryViews.Stamp | apps/inventory/views.py:155-219 | the saved row gets the next id and, except maintenance, the URL's company (`before_create`) |
| InventoryViews.Restamp | apps/inventory/views.py:182-184 | the update keeps the row's id and company and takes the form's fields |
| InventoryViews.CreateView | apps/inventory/views.py:145-171 | saves iff logged in, POST, the company exists, the form is valid and the unique key is free; then the store gains the stamped row and the trigger is answered; a GET or an invalid POST shows the form and changes nothing |
| InventoryViews.UpdateView | apps/inventory/views.py:173-196 | a missing row is 404; a save happens iff a logged-in POST finds the row and its company, the form is valid and the unique key is free, rewriting the row with the form's fields; a GET or an invalid POST shows the form bound to the row and changes nothing |
| InventoryViews.DeleteView | apps/inventory/views.py:198-204 | deletes iff logged in, POST or DELETE, and the row exists; then the cascades of `obj.delete()` apply |
| InventoryViews.OwnerExists | apps/inventory/views.py:178-250 | in a consistent store `company_from_obj` always finds a company |
| InventoryViews.ValidFormReferences | apps/inventory/forms.py:227-408 | what the forms let through refers to existing rows and meets the database's checks |
| InventoryViews.CreateAppends | apps/inventory/views.py:152-161 | a successful create appends one row with the next id, of the URL's company, which that company's list shows |
| InventoryViews.CreateKeepsValid | apps/inventory/views.py:145-171 | create keeps every constraint of the tables and the ids below the next one |
| InventoryViews.UpdateInPlace | apps/inventory/views.py:181-185 | a successful update keeps the row's key and company and replaces it in place |
| InventoryViews.UpdateKeepsValid | apps/inventory/views.py:173-196 | update keeps every constraint of the tables |
| InventoryViews.DeleteRemoves | apps/inventory/views.py:201-204 | delete removes exactly the row; equipment takes its maintenances and links along, and the investments are exactly the old ones with it unlinked |
| InventoryViews.DeleteKeepsValid | apps/inventory/views.py:198-204 | delete keeps every constraint of the tables |
| InventoryViews.ViewsIgnoreWhoAsks | apps/inventory/views.py:64-204 | no inventory view consults the user's allowed companies: any two logged-in users get the same answers and changes |
| InventoryViews.RestrictedUserReachesAnyCompany | apps/inventory/views.py:64-143 | an analyst sees the inventory of a company outside their allowed set |
| InventoryViews.InventoryDb.constructor | apps/inventory/views.py:110-206 | the tables start as given |
| InventoryViews.InventoryDb.InsertRow | apps/inventory/views.py:158 | `obj.save()` of a new row: stored with the next id unless its unique key is taken, then nothing changes |
| InventoryViews.InventoryDb.UpdateRow | apps/inventory/views.py:184 | `form.save()` of an existing row: rewritten unless its unique key is taken |
| InventoryViews.InventoryDb.Create | apps/inventory/views.py:145-171 | the imperative create view ends in the state and answer `CreateView` gives, and keeps the tables consistent |
| InventoryViews.InventoryDb.Update | apps/inventory/views.py:173-196 | the imperative update view ends in the state and answer `UpdateView` gives, and keeps the tables consistent |
| InventoryViews.InventoryDb.Remove | apps/inventory/views.py:198-204 | the imperative delete view ends in the state and answer `DeleteView` gives, and keeps the tables consistent |
| InitRoles.CodenameSplits | apps/accounts/management/commands/init_roles.py:18-19 | the first underscore of `perm_codename(action, model)` ends the action, for an action without one |
| InitRoles.CodenameInjective | apps/accounts/management/commands/init_roles.py:18-19 | for underscore-free actions the codename determines action and model |
| InitRoles.LookupPermission | apps/accounts/management/commands/init_roles.py:33-36 | `Permission.objects.get`: missing iff no permission has the app label and codename, MultipleObjectsReturned iff two rows have them, and a found one is the only match |
| InitRoles.GrantOne | apps/accounts/management/commands/init_roles.py:31-42 | one action: the run goes on iff the lookup does not match several permissions; every group other than the role's keeps its permissions, the role's group only gains, and the output only grows |
| InitRoles.GrantOneClosed | apps/accounts/management/commands/init_roles.py:33-42 | a found permission is added to the group, a missing one is reported and skipped |
| InitRoles.GrantActionsClosed | apps/accounts/management/commands/init_roles.py:30-42 | the loop over actions completes iff no lookup raises, and then adds exactly the found permissions and reports exactly the missing ones, in order |
| InitRoles.GrantModelsClosed | apps/accounts/management/commands/init_roles.py:28-42 | the same for the loop over TARGET_MODELS |
| InitRoles.GrantActionsSticks | apps/accounts/management/commands/init_roles.py:33-36 | once a lookup has raised the loop does nothing more |
| InitRoles.GrantModelsSticks | apps/accounts/management/commands/init_roles.py:28-42 | the same for the loop over models |
| InitRoles.InitRolesSticks | apps/accounts/management/commands/init_roles.py:26-44 | the same for the loop over roles |
| InitRoles.InitRoleSticks | apps/accounts/management/commands/init_roles.py:26-44 | the same for one role |
| InitRoles.InitRoleClosed | apps/accounts/management/commands/init_roles.py:27-44 | one role: the group is fetched or created, gains the role's grants, and its name joins `created` |
| InitRoles.InitRolesOk | apps/accounts/management/commands/init_roles.py:26-44 | the loop over ROLE_DEFS completes iff no lookup matches several permissions |
| InitRoles.InitRolesClosed | apps/accounts/management/commands/init_roles.py:26-44 | a completed loop has granted each role its permissions, reported every missing one and listed every role |
| InitRoles.RoleDefsNames | apps/accounts/management/commands/init_roles.py:5-48 | the closing line reads "Groups initialized: READER, EDITOR, LOCAL_ADMIN" |
| InitRoles.HandleClosed | apps/accounts/management/commands/init_roles.py:24-51 | `handle` completes iff no looked-up (app label, codename) is held by two permission rows; then the groups are granted, the warnings are written, and the two closing lines follow |
| InitRoles.GrantRolesAt | apps/accounts/management/commands/init_roles.py:26-44 | each role's group ends with what it had plus the role's grants; other groups are untouched |
| InitRoles.ActionGrantsMembers | apps/accounts/management/commands/init_roles.py:30-42 | a permission is granted for a model iff some action's lookup finds it |
| InitRoles.ModelGrantsMembers | apps/accounts/management/commands/init_roles.py:28-42 | a permission is granted iff some target model and action find it |
| InitRoles.HandleGrants | apps/accounts/management/commands/init_roles.py:24-44 | after a completed run each role's group exists and holds exactly what it had plus the existing permissions of its actions on the target models |
| InitRoles.GrantRolesIdempotent | apps/accounts/management/commands/init_roles.py:27-42 | granting the roles again changes no group |
| InitRoles.RoleDefsDistinct | apps/accounts/management/commands/init_roles.py:5-9 | the role names are distinct |
| InitRoles.HandleIdempotent | apps/accounts/management/commands/init_roles.py:24-51 | running the command a second time completes and changes no group |
| InitRoles.RoleHierarchy | apps/accounts/management/commands/init_roles.py:5-9 | each role's actions include the previous role's, and only LOCAL_ADMIN deletes |
| InitRoles.ActionGrantsMonotone | apps/accounts/management/commands/init_roles.py:30-42 | more actions never grant fewer permissions on a model |
| InitRoles.ModelGrantsMonotone | apps/accounts/management/commands/init_roles.py:28-42 | more actions never grant fewer permissions |
| InitRoles.RoleGrantsNested | apps/accounts/management/commands/init_roles.py:5-42 | READER's grants are within EDITOR's, and EDITOR's within LOCAL_ADMIN's |
| InitRoles.GrantActionsPrefix | apps/accounts/management/commands/init_roles.py:33-36 | an exception in a prefix of the actions is the outcome of the whole loop |
| InitRoles.GrantModelsPrefix | apps/accounts/management/commands/init_roles.py:28-42 | the same for the models |
| InitRoles.InitRolesPrefix | apps/accounts/management/commands/init_roles.py:26-44 | the same for the roles |
| InitRoles.ActionsCrash | apps/accounts/management/commands/init_roles.py:33-37 | a lookup that matches several permissions ends the loop with what was written before it |
| InitRoles.AuthDb.constructor | apps/accounts/management/commands/init_roles.py:24-25 | the tables start as given, with nothing written |
| InitRoles.AuthDb.GrantActionsOn | apps/accounts/management/commands/init_roles.py:30-42 | the imperative loop over actions ends in the state `GrantActions` gives |
| InitRoles.AuthDb.GrantModelsOn | apps/accounts/management/commands/init_roles.py:28-42 | the imperative loop over models ends in the state `GrantModels` gives |
| InitRoles.AuthDb.InitRoleOn | apps/accounts/management/commands/init_roles.py:27-44 | one role of the loop (get_or_create, the grants, then `created` gains the name) ends in the state `InitRole` gives, and `created` grows only when no lookup raised |
| InitRoles.AuthDb.HandleCommand | apps/accounts/management/commands/init_roles.py:24-51 | the command ends with the groups, output and outcome `Handle` gives; the permissions are unchanged |
| ProfilesViews.ParseIntPadded | apps/profiles/views.py:33 | the integer lookup reads a zero-padded id as the same number |
| ProfilesViews.ProfilesDb.constructor | apps/profiles/views.py:1-240 | the tables start consistent, as given |
| CoreModels.CompanyTable.constructor | apps/core/models.py:15-69 | the company table starts consistent, as given |

## Left out

- Rendering: templates, HTML, the HTMX fragment choice and the `HX-Request` header are not modelled; a view answers a page value naming what it would render (company, tab, fragment, title, rows).  The plain-text body of `company_list` is modelled exactly.
- The `HX-Trigger` header is modelled as the payload map, not as its JSON text.
- CSRF protection, sessions and passwords are left out; `is_authenticated` and `is_superuser` are inputs, and `PermissionRequiredMixin`'s Django permission is a boolean input.
- URL routing, `apps.py`, the context processor and the dynamic `COMPANY_MODEL` lookup are not part of this model; the profile views receive `company_id` as a string.
- `apps/inventory/admin.py`, `apps/accounts/admin.py`, `apps/core/forms.py` and `apps/profiles/forms.py` are display configuration and are not part of this model; a form's own field validation is a boolean input (`fieldsOk`) next to the checks the model does state.
- Free-text columns (descriptions, notes) are omitted from the records where nothing depends on them.
- The `energy_sources` many-to-many of equipment is modelled only as the bridge rows and their cascades; `form.save_m2m()` is not modelled.
- `created_at` is modelled by the row id, which grows with every insert; one id counter serves all inventory tables.
- `transaction.atomic` is modelled as all-or-nothing and nothing more; concurrent requests are left out.
- `InitRoles.Handle`: `apps.get_model` is taken to succeed for the three target models; a lookup that matches several permissions (`MultipleObjectsReturned`) ends the run with the changes already made kept, as Django's autocommit does.
- `InitRoles`: the `WARNING` and `SUCCESS` styles of the command's output are left out; the output is the sequence of lines.
- `InventoryViews.CreateView` and `InventoryViews.UpdateView`: the forms exclude `company`, so `validate_unique` does not check `unique_together` keys that include it; the database then refuses the save.  The model answers a server error and leaves the store unchanged.
- `InventoryViews.InventoryManage`: only GET is modelled; the view's method dispatch is Django's.
- `CoreViews.CompanyCreatePost` and `CoreViews.CompanyUpdatePost`: the success URL is `reverse_lazy("company_list")` without the `core:` namespace that apps/core/urls.py:7 declares.  Unless the root URLconf, which is not part of this model, also names a `company_list` route, the reverse raises `NoReverseMatch` after the save has been committed.  The model answers a redirect to the bare name and does not resolve it.
- `ProfilesViews.SaveAnswer`: a score beyond `decimal(6,2)` is modelled as the database refusing the save.  PostgreSQL raises a numeric overflow, and Django up to 4.2 refuses to format the decimal on every backend.  On SQLite with a newer Django the row would be stored instead.  `answer_value` never overflows on its own: every answer the score column holds fits a 32-bit integer.
- `Ordering`: the sort orders are SQLite's, where NULL is the smallest value and text compares by code point.  PostgreSQL puts NULL last under ASC and first under DESC, and compares text by the database collation.  The nullable sort columns are `last_date` (the maintenance list), `investment_date` and `investment_year` (the investment list) and `sub_dimension` (the fill form's questions); on PostgreSQL their NULL rows move to the other end of their group, and the names sorted in `CoreViews.CompanyListingIsFirstByName`, `InventoryViews.ListRecords` and `ProfilesFill.FillQuestions` may sort differently under a non-binary collation.
- `ProfilesModels`: the primary keys of `Question`, `Assessment` and `Response` are random `uuid4` values.  A question's key is its string form, and assessments and responses take fresh keys from a counter; the model relies only on freshness and equality, not on the UUID format or on randomness.
- `ProfilesViews.AssessmentFill`: the `int()` of an answer follows Python's integer syntax for an optional sign, ASCII digits with single underscores between them, and surrounding blanks; non-ASCII digits (which Python's `int()` also accepts) are not modelled.

## Findings

| source | as written | input that shows it | evidently intended | confidence | as-written member | corrected member |
|---|---|---|---|---|---|---|
| apps/inventory/forms.py:410-413 | the loop puts ("", "---------") in front of each optional select of `InvestmentForm`, but the ModelForm has already put that blank choice there | any `InvestmentForm`: `status`, `equipment` and `equipment_category` each list the blank choice twice | each optional select lists the blank choice once | not executed | InventoryForms.InvestmentFormTwoBlanks | InventoryForms.InvestmentFormOneBlank |
| apps/inventory/forms.py:162-165 | `TechnicalServiceForm` prepends the blank choice to `service_location`, whose ModelForm choices already start with it | any `TechnicalServiceForm`: `service_location` lists the blank choice twice | the location select lists the blank choice once | not executed | InventoryForms.TechnicalServiceFormTwoBlanks | InventoryForms.TechnicalServiceFormOneBlank |
