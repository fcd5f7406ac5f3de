# Enquiry CRM front-end: decision and list-update logic in Dafny

This project models the logic beneath a React front-end for a training institute's enquiry
CRM. Prospective candidates submit enquiries. Staff with the roles ADMIN, COUNSELLOR,
ACCOUNTS and HR move each candidate through a six-stage deal pipeline, keep a billing
sub-ledger and a call/notes log, and maintain the subjects and packages on offer.

The model covers, page by page:

- **Deal stage** (`deal_stage.dfy`). The stages a role may pick, the pipeline position that
  lights the progress bar, and when the demo-status control is enabled. These are pure
  functions of the session role and the record.
- **Candidate page** (`candidate_details.dfy`). The generic optimistic update with
  whole-record rollback, and the stage update with stage-only rollback followed by an optional
  demo-status update. The page's record is a class field. The record the handler's closure
  captured (the "snapshot") is a separate parameter, so the effect of a stale closure stays
  visible.
- **Activity tabs** (`activity_tabs.dfy`). The billing role gate, the balance, Create
  Billing and per-field edits; mapping fetched logs and sorting them newest first; and the
  notes form (guard, save, edit, reset) as a class.
- **Packages and subjects** (`package_subject.dfy`). Create, edit and delete over sequences;
  the cascade of a subject deletion into every package; the search filter; toggling one
  subject; select-all/deselect-all; and the package's subject names.
- **Enquiry form** (`enquiry.dfy`). Package selection, subject toggling, the ordered
  validation chain, the request body, and the reset after submit or clear.
- **Candidate info panel** (`candidate_info.dfy`). Package labels, single-field edits, the
  subject checkboxes, save and cancel, and the COUNSELLOR-only edit gate.
- **Enquiry list** (`contact.dfy`). Package and subject labels.
- **Staff accounts** (`user_roles.dfy`). Create and change-password validation, the modal
  reset, role options and role badges.

Shared pieces:

- `types.dfy` holds the records. `Partial<Enquiry>` is `EnquiryPatch`, where every key may be
  missing. The object spread `{ ...record, ...patch }` is `Apply`, stated key by key through
  the `Field`/`Value` projection.
- `seqs.dfy` and `text.dfy` model the JavaScript built-ins the pages rely on: `indexOf`,
  `filter`, `find`, `includes`, `[...new Set(xs)]`, `toLowerCase`, `String.prototype.includes`,
  `join`, and number-to-text conversion.

Remote calls are not executed. Each one is an `Outcome` parameter (`Ok` or `Failed(message)`),
and a reply's data is a further parameter. `confirm` dialogs are a boolean parameter.
`Date.now()` ids are a fresh-id parameter. The session role read from `localStorage` is a
`SessionRole` parameter, which is `None` when no role is stored.

## Model

| member | source | states |
|---|---|---|
| DealStage.VisibleStages | src/components/candidate/DealStage.tsx:27-36 | every role gets a non-empty list of stages |
| DealStage.VisibleStagesByRole | src/components/candidate/DealStage.tsx:27-36 | COUNSELLOR, ACCOUNTS and HR get stages 0-2, 2-4 and 4-5 of the pipeline; ADMIN, unknown and absent roles get all six |
| DealStage.VisibleStagesInCanonicalOrder | src/components/candidate/DealStage.tsx:27-36 | for every role the options are a non-empty, duplicate-free subsequence of the six stages in pipeline order |
| DealStage.RestrictedRolesCoverPipeline | src/components/candidate/DealStage.tsx:28-33 | the three restricted roles together reach every stage and hand over at shared stages |
| DealStage.StagesDistinct | src/components/candidate/DealStage.tsx:8-15 | no stage is listed twice |
| DealStage.GlobalStageIndex | src/components/candidate/DealStage.tsx:41 | the position lies between -1 and 5 |
| DealStage.GlobalStageIndexSpec | src/components/candidate/DealStage.tsx:41 | an empty status is index 0; each stage sits at its own index; any other value gives -1 |
| DealStage.SegmentsLit | src/components/candidate/DealStage.tsx:57-58 | six segments whatever the role; exactly index+1 lit, so one for an empty status and none for an unknown one |
| DealStage.CountTrue | src/components/candidate/DealStage.tsx:57-58 | the lit count never exceeds the number of segments |
| DealStage.CountLitPrefix | src/components/candidate/DealStage.tsx:58 | segments lit exactly on positions 0..k number k+1 |
| DealStage.DemoStatusEditableIff | src/components/candidate/DealStage.tsx:44 | editable iff the role is ADMIN or COUNSELLOR and the stage is demo or qualified demo; a missing role or stage disables it |
| DealStage.DemoEditableOnlyOnVisibleStage | src/components/candidate/DealStage.tsx:27-44 | whoever may edit the demo status can also pick the record's stage |
| DealStage.ControlsShowStoredValues | src/components/candidate/DealStage.tsx:82-105 | the stage select's value is the stored stage, never coerced (default 'enquiry stage'); the demo select's value is the stored status (default 'Not yet started'), offers exactly the four statuses, and is disabled iff not editable |
| DealStage.SliceIsSubsequence | src/components/candidate/DealStage.tsx:29-33 | a contiguous block of the pipeline is a subsequence of it |
| CandidateDetails.CandidateDetailsPage.HandleUpdateCandidate | src/pages/CandidateDetails.tsx:58-78 | the new record, requests and notices are those of `UpdateCandidate` on the old state |
| CandidateDetails.CandidateDetailsPage.HandleStageUpdate | src/pages/CandidateDetails.tsx:80-114 | the new record, requests and notices are those of `StageUpdate` on the old state |
| CandidateDetails.UpdateWithoutRecordIsNoOp | src/pages/CandidateDetails.tsx:59 | with no record loaded, nothing changes and nothing is sent |
| CandidateDetails.UpdateOptimisticThenRollback | src/pages/CandidateDetails.tsx:62-76 | one PUT; while it is in flight, named fields take the new values and the others keep the snapshot's; success keeps that, failure restores the whole snapshot and raises one notice |
| CandidateDetails.EmptyUpdateKeepsRecord | src/pages/CandidateDetails.tsx:63 | an update naming no fields leaves the record unchanged, whatever the outcome |
| CandidateDetails.SameStageNoStatusWrite | src/pages/CandidateDetails.tsx:84-111 | picking the stored stage sends no change-status write and keeps the stage |
| CandidateDetails.StageFailureRevertsOnlyStage | src/pages/CandidateDetails.tsx:84-106 | a new stage is shown first; on failure only `candidateStatus` reverts, the other fields keep their current values, one notice is raised and no demo write follows |
| CandidateDetails.StageSuccessKeepsNewStage | src/pages/CandidateDetails.tsx:84-100 | a successful change with no demo follow-up keeps the new stage and nothing else changes |
| CandidateDetails.DemoWriteOnlyAfterStagePath | src/pages/CandidateDetails.tsx:104-113 | the demo PUT is sent iff a record is loaded, the stage part did not fail, and the demo status is non-empty and new; it is then the last request |
| CandidateDetails.StaleSnapshotUndoesStageLocally | src/pages/CandidateDetails.tsx:62-112 | after a successful stage change plus a demo write, the page shows the old stage again |
| CandidateDetails.CardEventsTouchOneField | src/components/candidate/DealStage.tsx:83-96 | an event from the deal-stage card never triggers both writes, so the stale-snapshot case cannot arise from it |
| ActivityTabs.BillingAuthorizedIff | src/components/candidate/ActivityTabs.tsx:118 | billing is authorised iff the role is ADMIN or ACCOUNTS; no role, HR and COUNSELLOR are refused |
| ActivityTabs.Balance | src/components/candidate/ActivityTabs.tsx:237 | never negative, at least the difference, and either 0 or the difference |
| ActivityTabs.BalanceSpec | src/components/candidate/ActivityTabs.tsx:237 | equals the difference when that is at least 0, else 0; a new ledger owes 0 |
| ActivityTabs.BalanceMonotone | src/components/candidate/ActivityTabs.tsx:252-291 | paying more or discounting more never raises the balance; raising the total never lowers it |
| ActivityTabs.EditBilling | src/components/candidate/ActivityTabs.tsx:252-278 | the edited amount takes the new value and the other two are unchanged |
| ActivityTabs.Author | src/components/candidate/ActivityTabs.tsx:48 | the author is the poster's role when non-empty, else 'User' |
| ActivityTabs.InsertNewestFirst | src/components/candidate/ActivityTabs.tsx:51 | inserting into a newest-first list keeps it newest first and adds exactly that log |
| ActivityTabs.NotNewerThanHead | src/components/candidate/ActivityTabs.tsx:51 | every log behind the head of a newest-first list is no newer than that head |
| ActivityTabs.SortNewestFirst | src/components/candidate/ActivityTabs.tsx:51 | the result is newest first and a permutation of the input |
| ActivityTabs.ToLogs | src/components/candidate/ActivityTabs.tsx:43-50 | one log per fetched item, in the reply's order |
| ActivityTabs.FetchedLogsSpec | src/components/candidate/ActivityTabs.tsx:42-52 | fetched logs are newest first, one per item, include every converted item, and have non-empty authors |
| ActivityTabs.SaveGuardMatchesButton | src/components/candidate/ActivityTabs.tsx:68 | the save click is ignored exactly when the button is disabled: title or description empty |
| ActivityTabs.NotesPanel.FetchLogs | src/components/candidate/ActivityTabs.tsx:37-57 | a list reply replaces the logs with the sorted mapping; otherwise the logs are kept |
| ActivityTabs.NotesPanel.OpenNewLog | src/components/candidate/ActivityTabs.tsx:151-155 | an empty form in create mode, modal open |
| ActivityTabs.NotesPanel.HandleEditClick | src/components/candidate/ActivityTabs.tsx:112-116 | the form holds the log's title and description, the edited id is the log's, modal open |
| ActivityTabs.NotesPanel.HandleSaveLog | src/components/candidate/ActivityTabs.tsx:67-110 | an incomplete form sends nothing; otherwise update-or-create is sent; a failed write changes nothing; success refreshes the logs, resets the form, clears the edited id and closes the modal |
| ActivityTabs.EditThenSaveUpdatesThatLog | src/components/candidate/ActivityTabs.tsx:67-116 | saving an edited log updates that log, except that id 0 is falsy and creates a new log |
| PackageSubject.PackageSubjectPage.OpenSubjectModal | src/pages/PackageSubject.tsx:70-79 | the form holds the subject's name and code, or is empty |
| PackageSubject.PackageSubjectPage.SaveSubject | src/pages/PackageSubject.tsx:81-91 | an empty name or code changes nothing; otherwise edit or append, close the modal and empty the form, with the edited subject kept |
| PackageSubject.PackageSubjectPage.DeleteSubject | src/pages/PackageSubject.tsx:93-98 | when confirmed, remove the subject and cascade into the packages; otherwise nothing |
| PackageSubject.PackageSubjectPage.OpenPackageModal | src/pages/PackageSubject.tsx:101-111 | the form holds the package's fields, or is empty; the search is cleared |
| PackageSubject.PackageSubjectPage.SavePackage | src/pages/PackageSubject.tsx:113-123 | as SaveSubject, for packages |
| PackageSubject.PackageSubjectPage.DeletePackage | src/pages/PackageSubject.tsx:125-129 | when confirmed, remove the packages with that id |
| PackageSubject.PackageSubjectPage.ToggleSubjectSelection | src/pages/PackageSubject.tsx:131-138 | the form's selection is toggled; nothing else changes |
| PackageSubject.PackageSubjectPage.HandleSelectAll | src/pages/PackageSubject.tsx:151-166 | the selection becomes `SelectAll` of the ids the current query lists |
| PackageSubject.EditSubjects | src/pages/PackageSubject.tsx:85 | same length and ids; subjects with the id get the form's name and code; all others unchanged |
| PackageSubject.EditPackages | src/pages/PackageSubject.tsx:117 | same length and ids; packages with the id get the form's fields; all others unchanged |
| PackageSubject.AddSubject | src/pages/PackageSubject.tsx:87 | one new subject at the end, the earlier ones kept |
| PackageSubject.AddPackage | src/pages/PackageSubject.tsx:119 | one new package at the end, the earlier ones kept |
| PackageSubject.RemoveSubject | src/pages/PackageSubject.tsx:95 | keeps exactly the subjects whose id differs |
| PackageSubject.DropSubject | src/pages/PackageSubject.tsx:96 | every package keeps its id, name and code; the id disappears from each selection, every other id keeps its count, and the survivors keep their order |
| PackageSubject.RemovePackage | src/pages/PackageSubject.tsx:127 | keeps exactly the packages whose id differs |
| PackageSubject.EditIdempotent | src/pages/PackageSubject.tsx:85-117 | editing twice with the same form equals editing once |
| PackageSubject.AddThenRemoveSubject | src/pages/PackageSubject.tsx:87-95 | deleting a just-created subject with a fresh id restores the list; a fresh id keeps ids distinct |
| PackageSubject.AddThenRemovePackage | src/pages/PackageSubject.tsx:119-127 | deleting a just-created package with a fresh id restores the list |
| PackageSubject.DeleteSubjectCascades | src/pages/PackageSubject.tsx:95-96 | afterwards no subject has the id and no package lists it; survivors keep their order; every other id keeps its membership |
| PackageSubject.DeletePackageKeepsOrder | src/pages/PackageSubject.tsx:127 | removes exactly the packages with the id and keeps the rest in order; an unused id changes nothing |
| PackageSubject.ToggleSelection | src/pages/PackageSubject.tsx:134-136 | an absent id is appended at the end of the unchanged list; a present one is removed with every other id kept in order with its count; name and code unchanged |
| PackageSubject.ToggleTwiceRestores | src/pages/PackageSubject.tsx:134-136 | toggling twice restores membership, and the form itself when the id was absent |
| PackageSubject.FilteredSubjects | src/pages/PackageSubject.tsx:145-148 | exactly the subjects whose lower-cased name or code contains the lower-cased query |
| PackageSubject.FilteredSubjectsSpec | src/pages/PackageSubject.tsx:145-148 | an order-preserving subset; an empty query keeps all |
| PackageSubject.SelectAllDeselects | src/pages/PackageSubject.tsx:153-160 | when all filtered ids are selected: removes exactly them, keeps the rest in order, and afterwards they are not all selected |
| PackageSubject.SelectAllSelects | src/pages/PackageSubject.tsx:163-164 | otherwise: the duplicate-free union with the prior selection first, after which every filtered id is selected |
| PackageSubject.SelectAllEmptyFilter | src/pages/PackageSubject.tsx:151-171 | on an empty filter select-all is a no-op and the label reads "Select All" |
| PackageSubject.LabelMatchesAction | src/pages/PackageSubject.tsx:168-171 | the label says "Deselect All" iff the filter is non-empty and a click would deselect |
| PackageSubject.LookupName | src/pages/PackageSubject.tsx:141 | no name iff no subject has the id; a name found belongs to a subject with that id |
| PackageSubject.KnownNames | src/pages/PackageSubject.tsx:141 | no more names than ids, none empty |
| PackageSubject.KnownNamesAllKnown | src/pages/PackageSubject.tsx:141 | when every id is known with a non-empty name: one name per id, in order |
| PackageSubject.UnknownIdsDropped | src/pages/PackageSubject.tsx:141 | unknown ids are dropped; all-unknown gives the empty string |
| PackageSubject.InitialPackageNames | src/pages/PackageSubject.tsx:140-142 | the seeded package shows "Mathematics, Physics" |
| EnquiryIntake.Validate | src/pages/Enquiry.tsx:196-208 | refused for no agreement, else for no package, else for no subjects, in that order; accepted iff all three hold |
| EnquiryIntake.BuildPayload | src/pages/Enquiry.tsx:212-228 | the package is null iff "Others" (-1), else passed through; the referral is the free text iff the source is 'Other'; status 'enquiry stage'; consent and subjects copied |
| EnquiryIntake.EnquiryPage.HandlePackageSelect | src/pages/Enquiry.tsx:158-182 | the package id is stored; "Others" clears the subjects; listed subjects replace them; a failed fetch keeps them; nothing else changes |
| EnquiryIntake.EnquiryPage.HandleSubjectToggle | src/pages/Enquiry.tsx:184-192 | an absent id is appended at the end; a present one is removed with the other ids kept in order with their counts; nothing else changes |
| EnquiryIntake.EnquiryPage.HandleSubmit | src/pages/Enquiry.tsx:194-242 | a refused form sends nothing and changes nothing; otherwise the body is sent, success resets the form, failure keeps it, and `submitting` ends false |
| EnquiryIntake.EnquiryPage.HandleClear | src/pages/Enquiry.tsx:244-248 | when confirmed, the form is reset to the initial state |
| EnquiryIntake.AcceptedPayloadComplete | src/pages/Enquiry.tsx:205-226 | an accepted form always yields a body with consent and at least one subject |
| EnquiryIntake.InitialFormRefused | src/pages/Enquiry.tsx:196-207 | the initial (and reset) form is refused for want of agreement; the three messages differ |
| EnquiryIntake.OthersSendsNoPackage | src/pages/Enquiry.tsx:217 | "Others" sends null and any other id is sent as is |
| EnquiryIntake.OthersNeedsSubjects | src/pages/Enquiry.tsx:161-205 | right after choosing "Others", an agreed form is refused for want of subjects |
| EnquiryIntake.NewEnquiryStartsPipeline | src/pages/Enquiry.tsx:227 | a submitted enquiry enters the pipeline at stage index 0 |
| CandidateInfo.GetPackageName | src/components/candidate/CandidateInfo.tsx:52-63 | null gives 'Others'; undefined gives '-'; a loaded package gives its name; -1 gives 'Others'; any other id gives `Package <id> ` |
| CandidateInfo.FallbackLabel | src/components/candidate/CandidateInfo.tsx:62 | 'Package ' followed by the id's digits and a trailing space |
| CandidateInfo.FallbackLabelsDistinct | src/components/candidate/CandidateInfo.tsx:62 | distinct unknown ids get distinct labels, none equal to 'Others' or '-' |
| CandidateInfo.PackageChoice | src/components/candidate/CandidateInfo.tsx:151 | the choice is null iff the value is -1 |
| CandidateInfo.SelectRoundTrip | src/components/candidate/CandidateInfo.tsx:150-151 | choosing the shown value stores the same package key back |
| CandidateInfo.CheckSubject | src/components/candidate/CandidateInfo.tsx:168-172 | checking appends the id to the list (empty when missing); unchecking removes every occurrence and keeps the other ids in order with their counts |
| CandidateInfo.CheckThenUncheck | src/components/candidate/CandidateInfo.tsx:168-172 | check then uncheck leaves the id unselected and the rest as before; unchecking an absent id changes nothing |
| CandidateInfo.EditGate | src/components/candidate/CandidateInfo.tsx:86-94 | only COUNSELLOR is offered Edit; ADMIN, the other roles and no role are not |
| CandidateInfo.CandidateInfoPanel.constructor | src/components/candidate/CandidateInfo.tsx:11-19 | the form holds the record and edit mode is off |
| CandidateInfo.CandidateInfoPanel.ReceiveEnquiry | src/components/candidate/CandidateInfo.tsx:17-19 | a new record is copied into the form whatever the mode |
| CandidateInfo.CandidateInfoPanel.HandleEditClick | src/components/candidate/CandidateInfo.tsx:21-35 | edit mode starts iff the control is offered |
| CandidateInfo.CandidateInfoPanel.HandleChange | src/components/candidate/CandidateInfo.tsx:47-49 | only that key of the form changes |
| CandidateInfo.CandidateInfoPanel.HandlePackageChoice | src/components/candidate/CandidateInfo.tsx:151 | only the package key changes, to the mapped choice |
| CandidateInfo.CandidateInfoPanel.HandleSubjectCheckbox | src/components/candidate/CandidateInfo.tsx:167-173 | only the subject key changes, to `CheckSubject` of it |
| CandidateInfo.CandidateInfoPanel.HandleSave | src/components/candidate/CandidateInfo.tsx:37-40 | the whole form is handed on and edit mode ends |
| CandidateInfo.CandidateInfoPanel.HandleCancel | src/components/candidate/CandidateInfo.tsx:42-45 | the form is restored from the record and edit mode ends |
| CandidateInfo.ChangeOneFieldThenSave | src/components/candidate/CandidateInfo.tsx:37-49 | changing one field of a fresh form and saving changes exactly that field of the record |
| CandidateInfo.SaveAfterCancelKeepsRecord | src/components/candidate/CandidateInfo.tsx:37-45 | saving right after cancel leaves the page's record unchanged, whether the write succeeds or fails |
| Contact.GetPackageName | src/pages/Contact.tsx:39-43 | null gives 'Others'; a loaded package gives `name (code)`; an unknown id gives `ID: <id>` |
| Contact.UnknownPackageLabel | src/pages/Contact.tsx:42 | 'ID: ' followed by the id's digits |
| Contact.UnknownPackageLabelsDistinct | src/pages/Contact.tsx:40-42 | an unknown id never reads 'Others', and distinct unknown ids read differently |
| Contact.SubjectLabels | src/pages/Contact.tsx:47-50 | one entry per id, in order |
| Contact.SubjectLabelSpec | src/pages/Contact.tsx:48-49 | a known subject shows its name, an unknown one its id; with nothing loaded, distinct ids show distinct entries |
| Contact.GetSubjectNames | src/pages/Contact.tsx:45-51 | 'None' for a missing or empty list; otherwise the entries for the ids joined by ', ' |
| Contact.SingleSubjectNames | src/pages/Contact.tsx:47-50 | a one-id list shows exactly that id's entry |
| UserRoles.ValidateSave | src/pages/UserRoles.tsx:113-123 | changing a password is refused iff the password is empty; creating is refused iff name, email or password is empty; each with its message |
| UserRoles.ValidationByMode | src/pages/UserRoles.tsx:113-123 | change-password ignores name and email; whatever creation accepts, change-password accepts |
| UserRoles.BlankFormRefused | src/pages/UserRoles.tsx:113-122 | a blank form, or one just opened for an account, is always refused |
| UserRoles.RoleOptionsExcludeAdmin | src/pages/UserRoles.tsx:55 | the options are exactly HR, COUNSELLOR and ACCOUNTS, each once, with distinct names, never ADMIN |
| UserRoles.BadgeColorsDistinct | src/pages/UserRoles.tsx:184-195 | each role has its own badge |
| UserRoles.UserRolesPage.FetchUsers | src/pages/UserRoles.tsx:62-76 | success replaces the list and clears the error; failure keeps the list and shows the error; loading ends false |
| UserRoles.UserRolesPage.OpenModal | src/pages/UserRoles.tsx:78-97 | the account's name, email and role with a blank password, or a blank form; the error is left as it was |
| UserRoles.UserRolesPage.CloseModal | src/pages/UserRoles.tsx:99-109 | closed, no account, blank form with role HR, no error |
| UserRoles.UserRolesPage.SaveUser | src/pages/UserRoles.tsx:111-160 | a refused form sends nothing, sets only the error and leaves `loading` alone; success closes the modal with no error even when the refresh fails; failure keeps the modal and shows the message |
| Seqs.IndexOf | src/components/candidate/DealStage.tsx:41 | -1 iff absent; otherwise the first position holding the element |
| Seqs.Filter | src/pages/PackageSubject.tsx:145 | keeps exactly the elements satisfying the predicate, never more than the input |
| Seqs.FilterIsSubsequence | src/pages/PackageSubject.tsx:145 | a filter keeps the input's order |
| Seqs.FilterAppend | src/pages/PackageSubject.tsx:87-95 | filtering distributes over concatenation |
| Seqs.FindFirst | src/pages/Contact.tsx:41-48 | a found element is in the list and matches; nothing is found iff no element matches |
| Seqs.FindFirstIsFirst | src/pages/Contact.tsx:41-48 | the first matching element is the one found |
| Seqs.RemoveAll | src/pages/PackageSubject.tsx:96 | the element disappears, every other element keeps its count, and the survivors keep their order |
| Seqs.Toggle | src/pages/Enquiry.tsx:187-189 | an absent element is appended at the end; a present one is removed with the rest kept in order with their counts |
| Seqs.ToggleTwice | src/pages/Enquiry.tsx:187-189 | toggling twice restores membership, and the list itself when the element was absent |
| Seqs.Dedup | src/pages/PackageSubject.tsx:163 | the same elements, without duplicates |
| Seqs.DedupFromPrefix | src/pages/PackageSubject.tsx:163 | de-duplicating a concatenation starts with the de-duplication of its first part, so the prior selection keeps its order |
| Seqs.DedupFromUnseen | src/pages/PackageSubject.tsx:163 | a duplicate-free list is its own de-duplication |
| Text.NatToString | src/components/candidate/CandidateInfo.tsx:62 | digits only, no leading zero, and reading the digits back gives the number |
| Text.IntToStringInjective | src/pages/Contact.tsx:42 | distinct numbers render as distinct text |
| Text.ToLower | src/pages/PackageSubject.tsx:146-147 | same length, with each character lower-cased |
| Text.ContainsAt | src/pages/PackageSubject.tsx:146-147 | any block equal to the needle is found |
| Types.Apply | src/pages/CandidateDetails.tsx:63 | a key present in the patch takes the patch's value and every other key keeps the record's |
| Types.ApplyEmpty | src/pages/CandidateDetails.tsx:63 | spreading an empty patch changes nothing |
| Types.ApplyFull | src/components/candidate/CandidateInfo.tsx:38 | spreading a full record yields that record |
| Types.ApplyOneField | src/components/candidate/CandidateInfo.tsx:48 | a one-key patch changes exactly that key |
| Types.WithField | src/components/candidate/CandidateInfo.tsx:48 | the key takes the value and every other key is kept |
| Types.EnquiryExtensional | src/types.ts:14-34 | two enquiries that agree on every key are equal |
| Types.FindPackage | src/pages/Contact.tsx:41 | a found package is loaded and has the id; none is found iff no loaded package has it |
| Types.FindSubject | src/pages/Contact.tsx:48 | a found subject is loaded and has the id; none is found iff no loaded subject has it |
| Types.FullPatch | src/components/candidate/CandidateInfo.tsx:18 | the form copy holds every key of the record with the record's value |
| Types.Get | src/types.ts:14-34 | each key's value has the key's declared type |
| Types.PatchGet | src/types.ts:14-34 | a key present in a patch has the key's declared type |
| Text.IntToString | src/pages/Contact.tsx:42 | never empty; starts with '-' iff the number is negative |
| Text.Join | src/pages/PackageSubject.tsx:141 | no parts give the empty text; the text starts with the first part; one part is that part alone |
| Text.JoinAppend | src/pages/PackageSubject.tsx:141 | joining one more part appends the separator and that part, so every part appears in order between separators |
| Seqs.RemoveEach | src/pages/PackageSubject.tsx:157-160 | keeps exactly the elements not in the removed list, never more than the input |
| Seqs.RemoveEachSpec | src/pages/PackageSubject.tsx:157-160 | the input's order is kept, and removing nothing changes nothing |
| Seqs.DedupFrom | src/pages/PackageSubject.tsx:163 | exactly the elements not yet seen, with no duplicates |
| PackageSubject.PackageSubjectPage.constructor | src/pages/PackageSubject.tsx:50-67 | the seeded subjects and package, both modals closed, nothing being edited, empty forms and query |
| PackageSubject.PackageSubjectPage.SetSubjectSearchQuery | src/pages/PackageSubject.tsx:422-423 | only the query changes |
| ActivityTabs.NotesPanel.constructor | src/components/candidate/ActivityTabs.tsx:26-33 | no logs, empty form, nothing being edited, modal closed |
| CandidateDetails.CandidateDetailsPage.constructor | src/pages/CandidateDetails.tsx:15 | the record handed over on navigation, or none, and no notices |
| EnquiryIntake.EnquiryPage.constructor | src/pages/Enquiry.tsx:134-136 | the initial form, not submitting |
| UserRoles.UserRolesPage.constructor | src/pages/UserRoles.tsx:41-53 | no accounts, modal closed, nothing being edited, not loading, no error, blank form |
| UserRoles.UserRole.Name | src/pages/UserRoles.tsx:13 | every assignable role's wire name is HR, COUNSELLOR or ACCOUNTS |
| Seqs.Map | src/pages/PackageSubject.tsx:152 | one result per element, each the projection of the element at the same position (the subject-id lists of both pages) |
| Text.Contains | src/pages/PackageSubject.tsx:146-147 | the empty needle is always found; a found needle is no longer than the text |
| Text.ContainsSound | src/pages/PackageSubject.tsx:146-147 | a needle that is found occurs as a block at some position |
| Text.ContainsIff | src/pages/PackageSubject.tsx:146-147 | found exactly when some block of the text equals the needle |
| Contact.SubjectLabel | src/pages/Contact.tsx:48-49 | an id no subject has shows as its decimal text; otherwise the name of the first subject with that id |
| Contact.SubjectNamesAppend | src/pages/Contact.tsx:47-50 | one more id appends ', ' and that id's entry to the text |
| Contact.TwoSubjectNames | src/pages/Contact.tsx:47-50 | two ids show as the first entry, ', ', and the second entry |
| PackageSubject.GetSubjectNames | src/pages/PackageSubject.tsx:140-142 | the names of the known ids joined by ', '; empty exactly when no id has a named subject |
| PackageSubject.KnownNamesAppend | src/pages/PackageSubject.tsx:141 | the names of a concatenation of id lists are the concatenated names |
| PackageSubject.GetSubjectNamesAppend | src/pages/PackageSubject.tsx:141 | one more id adds ', ' and its name when it is a known non-empty name, starts the text when nothing preceded, and changes nothing otherwise |
| PackageSubject.SavedSubjects | src/pages/PackageSubject.tsx:84-88 | an edit keeps the count and the ids of the subjects; a creation appends one subject with the new id after the unchanged list |
| PackageSubject.SavedPackages | src/pages/PackageSubject.tsx:116-120 | an edit keeps the count and the ids of the packages; a creation appends one package with the new id after the unchanged list |
| PackageSubject.SelectAll | src/pages/PackageSubject.tsx:151-166 | only previously selected or filtered ids are selected afterwards, and selections outside the filter stay |
| PackageSubject.AreAllFilteredSelected | src/pages/PackageSubject.tsx:168-171 | false for an empty filter or an empty selection; when true the first filtered subject is selected |
| PackageSubject.MatchesQuery | src/pages/PackageSubject.tsx:146-147 | an empty query matches every subject; a match needs the query to fit in the name or the code |
| CandidateDetails.UpdateCandidate | src/pages/CandidateDetails.tsx:58-78 | no record means no effect; otherwise exactly one write of the snapshot's id, and the one failure notice exactly when the write fails |
| CandidateDetails.StageUpdate | src/pages/CandidateDetails.tsx:80-114 | no record means no effect; otherwise at most two writes, all for the snapshot's id, and at most one failure notice, either the status or the update message |
| CandidateDetails.WantsDemoUpdate | src/pages/CandidateDetails.tsx:104-106 | a follow-up demo-status write is wanted only for a demo status that differs from the snapshot's |
| DealStage.IsSegmentActive | src/components/candidate/DealStage.tsx:57-58 | only segments inside the pipeline can be lit, and an unknown stored stage lights none |
| DealStage.IsDemoStatusEditable | src/components/candidate/DealStage.tsx:44 | editable only for a signed-in role on the second or third pipeline stage |
| DealStage.Render | src/components/candidate/DealStage.tsx:57-105 | one segment per stage, lit as a prefix; a non-empty stage value; the role's stage options; the demo control disabled exactly when not editable |
| ActivityTabs.IsBillingAuthorized | src/components/candidate/ActivityTabs.tsx:118 | authorized only for a signed-in role other than HR and COUNSELLOR |
| ActivityTabs.ToLog | src/components/candidate/ActivityTabs.tsx:44-50 | id, title, description and time copied from the fetched item; the author label is never empty |
| ActivityTabs.SaveRejected | src/components/candidate/ActivityTabs.tsx:68 | the empty draft is refused; a draft with a title and a description is not |
| ActivityTabs.SaveButtonDisabled | src/components/candidate/ActivityTabs.tsx:374 | the button is disabled exactly when the save handler would refuse the draft |
| ActivityTabs.SaveRequest | src/components/candidate/ActivityTabs.tsx:71-93 | an update of the edited log exactly when a non-zero log id is being edited, else a creation for the enquiry; title and description copied |
| CandidateInfo.SelectValue | src/components/candidate/CandidateInfo.tsx:150 | -1 for no package, the package id otherwise |
| CandidateInfo.CanEdit | src/components/candidate/CandidateInfo.tsx:87 | only a signed-in COUNSELLOR may edit; ADMIN, HR and ACCOUNTS may not |
| UserRoles.SaveRequest | src/pages/UserRoles.tsx:129-149 | a password change for the edited user exactly when editing, else a creation with a non-ADMIN role; the form's password is sent |
| UserRoles.RoleBadgeColor | src/pages/UserRoles.tsx:184-195 | every role gets a non-empty colour class |

## Left out

- Transport and session: `fetch`, authentication headers, `localStorage`, the 401 redirect and navigation. Remote calls are `Outcome` parameters, and `confirm` dialogs are booleans.
- Alerts: `alert` messages are modelled only as the failure notices of the candidate page. Elsewhere an alert has no state effect, and the model does not record it.
- Loading flags and the metadata fetches: the packages and subjects that the enquiry form, the candidate info panel and the enquiry list load on mount, and the enquiry page's load error. Their results are parameters of the functions that use them.
- Form input setters that assign a single field: the enquiry form's text inputs, the subject and package name and code inputs, the note title and description, and the user form fields. The modal close buttons are left out for the same reason.
- deleteUser on the staff page: it is not part of this model.
- The read-only subject list in the candidate info panel's view mode: it is not part of this model.
- The activity panel's tab switch and the packages page's tab switch: presentation only.
- Seqs.FindFirst and the other lookups in `Seqs` and `Types` treat ids as exact values. JavaScript's `===` between a number and a numeric string is not modelled.
- Text.ToLower: only A-Z are lowered. Unicode case mapping is not modelled.
- ActivityTabs.SortNewestFirst: the model sorts on integer creation times. The source sorts by re-parsing locale-formatted timestamps, which loses sub-second precision, and in some locales yields NaN and so an unspecified order. Sort stability is not stated.
- ActivityTabs.Balance: amounts are unbounded integers. `Number(...)` parsing, floating point and `NaN` are not modelled.
- Text.IntToString: ids are unbounded integers printed in plain decimal. JavaScript prints numbers from 1e21 upwards in exponent form (`ID: 1e+21`, `Package 1e+21 `); that number formatting is not modelled.
- CandidateInfo.CandidateInfoPanel.HandleChange: requires a value of the field's declared type. The source accepts `any`.
- UserRoles.UserRolesPage.SaveUser: the message shown on a failed write is the `Outcome` message. The fallback 'An error occurred', used for thrown non-`Error` values, is not distinguished.
- UserRoles.RoleBadgeColor: the source's default branch is unreachable from the three-role type, so it is not modelled.
- Concurrency: overlapping in-flight writes and React render timing are left out. The only exception is the explicit snapshot parameter of the candidate page's handlers.
- Dates: `createdAt`/`updatedAt` are opaque strings, and log times are integers. Locale date formatting is left out.
