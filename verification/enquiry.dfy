/** The public enquiry form: choosing a package (which pre-selects its subjects), toggling
    subjects, the three-step validation on submit, the request body built from the form, and
    the reset after a successful submit or a confirmed clear. */
module EnquiryIntake {
  import opened Common
  import opened Types
  import Seqs
  import DealStage

  /** The form's state. `packageId` is `None` until a package (or "Others") is chosen. */
  datatype FormData = FormData(
    candidateName: string,
    candidatePhone: string,
    candidateEmail: string,
    candidateLocation: string,
    packageId: Option<int>,
    subjectIds: seq<int>,
    trainingMode: string,
    trainingTiming: string,
    startDate: string,
    professionalSituation: string,
    qualification: string,
    experience: string,
    source: string,
    sourceOther: string,
    agreed: bool)

  /** Empty text everywhere, no package, no subject, terms not agreed. */
  const INITIAL_FORM_STATE: FormData :=
    FormData("", "", "", "", None, [], "", "", "", "", "", "", "", "", false)

  /** The package choice "Others", which has no row of its own. */
  const PACKAGE_ID_OTHERS: int := -1

  /** The source choice that makes the free-text source the referral. */
  const SOURCE_OTHER: string := "Other"

  /** Why a submit is refused, in the order the checks run. */
  datatype Rejection = NotAgreed | NoPackage | NoSubjects
  {
    function Message(): string
    {
      match this
      case NotAgreed => "Please agree to the terms to proceed."
      case NoPackage => "Please select a package or \"Others\"."
      case NoSubjects => "Please select at least one subject."
    }
  }

  /** The submit guards: agreement first, then a package choice, then at least one subject. */
  function Validate(f: FormData): (r: Option<Rejection>)
    ensures r == Some(NotAgreed) <==> !f.agreed
    ensures r == Some(NoPackage) <==> f.agreed && f.packageId.None?
    ensures r == Some(NoSubjects) <==> f.agreed && f.packageId.Some? && |f.subjectIds| == 0
    ensures r.None? <==> f.agreed && f.packageId.Some? && |f.subjectIds| > 0
  {
    if !f.agreed then Some(NotAgreed)
    else if f.packageId.None? then Some(NoPackage)
    else if |f.subjectIds| == 0 then Some(NoSubjects)
    else None
  }

  /** The body of `POST /api/enquiries`. */
  datatype Payload = Payload(
    name: string,
    email: string,
    phone: string,
    currentLocation: string,
    packageId: Option<int>,
    subjectIds: seq<int>,
    trainingMode: string,
    trainingTime: string,
    startTime: string,
    profession: string,
    qualification: string,
    experience: string,
    referral: string,
    consent: bool,
    candidateStatus: string)

  /** The body built from a form that passed validation. */
  function BuildPayload(f: FormData): (p: Payload)
    requires f.packageId.Some?
    ensures p.packageId.None? <==> f.packageId.value == PACKAGE_ID_OTHERS
    ensures p.packageId.Some? ==> p.packageId.value == f.packageId.value
    ensures p.referral == (if f.source == SOURCE_OTHER then f.sourceOther else f.source)
    ensures p.candidateStatus == DealStage.DEFAULT_STAGE
    ensures p.consent == f.agreed && p.subjectIds == f.subjectIds
  {
    Payload(
      f.candidateName,
      f.candidateEmail,
      f.candidatePhone,
      f.candidateLocation,
      if f.packageId.value == PACKAGE_ID_OTHERS then None else f.packageId,
      f.subjectIds,
      f.trainingMode,
      f.trainingTiming,
      f.startDate,
      f.professionalSituation,
      f.qualification,
      f.experience,
      if f.source == SOURCE_OTHER then f.sourceOther else f.source,
      f.agreed,
      DealStage.DEFAULT_STAGE)
  }

  /** The subject ids of a detailed package, in its order. */
  function IncludedSubjectIds(subjects: seq<Subject>): seq<int>
  {
    Seqs.Map(subjects, SubjectId)
  }

  function SubjectId(s: Subject): int
  {
    s.id
  }

  /** The enquiry page's form state. */
  class EnquiryPage {
    var formData: FormData
    var submitting: bool

    constructor ()
      ensures formData == INITIAL_FORM_STATE && !submitting
    {
      formData := INITIAL_FORM_STATE;
      submitting := false;
    }

    /** handlePackageSelect(pkgId). `details` is the reply of `GET /api/packages/{pkgId}`,
        `None` when that request fails; it is not consulted for "Others". */
    method HandlePackageSelect(pkgId: int, details: Option<Package>)
      modifies this
      ensures formData.packageId == Some(pkgId)
      ensures pkgId == PACKAGE_ID_OTHERS ==> formData.subjectIds == []
      ensures pkgId != PACKAGE_ID_OTHERS && details.Some? && details.value.subjects.Some? ==>
        formData.subjectIds == IncludedSubjectIds(details.value.subjects.value)
      ensures pkgId != PACKAGE_ID_OTHERS && (details.None? || details.value.subjects.None?) ==>
        formData.subjectIds == old(formData.subjectIds)
      ensures formData == old(formData).(packageId := formData.packageId, subjectIds := formData.subjectIds)
      ensures submitting == old(submitting)
    {
      formData := formData.(packageId := Some(pkgId));
      if pkgId == PACKAGE_ID_OTHERS {
        formData := formData.(subjectIds := []);
        return;
      }
      if details.Some? && details.value.subjects.Some? {
        formData := formData.(subjectIds := IncludedSubjectIds(details.value.subjects.value));
      }
    }

    /** handleSubjectToggle(subjectId): remove every occurrence when present, else append. */
    method HandleSubjectToggle(subjectId: int)
      modifies this
      ensures formData == old(formData).(subjectIds := Seqs.Toggle(old(formData.subjectIds), subjectId))
      ensures subjectId !in old(formData.subjectIds) ==> formData.subjectIds == old(formData.subjectIds) + [subjectId]
      ensures subjectId in old(formData.subjectIds) ==>
        Seqs.IsSubsequence(formData.subjectIds, old(formData.subjectIds)) &&
        multiset(formData.subjectIds) == multiset(old(formData.subjectIds))[subjectId := 0]
      ensures submitting == old(submitting)
    {
      formData := formData.(subjectIds := Seqs.Toggle(formData.subjectIds, subjectId));
    }

    /** handleSubmit. `post` is the outcome of the POST. A rejected form sends nothing and
        changes nothing; otherwise the body is sent, a success resets the form, a failure keeps
        it, and `submitting` ends false either way. */
    method HandleSubmit(post: Outcome) returns (rejection: Option<Rejection>, sent: Option<Payload>)
      modifies this
      ensures rejection == Validate(old(formData))
      ensures rejection.Some? ==> sent.None? && formData == old(formData) && submitting == old(submitting)
      ensures rejection.None? ==> sent == Some(BuildPayload(old(formData))) && !submitting
      ensures rejection.None? && post.Ok? ==> formData == INITIAL_FORM_STATE
      ensures rejection.None? && post.Failed? ==> formData == old(formData)
    {
      rejection := Validate(formData);
      if rejection.Some? {
        return rejection, None;
      }
      submitting := true;
      sent := Some(BuildPayload(formData));
      if post.Ok? {
        formData := INITIAL_FORM_STATE;
      }
      submitting := false;
    }

    /** handleClear: after confirmation, back to the initial state. */
    method HandleClear(confirmed: bool)
      modifies this
      ensures formData == (if confirmed then INITIAL_FORM_STATE else old(formData))
      ensures submitting == old(submitting)
    {
      if confirmed {
        formData := INITIAL_FORM_STATE;
      }
    }
  }

  // ----- Properties -----

  /** A form that passes validation always yields a body with consent and at least one
      subject. */
  lemma AcceptedPayloadComplete(f: FormData)
    requires Validate(f).None?
    ensures |BuildPayload(f).subjectIds| > 0 && BuildPayload(f).consent
  {
  }

  /** A fresh or reset form is refused for want of agreement, and the three messages differ. */
  lemma InitialFormRefused()
    ensures Validate(INITIAL_FORM_STATE) == Some(NotAgreed)
    ensures NotAgreed.Message() != NoPackage.Message() && NoPackage.Message() != NoSubjects.Message()
    ensures NotAgreed.Message() != NoSubjects.Message()
  {
  }

  /** Choosing "Others" sends no package, and any real id is sent as is. */
  lemma OthersSendsNoPackage(f: FormData)
    requires f.packageId.Some?
    ensures f.packageId == Some(PACKAGE_ID_OTHERS) ==> BuildPayload(f).packageId.None?
    ensures f.packageId != Some(PACKAGE_ID_OTHERS) ==> BuildPayload(f).packageId == f.packageId
  {
  }

  /** A submitted enquiry enters the pipeline at its first stage, with no demo status. */
  lemma NewEnquiryStartsPipeline(f: FormData)
    requires f.packageId.Some?
    ensures DealStage.GlobalStageIndex(BuildPayload(f).candidateStatus) == 0
    ensures BuildPayload(f).candidateStatus == DealStage.STAGES[0]
  {
    DealStage.GlobalStageIndexSpec(BuildPayload(f).candidateStatus);
  }

  /** "Others" clears the subjects, so a submit right after choosing it is refused for want of
      subjects (when the terms are agreed). */
  lemma OthersNeedsSubjects(f: FormData)
    requires f.agreed
    ensures Validate(f.(packageId := Some(PACKAGE_ID_OTHERS), subjectIds := [])) == Some(NoSubjects)
  {
  }
}
