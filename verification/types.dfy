/** The records shared by the pages: subjects, packages, the candidate enquiry and its billing
    details, plus `Partial<Enquiry>` and the object spread `{ ...record, ...patch }` that the
    update handlers use to overlay one on the other. */
module Types {
  import opened Common
  import Seqs

  datatype Subject = Subject(id: int, name: string, code: string)

  /** A package; `subjects` is present only in the detailed view of one package. */
  datatype Package = Package(id: int, name: string, code: string, subjects: Option<seq<Subject>>)

  function PackageHasId(id: int): Package -> bool
  {
    (p: Package) => p.id == id
  }

  function SubjectHasId(id: int): Subject -> bool
  {
    (s: Subject) => s.id == id
  }

  /** `packages.find(p => p.id === id)`. */
  function FindPackage(packages: seq<Package>, id: int): (r: Option<Package>)
    ensures r.Some? ==> r.value in packages && r.value.id == id
    ensures r.None? <==> forall p :: p in packages ==> p.id != id
  {
    Seqs.FindFirst(packages, PackageHasId(id))
  }

  /** `subjects.find(s => s.id === id)`. */
  function FindSubject(subjects: seq<Subject>, id: int): (r: Option<Subject>)
    ensures r.Some? ==> r.value in subjects && r.value.id == id
    ensures r.None? <==> forall s :: s in subjects ==> s.id != id
  {
    Seqs.FindFirst(subjects, SubjectHasId(id))
  }

  /** A candidate enquiry. `packageId` is `None` for the "Others" choice; `candidateStatus` is
      the deal stage, an arbitrary string (the empty string reads as absent); `demoStatus` is
      optional. */
  datatype Enquiry = Enquiry(
    id: int,
    name: string,
    email: string,
    phone: string,
    currentLocation: string,
    packageId: Option<int>,
    subjectIds: seq<int>,
    trainingMode: string,
    trainingTime: string,
    startTime: string,
    profession: string,
    qualification: string,
    experience: string,
    referral: string,
    consent: bool,
    candidateStatus: string,
    demoStatus: Option<string>,
    createdAt: string,
    updatedAt: string)

  /** `Partial<Enquiry>`: every key may be missing (`None`). For the two nullable or optional
      fields, `Some(None)` is a key that is present and holds null / undefined. */
  datatype EnquiryPatch = EnquiryPatch(
    id: Option<int>,
    name: Option<string>,
    email: Option<string>,
    phone: Option<string>,
    currentLocation: Option<string>,
    packageId: Option<Option<int>>,
    subjectIds: Option<seq<int>>,
    trainingMode: Option<string>,
    trainingTime: Option<string>,
    startTime: Option<string>,
    profession: Option<string>,
    qualification: Option<string>,
    experience: Option<string>,
    referral: Option<string>,
    consent: Option<bool>,
    candidateStatus: Option<string>,
    demoStatus: Option<Option<string>>,
    createdAt: Option<string>,
    updatedAt: Option<string>)

  datatype BillingDetails = BillingDetails(total: int, paid: int, discount: int)

  /** The keys of `Enquiry`. */
  datatype Field =
    | Id | Name | Email | Phone | CurrentLocation | PackageId | SubjectIds
    | TrainingMode | TrainingTime | StartTime | Profession | Qualification | Experience
    | Referral | Consent | CandidateStatus | DemoStatus | CreatedAt | UpdatedAt

  /** A field's value, tagged by its declared type. */
  datatype Value =
    | NumV(n: int)
    | TextV(s: string)
    | MaybeNumV(on: Option<int>)
    | IdsV(ids: seq<int>)
    | FlagV(b: bool)
    | MaybeTextV(os: Option<string>)

  /** `v` has the type `types.ts` declares for `f`. */
  predicate Fits(f: Field, v: Value)
  {
    match f
    case Id => v.NumV?
    case PackageId => v.MaybeNumV?
    case SubjectIds => v.IdsV?
    case Consent => v.FlagV?
    case DemoStatus => v.MaybeTextV?
    case _ => v.TextV?
  }

  /** `e[f]`. */
  function Get(e: Enquiry, f: Field): (v: Value)
    ensures Fits(f, v)
  {
    match f
    case Id => NumV(e.id)
    case Name => TextV(e.name)
    case Email => TextV(e.email)
    case Phone => TextV(e.phone)
    case CurrentLocation => TextV(e.currentLocation)
    case PackageId => MaybeNumV(e.packageId)
    case SubjectIds => IdsV(e.subjectIds)
    case TrainingMode => TextV(e.trainingMode)
    case TrainingTime => TextV(e.trainingTime)
    case StartTime => TextV(e.startTime)
    case Profession => TextV(e.profession)
    case Qualification => TextV(e.qualification)
    case Experience => TextV(e.experience)
    case Referral => TextV(e.referral)
    case Consent => FlagV(e.consent)
    case CandidateStatus => TextV(e.candidateStatus)
    case DemoStatus => MaybeTextV(e.demoStatus)
    case CreatedAt => TextV(e.createdAt)
    case UpdatedAt => TextV(e.updatedAt)
  }

  function Lift<T>(o: Option<T>, tag: T -> Value): Option<Value>
  {
    match o
    case None => None
    case Some(x) => Some(tag(x))
  }

  /** `p[f]`, or `None` when the key is missing. */
  function PatchGet(p: EnquiryPatch, f: Field): (v: Option<Value>)
    ensures v.Some? ==> Fits(f, v.value)
  {
    match f
    case Id => Lift(p.id, n => NumV(n))
    case Name => Lift(p.name, s => TextV(s))
    case Email => Lift(p.email, s => TextV(s))
    case Phone => Lift(p.phone, s => TextV(s))
    case CurrentLocation => Lift(p.currentLocation, s => TextV(s))
    case PackageId => Lift(p.packageId, o => MaybeNumV(o))
    case SubjectIds => Lift(p.subjectIds, ids => IdsV(ids))
    case TrainingMode => Lift(p.trainingMode, s => TextV(s))
    case TrainingTime => Lift(p.trainingTime, s => TextV(s))
    case StartTime => Lift(p.startTime, s => TextV(s))
    case Profession => Lift(p.profession, s => TextV(s))
    case Qualification => Lift(p.qualification, s => TextV(s))
    case Experience => Lift(p.experience, s => TextV(s))
    case Referral => Lift(p.referral, s => TextV(s))
    case Consent => Lift(p.consent, b => FlagV(b))
    case CandidateStatus => Lift(p.candidateStatus, s => TextV(s))
    case DemoStatus => Lift(p.demoStatus, o => MaybeTextV(o))
    case CreatedAt => Lift(p.createdAt, s => TextV(s))
    case UpdatedAt => Lift(p.updatedAt, s => TextV(s))
  }

  /** `{}`: the patch with no keys. */
  const EmptyPatch := EnquiryPatch(
    None, None, None, None, None, None, None, None, None, None,
    None, None, None, None, None, None, None, None, None)

  function Pick<T>(o: Option<T>, otherwise: T): T
  {
    match o
    case None => otherwise
    case Some(x) => x
  }

  /** `{ ...e, ...p }`: a key present in `p` takes `p`'s value, every other key keeps `e`'s. */
  function Apply(e: Enquiry, p: EnquiryPatch): (r: Enquiry)
    ensures forall f :: Get(r, f) == (if PatchGet(p, f).Some? then PatchGet(p, f).value else Get(e, f))
  {
    Enquiry(
      Pick(p.id, e.id),
      Pick(p.name, e.name),
      Pick(p.email, e.email),
      Pick(p.phone, e.phone),
      Pick(p.currentLocation, e.currentLocation),
      Pick(p.packageId, e.packageId),
      Pick(p.subjectIds, e.subjectIds),
      Pick(p.trainingMode, e.trainingMode),
      Pick(p.trainingTime, e.trainingTime),
      Pick(p.startTime, e.startTime),
      Pick(p.profession, e.profession),
      Pick(p.qualification, e.qualification),
      Pick(p.experience, e.experience),
      Pick(p.referral, e.referral),
      Pick(p.consent, e.consent),
      Pick(p.candidateStatus, e.candidateStatus),
      Pick(p.demoStatus, e.demoStatus),
      Pick(p.createdAt, e.createdAt),
      Pick(p.updatedAt, e.updatedAt))
  }

  /** An enquiry seen as a `Partial<Enquiry>` with every key present. */
  function FullPatch(e: Enquiry): (p: EnquiryPatch)
    ensures forall f :: PatchGet(p, f) == Some(Get(e, f))
  {
    EnquiryPatch(
      Some(e.id), Some(e.name), Some(e.email), Some(e.phone), Some(e.currentLocation),
      Some(e.packageId), Some(e.subjectIds), Some(e.trainingMode), Some(e.trainingTime),
      Some(e.startTime), Some(e.profession), Some(e.qualification), Some(e.experience),
      Some(e.referral), Some(e.consent), Some(e.candidateStatus), Some(e.demoStatus),
      Some(e.createdAt), Some(e.updatedAt))
  }

  /** `{ ...p, [f]: v }`: set one key of a patch. */
  function WithField(p: EnquiryPatch, f: Field, v: Value): (r: EnquiryPatch)
    requires Fits(f, v)
    ensures forall g :: PatchGet(r, g) == (if g == f then Some(v) else PatchGet(p, g))
  {
    match f
    case Id => p.(id := Some(v.n))
    case Name => p.(name := Some(v.s))
    case Email => p.(email := Some(v.s))
    case Phone => p.(phone := Some(v.s))
    case CurrentLocation => p.(currentLocation := Some(v.s))
    case PackageId => p.(packageId := Some(v.on))
    case SubjectIds => p.(subjectIds := Some(v.ids))
    case TrainingMode => p.(trainingMode := Some(v.s))
    case TrainingTime => p.(trainingTime := Some(v.s))
    case StartTime => p.(startTime := Some(v.s))
    case Profession => p.(profession := Some(v.s))
    case Qualification => p.(qualification := Some(v.s))
    case Experience => p.(experience := Some(v.s))
    case Referral => p.(referral := Some(v.s))
    case Consent => p.(consent := Some(v.b))
    case CandidateStatus => p.(candidateStatus := Some(v.s))
    case DemoStatus => p.(demoStatus := Some(v.os))
    case CreatedAt => p.(createdAt := Some(v.s))
    case UpdatedAt => p.(updatedAt := Some(v.s))
  }

  /** Two enquiries that agree on every key are the same record. */
  lemma EnquiryExtensional(a: Enquiry, b: Enquiry)
    requires forall f :: Get(a, f) == Get(b, f)
    ensures a == b
  {
    ContactKeysAgree(a, b);
    TrainingKeysAgree(a, b);
    PipelineKeysAgree(a, b);
  }

  /** Agreement on every key fixes the contact and package keys. */
  lemma ContactKeysAgree(a: Enquiry, b: Enquiry)
    requires forall f :: Get(a, f) == Get(b, f)
    ensures a.id == b.id
    ensures a.name == b.name
    ensures a.email == b.email
    ensures a.phone == b.phone
    ensures a.currentLocation == b.currentLocation
    ensures a.packageId == b.packageId
    ensures a.subjectIds == b.subjectIds
  {
    assert Get(a, Id) == Get(b, Id);
    assert Get(a, Name) == Get(b, Name);
    assert Get(a, Email) == Get(b, Email);
    assert Get(a, Phone) == Get(b, Phone);
    assert Get(a, CurrentLocation) == Get(b, CurrentLocation);
    assert Get(a, PackageId) == Get(b, PackageId);
    assert Get(a, SubjectIds) == Get(b, SubjectIds);
  }

  /** Agreement on every key fixes the training and background keys. */
  lemma TrainingKeysAgree(a: Enquiry, b: Enquiry)
    requires forall f :: Get(a, f) == Get(b, f)
    ensures a.trainingMode == b.trainingMode
    ensures a.trainingTime == b.trainingTime
    ensures a.startTime == b.startTime
    ensures a.profession == b.profession
    ensures a.qualification == b.qualification
    ensures a.experience == b.experience
  {
    assert Get(a, TrainingMode) == Get(b, TrainingMode);
    assert Get(a, TrainingTime) == Get(b, TrainingTime);
    assert Get(a, StartTime) == Get(b, StartTime);
    assert Get(a, Profession) == Get(b, Profession);
    assert Get(a, Qualification) == Get(b, Qualification);
    assert Get(a, Experience) == Get(b, Experience);
  }

  /** Agreement on every key fixes the referral, consent, pipeline and timestamp keys. */
  lemma PipelineKeysAgree(a: Enquiry, b: Enquiry)
    requires forall f :: Get(a, f) == Get(b, f)
    ensures a.referral == b.referral
    ensures a.consent == b.consent
    ensures a.candidateStatus == b.candidateStatus
    ensures a.demoStatus == b.demoStatus
    ensures a.createdAt == b.createdAt
    ensures a.updatedAt == b.updatedAt
  {
    assert Get(a, Referral) == Get(b, Referral);
    assert Get(a, Consent) == Get(b, Consent);
    assert Get(a, CandidateStatus) == Get(b, CandidateStatus);
    assert Get(a, DemoStatus) == Get(b, DemoStatus);
    assert Get(a, CreatedAt) == Get(b, CreatedAt);
    assert Get(a, UpdatedAt) == Get(b, UpdatedAt);
  }

  /** Spreading an empty patch changes nothing. */
  lemma ApplyEmpty(e: Enquiry)
    ensures Apply(e, EmptyPatch) == e
  {
    EnquiryExtensional(Apply(e, EmptyPatch), e);
  }

  /** Spreading a full record over any enquiry yields that record. */
  lemma ApplyFull(e: Enquiry, x: Enquiry)
    ensures Apply(e, FullPatch(x)) == x
  {
    EnquiryExtensional(Apply(e, FullPatch(x)), x);
  }

  /** Spreading a one-key patch changes exactly that key. */
  lemma ApplyOneField(e: Enquiry, f: Field, v: Value)
    requires Fits(f, v)
    ensures var r := Apply(e, WithField(EmptyPatch, f, v));
      Get(r, f) == v && forall g :: g != f ==> Get(r, g) == Get(e, g)
  {
    var p := WithField(EmptyPatch, f, v);
    assert PatchGet(p, f) == Some(v);
    forall g | g != f ensures PatchGet(p, g).None? {
      assert PatchGet(p, g) == PatchGet(EmptyPatch, g);
    }
  }
}
