/** The "About this candidate" panel: a form copy of the record that a counsellor can edit field
    by field, save (handing the form to the page's update handler) or cancel, and the labels the
    panel shows for the package. */
module CandidateInfo {
  import opened Common
  import opened Types
  import Seqs
  import Text
  import CandidateDetails

  /** `packageId` as the form holds it: `None` when the key is missing (undefined), `Some(None)`
      for null ("Others"), `Some(Some(n))` for a number. */
  type PackageKey = Option<Option<int>>

  /** The label for an id no loaded package has. */
  function FallbackLabel(id: int): (r: string)
    ensures |r| == 9 + |Text.IntToString(id)|
    ensures r[..8] == "Package " && r[|r| - 1] == ' '
  {
    "Package " + Text.IntToString(id) + " "
  }

  /** getPackageName(id) over the loaded `packages`. */
  function GetPackageName(packages: seq<Package>, id: PackageKey): (r: string)
    ensures id == Some(None) ==> r == "Others"
    ensures id.None? ==> r == "-"
    ensures id.Some? && id.value.Some? && FindPackage(packages, id.value.value).Some? ==>
      r == FindPackage(packages, id.value.value).value.name
    ensures id.Some? && id.value.Some? && FindPackage(packages, id.value.value).None? ==>
      r == (if id.value.value == -1 then "Others" else FallbackLabel(id.value.value))
  {
    match id
    case None => "-"
    case Some(None) => "Others"
    case Some(Some(n)) =>
      match FindPackage(packages, n)
      case Some(p) => p.name
      case None => if n == -1 then "Others" else FallbackLabel(n)
  }

  /** The package select's value: `formData.packageId ?? -1`. */
  function SelectValue(id: PackageKey): (v: int)
    ensures id.None? || id.value.None? ==> v == -1
    ensures id.Some? && id.value.Some? ==> v == id.value.value
  {
    if id.Some? && id.value.Some? then id.value.value else -1
  }

  /** The package select's change: `Number(v) === -1 ? null : Number(v)`. */
  function PackageChoice(v: int): (r: Option<int>)
    ensures r.None? <==> v == -1
  {
    if v == -1 then None else Some(v)
  }

  /** A subject checkbox: `checked ? [...current, id] : current.filter(x => x !== id)`, with a
      missing list read as empty. */
  function CheckSubject(current: Option<seq<int>>, id: int, checked: bool): (r: seq<int>)
    ensures checked ==> r == Pick(current, []) + [id]
    ensures !checked ==> id !in r && forall y :: y != id ==> (y in r <==> y in Pick(current, []))
    ensures !checked ==> Seqs.IsSubsequence(r, Pick(current, [])) && multiset(r) == multiset(Pick(current, []))[id := 0]
  {
    var ids := Pick(current, []);
    if checked then ids + [id] else Seqs.RemoveAll(ids, id)
  }

  /** The Edit control is offered only to COUNSELLOR. */
  predicate CanEdit(role: SessionRole)
    ensures CanEdit(role) ==> role.Some? && role.value != ADMIN && role.value != HR && role.value != ACCOUNTS
  {
    role == Some(COUNSELLOR)
  }

  /** The panel's state: the record it was given, the form copy and the edit mode. */
  class CandidateInfoPanel {
    var enquiry: Enquiry
    var formData: EnquiryPatch
    var isEditing: bool

    /** The panel as first shown: the mount effect has copied the record into the form. */
    constructor (e: Enquiry)
      ensures enquiry == e && formData == FullPatch(e) && !isEditing
    {
      enquiry := e;
      formData := FullPatch(e);
      isEditing := false;
    }

    /** A new record from the page: the effect copies it into the form, whatever the mode. */
    method ReceiveEnquiry(e: Enquiry)
      modifies this
      ensures enquiry == e && formData == FullPatch(e) && isEditing == old(isEditing)
    {
      enquiry := e;
      formData := FullPatch(e);
    }

    /** handleEditClick, reachable only through the Edit control, which is rendered outside
        edit mode and only for COUNSELLOR. */
    method HandleEditClick(role: SessionRole) returns (offered: bool)
      modifies this
      ensures offered <==> !old(isEditing) && CanEdit(role)
      ensures isEditing == (old(isEditing) || offered)
      ensures enquiry == old(enquiry) && formData == old(formData)
    {
      offered := !isEditing && CanEdit(role);
      if offered {
        isEditing := true;
      }
    }

    /** handleChange(field, value): `{ ...prev, [field]: value }`. */
    method HandleChange(f: Field, v: Value)
      requires Fits(f, v)
      modifies this
      ensures formData == WithField(old(formData), f, v)
      ensures enquiry == old(enquiry) && isEditing == old(isEditing)
    {
      formData := WithField(formData, f, v);
    }

    /** The package select. */
    method HandlePackageChoice(v: int)
      modifies this
      ensures formData == WithField(old(formData), PackageId, MaybeNumV(PackageChoice(v)))
      ensures enquiry == old(enquiry) && isEditing == old(isEditing)
    {
      formData := WithField(formData, PackageId, MaybeNumV(PackageChoice(v)));
    }

    /** A subject checkbox. */
    method HandleSubjectCheckbox(id: int, checked: bool)
      modifies this
      ensures formData == WithField(old(formData), SubjectIds, IdsV(CheckSubject(old(formData.subjectIds), id, checked)))
      ensures enquiry == old(enquiry) && isEditing == old(isEditing)
    {
      formData := WithField(formData, SubjectIds, IdsV(CheckSubject(formData.subjectIds, id, checked)));
    }

    /** handleSave: hand the whole form to `onUpdate` and leave edit mode. */
    method HandleSave() returns (update: EnquiryPatch)
      modifies this
      ensures update == old(formData) && !isEditing
      ensures enquiry == old(enquiry) && formData == old(formData)
    {
      update := formData;
      isEditing := false;
    }

    /** handleCancel: restore the form from the record and leave edit mode. */
    method HandleCancel()
      modifies this
      ensures formData == FullPatch(old(enquiry)) && !isEditing
      ensures enquiry == old(enquiry)
    {
      formData := FullPatch(enquiry);
      isEditing := false;
    }
  }

  // ----- Properties -----

  /** Only COUNSELLOR may edit; ADMIN, the other roles and no role may not. */
  lemma EditGate(role: SessionRole)
    ensures CanEdit(role) <==> role.Some? && role.value == COUNSELLOR
    ensures !CanEdit(None) && !CanEdit(Some(ADMIN)) && !CanEdit(Some(ACCOUNTS)) && !CanEdit(Some(HR))
  {
  }

  /** Changing one field of the form and saving changes exactly that field of the record, when
      the form held the record before. */
  lemma ChangeOneFieldThenSave(e: Enquiry, f: Field, v: Value)
    requires Fits(f, v)
    ensures var r := Apply(e, WithField(FullPatch(e), f, v));
      Get(r, f) == v && forall g :: g != f ==> Get(r, g) == Get(e, g)
  {
  }

  /** Saving right after cancelling sends the record itself, which leaves the page's record as
      it was whether the write succeeds or fails. */
  lemma SaveAfterCancelKeepsRecord(e: Enquiry, put: Outcome)
    ensures CandidateDetails.UpdateCandidate(Some(e), Some(e), FullPatch(e), put).enquiry == Some(e)
  {
    ApplyFull(e, e);
  }

  /** Labels that do not name a loaded package: distinct unknown ids get distinct labels, and
      none of them reads like "Others" or "-". */
  lemma FallbackLabelsDistinct(a: int, b: int)
    requires a != b
    ensures FallbackLabel(a) != FallbackLabel(b)
    ensures FallbackLabel(a) != "Others" && FallbackLabel(a) != "-"
  {
    var la, lb := FallbackLabel(a), FallbackLabel(b);
    if la == lb {
      assert la[8..|la| - 1] == Text.IntToString(a);
      assert lb[8..|lb| - 1] == Text.IntToString(b);
      Text.IntToStringInjective(a, b);
    }
  }

  /** The select and its change handler agree: choosing the value the select shows stores the
      same package key back, for null and for every id other than -1. */
  lemma SelectRoundTrip(id: Option<int>)
    requires id.Some? ==> id.value != -1
    ensures PackageChoice(SelectValue(Some(id))) == id
    ensures SelectValue(None) == SelectValue(Some(None)) == -1
  {
  }

  /** Checking then unchecking a subject leaves it unselected and every other id as it was;
      unchecking an unselected subject changes nothing. */
  lemma CheckThenUncheck(current: seq<int>, id: int)
    ensures var r := CheckSubject(Some(CheckSubject(Some(current), id, true)), id, false);
      id !in r && forall y :: y != id ==> (y in r <==> y in current)
    ensures id !in current ==> CheckSubject(Some(current), id, false) == current
  {
    if id !in current {
      Seqs.RemoveAllAbsent(current, id);
    }
  }
}
