/** The enquiry list's display helpers: the package label and the subject list of a row,
    resolved against the loaded packages and subjects. */
module Contact {
  import opened Common
  import opened Types
  import Text

  /** The label for a package id no loaded package has. */
  function UnknownPackageLabel(id: int): (r: string)
    ensures |r| == 4 + |Text.IntToString(id)| && r[..4] == "ID: "
  {
    "ID: " + Text.IntToString(id)
  }

  /** getPackageName(id): null is "Others", a loaded package is `name (code)`. */
  function GetPackageName(packages: seq<Package>, id: Option<int>): (r: string)
    ensures id.None? ==> r == "Others"
    ensures id.Some? && FindPackage(packages, id.value).Some? ==>
      var p := FindPackage(packages, id.value).value;
      r == p.name + " (" + p.code + ")"
    ensures id.Some? && FindPackage(packages, id.value).None? ==> r == UnknownPackageLabel(id.value)
  {
    match id
    case None => "Others"
    case Some(n) =>
      match FindPackage(packages, n)
      case Some(p) => p.name + " (" + p.code + ")"
      case None => UnknownPackageLabel(n)
  }

  /** One entry of the subject list: the subject's name, or the id itself when unknown. */
  function SubjectLabel(subjects: seq<Subject>, id: int): (r: string)
    ensures (forall s :: s in subjects ==> s.id != id) ==> r == Text.IntToString(id)
    ensures FindSubject(subjects, id).Some? ==> r == FindSubject(subjects, id).value.name
  {
    match FindSubject(subjects, id)
    case Some(s) => s.name
    case None => Text.IntToString(id)
  }

  /** `ids.map(...)`: one entry per id, in order. */
  function SubjectLabels(subjects: seq<Subject>, ids: seq<int>): (r: seq<string>)
    ensures |r| == |ids|
    ensures forall i :: 0 <= i < |ids| ==> r[i] == SubjectLabel(subjects, ids[i])
  {
    seq(|ids|, i requires 0 <= i < |ids| => SubjectLabel(subjects, ids[i]))
  }

  /** getSubjectNames(ids): "None" for a missing or empty list, otherwise the labels joined by
      ", ". */
  function GetSubjectNames(subjects: seq<Subject>, ids: Option<seq<int>>): (r: string)
    ensures ids.None? || |ids.value| == 0 ==> r == "None"
    ensures ids.Some? && |ids.value| > 0 ==> r == Text.Join(SubjectLabels(subjects, ids.value), ", ")
    ensures ids.Some? && |ids.value| > 0 ==> SubjectLabel(subjects, ids.value[0]) <= r
  {
    if ids.None? || |ids.value| == 0 then "None"
    else Text.Join(SubjectLabels(subjects, ids.value), ", ")
  }

  // ----- Properties -----

  /** An unknown package id never reads as "Others", and distinct unknown ids read differently. */
  lemma UnknownPackageLabelsDistinct(a: int, b: int)
    requires a != b
    ensures UnknownPackageLabel(a) != UnknownPackageLabel(b)
    ensures UnknownPackageLabel(a) != "Others"
  {
    var la, lb := UnknownPackageLabel(a), UnknownPackageLabel(b);
    if la == lb {
      assert la[4..] == Text.IntToString(a);
      assert lb[4..] == Text.IntToString(b);
      Text.IntToStringInjective(a, b);
    }
    assert la[0] == 'I';
  }

  /** A known subject shows its name and an unknown one its id; so with no subjects loaded,
      distinct ids still show distinct entries. */
  lemma SubjectLabelSpec(subjects: seq<Subject>, a: int, b: int)
    ensures FindSubject(subjects, a).Some? ==> SubjectLabel(subjects, a) == FindSubject(subjects, a).value.name
    ensures (forall s :: s in subjects ==> s.id != a) ==> SubjectLabel(subjects, a) == Text.IntToString(a)
    ensures a != b ==> SubjectLabel([], a) != SubjectLabel([], b)
  {
    if a != b && SubjectLabel([], a) == SubjectLabel([], b) {
      Text.IntToStringInjective(a, b);
    }
  }

  /** Nothing is dropped: a one-subject list is exactly that subject's entry. */
  lemma SingleSubjectNames(subjects: seq<Subject>, id: int)
    ensures GetSubjectNames(subjects, Some([id])) == SubjectLabel(subjects, id)
  {
  }

  /** Each further id adds ", " and its entry at the end: every id is listed, in order. */
  lemma SubjectNamesAppend(subjects: seq<Subject>, ids: seq<int>, id: int)
    requires |ids| > 0
    ensures GetSubjectNames(subjects, Some(ids + [id]))
         == GetSubjectNames(subjects, Some(ids)) + ", " + SubjectLabel(subjects, id)
  {
    assert SubjectLabels(subjects, ids + [id]) == SubjectLabels(subjects, ids) + [SubjectLabel(subjects, id)];
    Text.JoinAppend(SubjectLabels(subjects, ids), SubjectLabel(subjects, id), ", ");
  }

  /** Two ids show both entries, in order, separated by ", ". */
  lemma TwoSubjectNames(subjects: seq<Subject>, a: int, b: int)
    ensures GetSubjectNames(subjects, Some([a, b])) == SubjectLabel(subjects, a) + ", " + SubjectLabel(subjects, b)
  {
    SubjectNamesAppend(subjects, [a], b);
    assert [a] + [b] == [a, b];
  }
}
